/** Structural comparison and declared-only pruning of `compare/diff.go` and `compare/normalize.go`. */
module Compare {
  import opened Options
  import opened Json
  import opened KeyOrder

  // ---- list items and scalars --------------------------------------------

  predicate HasValue(v: Json, k: string) {
    v.Obj? && k in v.fields && v.fields[k] != Null
  }

  /** The first identifying field of a list item that has a value. */
  function IdentKey(v: Json): Option<string> {
    if HasValue(v, "name") then Some("name")
    else if HasValue(v, "key") then Some("key")
    else if HasValue(v, "mountPath") then Some("mountPath")
    else if HasValue(v, "containerPort") then Some("containerPort")
    else None
  }

  function ItemName(sp: Printer, v: Json): string {
    match IdentKey(v)
    case None => ""
    case Some(k) => if HasValue(v, k) then sp(v.fields[k]) else ""
  }

  /** Whether every item of the list has a name of its own. */
  predicate Named(sp: Printer, items: seq<Json>) {
    && |items| > 0
    && (forall i :: 0 <= i < |items| ==> ItemName(sp, items[i]) != "")
    && (forall i, j :: 0 <= i < j < |items| ==> ItemName(sp, items[i]) != ItemName(sp, items[j]))
  }

  /** The position of the first item with that name, or -1. */
  function Find(sp: Printer, items: seq<Json>, n: string): (r: int)
    ensures -1 <= r < |items|
    ensures r >= 0 ==> ItemName(sp, items[r]) == n
    ensures r == -1 ==> forall i :: 0 <= i < |items| ==> ItemName(sp, items[i]) != n
  {
    FindFrom(sp, items, n, 0)
  }

  function FindFrom(sp: Printer, items: seq<Json>, n: string, i: nat): (r: int)
    requires i <= |items|
    ensures r == -1 || i <= r < |items|
    ensures r >= 0 ==> ItemName(sp, items[r]) == n
    ensures r == -1 ==> forall j :: i <= j < |items| ==> ItemName(sp, items[j]) != n
    decreases |items| - i
  {
    if i == |items| then -1
    else if ItemName(sp, items[i]) == n then i
    else FindFrom(sp, items, n, i + 1)
  }

  function ToFloat(n: Number): real {
    match n
    case Int(i) => i as real
    case Float(r) => r
  }

  predicate LooseEqual(a: Json, b: Json) {
    if a.Num? && b.Num? then ToFloat(a.n) == ToFloat(b.n) else a == b
  }

  // ---- differences -------------------------------------------------------

  datatype Seg = Key(k: string) | Name(n: string) | Index(i: nat)
  datatype ChangeType = OnlyInA | OnlyInB | Changed
  /** The values are kept whole; the original renders and truncates them for display. */
  datatype Change = Change(pos: seq<Seg>, kind: ChangeType, a: Option<Json>, b: Option<Json>)

  function Under(seg: Seg, c: Change): Change {
    c.(pos := [seg] + c.pos)
  }

  function AllUnder(seg: Seg, cs: seq<Change>): (r: seq<Change>)
    ensures |r| == |cs|
    ensures forall i {:trigger r[i]} :: 0 <= i < |cs| ==> r[i] == Under(seg, cs[i])
  {
    seq(|cs|, i requires 0 <= i < |cs| => Under(seg, cs[i]))
  }

  /** Null stands for a missing side as well. */
  function DiffLeaf(a: Json, b: Json): seq<Change>
    requires a == Null || b == Null
  {
    if a == Null && b == Null then []
    else if a == Null then [Change([], OnlyInB, None, Some(b))]
    else [Change([], OnlyInA, Some(a), None)]
  }

  ghost function Diff(sp: Printer, a: Json, b: Json): seq<Change>
    decreases a, 1
  {
    if a == Null || b == Null then DiffLeaf(a, b)
    else if a.Obj? && b.Obj? then
      DiffKeys(sp, a, b, OrderedKeys(a.fields.Keys + b.fields.Keys))
    else if a.List? && b.List? then
      if Named(sp, a.items) && Named(sp, b.items)
      then DiffNames(sp, a, b, AllNames(sp, a.items, b.items))
      else DiffItems(sp, a, b, 0)
    else if LooseEqual(a, b) then [] else [Change([], Changed, Some(a), Some(b))]
  }

  ghost function DiffKeys(sp: Printer, a: Json, b: Json, keys: seq<string>): seq<Change>
    requires a.Obj? && b.Obj?
    decreases a, 0, |keys|
  {
    if |keys| == 0 then [] else AllUnder(Key(keys[0]), DiffKey(sp, a, b, keys[0])) + DiffKeys(sp, a, b, keys[1..])
  }

  ghost function DiffKey(sp: Printer, a: Json, b: Json, k: string): seq<Change>
    requires a.Obj? && b.Obj?
    decreases a, 0, 0
  {
    if k in a.fields && k in b.fields then Diff(sp, a.fields[k], b.fields[k])
    else if k in a.fields then DiffLeaf(a.fields[k], Null)
    else if k in b.fields then DiffLeaf(Null, b.fields[k])
    else []
  }

  ghost function DiffNames(sp: Printer, a: Json, b: Json, names: seq<string>): seq<Change>
    requires a.List? && b.List?
    decreases a, 0, |names|
  {
    if |names| == 0 then [] else AllUnder(Name(names[0]), DiffName(sp, a, b, names[0])) + DiffNames(sp, a, b, names[1..])
  }

  ghost function DiffName(sp: Printer, a: Json, b: Json, n: string): seq<Change>
    requires a.List? && b.List?
    decreases a, 0, 0
  {
    var i, j := Find(sp, a.items, n), Find(sp, b.items, n);
    if i >= 0 && j >= 0 then Diff(sp, a.items[i], b.items[j])
    else if i >= 0 then DiffLeaf(a.items[i], Null)
    else if j >= 0 then DiffLeaf(Null, b.items[j])
    else []
  }

  ghost function DiffItems(sp: Printer, a: Json, b: Json, i: nat): seq<Change>
    requires a.List? && b.List?
    decreases a, 0, |a.items| + |b.items| - i
  {
    if i >= |a.items| && i >= |b.items| then []
    else AllUnder(Index(i), DiffItem(sp, a, b, i)) + DiffItems(sp, a, b, i + 1)
  }

  ghost function DiffItem(sp: Printer, a: Json, b: Json, i: nat): seq<Change>
    requires a.List? && b.List?
    decreases a, 0, 0
  {
    if i < |a.items| && i < |b.items| then Diff(sp, a.items[i], b.items[i])
    else if i < |a.items| then DiffLeaf(a.items[i], Null)
    else if i < |b.items| then DiffLeaf(Null, b.items[i])
    else []
  }

  function KeyRank(k: string): int {
    if k == "apiVersion" then 0
    else if k == "kind" then 1
    else if k == "metadata" then 2
    else if k == "name" then 3
    else if k == "status" then 9
    else 5
  }

  ghost function OrderedKeys(keys: set<string>): seq<string> {
    Enumerate(KeyRank, keys)
  }

  /** The names of the first list in order, then those only the second has. */
  function AllNames(sp: Printer, xs: seq<Json>, ys: seq<Json>): seq<string> {
    NamesOf(sp, xs) + NewNames(sp, xs, ys)
  }

  function NamesOf(sp: Printer, xs: seq<Json>): (r: seq<string>)
    ensures |r| == |xs|
    ensures forall i :: 0 <= i < |xs| ==> r[i] == ItemName(sp, xs[i])
  {
    seq(|xs|, i requires 0 <= i < |xs| => ItemName(sp, xs[i]))
  }

  function NewNames(sp: Printer, xs: seq<Json>, ys: seq<Json>): seq<string> {
    if |ys| == 0 then []
    else
      var rest := NewNames(sp, xs, ys[1..]);
      if Find(sp, xs, ItemName(sp, ys[0])) >= 0 then rest else [ItemName(sp, ys[0])] + rest
  }

  // ---- pruning -----------------------------------------------------------

  /** The item of the declared list that an item of the live list is pruned against, or -1. */
  function Partner(sp: Printer, live: seq<Json>, declared: seq<Json>, i: nat): (j: int)
    requires i < |live|
    ensures -1 <= j < |declared|
  {
    if Named(sp, declared) && Named(sp, live) then Find(sp, declared, ItemName(sp, live[i]))
    else if i < |declared| then i else -1
  }

  /** `live` restricted to the map keys of `declared`; extra list items stay. */
  function Prune(sp: Printer, live: Json, declared: Json): Json
    decreases declared
  {
    if declared.Obj? && live.Obj? then
      Obj(map k | k in declared.fields && k in live.fields :: Prune(sp, live.fields[k], declared.fields[k]))
    else if declared.List? && live.List? then
      List(seq(|live.items|, i requires 0 <= i < |live.items| =>
        var j := Partner(sp, live.items, declared.items, i);
        if j >= 0 then Prune(sp, live.items[i], declared.items[j]) else live.items[i]))
    else live
  }
}
