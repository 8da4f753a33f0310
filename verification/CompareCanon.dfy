/** What an empty comparison means: both documents have the same canonical form. */
module CompareCanon {
  import opened Options
  import opened Json
  import opened KeyOrder
  import opened Compare

  /** Named lists as maps, numbers by value, and nothing where a map has null. */
  datatype Canon =
    | CNull
    | CBool(b: bool)
    | CNum(r: real)
    | CStr(s: string)
    | CSeq(items: seq<Canon>)
    | CNamed(named: map<string, Canon>)
    | CObj(fields: map<string, Canon>)

  function Canonical(sp: Printer, j: Json): Canon {
    match j
    case Null => CNull
    case Bool(b) => CBool(b)
    case Num(n) => CNum(ToFloat(n))
    case Str(s) => CStr(s)
    case List(xs) =>
      if Named(sp, xs)
      then CNamed(map n | n in NamesOf(sp, xs) && Find(sp, xs, n) >= 0 :: Canonical(sp, xs[Find(sp, xs, n)]))
      else CSeq(seq(|xs|, i requires 0 <= i < |xs| => Canonical(sp, xs[i])))
    case Obj(f) => CObj(map k | k in f && f[k] != Null :: Canonical(sp, f[k]))
  }

  /** A list item is identified by a string or an integer, if at all. */
  predicate PlainIdentity(v: Json) {
    IdentKey(v).Some? && HasValue(v, IdentKey(v).value) ==>
      var id := v.fields[IdentKey(v).value]; id.Str? || (id.Num? && id.n.Int?)
  }

  /** No list item is null, and list items have plain identities only. */
  ghost predicate Clean(j: Json) {
    match j
    case List(xs) => forall i :: 0 <= i < |xs| ==> xs[i] != Null && Clean(xs[i]) && PlainIdentity(xs[i])
    case Obj(f) => forall k :: k in f ==> Clean(f[k])
    case _ => true
  }

  // ---- items with one canonical form have one name -------------------------

  lemma SameValue(sp: Printer, a: Json, b: Json, k: string)
    requires Canonical(sp, a) == Canonical(sp, b) && Clean(a) && Clean(b)
    ensures HasValue(a, k) == HasValue(b, k)
    ensures HasValue(a, k) ==> Canonical(sp, a.fields[k]) == Canonical(sp, b.fields[k])
  {
    if a.Obj? && b.Obj? {
      FieldEntry(sp, a, k);
      FieldEntry(sp, b, k);
    }
  }

  lemma SameName(sp: Printer, a: Json, b: Json)
    requires Canonical(sp, a) == Canonical(sp, b) && Clean(a) && Clean(b)
    requires PlainIdentity(a) && PlainIdentity(b)
    ensures ItemName(sp, a) == ItemName(sp, b)
  {
    SameValue(sp, a, b, "name");
    SameValue(sp, a, b, "key");
    SameValue(sp, a, b, "mountPath");
    SameValue(sp, a, b, "containerPort");
    assert IdentKey(a) == IdentKey(b);
    match IdentKey(a)
    case None =>
    case Some(k) =>
      assert Canonical(sp, a.fields[k]) == Canonical(sp, b.fields[k]);
  }

  // ---- emptiness, part by part ---------------------------------------------

  lemma {:induction false} KeysEmpty(sp: Printer, a: Json, b: Json, keys: seq<string>)
    requires a.Obj? && b.Obj?
    ensures DiffKeys(sp, a, b, keys) == [] <==> forall k :: k in keys ==> DiffKey(sp, a, b, k) == []
    decreases |keys|
  {
    if |keys| > 0 {
      KeysEmpty(sp, a, b, keys[1..]);
      assert |DiffKeys(sp, a, b, keys)| == |DiffKey(sp, a, b, keys[0])| + |DiffKeys(sp, a, b, keys[1..])|;
      assert keys == [keys[0]] + keys[1..];
    }
  }

  lemma {:induction false} NamesEmpty(sp: Printer, a: Json, b: Json, names: seq<string>)
    requires a.List? && b.List?
    ensures DiffNames(sp, a, b, names) == [] <==> forall n :: n in names ==> DiffName(sp, a, b, n) == []
    decreases |names|
  {
    if |names| > 0 {
      NamesEmpty(sp, a, b, names[1..]);
      assert |DiffNames(sp, a, b, names)| == |DiffName(sp, a, b, names[0])| + |DiffNames(sp, a, b, names[1..])|;
      assert names == [names[0]] + names[1..];
    }
  }

  lemma {:induction false} ItemsEmpty(sp: Printer, a: Json, b: Json, i: nat)
    requires a.List? && b.List?
    ensures DiffItems(sp, a, b, i) == [] <==>
            forall j: nat {:trigger DiffItem(sp, a, b, j)} :: i <= j ==> DiffItem(sp, a, b, j) == []
    decreases |a.items| + |b.items| - i
  {
    if i < |a.items| || i < |b.items| {
      ItemsEmpty(sp, a, b, i + 1);
      assert |DiffItems(sp, a, b, i)| == |DiffItem(sp, a, b, i)| + |DiffItems(sp, a, b, i + 1)|;
      if DiffItems(sp, a, b, i) == [] {
        forall j: nat | i <= j ensures DiffItem(sp, a, b, j) == [] {
          if j == i {
            assert |DiffItem(sp, a, b, i)| == 0;
          }
        }
      }
    } else {
      forall j: nat | i <= j ensures DiffItem(sp, a, b, j) == [] {
      }
    }
  }

  /** Every name of either list is compared. */
  lemma {:induction false} AllNamesCover(sp: Printer, xs: seq<Json>, ys: seq<Json>, n: string)
    requires Find(sp, xs, n) >= 0 || Find(sp, ys, n) >= 0
    ensures n in AllNames(sp, xs, ys)
    decreases |ys|
  {
    if Find(sp, xs, n) >= 0 {
      assert NamesOf(sp, xs)[Find(sp, xs, n)] == n;
    } else if ItemName(sp, ys[0]) != n {
      var j := Find(sp, ys, n);
      assert ItemName(sp, ys[1..][j - 1]) == n;
      AllNamesCover(sp, xs, ys[1..], n);
    }
  }

  // ---- the theorem ---------------------------------------------------------

  lemma {:induction false} EmptyIffSameCanon(sp: Printer, a: Json, b: Json)
    requires Clean(a) && Clean(b)
    ensures Diff(sp, a, b) == [] <==> Canonical(sp, a) == Canonical(sp, b)
    decreases a, 2
  {
    if a.Obj? && b.Obj? {
      ObjectsEmpty(sp, a, b);
    } else if a.List? && b.List? {
      if Named(sp, a.items) && Named(sp, b.items) {
        NamedEmpty(sp, a, b);
      } else {
        ListsEmpty(sp, a, b);
      }
    }
  }

  lemma {:induction false} ObjectsEmpty(sp: Printer, a: Json, b: Json)
    requires a.Obj? && b.Obj? && Clean(a) && Clean(b)
    ensures Diff(sp, a, b) == [] <==> Canonical(sp, a) == Canonical(sp, b)
    decreases a, 1
  {
    var all := a.fields.Keys + b.fields.Keys;
    KeysEmpty(sp, a, b, OrderedKeys(all));
    EnumerateIsExact(KeyRank, all);
    forall k ensures KeyAgrees(sp, a, b, k) <==> DiffKey(sp, a, b, k) == [] {
      KeyEmpty(sp, a, b, k);
    }
    if Diff(sp, a, b) == [] {
      forall k ensures KeyAgrees(sp, a, b, k) {
        assert k in all ==> DiffKey(sp, a, b, k) == [];
      }
      AgreeingKeys(sp, a, b);
    } else if Canonical(sp, a) == Canonical(sp, b) {
      var k :| k in OrderedKeys(all) && DiffKey(sp, a, b, k) != [];
      FieldEntry(sp, a, k);
      FieldEntry(sp, b, k);
    }
  }

  /** The two objects have the same thing, or nothing or null, under a key. */
  ghost predicate KeyAgrees(sp: Printer, a: Json, b: Json, k: string)
    requires a.Obj? && b.Obj?
  {
    if HasValue(a, k) && HasValue(b, k) then Canonical(sp, a.fields[k]) == Canonical(sp, b.fields[k])
    else !HasValue(a, k) && !HasValue(b, k)
  }

  lemma {:induction false} KeyEmpty(sp: Printer, a: Json, b: Json, k: string)
    requires a.Obj? && b.Obj? && Clean(a) && Clean(b)
    ensures KeyAgrees(sp, a, b, k) <==> DiffKey(sp, a, b, k) == []
    decreases a, 0
  {
    if k in a.fields && k in b.fields {
      EmptyIffSameCanon(sp, a.fields[k], b.fields[k]);
    }
  }

  lemma AgreeingKeys(sp: Printer, a: Json, b: Json)
    requires a.Obj? && b.Obj? && forall k :: KeyAgrees(sp, a, b, k)
    ensures Canonical(sp, a) == Canonical(sp, b)
  {
    var ca, cb := Canonical(sp, a).fields, Canonical(sp, b).fields;
    forall k
      ensures k in ca <==> k in cb
      ensures k in ca ==> ca[k] == cb[k]
    {
      FieldEntry(sp, a, k);
      FieldEntry(sp, b, k);
      assert KeyAgrees(sp, a, b, k);
    }
    assert ca == cb;
  }

  lemma FieldEntry(sp: Printer, a: Json, k: string)
    requires a.Obj?
    ensures k in Canonical(sp, a).fields <==> HasValue(a, k)
    ensures HasValue(a, k) ==> Canonical(sp, a).fields[k] == Canonical(sp, a.fields[k])
  {
  }

  lemma {:induction false} NamedEmpty(sp: Printer, a: Json, b: Json)
    requires a.List? && b.List? && Clean(a) && Clean(b)
    requires Named(sp, a.items) && Named(sp, b.items)
    ensures Diff(sp, a, b) == [] <==> Canonical(sp, a) == Canonical(sp, b)
    decreases a, 1
  {
    var names := AllNames(sp, a.items, b.items);
    NamesEmpty(sp, a, b, names);
    forall n ensures NameAgrees(sp, a, b, n) <==> DiffName(sp, a, b, n) == [] {
      NameEmpty(sp, a, b, n);
    }
    if Diff(sp, a, b) == [] {
      forall n ensures NameAgrees(sp, a, b, n) {
        if n !in names {
          NotCompared(sp, a, b, n);
        }
      }
      AgreeingNames(sp, a, b);
    } else if Canonical(sp, a) == Canonical(sp, b) {
      var n :| n in names && DiffName(sp, a, b, n) != [];
      NamedEntry(sp, a.items, n);
      NamedEntry(sp, b.items, n);
    }
  }

  /** The two lists have the same thing, or nothing, under a name. */
  ghost predicate NameAgrees(sp: Printer, a: Json, b: Json, n: string)
    requires a.List? && b.List?
  {
    var i, j := Find(sp, a.items, n), Find(sp, b.items, n);
    if i >= 0 && j >= 0 then Canonical(sp, a.items[i]) == Canonical(sp, b.items[j]) else i < 0 && j < 0
  }

  lemma {:induction false} NameEmpty(sp: Printer, a: Json, b: Json, n: string)
    requires a.List? && b.List? && Clean(a) && Clean(b)
    ensures NameAgrees(sp, a, b, n) <==> DiffName(sp, a, b, n) == []
    decreases a, 0
  {
    var i, j := Find(sp, a.items, n), Find(sp, b.items, n);
    if i >= 0 && j >= 0 {
      EmptyIffSameCanon(sp, a.items[i], b.items[j]);
    }
  }

  lemma NotCompared(sp: Printer, a: Json, b: Json, n: string)
    requires a.List? && b.List? && n !in AllNames(sp, a.items, b.items)
    ensures NameAgrees(sp, a, b, n)
  {
    if Find(sp, a.items, n) >= 0 || Find(sp, b.items, n) >= 0 {
      AllNamesCover(sp, a.items, b.items, n);
    }
  }

  lemma AgreeingNames(sp: Printer, a: Json, b: Json)
    requires a.List? && b.List? && Named(sp, a.items) && Named(sp, b.items)
    requires forall n :: NameAgrees(sp, a, b, n)
    ensures Canonical(sp, a) == Canonical(sp, b)
  {
    var ca, cb := Canonical(sp, a).named, Canonical(sp, b).named;
    forall n
      ensures n in ca <==> n in cb
      ensures n in ca ==> ca[n] == cb[n]
    {
      NamedEntry(sp, a.items, n);
      NamedEntry(sp, b.items, n);
      assert NameAgrees(sp, a, b, n);
    }
    assert ca == cb;
  }

  lemma NamedEntry(sp: Printer, xs: seq<Json>, n: string)
    requires Named(sp, xs)
    ensures n in Canonical(sp, List(xs)).named <==> Find(sp, xs, n) >= 0
    ensures Find(sp, xs, n) >= 0 ==> Canonical(sp, List(xs)).named[n] == Canonical(sp, xs[Find(sp, xs, n)])
  {
    if Find(sp, xs, n) >= 0 {
      assert NamesOf(sp, xs)[Find(sp, xs, n)] == n;
    }
  }

  lemma {:induction false} ListsEmpty(sp: Printer, a: Json, b: Json)
    requires a.List? && b.List? && Clean(a) && Clean(b)
    requires !(Named(sp, a.items) && Named(sp, b.items))
    ensures Diff(sp, a, b) == [] <==> Canonical(sp, a) == Canonical(sp, b)
    decreases a, 1
  {
    ItemsEmpty(sp, a, b, 0);
    forall i: nat ensures ItemAgrees(sp, a, b, i) <==> DiffItem(sp, a, b, i) == [] {
      if i < |a.items| && i < |b.items| {
        EmptyIffSameCanon(sp, a.items[i], b.items[i]);
      }
    }
    if Diff(sp, a, b) == [] {
      forall i: nat ensures ItemAgrees(sp, a, b, i) {
        assert DiffItem(sp, a, b, i) == [];
      }
      AgreeingItems(sp, a, b);
    } else if Canonical(sp, a) == Canonical(sp, b) {
      UnnamedSame(sp, a, b);
      var i: nat :| DiffItem(sp, a, b, i) != [];
      assert ItemAgrees(sp, a, b, i);
    }
  }

  /** Both lists have an item at the place, with one canonical form, or neither has. */
  ghost predicate ItemAgrees(sp: Printer, a: Json, b: Json, i: nat)
    requires a.List? && b.List?
  {
    && (i < |a.items| <==> i < |b.items|)
    && (i < |a.items| && i < |b.items| ==> Canonical(sp, a.items[i]) == Canonical(sp, b.items[i]))
  }

  lemma AgreeingItems(sp: Printer, a: Json, b: Json)
    requires a.List? && b.List? && Clean(a) && Clean(b)
    requires !(Named(sp, a.items) && Named(sp, b.items))
    requires forall i: nat :: ItemAgrees(sp, a, b, i)
    ensures Canonical(sp, a) == Canonical(sp, b)
  {
    assert ItemAgrees(sp, a, b, |a.items|) && ItemAgrees(sp, a, b, |b.items|);
    forall i | 0 <= i < |a.items| ensures ItemName(sp, a.items[i]) == ItemName(sp, b.items[i]) {
      assert ItemAgrees(sp, a, b, i);
      SameName(sp, a.items[i], b.items[i]);
    }
    assert !Named(sp, a.items) && !Named(sp, b.items);
    forall i | 0 <= i < |a.items| ensures Canonical(sp, a).items[i] == Canonical(sp, b).items[i] {
      assert ItemAgrees(sp, a, b, i);
    }
    assert Canonical(sp, a).items == Canonical(sp, b).items;
  }

  lemma UnnamedSame(sp: Printer, a: Json, b: Json)
    requires a.List? && b.List? && Canonical(sp, a) == Canonical(sp, b)
    requires !(Named(sp, a.items) && Named(sp, b.items))
    ensures |a.items| == |b.items|
    ensures forall i :: 0 <= i < |a.items| ==> Canonical(sp, a.items[i]) == Canonical(sp, b.items[i])
  {
    assert Canonical(sp, a).CSeq? && Canonical(sp, b).CSeq?;
    forall i | 0 <= i < |a.items|
      ensures Canonical(sp, a.items[i]) == Canonical(sp, b.items[i])
    {
      assert Canonical(sp, a).items[i] == Canonical(sp, b).items[i];
    }
  }

  // ---- with null list items there is no canonical form ---------------------

  lemma TwoItems(sp: Printer, x: Json, y: Json)
    requires Clean(x) && Clean(y) && PlainIdentity(x) && PlainIdentity(y)
    requires ItemName(sp, x) != ItemName(sp, y)
    ensures Diff(sp, x, x) == [] && Diff(sp, y, y) == [] && Diff(sp, x, y) != []
  {
    EmptyIffSameCanon(sp, x, x);
    EmptyIffSameCanon(sp, y, y);
    EmptyIffSameCanon(sp, x, y);
    if Canonical(sp, x) == Canonical(sp, y) {
      SameName(sp, x, y);
    }
  }

  lemma NamedReorder(sp: Printer, x: Json, y: Json)
    requires ItemName(sp, x) != ItemName(sp, y) && ItemName(sp, x) != "" && ItemName(sp, y) != ""
    requires Diff(sp, x, x) == [] && Diff(sp, y, y) == []
    ensures Diff(sp, List([x, y]), List([y, x])) == []
  {
    var p, q := List([x, y]), List([y, x]);
    assert Named(sp, p.items) && Named(sp, q.items);
    var names := AllNames(sp, p.items, q.items);
    NamesEmpty(sp, p, q, names);
    forall n ensures DiffName(sp, p, q, n) == [] {
      PairName(sp, x, y, n);
      PairName(sp, y, x, n);
    }
  }

  lemma PairName(sp: Printer, x: Json, y: Json, n: string)
    ensures Find(sp, [x, y], n) == if ItemName(sp, x) == n then 0 else if ItemName(sp, y) == n then 1 else -1
  {
    assert [x, y][0] == x && [x, y][1] == y;
  }

  /**
   For any two items with names of their own: [x, y] equals [y, x] by name, and
   [y, x] equals [y, x, null] by place, but [x, y] and [y, x, null] differ.
   */
  lemma NullsBreakTransitivity(sp: Printer, x: Json, y: Json)
    requires Clean(x) && Clean(y) && PlainIdentity(x) && PlainIdentity(y)
    requires ItemName(sp, x) != ItemName(sp, y) && ItemName(sp, x) != "" && ItemName(sp, y) != ""
    ensures Diff(sp, List([x, y]), List([y, x])) == []
    ensures Diff(sp, List([y, x]), List([y, x, Null])) == []
    ensures Diff(sp, List([x, y]), List([y, x, Null])) != []
  {
    TwoItems(sp, x, y);
    NamedReorder(sp, x, y);
    var p, q, r := List([x, y]), List([y, x]), List([y, x, Null]);
    assert ItemName(sp, r.items[2]) == "";
    ItemsEmpty(sp, q, r, 0);
    assert DiffItem(sp, q, r, 0) == [] && DiffItem(sp, q, r, 1) == [] && DiffItem(sp, q, r, 2) == [];
    ItemsEmpty(sp, p, r, 0);
    assert DiffItem(sp, p, r, 0) == Diff(sp, x, y);
  }
}
