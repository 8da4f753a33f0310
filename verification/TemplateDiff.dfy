/** Flattened pod templates and their diffs, after `changes/diff.go`. */
module TemplateDiff {
  import opened Options
  import opened Json
  import opened Strings
  import opened KeyOrder
  import ComparePaths

  // ---- flattening ----------------------------------------------------------

  type Leaf = (string, string)
  type Flat = map<string, string>

  function ItemKey(item: Json, i: nat): string {
    if item.Obj? && "name" in item.fields && item.fields["name"].Str? && item.fields["name"].s != ""
    then item.fields["name"].s else ComparePaths.Itoa(i)
  }

  function FieldPath(prefix: string, k: string): string {
    if prefix == "" then k else prefix + "." + k
  }

  function ItemPath(prefix: string, item: Json, i: nat): string {
    prefix + "[" + ItemKey(item, i) + "]"
  }

  /** The keys of a map, each once. */
  ghost predicate IsOrder(order: seq<string>, keys: set<string>) {
    && (forall i, j :: 0 <= i < j < |order| ==> order[i] != order[j])
    && (forall k :: k in order <==> k in keys)
  }

  /**
   What flattening can make of a map of paths; `marshal` writes numbers and
   booleans. The keys of every object are visited in some order, the items of a
   list in theirs, and whatever is written on a path replaces what was there.
   */
  ghost predicate Flattens(marshal: Printer, prefix: string, v: Json, before: Flat, after: Flat)
    decreases v, 1, 0
  {
    match v
    case Obj(fields) =>
      if fields == map[] then after == if prefix != "" then before[prefix := "{}"] else before
      else exists order :: IsOrder(order, fields.Keys) && FieldsFlatten(marshal, prefix, v, order, before, after)
    case List(items) =>
      if items == [] then after == before[prefix := "[]"]
      else ItemsFlatten(marshal, prefix, v, |items|, before, after)
    case Null => after == before[prefix := "null"]
    case Str(s) => after == before[prefix := s]
    case _ => after == before[prefix := marshal(v)]
  }

  ghost predicate FieldsFlatten(marshal: Printer, prefix: string, v: Json, order: seq<string>, before: Flat, after: Flat)
    requires v.Obj? && forall k :: k in order ==> k in v.fields
    decreases v, 0, |order|
  {
    if order == [] then after == before
    else
      var init, k := order[..|order| - 1], order[|order| - 1];
      exists mid :: FieldsFlatten(marshal, prefix, v, init, before, mid)
                    && Flattens(marshal, FieldPath(prefix, k), v.fields[k], mid, after)
  }

  ghost predicate ItemsFlatten(marshal: Printer, prefix: string, v: Json, n: nat, before: Flat, after: Flat)
    requires v.List? && n <= |v.items|
    decreases v, 0, n
  {
    if n == 0 then after == before
    else exists mid :: ItemsFlatten(marshal, prefix, v, n - 1, before, mid) && LastFlattens(marshal, prefix, v, n, mid, after)
  }

  ghost predicate LastFlattens(marshal: Printer, prefix: string, v: Json, n: nat, before: Flat, after: Flat)
    requires v.List? && 0 < n <= |v.items|
    decreases v, 0, 0
  {
    Flattens(marshal, ItemPath(prefix, v.items[n - 1], n - 1), v.items[n - 1], before, after)
  }

  class FlatMap {
    var m: Flat

    constructor ()
      ensures m == map[]
    {
      m := map[];
    }

    method Put(path: string, text: string)
      modifies this
      ensures m == old(m)[path := text]
    {
      m := m[path := text];
    }

    /** Map keys come in no particular order. */
    method Flatten(marshal: Printer, prefix: string, v: Json)
      modifies this
      ensures Flattens(marshal, prefix, v, old(m), m)
      decreases v, 1, 0
    {
      match v {
        case Obj(fields) =>
          if fields == map[] {
            if prefix != "" {
              Put(prefix, "{}");
            }
          } else {
            FlattenFields(marshal, prefix, v);
          }
        case List(items) =>
          if items == [] {
            Put(prefix, "[]");
          } else {
            FlattenItems(marshal, prefix, v);
          }
        case Null => Put(prefix, "null");
        case Str(s) => Put(prefix, s);
        case Bool(_) => Put(prefix, marshal(v));
        case Num(_) => Put(prefix, marshal(v));
      }
    }

    method FlattenFields(marshal: Printer, prefix: string, v: Json)
      requires v.Obj?
      modifies this
      ensures exists order :: IsOrder(order, v.fields.Keys) && FieldsFlatten(marshal, prefix, v, order, old(m), m)
      decreases v, 0, 1
    {
      var todo := v.fields.Keys;
      ghost var done: seq<string> := [];
      while todo != {}
        invariant todo <= v.fields.Keys && IsOrder(done, v.fields.Keys - todo)
        invariant FieldsFlatten(marshal, prefix, v, done, old(m), m)
        decreases |todo|
      {
        var k :| k in todo;
        ghost var mid := m;
        Flatten(marshal, FieldPath(prefix, k), v.fields[k]);
        FieldsNext(marshal, prefix, v, done, k, old(m), mid, m);
        OrderNext(done, v.fields.Keys, todo, k);
        done, todo := done + [k], todo - {k};
      }
    }

    method FlattenItems(marshal: Printer, prefix: string, v: Json)
      requires v.List?
      modifies this
      ensures ItemsFlatten(marshal, prefix, v, |v.items|, old(m), m)
      decreases v, 0, 1
    {
      for i := 0 to |v.items|
        invariant ItemsFlatten(marshal, prefix, v, i, old(m), m)
      {
        ghost var mid := m;
        Flatten(marshal, ItemPath(prefix, v.items[i], i), v.items[i]);
        assert LastFlattens(marshal, prefix, v, i + 1, mid, m);
      }
    }
  }

  lemma FieldsNext(marshal: Printer, prefix: string, v: Json, done: seq<string>, k: string, before: Flat, mid: Flat, after: Flat)
    requires v.Obj? && k in v.fields && forall l :: l in done ==> l in v.fields
    requires FieldsFlatten(marshal, prefix, v, done, before, mid)
    requires Flattens(marshal, FieldPath(prefix, k), v.fields[k], mid, after)
    ensures FieldsFlatten(marshal, prefix, v, done + [k], before, after)
  {
    assert (done + [k])[..|done|] == done;
  }

  lemma OrderNext(done: seq<string>, keys: set<string>, todo: set<string>, k: string)
    requires IsOrder(done, keys - todo) && k in todo && todo <= keys
    ensures IsOrder(done + [k], keys - (todo - {k}))
  {
  }

  // ---- what stays on a path ------------------------------------------------

  ghost predicate HasPath(leaves: set<Leaf>, p: string) {
    exists l :: l in leaves && l.0 == p
  }

  /** The later leaves and those of the earlier ones whose paths are still free. */
  ghost function Over(a: set<Leaf>, b: set<Leaf>): set<Leaf> {
    b + set l | l in a && !HasPath(b, l.0)
  }

  /** The texts that can stay on each path: a later item of a list replaces an earlier one, but keys come in any order. */
  ghost function Leaves(marshal: Printer, prefix: string, v: Json): set<Leaf>
    decreases v, 1, 0
  {
    match v
    case Obj(fields) =>
      if fields == map[] then (if prefix != "" then {(prefix, "{}")} else {})
      else FieldLeaves(marshal, prefix, v, fields.Keys)
    case List(items) => if items == [] then {(prefix, "[]")} else ItemLeaves(marshal, prefix, v, |items|)
    case Null => {(prefix, "null")}
    case Str(s) => {(prefix, s)}
    case _ => {(prefix, marshal(v))}
  }

  ghost function FieldLeaves(marshal: Printer, prefix: string, v: Json, keys: set<string>): set<Leaf>
    requires v.Obj? && keys <= v.fields.Keys
    decreases v, 0, 0
  {
    set k, l | k in keys && l in Leaves(marshal, FieldPath(prefix, k), v.fields[k]) :: l
  }

  ghost function ItemLeaves(marshal: Printer, prefix: string, v: Json, n: nat): set<Leaf>
    requires v.List? && n <= |v.items|
    decreases v, 0, n
  {
    if n == 0 then {}
    else Over(ItemLeaves(marshal, prefix, v, n - 1), Leaves(marshal, ItemPath(prefix, v.items[n - 1], n - 1), v.items[n - 1]))
  }

  /** Each leaf's path is written with the text of some leaf of that path, and no other path is touched. */
  ghost predicate Writes(leaves: set<Leaf>, before: Flat, after: Flat) {
    && (forall l :: l in leaves ==> l.0 in after)
    && (forall p :: p in before ==> p in after)
    && (forall p :: p in after ==> (p, after[p]) in leaves || (!HasPath(leaves, p) && p in before && after[p] == before[p]))
  }

  lemma FieldLeavesNext(marshal: Printer, prefix: string, v: Json, done: set<string>, k: string)
    requires v.Obj? && done <= v.fields.Keys && k in v.fields
    ensures FieldLeaves(marshal, prefix, v, done + {k})
         == FieldLeaves(marshal, prefix, v, done) + Leaves(marshal, FieldPath(prefix, k), v.fields[k])
  {
  }

  lemma WritesThen(a: set<Leaf>, b: set<Leaf>, before: Flat, mid: Flat, after: Flat)
    requires Writes(a, before, mid) && Writes(b, mid, after)
    ensures Writes(a + b, before, after) && Writes(Over(a, b), before, after)
  {
    forall p ensures HasPath(Over(a, b), p) <==> HasPath(a, p) || HasPath(b, p) {
      OverPaths(a, b, p);
    }
    forall l | l in Over(a, b) ensures l.0 in after {
      assert l in a || l in b;
    }
    forall p | p in after
      ensures (p, after[p]) in Over(a, b) || (!HasPath(a, p) && !HasPath(b, p) && p in before && after[p] == before[p]) {
    }
  }

  lemma OverPaths(a: set<Leaf>, b: set<Leaf>, p: string)
    ensures HasPath(Over(a, b), p) <==> HasPath(a, p) || HasPath(b, p)
  {
    if l :| l in a && l.0 == p {
      assert l in Over(a, b) || HasPath(b, p);
    }
    if l :| l in b && l.0 == p {
      assert l in Over(a, b);
    }
  }

  /** Whatever the order, each path ends with one of its leaves. */
  lemma {:induction false} FlattensWrites(marshal: Printer, prefix: string, v: Json, before: Flat, after: Flat)
    requires Flattens(marshal, prefix, v, before, after)
    ensures Writes(Leaves(marshal, prefix, v), before, after)
    decreases v, 1, 0
  {
    if v.Obj? && v.fields != map[] {
      var order :| IsOrder(order, v.fields.Keys) && FieldsFlatten(marshal, prefix, v, order, before, after);
      FieldsWrite(marshal, prefix, v, order, before, after);
      assert Keys(order) == v.fields.Keys;
    } else if v.List? && v.items != [] {
      ItemsWrite(marshal, prefix, v, |v.items|, before, after);
    }
  }

  lemma {:induction false} FieldsWrite(marshal: Printer, prefix: string, v: Json, order: seq<string>, before: Flat, after: Flat)
    requires v.Obj? && (forall k :: k in order ==> k in v.fields)
    requires FieldsFlatten(marshal, prefix, v, order, before, after)
    ensures Writes(FieldLeaves(marshal, prefix, v, Keys(order)), before, after)
    decreases v, 0, |order|
  {
    if order != [] {
      var init, k := order[..|order| - 1], order[|order| - 1];
      var mid :| FieldsFlatten(marshal, prefix, v, init, before, mid)
                 && Flattens(marshal, FieldPath(prefix, k), v.fields[k], mid, after);
      FieldsWrite(marshal, prefix, v, init, before, mid);
      FlattensWrites(marshal, FieldPath(prefix, k), v.fields[k], mid, after);
      WritesThen(FieldLeaves(marshal, prefix, v, Keys(init)), Leaves(marshal, FieldPath(prefix, k), v.fields[k]), before, mid, after);
      FieldLeavesNext(marshal, prefix, v, Keys(init), k);
      KeysNext(order);
    }
  }

  function Keys(order: seq<string>): set<string> {
    set k | k in order
  }

  lemma KeysNext(order: seq<string>)
    requires order != []
    ensures Keys(order) == Keys(order[..|order| - 1]) + {order[|order| - 1]}
  {
    assert order == order[..|order| - 1] + [order[|order| - 1]];
  }

  lemma {:induction false} ItemsWrite(marshal: Printer, prefix: string, v: Json, n: nat, before: Flat, after: Flat)
    requires v.List? && n <= |v.items| && ItemsFlatten(marshal, prefix, v, n, before, after)
    ensures Writes(ItemLeaves(marshal, prefix, v, n), before, after)
    decreases v, 0, n
  {
    if n > 0 {
      var item := v.items[n - 1];
      var mid :| ItemsFlatten(marshal, prefix, v, n - 1, before, mid) && LastFlattens(marshal, prefix, v, n, mid, after);
      ItemsWrite(marshal, prefix, v, n - 1, before, mid);
      FlattensWrites(marshal, ItemPath(prefix, item, n - 1), item, mid, after);
      WritesThen(ItemLeaves(marshal, prefix, v, n - 1), Leaves(marshal, ItemPath(prefix, item, n - 1), item), before, mid, after);
    }
  }

  // ---- each leaf can stay --------------------------------------------------

  lemma SomeOrder(keys: set<string>) returns (order: seq<string>)
    ensures IsOrder(order, keys)
  {
    order := Enumerate(ByPath, keys);
    EnumerateIsExact(ByPath, keys);
    forall i, j | 0 <= i < j < |order| ensures order[i] != order[j] {
      PrecedesIsOrder(ByPath, order[i], order[i], order[j]);
    }
  }

  lemma {:induction false} CanFlatten(marshal: Printer, prefix: string, v: Json, before: Flat) returns (after: Flat)
    ensures Flattens(marshal, prefix, v, before, after)
    decreases v, 1, 0
  {
    match v
    case Obj(fields) =>
      if fields == map[] {
        after := if prefix != "" then before[prefix := "{}"] else before;
      } else {
        var order := SomeOrder(fields.Keys);
        after := CanFlattenFields(marshal, prefix, v, order, before);
      }
    case List(items) =>
      if items == [] {
        after := before[prefix := "[]"];
      } else {
        after := CanFlattenItems(marshal, prefix, v, |items|, before);
      }
    case Null => after := before[prefix := "null"];
    case Str(s) => after := before[prefix := s];
    case _ => after := before[prefix := marshal(v)];
  }

  lemma {:induction false} CanFlattenFields(marshal: Printer, prefix: string, v: Json, order: seq<string>, before: Flat)
    returns (after: Flat)
    requires v.Obj? && forall k :: k in order ==> k in v.fields
    ensures FieldsFlatten(marshal, prefix, v, order, before, after)
    decreases v, 0, |order|
  {
    after := before;
    if order != [] {
      var k := order[|order| - 1];
      var mid := CanFlattenFields(marshal, prefix, v, order[..|order| - 1], before);
      after := CanFlatten(marshal, FieldPath(prefix, k), v.fields[k], mid);
    }
  }

  lemma {:induction false} CanFlattenItems(marshal: Printer, prefix: string, v: Json, n: nat, before: Flat) returns (after: Flat)
    requires v.List? && n <= |v.items|
    ensures ItemsFlatten(marshal, prefix, v, n, before, after)
    decreases v, 0, n
  {
    after := before;
    if n > 0 {
      var mid := CanFlattenItems(marshal, prefix, v, n - 1, before);
      after := CanFlatten(marshal, ItemPath(prefix, v.items[n - 1], n - 1), v.items[n - 1], mid);
      assert LastFlattens(marshal, prefix, v, n, mid, after);
    }
  }

  /** Some order of the keys leaves any given leaf in place. */
  lemma {:induction false} CanStay(marshal: Printer, prefix: string, v: Json, before: Flat, l: Leaf) returns (after: Flat)
    requires l in Leaves(marshal, prefix, v)
    ensures Flattens(marshal, prefix, v, before, after) && l.0 in after && after[l.0] == l.1
    decreases v, 1, 0
  {
    if v.Obj? && v.fields != map[] {
      var k :| k in v.fields && l in Leaves(marshal, FieldPath(prefix, k), v.fields[k]);
      var rest := SomeOrder(v.fields.Keys - {k});
      var mid := CanFlattenFields(marshal, prefix, v, rest, before);
      after := CanStay(marshal, FieldPath(prefix, k), v.fields[k], mid, l);
      FieldsNext(marshal, prefix, v, rest, k, before, mid, after);
      assert IsOrder(rest + [k], v.fields.Keys);
    } else if v.List? && v.items != [] {
      after := ItemCanStay(marshal, prefix, v, |v.items|, before, l);
    } else {
      after := CanFlatten(marshal, prefix, v, before);
    }
  }

  lemma {:induction false} ItemCanStay(marshal: Printer, prefix: string, v: Json, n: nat, before: Flat, l: Leaf)
    returns (after: Flat)
    requires v.List? && n <= |v.items| && l in ItemLeaves(marshal, prefix, v, n)
    ensures ItemsFlatten(marshal, prefix, v, n, before, after) && l.0 in after && after[l.0] == l.1
    decreases v, 0, n
  {
    var item := v.items[n - 1];
    var own := Leaves(marshal, ItemPath(prefix, item, n - 1), item);
    if l in own {
      var mid := CanFlattenItems(marshal, prefix, v, n - 1, before);
      after := CanStay(marshal, ItemPath(prefix, item, n - 1), item, mid, l);
      assert LastFlattens(marshal, prefix, v, n, mid, after);
    } else {
      var mid := ItemCanStay(marshal, prefix, v, n - 1, before, l);
      after := CanFlatten(marshal, ItemPath(prefix, item, n - 1), item, mid);
      FlattensWrites(marshal, ItemPath(prefix, item, n - 1), item, mid, after);
      assert LastFlattens(marshal, prefix, v, n, mid, after);
    }
  }

  // ---- one flattened form --------------------------------------------------

  /** No two leaves on one path. */
  ghost predicate Unambiguous(leaves: set<Leaf>) {
    forall l, k :: l in leaves && k in leaves && l.0 == k.0 ==> l == k
  }

  ghost predicate IsFlat(marshal: Printer, v: Option<Json>, m: Flat) {
    match v
    case None => m == map[]
    case Some(x) => Flattens(marshal, "", x, map[], m)
  }

  /** The order of the keys does not show. */
  ghost predicate IsStable(marshal: Printer, v: Json) {
    forall m, n :: IsFlat(marshal, Some(v), m) && IsFlat(marshal, Some(v), n) ==> m == n
  }

  /** A template has one flattened form exactly if no path can end with either of two texts. */
  lemma FlatIsUniqueIff(marshal: Printer, v: Json)
    ensures IsStable(marshal, v) <==> Unambiguous(Leaves(marshal, "", v))
  {
    var leaves := Leaves(marshal, "", v);
    if Unambiguous(leaves) {
      forall m, n | IsFlat(marshal, Some(v), m) && IsFlat(marshal, Some(v), n) ensures m == n {
        FlattensWrites(marshal, "", v, map[], m);
        FlattensWrites(marshal, "", v, map[], n);
        SameFlat(leaves, m, n);
      }
    }
    if IsStable(marshal, v) {
      forall l, k | l in leaves && k in leaves && l.0 == k.0 ensures l == k {
        var m := CanStay(marshal, "", v, map[], l);
        var n := CanStay(marshal, "", v, map[], k);
        assert IsFlat(marshal, Some(v), m) && IsFlat(marshal, Some(v), n);
      }
    }
  }

  lemma SameFlat(leaves: set<Leaf>, m: Flat, n: Flat)
    requires Unambiguous(leaves) && Writes(leaves, map[], m) && Writes(leaves, map[], n)
    ensures m == n
  {
    forall p ensures (p in m <==> p in n) && (p in m ==> m[p] == n[p]) {
      if p in m {
        assert (p, m[p]) in leaves;
      }
      if p in n {
        assert (p, n[p]) in leaves;
      }
    }
  }

  function Variable(name: string, text: string): Json {
    Obj(map["name" := Str(name), "value" := Str(text)])
  }

  /** Two list items of one name share their paths and still flatten to one form: the last one's text stays. */
  lemma LastItemStays(marshal: Printer, name: string, s: string, t: string, m: Flat)
    requires name != ""
    ensures var list := List([Variable(name, s), Variable(name, t)]);
            var v := Obj(map["env" := list]);
            && IsStable(marshal, v)
            && (IsFlat(marshal, Some(v), m) ==> At(m, ItemPath("env", list.items[1], 1) + ".value") == Some(t))
  {
    var list := List([Variable(name, s), Variable(name, t)]);
    var v := Obj(map["env" := list]);
    var at := ItemPath("env", list.items[1], 1);
    SecondReplacesFirst(marshal, "env", name, s, t);
    OneField(marshal, "", v, "env");
    PairIsUnambiguous(at, name, t);
    FlatIsUniqueIff(marshal, v);
    if IsFlat(marshal, Some(v), m) {
      FlattensWrites(marshal, "", v, map[], m);
      ValueOf(at, name, t, m);
    }
  }

  function Pair(at: string, name: string, text: string): set<Leaf> {
    {(at + ".name", name), (at + ".value", text)}
  }

  lemma PairIsUnambiguous(at: string, name: string, t: string)
    ensures Unambiguous(Pair(at, name, t))
  {
    assert (at + ".name")[|at| + 1] != (at + ".value")[|at| + 1];
  }

  lemma ValueOf(at: string, name: string, t: string, m: Flat)
    requires Writes(Pair(at, name, t), map[], m)
    ensures At(m, at + ".value") == Some(t)
  {
    PairIsUnambiguous(at, name, t);
    assert (at + ".value", t) in Pair(at, name, t);
  }

  lemma SecondReplacesFirst(marshal: Printer, prefix: string, name: string, s: string, t: string)
    requires name != ""
    ensures var list := List([Variable(name, s), Variable(name, t)]);
            Leaves(marshal, prefix, list) == Pair(ItemPath(prefix, list.items[1], 1), name, t)
  {
    var list := List([Variable(name, s), Variable(name, t)]);
    var at := ItemPath(prefix, list.items[1], 1);
    VariableLeaves(marshal, at, name, s);
    VariableLeaves(marshal, at, name, t);
    ItemsOver(marshal, prefix, list);
    OverReplaces(Pair(at, name, s), Pair(at, name, t));
  }

  lemma ItemsOver(marshal: Printer, prefix: string, v: Json)
    requires v.List? && |v.items| == 2
    ensures Leaves(marshal, prefix, v)
         == Over(Leaves(marshal, ItemPath(prefix, v.items[0], 0), v.items[0]), Leaves(marshal, ItemPath(prefix, v.items[1], 1), v.items[1]))
  {
    assert ItemLeaves(marshal, prefix, v, 1) == Leaves(marshal, ItemPath(prefix, v.items[0], 0), v.items[0]);
  }

  lemma OverReplaces(a: set<Leaf>, b: set<Leaf>)
    requires forall l :: l in a ==> exists k :: k in b && k.0 == l.0
    ensures Over(a, b) == b
  {
  }

  lemma VariableLeaves(marshal: Printer, at: string, name: string, text: string)
    requires at != ""
    ensures Leaves(marshal, at, Variable(name, text)) == Pair(at, name, text)
  {
    var v := Variable(name, text);
    TwoFields(marshal, at, v, "name", "value");
    assert FieldPath(at, "name") == at + ".name" && FieldPath(at, "value") == at + ".value";
  }

  /** With a collision of keys the outcome is up to the order: a key `a.b` beside a key `b` under `a`. */
  lemma CollidingPathsAreUnstable(marshal: Printer)
    ensures !IsStable(marshal, Obj(map["a.b" := Str("1"), "a" := Obj(map["b" := Str("2")])]))
  {
    var inner := Obj(map["b" := Str("2")]);
    var v := Obj(map["a.b" := Str("1"), "a" := inner]);
    assert FieldPath("a", "b") == "a.b";
    OneField(marshal, "a", inner, "b");
    TwoFields(marshal, "", v, "a.b", "a");
    assert ("a.b", "1") in Leaves(marshal, "", v) && ("a.b", "2") in Leaves(marshal, "", v);
    FlatIsUniqueIff(marshal, v);
  }

  lemma OneField(marshal: Printer, prefix: string, v: Json, k: string)
    requires v.Obj? && v.fields.Keys == {k}
    ensures Leaves(marshal, prefix, v) == Leaves(marshal, FieldPath(prefix, k), v.fields[k])
  {
    FieldLeavesNext(marshal, prefix, v, {}, k);
    assert {} + {k} == {k};
  }

  lemma TwoFields(marshal: Printer, prefix: string, v: Json, k: string, l: string)
    requires v.Obj? && v.fields.Keys == {k, l}
    ensures Leaves(marshal, prefix, v)
         == Leaves(marshal, FieldPath(prefix, k), v.fields[k]) + Leaves(marshal, FieldPath(prefix, l), v.fields[l])
  {
    FieldLeavesNext(marshal, prefix, v, {}, k);
    FieldLeavesNext(marshal, prefix, v, {k}, l);
    assert {} + {k} == {k} && v.fields.Keys == {k} + {l};
  }

  // ---- differences ---------------------------------------------------------

  const NOISY := ["metadata.labels.pod-template-hash", "metadata.creationTimestamp",
                  "metadata.annotations.deployment.kubernetes.io/revision",
                  "metadata.annotations.kubectl.kubernetes.io/last-applied-configuration"]

  predicate HasPrefix(path: string, prefix: string) {
    |prefix| <= |path| && path[..|prefix|] == prefix
  }

  predicate IsNoisy(path: string) {
    exists i :: 0 <= i < |NOISY| && (path == NOISY[i] || HasPrefix(path, NOISY[i] + "."))
  }

  /** An empty text stands for an absent value on either side. */
  datatype FieldChange = FieldChange(path: string, was: string, now: string)

  function At(m: Flat, p: string): Option<string> {
    if p in m then Some(m[p]) else None
  }

  function TextAt(m: Flat, p: string): string {
    if p in m then m[p] else ""
  }

  predicate Differs(fa: Flat, fb: Flat, p: string) {
    !IsNoisy(p) && At(fa, p) != At(fb, p)
  }

  function Changed(fa: Flat, fb: Flat): set<string> {
    set p | p in fa.Keys + fb.Keys && Differs(fa, fb, p)
  }

  function ByPath(p: string): int { 0 }

  function ChangeAt(fa: Flat, fb: Flat, p: string): FieldChange {
    FieldChange(p, TextAt(fa, p), TextAt(fb, p))
  }

  ghost function Diff(fa: Flat, fb: Flat): seq<FieldChange> {
    var paths := Enumerate(ByPath, Changed(fa, fb));
    seq(|paths|, i requires 0 <= i < |paths| => ChangeAt(fa, fb, paths[i]))
  }

  method DiffValues(marshal: Printer, a: Option<Json>, b: Option<Json>)
    returns (out: seq<FieldChange>, ghost fa: Flat, ghost fb: Flat)
    ensures IsFlat(marshal, a, fa) && IsFlat(marshal, b, fb)
    ensures out == Diff(fa, fb)
    ensures forall i, j :: 0 <= i < j < |out| ==> Less(out[i].path, out[j].path)
    ensures forall i :: 0 <= i < |out| ==> !IsNoisy(out[i].path)
  {
    var ma := new FlatMap();
    var mb := new FlatMap();
    if a.Some? {
      ma.Flatten(marshal, "", a.value);
    }
    if b.Some? {
      mb.Flatten(marshal, "", b.value);
    }
    fa, fb := ma.m, mb.m;
    var known := CollectOld(ma.m, mb.m);
    var added := CollectNew(ma.m, mb.m);
    assert (known + added).Keys == Changed(ma.m, mb.m);
    out := SortChanges(known + added, ma.m, mb.m);
    DiffIsSorted(fa, fb);
    DiffIsQuiet(fa, fb);
  }

  method CollectOld(fa: Flat, fb: Flat) returns (out: map<string, FieldChange>)
    ensures forall p :: p in out <==> p in fa && Differs(fa, fb, p)
    ensures forall p :: p in out ==> out[p] == ChangeAt(fa, fb, p)
  {
    out := map[];
    var todo := fa.Keys;
    while todo != {}
      invariant todo <= fa.Keys
      invariant forall p :: p in out <==> p in fa && p !in todo && Differs(fa, fb, p)
      invariant forall p :: p in out ==> out[p] == ChangeAt(fa, fb, p)
      decreases |todo|
    {
      var p :| p in todo;
      todo := todo - {p};
      if !IsNoisy(p) {
        if p !in fb {
          out := out[p := FieldChange(p, fa[p], "")];
        } else if fb[p] != fa[p] {
          out := out[p := FieldChange(p, fa[p], fb[p])];
        }
      }
    }
  }

  method CollectNew(fa: Flat, fb: Flat) returns (out: map<string, FieldChange>)
    ensures forall p :: p in out <==> p in fb && p !in fa && Differs(fa, fb, p)
    ensures forall p :: p in out ==> out[p] == ChangeAt(fa, fb, p)
  {
    out := map[];
    var todo := fb.Keys;
    while todo != {}
      invariant todo <= fb.Keys
      invariant forall p :: p in out <==> p in fb && p !in fa && p !in todo && Differs(fa, fb, p)
      invariant forall p :: p in out ==> out[p] == ChangeAt(fa, fb, p)
      decreases |todo|
    {
      var p :| p in todo;
      todo := todo - {p};
      if !IsNoisy(p) && p !in fa {
        out := out[p := FieldChange(p, "", fb[p])];
      }
    }
  }

  method SortChanges(changes: map<string, FieldChange>, ghost fa: Flat, ghost fb: Flat) returns (out: seq<FieldChange>)
    requires changes.Keys == Changed(fa, fb)
    requires forall p :: p in changes ==> changes[p] == ChangeAt(fa, fb, p)
    ensures out == Diff(fa, fb)
  {
    var paths := SortKeys(ByPath, changes.Keys);
    EnumerateIsExact(ByPath, changes.Keys);
    forall i | 0 <= i < |paths| ensures paths[i] in changes && changes[paths[i]] == ChangeAt(fa, fb, paths[i]) {
      assert paths[i] in paths;
    }
    out := Arrange(changes, paths);
  }

  method Arrange(changes: map<string, FieldChange>, paths: seq<string>) returns (out: seq<FieldChange>)
    requires forall i :: 0 <= i < |paths| ==> paths[i] in changes
    ensures |out| == |paths| && forall i :: 0 <= i < |paths| ==> out[i] == changes[paths[i]]
  {
    out := [];
    for i := 0 to |paths|
      invariant |out| == i && forall j :: 0 <= j < i ==> out[j] == changes[paths[j]]
    {
      out := out + [changes[paths[i]]];
    }
  }

  /** A diff is strictly sorted by path and lists exactly the paths that differ. */
  lemma DiffIsSorted(fa: Flat, fb: Flat)
    ensures forall i, j :: 0 <= i < j < |Diff(fa, fb)| ==> Less(Diff(fa, fb)[i].path, Diff(fa, fb)[j].path)
    ensures forall p :: p in Changed(fa, fb) <==> exists i :: 0 <= i < |Diff(fa, fb)| && Diff(fa, fb)[i].path == p
  {
    var paths := Enumerate(ByPath, Changed(fa, fb));
    EnumerateIsExact(ByPath, Changed(fa, fb));
    forall p ensures p in Changed(fa, fb) <==> exists i :: 0 <= i < |Diff(fa, fb)| && Diff(fa, fb)[i].path == p {
      if p in Changed(fa, fb) {
        var i :| 0 <= i < |paths| && paths[i] == p;
        assert Diff(fa, fb)[i].path == p;
      }
    }
    forall i, j | 0 <= i < j < |paths| ensures Less(Diff(fa, fb)[i].path, Diff(fa, fb)[j].path) {
      assert Precedes(ByPath, paths[i], paths[j]);
    }
  }

  lemma DiffIsQuiet(fa: Flat, fb: Flat)
    ensures forall i :: 0 <= i < |Diff(fa, fb)| ==> !IsNoisy(Diff(fa, fb)[i].path)
  {
    var paths := Enumerate(ByPath, Changed(fa, fb));
    EnumerateIsExact(ByPath, Changed(fa, fb));
    forall i | 0 <= i < |paths| ensures !IsNoisy(Diff(fa, fb)[i].path) {
      assert paths[i] in paths;
    }
  }

  // ---- diffs as patches ----------------------------------------------------

  /** What a reader of a diff takes a line to mean. */
  function Patch(m: Flat, diff: seq<FieldChange>): Flat {
    if diff == [] then m
    else
      var before, c := Patch(m, diff[..|diff| - 1]), diff[|diff| - 1];
      if c.now == "" then before - {c.path} else before[c.path := c.now]
  }

  function Blank(s: string): Option<string> {
    if s == "" then None else Some(s)
  }

  lemma {:induction false} PatchAt(m: Flat, diff: seq<FieldChange>, p: string)
    requires forall i, j :: 0 <= i < j < |diff| ==> diff[i].path != diff[j].path
    ensures forall i :: 0 <= i < |diff| && diff[i].path == p ==> At(Patch(m, diff), p) == Blank(diff[i].now)
    ensures (forall i :: 0 <= i < |diff| ==> diff[i].path != p) ==> At(Patch(m, diff), p) == At(m, p)
  {
    if diff != [] {
      PatchAt(m, diff[..|diff| - 1], p);
    }
  }

  /** Where a diff changes a path, the patched map has the new text there, or nothing if that is empty. */
  lemma PatchedAt(m: Flat, fa: Flat, fb: Flat, p: string)
    ensures At(Patch(m, Diff(fa, fb)), p) == if p in Changed(fa, fb) then Blank(TextAt(fb, p)) else At(m, p)
  {
    var diff := Diff(fa, fb);
    DiffIsSorted(fa, fb);
    forall i, j | 0 <= i < j < |diff| ensures diff[i].path != diff[j].path {
      LessTrichotomy(diff[i].path, diff[j].path);
    }
    PatchAt(m, diff, p);
    if p in Changed(fa, fb) {
      var i :| 0 <= i < |diff| && diff[i].path == p;
      assert diff[i] == ChangeAt(fa, fb, p);
    }
  }

  ghost predicate AgreeOffNoise(m: Flat, n: Flat) {
    forall p :: !IsNoisy(p) ==> At(m, p) == At(n, p)
  }

  /**
   Patching the old template with its diff gives the new one, on every path
   that is not noisy, exactly when no value becomes the empty string.
   */
  lemma DiffReplays(fa: Flat, fb: Flat)
    ensures AgreeOffNoise(Patch(fa, Diff(fa, fb)), fb)
       <==> forall p :: !IsNoisy(p) && At(fb, p) == Some("") ==> At(fa, p) == Some("")
  {
    forall p | !IsNoisy(p)
      ensures At(Patch(fa, Diff(fa, fb)), p) == At(fb, p) <==> (At(fb, p) == Some("") ==> At(fa, p) == Some("")) {
      PatchedAt(fa, fa, fb, p);
    }
  }

  // ---- on the paths and texts themselves -----------------------------------

  /** The paths that are noise, and all below them. */
  predicate IsNoise(p: string, top: string) {
    p == top || (|p| > |top| && p[..|top|] == top && p[|top|] == '.')
  }

  lemma NoiseReads(p: string)
    ensures IsNoisy(p) <==>
              || IsNoise(p, "metadata.labels.pod-template-hash") || IsNoise(p, "metadata.creationTimestamp")
              || IsNoise(p, "metadata.annotations.deployment.kubernetes.io/revision")
              || IsNoise(p, "metadata.annotations.kubectl.kubernetes.io/last-applied-configuration")
  {
    forall i | 0 <= i < |NOISY| ensures (p == NOISY[i] || HasPrefix(p, NOISY[i] + ".")) <==> IsNoise(p, NOISY[i]) {
      DottedPrefix(p, NOISY[i]);
    }
    assert |NOISY| == 4 && NOISY[0] == "metadata.labels.pod-template-hash" && NOISY[1] == "metadata.creationTimestamp"
           && NOISY[2] == "metadata.annotations.deployment.kubernetes.io/revision"
           && NOISY[3] == "metadata.annotations.kubectl.kubernetes.io/last-applied-configuration";
    assert IsNoisy(p) <==> IsNoise(p, NOISY[0]) || IsNoise(p, NOISY[1]) || IsNoise(p, NOISY[2]) || IsNoise(p, NOISY[3]);
  }

  lemma DottedPrefix(p: string, top: string)
    ensures HasPrefix(p, top + ".") <==> |p| > |top| && p[..|top|] == top && p[|top|] == '.'
  {
    if |p| > |top| {
      assert p[..|top| + 1] == p[..|top|] + [p[|top|]];
      assert (top + ".")[..|top|] == top && (top + ".")[|top|] == '.';
    }
  }

  /** Each line tells the two texts of a path that is no noise and differs, nothing as the empty text. */
  lemma DiffReads(fa: Flat, fb: Flat, i: nat)
    requires i < |Diff(fa, fb)|
    ensures var line := Diff(fa, fb)[i];
            && line.was == (if line.path in fa then fa[line.path] else "") && line.now == (if line.path in fb then fb[line.path] else "")
            && (line.path in fa || line.path in fb)
            && (line.path in fa && line.path in fb ==> fa[line.path] != fb[line.path])
            && !IsNoisy(line.path)
  {
    var paths := Enumerate(ByPath, Changed(fa, fb));
    EnumerateIsExact(ByPath, Changed(fa, fb));
    assert paths[i] in paths;
  }

  /** Every path that is no noise and differs has a line. */
  lemma DiffCovers(fa: Flat, fb: Flat, p: string)
    requires !IsNoisy(p) && (p in fa || p in fb) && (p in fa && p in fb ==> fa[p] != fb[p])
    ensures exists i :: 0 <= i < |Diff(fa, fb)| && Diff(fa, fb)[i].path == p
  {
    DiffIsSorted(fa, fb);
    assert p in Changed(fa, fb);
  }

  /** How paths are made: fields after dots, items in brackets by their name or else their place. */
  lemma PathsRead(prefix: string, k: string, item: Json, i: nat)
    ensures FieldPath(prefix, k) == if prefix == "" then k else prefix + "." + k
    ensures item.Obj? && "name" in item.fields && item.fields["name"].Str? && item.fields["name"].s != "" ==>
              ItemPath(prefix, item, i) == prefix + "[" + item.fields["name"].s + "]"
    ensures !(item.Obj? && "name" in item.fields && item.fields["name"].Str? && item.fields["name"].s != "") ==>
              ItemPath(prefix, item, i) == prefix + "[" + ComparePaths.Itoa(i) + "]"
  {
  }

  /** The texts of what has no parts. */
  lemma LeavesRead(marshal: Printer, p: string, v: Json, m: Flat, n: Flat)
    requires p != "" && Flattens(marshal, p, v, m, n)
    ensures v == Null ==> n == m[p := "null"]
    ensures v.Str? ==> n == m[p := v.s]
    ensures v.Bool? || v.Num? ==> n == m[p := marshal(v)]
    ensures v == List([]) ==> n == m[p := "[]"]
    ensures v == Obj(map[]) ==> n == m[p := "{}"]
  {
  }

}
