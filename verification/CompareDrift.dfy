/**
 Drift: comparing the declared document with the pruned live one reports exactly
 the differences from the live one, less the additions at map keys that the
 declaration does not have.
 */
module CompareDrift {
  import opened Collections
  import opened Options
  import opened Json
  import opened KeyOrder
  import opened Compare
  import opened CompareCanon
  import opened CompareFilter
  import opened CompareSatisfied

  predicate Scalar(v: Json) {
    !v.Obj? && !v.List?
  }

  /** A live list item and its declared partner are identified by the same field, and by a scalar. */
  predicate SameIdentity(live: Json, declared: Json) {
    live.Obj? && declared.Obj? && IdentKey(live).Some? ==>
      IdentKey(declared) == IdentKey(live) && HasValue(live, IdentKey(live).value) && Scalar(live.fields[IdentKey(live).value])
  }

  /** So are all items that pruning pairs with an item of a named declared list. */
  ghost predicate SameFields(sp: Printer, live: Json, declared: Json)
    decreases declared
  {
    && (declared.Obj? && live.Obj? ==>
          forall k :: k in declared.fields && k in live.fields ==> SameFields(sp, live.fields[k], declared.fields[k]))
    && (declared.List? && live.List? ==>
          forall i :: 0 <= i < |live.items| ==>
            var j := Partner(sp, live.items, declared.items, i);
            j >= 0 ==>
              && SameFields(sp, live.items[i], declared.items[j])
              && (Named(sp, declared.items) ==> SameIdentity(live.items[i], declared.items[j])))
  }

  /** The pruned list has item names of its own although the live one has not, so the two are compared differently. */
  predicate NamedByPruning(sp: Printer, live: Json, declared: Json)
    requires live.List? && declared.List?
  {
    && Named(sp, declared.items) && !Named(sp, live.items)
    && Prune(sp, live, declared).List? && Named(sp, Prune(sp, live, declared).items)
  }

  /** The items, cut down to their declared fields, are called as declared, place by place. */
  ghost predicate NamesAsDeclared(sp: Printer, live: Json, declared: Json)
    requires live.List? && declared.List?
  {
    forall i :: 0 <= i < |declared.items| && i < |live.items| ==>
      ItemName(sp, Prune(sp, live.items[i], declared.items[i])) == ItemName(sp, declared.items[i])
  }

  /**
   Pruning leaves the items of named lists their names, at every depth; where
   it is pruning that gives a list its names, every declared field is as
   declared, names included.
   */
  ghost predicate Aligned(sp: Printer, live: Json, declared: Json)
    decreases declared
  {
    && (declared.Obj? && live.Obj? ==>
          forall k :: k in declared.fields && k in live.fields ==> Aligned(sp, live.fields[k], declared.fields[k]))
    && (declared.List? && live.List? ==>
          && (forall i :: 0 <= i < |live.items| ==> AlignedItem(sp, live, declared, i))
          && (NamedByPruning(sp, live, declared) ==>
                Satisfies(sp, declared, live) && NamesAsDeclared(sp, live, declared)))
  }

  ghost predicate AlignedItem(sp: Printer, live: Json, declared: Json, i: nat)
    requires live.List? && declared.List? && i < |live.items|
    decreases declared, 0
  {
    var j := Partner(sp, live.items, declared.items, i);
    j >= 0 ==>
      && Aligned(sp, live.items[i], declared.items[j])
      && (Named(sp, declared.items) && Named(sp, live.items) ==> KeepsName(sp, live.items[i], declared.items[j]))
  }

  /** The item is still called the same when only its declared fields are left. */
  predicate KeepsName(sp: Printer, live: Json, declared: Json) {
    ItemName(sp, Prune(sp, live, declared)) == ItemName(sp, live)
  }

  // ---- pruning keeps names -------------------------------------------------

  lemma PruneKeepsValue(sp: Printer, live: Json, declared: Json, k: string)
    requires live.Obj? && declared.Obj?
    ensures HasValue(Prune(sp, live, declared), k) ==> HasValue(live, k)
    ensures HasValue(live, k) && HasValue(declared, k) ==> HasValue(Prune(sp, live, declared), k)
    ensures HasValue(live, k) && HasValue(declared, k) && Scalar(live.fields[k]) ==>
              Prune(sp, live, declared).fields[k] == live.fields[k]
  {
  }

  lemma SameIdentityKeepsName(sp: Printer, live: Json, declared: Json)
    requires SameIdentity(live, declared)
    ensures KeepsName(sp, live, declared)
  {
    if live.Obj? && declared.Obj? {
      PruneKeepsValue(sp, live, declared, "name");
      PruneKeepsValue(sp, live, declared, "key");
      PruneKeepsValue(sp, live, declared, "mountPath");
      PruneKeepsValue(sp, live, declared, "containerPort");
    }
  }

  /** Items identified by the same fields keep their names. */
  lemma {:induction false} SameFieldsAlign(sp: Printer, live: Json, declared: Json)
    requires SameFields(sp, live, declared)
    ensures Aligned(sp, live, declared)
    decreases declared
  {
    if declared.Obj? && live.Obj? {
      forall k | k in declared.fields && k in live.fields ensures Aligned(sp, live.fields[k], declared.fields[k]) {
        SameFieldsAlign(sp, live.fields[k], declared.fields[k]);
      }
    } else if declared.List? && live.List? {
      forall i | 0 <= i < |live.items|
        ensures AlignedItem(sp, live, declared, i)
        ensures Named(sp, declared.items) ==>
                  ItemName(sp, Prune(sp, live, declared).items[i]) == ItemName(sp, live.items[i])
      {
        var j := Partner(sp, live.items, declared.items, i);
        if j >= 0 {
          SameFieldsAlign(sp, live.items[i], declared.items[j]);
          if Named(sp, declared.items) {
            SameIdentityKeepsName(sp, live.items[i], declared.items[j]);
          }
        }
      }
      NotNamedByPruning(sp, live, declared);
    }
  }

  lemma {:induction false} NotNamedByPruning(sp: Printer, live: Json, declared: Json)
    requires live.List? && declared.List?
    requires Named(sp, declared.items) ==>
               forall i :: 0 <= i < |live.items| ==> ItemName(sp, Prune(sp, live, declared).items[i]) == ItemName(sp, live.items[i])
    ensures !NamedByPruning(sp, live, declared)
  {
    if Named(sp, declared.items) {
      SameNamesNamed(sp, Prune(sp, live, declared).items, live.items);
    }
  }

  lemma SameNamesNamed(sp: Printer, xs: seq<Json>, ys: seq<Json>)
    requires |xs| == |ys| && forall i :: 0 <= i < |xs| ==> ItemName(sp, xs[i]) == ItemName(sp, ys[i])
    ensures Named(sp, xs) <==> Named(sp, ys)
  {
  }

  lemma PruneListKeepsNames(sp: Printer, live: Json, declared: Json)
    requires live.List? && declared.List? && Named(sp, declared.items) && Named(sp, live.items)
    requires forall i :: 0 <= i < |live.items| ==> AlignedItem(sp, live, declared, i)
    ensures var p := Prune(sp, live, declared);
            && p.List? && |p.items| == |live.items| && Named(sp, p.items)
            && forall i :: 0 <= i < |live.items| ==> ItemName(sp, p.items[i]) == ItemName(sp, live.items[i])
  {
    var p := Prune(sp, live, declared);
    forall i | 0 <= i < |live.items| ensures ItemName(sp, p.items[i]) == ItemName(sp, live.items[i]) {
      assert AlignedItem(sp, live, declared, i);
    }
    SameNamesNamed(sp, p.items, live.items);
  }

  lemma {:induction false} FindFromSame(sp: Printer, xs: seq<Json>, ys: seq<Json>, n: string, i: nat)
    requires |xs| == |ys| && i <= |xs|
    requires forall j :: 0 <= j < |xs| ==> ItemName(sp, xs[j]) == ItemName(sp, ys[j])
    ensures FindFrom(sp, xs, n, i) == FindFrom(sp, ys, n, i)
    decreases |xs| - i
  {
    if i < |xs| {
      FindFromSame(sp, xs, ys, n, i + 1);
    }
  }

  lemma {:induction false} NewNamesSame(sp: Printer, xs: seq<Json>, ys: seq<Json>, zs: seq<Json>)
    requires |ys| == |zs|
    requires forall j :: 0 <= j < |ys| ==> ItemName(sp, ys[j]) == ItemName(sp, zs[j])
    ensures NewNames(sp, xs, ys) == NewNames(sp, xs, zs)
    decreases |ys|
  {
    if |ys| > 0 {
      NewNamesSame(sp, xs, ys[1..], zs[1..]);
    }
  }

  // ---- the theorem ---------------------------------------------------------

  lemma {:induction false} DriftIsDeclaredDiff(sp: Printer, declared: Json, live: Json)
    requires Aligned(sp, live, declared)
    ensures Diff(sp, declared, Prune(sp, live, declared)) == DropUndeclared(sp, declared, Diff(sp, declared, live))
    decreases declared, 1
  {
    var p := Prune(sp, live, declared);
    if declared == Null || live == Null {
      RootStays(sp, declared, DiffLeaf(declared, live));
    } else if declared.Obj? && live.Obj? {
      DriftObjects(sp, declared, live, declared.fields.Keys + live.fields.Keys, declared.fields.Keys);
      assert p.fields.Keys <= declared.fields.Keys;
      assert declared.fields.Keys + p.fields.Keys == declared.fields.Keys;
    } else if declared.List? && live.List? {
      if Named(sp, declared.items) && Named(sp, live.items) {
        PruneListKeepsNames(sp, live, declared);
        NewNamesSame(sp, declared.items, live.items, p.items);
        DriftNames(sp, declared, live, AllNames(sp, declared.items, live.items));
      } else {
        DriftItems(sp, declared, live, 0);
        if NamedByPruning(sp, live, declared) {
          SatisfiesIff(sp, declared, live);
          QuietByName(sp, declared, live);
        }
      }
    } else {
      assert p == live;
      RootStays(sp, declared, Diff(sp, declared, live));
    }
  }

  /** An aligned object shows no drift exactly if it has every declared field as declared. */
  lemma NoDriftIffSatisfied(sp: Printer, declared: Json, live: Json)
    requires Aligned(sp, live, declared)
    ensures Diff(sp, declared, Prune(sp, live, declared)) == [] <==> Satisfies(sp, declared, live)
  {
    DriftIsDeclaredDiff(sp, declared, live);
    SatisfiesIff(sp, declared, live);
  }

  lemma {:induction false} DriftObjects(sp: Printer, d: Json, l: Json, all: set<string>, some: set<string>)
    requires d.Obj? && l.Obj? && Aligned(sp, l, d)
    requires some == all * d.fields.Keys
    ensures DiffKeys(sp, d, Prune(sp, l, d), OrderedKeys(some)) ==
            DropUndeclared(sp, d, DiffKeys(sp, d, l, OrderedKeys(all)))
    decreases d, 0, |all|
  {
    if all == {} {
      assert some == {};
    } else {
      var k := First(KeyRank, all);
      var rest := DiffKeys(sp, d, l, OrderedKeys(all - {k}));
      assert OrderedKeys(all)[1..] == OrderedKeys(all - {k});
      DropConcat(sp, d, AllUnder(Key(k), DiffKey(sp, d, l, k)), rest);
      if k in d.fields {
        DriftObjects(sp, d, l, all - {k}, some - {k});
        EnumerateStep(KeyRank, some, k);
        assert OrderedKeys(some)[1..] == OrderedKeys(some - {k});
        DropUnder(sp, d, Key(k), d.fields[k], DiffKey(sp, d, l, k));
        DriftKey(sp, d, l, k);
      } else {
        DriftObjects(sp, d, l, all - {k}, some);
        UndeclaredKey(sp, d, l, k);
        assert some == (all - {k}) * d.fields.Keys;
      }
    }
  }

  lemma {:induction false} DriftKey(sp: Printer, d: Json, l: Json, k: string)
    requires d.Obj? && l.Obj? && k in d.fields && Aligned(sp, l, d)
    ensures DiffKey(sp, d, Prune(sp, l, d), k) == DropUndeclared(sp, d.fields[k], DiffKey(sp, d, l, k))
    decreases d, 0, 0
  {
    if k in l.fields {
      DriftIsDeclaredDiff(sp, d.fields[k], l.fields[k]);
    } else {
      RootStays(sp, d.fields[k], DiffLeaf(d.fields[k], Null));
    }
  }

  lemma {:induction false} DriftNames(sp: Printer, d: Json, l: Json, names: seq<string>)
    requires d.List? && l.List? && Aligned(sp, l, d)
    requires Named(sp, d.items) && Named(sp, l.items)
    ensures DiffNames(sp, d, Prune(sp, l, d), names) == DropUndeclared(sp, d, DiffNames(sp, d, l, names))
    decreases d, 0, |names|
  {
    if |names| > 0 {
      DropConcat(sp, d, AllUnder(Name(names[0]), DiffName(sp, d, l, names[0])), DiffNames(sp, d, l, names[1..]));
      DriftNames(sp, d, l, names[1..]);
      DriftName(sp, d, l, names[0]);
    }
  }

  lemma {:induction false} DriftName(sp: Printer, d: Json, l: Json, n: string)
    requires d.List? && l.List? && Aligned(sp, l, d)
    requires Named(sp, d.items) && Named(sp, l.items)
    ensures AllUnder(Name(n), DiffName(sp, d, Prune(sp, l, d), n)) ==
            DropUndeclared(sp, d, AllUnder(Name(n), DiffName(sp, d, l, n)))
    decreases d, 0, 0
  {
    var p := Prune(sp, l, d);
    PruneListKeepsNames(sp, l, d);
    FindFromSame(sp, l.items, p.items, n, 0);
    var i, j := Find(sp, d.items, n), Find(sp, l.items, n);
    if i >= 0 {
      DropUnder(sp, d, Name(n), d.items[i], DiffName(sp, d, l, n));
      if j >= 0 {
        assert AlignedItem(sp, l, d, j);
        assert Partner(sp, l.items, d.items, j) == i;
        DriftIsDeclaredDiff(sp, d.items[i], l.items[j]);
      } else {
        RootStays(sp, d.items[i], DiffLeaf(d.items[i], Null));
      }
    } else if j >= 0 {
      ExtraStays(sp, d, Name(n), l.items[j]);
    }
  }

  lemma {:induction false} DriftItems(sp: Printer, d: Json, l: Json, i: nat)
    requires d.List? && l.List? && Aligned(sp, l, d)
    requires !(Named(sp, d.items) && Named(sp, l.items))
    ensures DiffItems(sp, d, Prune(sp, l, d), i) == DropUndeclared(sp, d, DiffItems(sp, d, l, i))
    decreases d, 0, |d.items| + |l.items| - i
  {
    if i < |d.items| || i < |l.items| {
      DropConcat(sp, d, AllUnder(Index(i), DiffItem(sp, d, l, i)), DiffItems(sp, d, l, i + 1));
      DriftItems(sp, d, l, i + 1);
      DriftItem(sp, d, l, i);
    }
  }

  lemma {:induction false} DriftItem(sp: Printer, d: Json, l: Json, i: nat)
    requires d.List? && l.List? && Aligned(sp, l, d)
    requires !(Named(sp, d.items) && Named(sp, l.items))
    ensures AllUnder(Index(i), DiffItem(sp, d, Prune(sp, l, d), i)) ==
            DropUndeclared(sp, d, AllUnder(Index(i), DiffItem(sp, d, l, i)))
    decreases d, 0, 0
  {
    if i < |d.items| {
      DropUnder(sp, d, Index(i), d.items[i], DiffItem(sp, d, l, i));
      if i < |l.items| {
        assert AlignedItem(sp, l, d, i);
        DriftIsDeclaredDiff(sp, d.items[i], l.items[i]);
      } else {
        RootStays(sp, d.items[i], DiffLeaf(d.items[i], Null));
      }
    } else if i < |l.items| {
      ExtraStays(sp, d, Index(i), l.items[i]);
    }
  }

  /** Compared by name only after pruning, the items still meet in the order of their indexes. */
  lemma {:induction false} QuietByName(sp: Printer, d: Json, l: Json)
    requires d.List? && l.List? && NamedByPruning(sp, l, d) && Satisfies(sp, d, l) && NamesAsDeclared(sp, l, d)
    requires DiffItems(sp, d, Prune(sp, l, d), 0) == []
    ensures Diff(sp, d, Prune(sp, l, d)) == []
  {
    var p := Prune(sp, l, d);
    SameLength(sp, d, l);
    forall i | 0 <= i < |d.items| ensures ItemName(sp, d.items[i]) == ItemName(sp, p.items[i]) {
      assert p.items[i] == Prune(sp, l.items[i], d.items[i]);
    }
    ItemsEmpty(sp, d, p, 0);
    var names := AllNames(sp, d.items, p.items);
    forall n | n in names ensures DiffName(sp, d, p, n) == [] {
      SameFind(sp, d, p, n);
      assert Find(sp, d.items, n) >= 0 ==> DiffItem(sp, d, p, Find(sp, d.items, n)) == [];
    }
    NamesEmpty(sp, d, p, names);
  }

  /** No declared item is missing, and one too many would be null and leave the pruned list unnamed. */
  lemma SameLength(sp: Printer, d: Json, l: Json)
    requires d.List? && l.List? && NamedByPruning(sp, l, d) && Satisfies(sp, d, l)
    ensures |d.items| == |l.items|
  {
    NoneMissing(sp, d, l, |d.items| - 1);
    NoneExtra(sp, d, l, |Prune(sp, l, d).items| - 1);
  }

  lemma NoneMissing(sp: Printer, d: Json, l: Json, i: nat)
    requires d.List? && l.List? && Named(sp, d.items) && !Named(sp, l.items) && Satisfies(sp, d, l) && i < |d.items|
    ensures i < |l.items|
  {
    NamedIsObject(sp, d.items, i);
    assert Satisfies(sp, d.items[i], ItemAt(l, i));
  }

  lemma NoneExtra(sp: Printer, d: Json, l: Json, i: nat)
    requires d.List? && l.List? && NamedByPruning(sp, l, d) && Satisfies(sp, d, l) && i < |l.items|
    ensures i < |d.items|
  {
    NamedIsObject(sp, Prune(sp, l, d).items, i);
  }

  lemma NamedIsObject(sp: Printer, items: seq<Json>, i: nat)
    requires i < |items| && Named(sp, items)
    ensures items[i].Obj? && Find(sp, items, ItemName(sp, items[i])) == i
  {
  }

  lemma SameFind(sp: Printer, a: Json, b: Json, n: string)
    requires a.List? && b.List? && |a.items| == |b.items|
    requires forall i :: 0 <= i < |a.items| ==> ItemName(sp, a.items[i]) == ItemName(sp, b.items[i])
    ensures var i := Find(sp, a.items, n); DiffName(sp, a, b, n) == if i >= 0 then DiffItem(sp, a, b, i) else []
  {
    FindFromSame(sp, a.items, b.items, n, 0);
  }

  // ---- what pruning hides, and what it does not ----------------------------

  lemma {:induction false} KeyLine(sp: Printer, a: Json, b: Json, keys: seq<string>, c: Change) returns (k: string, e: Change)
    requires a.Obj? && b.Obj? && c in DiffKeys(sp, a, b, keys)
    ensures c == Under(Key(k), e) && e in DiffKey(sp, a, b, k)
    decreases |keys|
  {
    var here := DiffKey(sp, a, b, keys[0]);
    if c in AllUnder(Key(keys[0]), here) {
      var i :| 0 <= i < |here| && AllUnder(Key(keys[0]), here)[i] == c;
      k, e := keys[0], here[i];
    } else {
      k, e := KeyLine(sp, a, b, keys[1..], c);
    }
  }

  lemma {:induction false} NameLine(sp: Printer, a: Json, b: Json, names: seq<string>, c: Change) returns (n: string, e: Change)
    requires a.List? && b.List? && c in DiffNames(sp, a, b, names)
    ensures c == Under(Name(n), e) && e in DiffName(sp, a, b, n)
    decreases |names|
  {
    var here := DiffName(sp, a, b, names[0]);
    if c in AllUnder(Name(names[0]), here) {
      var i :| 0 <= i < |here| && AllUnder(Name(names[0]), here)[i] == c;
      n, e := names[0], here[i];
    } else {
      n, e := NameLine(sp, a, b, names[1..], c);
    }
  }

  lemma {:induction false} ItemLine(sp: Printer, a: Json, b: Json, from: nat, c: Change) returns (i: nat, e: Change)
    requires a.List? && b.List? && c in DiffItems(sp, a, b, from)
    ensures c == Under(Index(i), e) && e in DiffItem(sp, a, b, i)
    decreases |a.items| + |b.items| - from
  {
    var here := DiffItem(sp, a, b, from);
    if c in AllUnder(Index(from), here) {
      var j :| 0 <= j < |here| && AllUnder(Index(from), here)[j] == c;
      i, e := from, here[j];
    } else {
      i, e := ItemLine(sp, a, b, from + 1, c);
    }
  }

  /** Whatever the documents, only additions are ever undeclared. */
  lemma {:induction false} UndeclaredIsAddition(sp: Printer, d: Json, l: Json, c: Change)
    requires c in Diff(sp, d, l) && Undeclared(sp, d, c.pos)
    ensures c.kind == OnlyInB
    decreases d
  {
    if d.Obj? && l.Obj? {
      var k, e := KeyLine(sp, d, l, OrderedKeys(d.fields.Keys + l.fields.Keys), c);
      assert c.pos[1..] == e.pos;
      if k in d.fields && k in l.fields {
        UndeclaredIsAddition(sp, d.fields[k], l.fields[k], e);
      }
    } else if d.List? && l.List? && Named(sp, d.items) && Named(sp, l.items) {
      var n, e := NameLine(sp, d, l, AllNames(sp, d.items, l.items), c);
      assert c.pos[1..] == e.pos;
      var i, j := Find(sp, d.items, n), Find(sp, l.items, n);
      if i >= 0 && j >= 0 {
        UndeclaredIsAddition(sp, d.items[i], l.items[j], e);
      }
    } else if d.List? && l.List? {
      var i, e := ItemLine(sp, d, l, 0, c);
      assert c.pos[1..] == e.pos;
      if i < |d.items| && i < |l.items| {
        UndeclaredIsAddition(sp, d.items[i], l.items[i], e);
      }
    }
  }

  lemma {:induction false} UndeclaredEndsAtKey(sp: Printer, d: Json, pos: seq<Seg>)
    requires Undeclared(sp, d, pos)
    ensures |pos| > 0 && pos[|pos| - 1].Key?
    decreases |pos|
  {
    match pos[0]
    case Key(k) =>
      if k in d.fields {
        UndeclaredEndsAtKey(sp, d.fields[k], pos[1..]);
      }
    case Name(n) => UndeclaredEndsAtKey(sp, d.items[Find(sp, d.items, n)], pos[1..]);
    case Index(i) => UndeclaredEndsAtKey(sp, d.items[i], pos[1..]);
  }

  predicate RealDrift(c: Change) {
    c.kind != OnlyInB || c.pos == [] || !c.pos[|c.pos| - 1].Key?
  }

  lemma RealIsDeclared(sp: Printer, d: Json, l: Json, c: Change)
    requires c in Diff(sp, d, l) && RealDrift(c)
    ensures !Undeclared(sp, d, c.pos)
  {
    if Undeclared(sp, d, c.pos) {
      UndeclaredIsAddition(sp, d, l, c);
      UndeclaredEndsAtKey(sp, d, c.pos);
    }
  }

  /** Removals and changes show, and so do extra list items; pruning makes nothing up. */
  lemma RealDriftSurvives(sp: Printer, declared: Json, live: Json, c: Change)
    requires Aligned(sp, live, declared)
    ensures c in Diff(sp, declared, Prune(sp, live, declared)) ==> c in Diff(sp, declared, live)
    ensures c in Diff(sp, declared, live) && RealDrift(c) ==> c in Diff(sp, declared, Prune(sp, live, declared))
  {
    DriftIsDeclaredDiff(sp, declared, live);
    var cs := Diff(sp, declared, live);
    FilterIff(Keeps(sp, declared), cs, c);
    if c in cs && RealDrift(c) {
      RealIsDeclared(sp, declared, live, c);
    }
  }
}
