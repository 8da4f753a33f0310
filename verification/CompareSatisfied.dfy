/** When a live document has every declared field as declared. */
module CompareSatisfied {
  import opened Options
  import opened Json
  import opened KeyOrder
  import opened Compare
  import opened CompareCanon
  import opened CompareFilter

  function At(v: Json, k: string): Json {
    if v.Obj? && k in v.fields then v.fields[k] else Null
  }

  function ItemAt(v: Json, i: nat): Json {
    if v.List? && i < |v.items| then v.items[i] else Null
  }

  /**
   Every declared field is there as declared and lists have no items besides
   the declared ones; maps may have more fields.
   */
  ghost predicate Satisfies(sp: Printer, declared: Json, live: Json)
    decreases declared
  {
    if declared == Null || live == Null then declared == live
    else if declared.Obj? && live.Obj? then
      forall k :: k in declared.fields ==> Satisfies(sp, declared.fields[k], At(live, k))
    else if declared.List? && live.List? then
      if Named(sp, declared.items) && Named(sp, live.items)
      then (forall i :: 0 <= i < |live.items| ==> Find(sp, declared.items, ItemName(sp, live.items[i])) >= 0)
           && (forall i :: 0 <= i < |declared.items| ==>
                 var j := Find(sp, live.items, ItemName(sp, declared.items[i]));
                 j >= 0 && Satisfies(sp, declared.items[i], live.items[j]))
      else (forall i :: |declared.items| <= i < |live.items| ==> live.items[i] == Null)
           && (forall i :: 0 <= i < |declared.items| ==> Satisfies(sp, declared.items[i], ItemAt(live, i)))
    else LooseEqual(declared, live)
  }

  // ---- what is left after dropping, part by part ---------------------------

  lemma DropNothing(sp: Printer, d: Json, xs: seq<Change>, ys: seq<Change>)
    ensures DropUndeclared(sp, d, xs + ys) == [] <==> DropUndeclared(sp, d, xs) == [] && DropUndeclared(sp, d, ys) == []
  {
    DropConcat(sp, d, xs, ys);
  }

  lemma UnderNothing(seg: Seg, cs: seq<Change>)
    ensures AllUnder(seg, cs) == [] <==> cs == []
  {
    assert |AllUnder(seg, cs)| == |cs|;
  }

  ghost predicate KeyQuiet(sp: Printer, d: Json, l: Json, k: string)
    requires d.Obj? && l.Obj?
  {
    DropUndeclared(sp, d, AllUnder(Key(k), DiffKey(sp, d, l, k))) == []
  }

  lemma {:induction false} KeysQuiet(sp: Printer, d: Json, l: Json, keys: seq<string>)
    requires d.Obj? && l.Obj?
    ensures DropUndeclared(sp, d, DiffKeys(sp, d, l, keys)) == [] <==> forall k :: k in keys ==> KeyQuiet(sp, d, l, k)
    decreases |keys|
  {
    if |keys| > 0 {
      var here, rest := AllUnder(Key(keys[0]), DiffKey(sp, d, l, keys[0])), DiffKeys(sp, d, l, keys[1..]);
      KeysQuiet(sp, d, l, keys[1..]);
      assert DiffKeys(sp, d, l, keys) == here + rest;
      DropNothing(sp, d, here, rest);
      assert KeyQuiet(sp, d, l, keys[0]) <==> DropUndeclared(sp, d, here) == [];
      assert forall k :: k in keys <==> k == keys[0] || k in keys[1..];
    }
  }

  ghost predicate NameQuiet(sp: Printer, d: Json, l: Json, n: string)
    requires d.List? && l.List?
  {
    DropUndeclared(sp, d, AllUnder(Name(n), DiffName(sp, d, l, n))) == []
  }

  lemma {:induction false} NamesQuiet(sp: Printer, d: Json, l: Json, names: seq<string>)
    requires d.List? && l.List?
    ensures DropUndeclared(sp, d, DiffNames(sp, d, l, names)) == [] <==> forall n :: n in names ==> NameQuiet(sp, d, l, n)
    decreases |names|
  {
    if |names| > 0 {
      var here, rest := AllUnder(Name(names[0]), DiffName(sp, d, l, names[0])), DiffNames(sp, d, l, names[1..]);
      NamesQuiet(sp, d, l, names[1..]);
      assert DiffNames(sp, d, l, names) == here + rest;
      DropNothing(sp, d, here, rest);
      assert NameQuiet(sp, d, l, names[0]) <==> DropUndeclared(sp, d, here) == [];
      assert forall n :: n in names <==> n == names[0] || n in names[1..];
    }
  }

  ghost predicate ItemQuiet(sp: Printer, d: Json, l: Json, i: nat)
    requires d.List? && l.List?
  {
    DropUndeclared(sp, d, AllUnder(Index(i), DiffItem(sp, d, l, i))) == []
  }

  ghost predicate QuietFrom(sp: Printer, d: Json, l: Json, from: nat)
    requires d.List? && l.List?
  {
    forall i: nat :: from <= i ==> ItemQuiet(sp, d, l, i)
  }

  lemma {:induction false} QuietFromNext(sp: Printer, d: Json, l: Json, from: nat)
    requires d.List? && l.List?
    ensures QuietFrom(sp, d, l, from) <==> ItemQuiet(sp, d, l, from) && QuietFrom(sp, d, l, from + 1)
  {
    if ItemQuiet(sp, d, l, from) && QuietFrom(sp, d, l, from + 1) {
      forall i: nat | from <= i ensures ItemQuiet(sp, d, l, i) {
        assert i == from || from + 1 <= i;
      }
    }
  }

  lemma {:induction false} ItemsQuiet(sp: Printer, d: Json, l: Json, from: nat)
    requires d.List? && l.List?
    ensures DropUndeclared(sp, d, DiffItems(sp, d, l, from)) == [] <==> QuietFrom(sp, d, l, from)
    decreases |d.items| + |l.items| - from
  {
    if from < |d.items| || from < |l.items| {
      ItemsQuiet(sp, d, l, from + 1);
      DropNothing(sp, d, AllUnder(Index(from), DiffItem(sp, d, l, from)), DiffItems(sp, d, l, from + 1));
      QuietFromNext(sp, d, l, from);
    } else {
      forall i: nat | from <= i ensures ItemQuiet(sp, d, l, i) {
        assert DiffItem(sp, d, l, i) == [] && AllUnder(Index(i), []) == [];
      }
    }
  }

  // ---- the theorem ---------------------------------------------------------

  /** The live document is satisfied exactly if the comparison has no lines but undeclared ones. */
  lemma {:induction false} SatisfiesIff(sp: Printer, declared: Json, live: Json)
    ensures Satisfies(sp, declared, live) <==> DropUndeclared(sp, declared, Diff(sp, declared, live)) == []
    decreases declared, 2
  {
    if declared == Null || live == Null {
      RootStays(sp, declared, DiffLeaf(declared, live));
    } else if declared.Obj? && live.Obj? {
      ObjectSatisfies(sp, declared, live);
    } else if declared.List? && live.List? {
      if Named(sp, declared.items) && Named(sp, live.items) {
        NamedSatisfies(sp, declared, live);
      } else {
        ListSatisfies(sp, declared, live);
      }
    } else {
      RootStays(sp, declared, Diff(sp, declared, live));
    }
  }

  lemma {:induction false} ObjectSatisfies(sp: Printer, d: Json, l: Json)
    requires d.Obj? && l.Obj?
    ensures Satisfies(sp, d, l) <==> DropUndeclared(sp, d, Diff(sp, d, l)) == []
    decreases d, 1
  {
    var keys := OrderedKeys(d.fields.Keys + l.fields.Keys);
    EnumerateIsExact(KeyRank, d.fields.Keys + l.fields.Keys);
    KeysQuiet(sp, d, l, keys);
    forall k ensures KeyQuiet(sp, d, l, k) <==> KeySatisfied(sp, d, l, k) {
      KeySatisfies(sp, d, l, k);
    }
    if Satisfies(sp, d, l) {
      assert forall k :: KeySatisfied(sp, d, l, k);
    } else {
      var k :| k in d.fields && !Satisfies(sp, d.fields[k], At(l, k));
      assert k in keys && !KeySatisfied(sp, d, l, k);
    }
  }

  ghost predicate KeySatisfied(sp: Printer, d: Json, l: Json, k: string)
    requires d.Obj? && l.Obj?
  {
    k in d.fields ==> Satisfies(sp, d.fields[k], At(l, k))
  }

  lemma {:induction false} KeySatisfies(sp: Printer, d: Json, l: Json, k: string)
    requires d.Obj? && l.Obj?
    ensures KeyQuiet(sp, d, l, k) <==> KeySatisfied(sp, d, l, k)
    decreases d, 0
  {
    if k in d.fields {
      DropUnder(sp, d, Key(k), d.fields[k], DiffKey(sp, d, l, k));
      UnderNothing(Key(k), DropUndeclared(sp, d.fields[k], DiffKey(sp, d, l, k)));
      SatisfiesIff(sp, d.fields[k], At(l, k));
    } else {
      UndeclaredKey(sp, d, l, k);
    }
  }

  lemma {:induction false} NamedSatisfies(sp: Printer, d: Json, l: Json)
    requires d.List? && l.List? && Named(sp, d.items) && Named(sp, l.items)
    ensures Satisfies(sp, d, l) <==> DropUndeclared(sp, d, Diff(sp, d, l)) == []
    decreases d, 1
  {
    var names := AllNames(sp, d.items, l.items);
    NamesQuiet(sp, d, l, names);
    forall n ensures NameQuiet(sp, d, l, n) <==> NameSatisfied(sp, d, l, n) {
      NameSatisfies(sp, d, l, n);
    }
    if Satisfies(sp, d, l) {
      forall n ensures NameSatisfied(sp, d, l, n) {
        SatisfiedName(sp, d, l, n);
      }
    } else {
      var n := UnsatisfiedName(sp, d, l);
      assert !NameQuiet(sp, d, l, n);
    }
  }

  /** Whatever either list calls by the name, the declared list does, and the live item satisfies it. */
  ghost predicate NameSatisfied(sp: Printer, d: Json, l: Json, n: string)
    requires d.List? && l.List?
  {
    var i, j := Find(sp, d.items, n), Find(sp, l.items, n);
    if i >= 0 then j >= 0 && Satisfies(sp, d.items[i], l.items[j]) else j < 0
  }

  lemma {:induction false} NameSatisfies(sp: Printer, d: Json, l: Json, n: string)
    requires d.List? && l.List? && Named(sp, d.items) && Named(sp, l.items)
    ensures NameQuiet(sp, d, l, n) <==> NameSatisfied(sp, d, l, n)
    decreases d, 0
  {
    var i, j := Find(sp, d.items, n), Find(sp, l.items, n);
    if i >= 0 {
      DropUnder(sp, d, Name(n), d.items[i], DiffName(sp, d, l, n));
      UnderNothing(Name(n), DropUndeclared(sp, d.items[i], DiffName(sp, d, l, n)));
      if j >= 0 {
        SatisfiesIff(sp, d.items[i], l.items[j]);
      } else {
        RootStays(sp, d.items[i], DiffLeaf(d.items[i], Null));
      }
    } else if j >= 0 {
      ExtraStays(sp, d, Name(n), l.items[j]);
      UnderNothing(Name(n), DiffLeaf(Null, l.items[j]));
    }
  }

  lemma SatisfiedName(sp: Printer, d: Json, l: Json, n: string)
    requires d.List? && l.List? && Named(sp, d.items) && Named(sp, l.items) && Satisfies(sp, d, l)
    ensures NameSatisfied(sp, d, l, n)
  {
  }

  lemma UnsatisfiedName(sp: Printer, d: Json, l: Json) returns (n: string)
    requires d.List? && l.List? && Named(sp, d.items) && Named(sp, l.items) && !Satisfies(sp, d, l)
    ensures n in AllNames(sp, d.items, l.items) && !NameSatisfied(sp, d, l, n)
  {
    if i :| 0 <= i < |l.items| && Find(sp, d.items, ItemName(sp, l.items[i])) < 0 {
      n := ItemName(sp, l.items[i]);
      assert Find(sp, l.items, n) >= 0;
    } else {
      var i :| 0 <= i < |d.items| && !(var j := Find(sp, l.items, ItemName(sp, d.items[i]));
                                       j >= 0 && Satisfies(sp, d.items[i], l.items[j]));
      n := ItemName(sp, d.items[i]);
      assert Find(sp, d.items, n) == i;
    }
    AllNamesCover(sp, d.items, l.items, n);
  }

  lemma {:induction false} ListSatisfies(sp: Printer, d: Json, l: Json)
    requires d.List? && l.List? && !(Named(sp, d.items) && Named(sp, l.items))
    ensures Satisfies(sp, d, l) <==> DropUndeclared(sp, d, Diff(sp, d, l)) == []
    decreases d, 1
  {
    ItemsQuiet(sp, d, l, 0);
    forall i: nat ensures ItemQuiet(sp, d, l, i) <==> ItemSatisfied(sp, d, l, i) {
      ItemSatisfies(sp, d, l, i);
    }
    if DropUndeclared(sp, d, Diff(sp, d, l)) == [] {
      forall i: nat ensures ItemSatisfied(sp, d, l, i) {
        assert ItemQuiet(sp, d, l, i);
      }
      ItemsSatisfy(sp, d, l);
    } else if Satisfies(sp, d, l) {
      var i: nat :| !ItemQuiet(sp, d, l, i);
      SatisfiedItem(sp, d, l, i);
    }
  }

  ghost predicate ItemSatisfied(sp: Printer, d: Json, l: Json, i: nat)
    requires d.List? && l.List?
  {
    if i < |d.items| then Satisfies(sp, d.items[i], ItemAt(l, i)) else ItemAt(l, i) == Null
  }

  lemma {:induction false} SatisfiedItem(sp: Printer, d: Json, l: Json, i: nat)
    requires d.List? && l.List? && !(Named(sp, d.items) && Named(sp, l.items)) && Satisfies(sp, d, l)
    ensures ItemSatisfied(sp, d, l, i)
  {
  }

  lemma {:induction false} ItemsSatisfy(sp: Printer, d: Json, l: Json)
    requires d.List? && l.List? && !(Named(sp, d.items) && Named(sp, l.items))
    requires forall i: nat :: ItemSatisfied(sp, d, l, i)
    ensures Satisfies(sp, d, l)
  {
    forall i | 0 <= i < |d.items| ensures Satisfies(sp, d.items[i], ItemAt(l, i)) {
      assert ItemSatisfied(sp, d, l, i);
    }
    forall i | |d.items| <= i < |l.items| ensures l.items[i] == Null {
      assert ItemSatisfied(sp, d, l, i);
    }
  }

  lemma {:induction false} ItemSatisfies(sp: Printer, d: Json, l: Json, i: nat)
    requires d.List? && l.List?
    ensures ItemQuiet(sp, d, l, i) <==> ItemSatisfied(sp, d, l, i)
    decreases d, 0
  {
    if i < |d.items| {
      DropUnder(sp, d, Index(i), d.items[i], DiffItem(sp, d, l, i));
      UnderNothing(Index(i), DropUndeclared(sp, d.items[i], DiffItem(sp, d, l, i)));
      SatisfiesIff(sp, d.items[i], ItemAt(l, i));
    } else if i < |l.items| {
      ExtraStays(sp, d, Index(i), l.items[i]);
      UnderNothing(Index(i), DiffLeaf(Null, l.items[i]));
    }
  }
}
