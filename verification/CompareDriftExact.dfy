/**
 The drift equation is exact: where list items are identified by text or
 integers it holds for an object exactly when pruning leaves the items of its
 named lists their names.
 */
module CompareDriftExact {
  import opened Options
  import opened Json
  import opened KeyOrder
  import opened Compare
  import opened CompareCanon
  import opened CompareFilter
  import opened CompareSatisfied
  import opened CompareDrift
  import opened CompareLaws

  predicate PlainValue(v: Json) {
    v == Null || v.Str? || (v.Num? && v.n.Int?)
  }

  predicate PlainItem(v: Json) {
    PlainValue(At(v, "name")) && PlainValue(At(v, "key")) && PlainValue(At(v, "mountPath"))
    && PlainValue(At(v, "containerPort"))
  }

  /** Whatever could identify a list item is text or an integer. */
  ghost predicate PlainDoc(v: Json) {
    match v
    case List(items) => forall i :: 0 <= i < |items| ==> PlainItem(items[i]) && PlainDoc(items[i])
    case Obj(fields) => forall k :: k in fields ==> PlainDoc(fields[k])
    case _ => true
  }

  ghost predicate Exact(sp: Printer, declared: Json, live: Json) {
    Diff(sp, declared, Prune(sp, live, declared)) == DropUndeclared(sp, declared, Diff(sp, declared, live))
  }

  // ---- the lines below one segment -----------------------------------------

  function Starts(seg: Seg): Change -> bool {
    (c: Change) => c.pos != [] && c.pos[0] == seg
  }

  function Part(cs: seq<Change>, seg: Seg): seq<Change> {
    Filter(Starts(seg), cs)
  }

  lemma {:induction false} FilterAll(keep: Change -> bool, cs: seq<Change>)
    requires forall i :: 0 <= i < |cs| ==> keep(cs[i])
    ensures Filter(keep, cs) == cs
  {
    if |cs| > 0 {
      FilterAll(keep, cs[1..]);
      assert cs == [cs[0]] + cs[1..];
    }
  }

  lemma {:induction false} FilterNone(keep: Change -> bool, cs: seq<Change>)
    requires forall i :: 0 <= i < |cs| ==> !keep(cs[i])
    ensures Filter(keep, cs) == []
  {
    if |cs| > 0 {
      FilterNone(keep, cs[1..]);
    }
  }

  lemma {:induction false} FiltersCommute(a: Change -> bool, b: Change -> bool, cs: seq<Change>)
    ensures Filter(a, Filter(b, cs)) == Filter(b, Filter(a, cs))
  {
    if |cs| > 0 {
      FiltersCommute(a, b, cs[1..]);
      FilterFirst(a, cs[0], Filter(b, cs[1..]));
      FilterFirst(b, cs[0], Filter(a, cs[1..]));
    }
  }

  lemma FilterFirst(keep: Change -> bool, c: Change, cs: seq<Change>)
    ensures Filter(keep, [c] + cs) == (if keep(c) then [c] else []) + Filter(keep, cs)
    ensures [] + Filter(keep, cs) == Filter(keep, cs) && [] + cs == cs
  {
    assert ([c] + cs)[1..] == cs;
  }

  lemma PartUnder(seg: Seg, other: Seg, cs: seq<Change>)
    ensures Part(AllUnder(seg, cs), other) == if seg == other then AllUnder(seg, cs) else []
  {
    if seg == other {
      FilterAll(Starts(other), AllUnder(seg, cs));
    } else {
      FilterNone(Starts(other), AllUnder(seg, cs));
    }
  }

  lemma PartStep(seg: Seg, other: Seg, here: seq<Change>, rest: seq<Change>)
    ensures Part(AllUnder(seg, here) + rest, other)
         == if seg == other then AllUnder(seg, here) + Part(rest, other) else Part(rest, other)
  {
    FilterConcat(Starts(other), AllUnder(seg, here), rest);
    PartUnder(seg, other, here);
    assert [] + Part(rest, other) == Part(rest, other);
  }

  lemma UnderInjective(seg: Seg, xs: seq<Change>, ys: seq<Change>)
    requires AllUnder(seg, xs) == AllUnder(seg, ys)
    ensures xs == ys
  {
    assert |xs| == |AllUnder(seg, xs)| == |ys|;
    forall i | 0 <= i < |xs| ensures xs[i] == ys[i] {
      assert AllUnder(seg, xs)[i] == Under(seg, xs[i]) && AllUnder(seg, ys)[i] == Under(seg, ys[i]);
      assert Under(seg, xs[i]).pos[1..] == xs[i].pos && Under(seg, ys[i]).pos[1..] == ys[i].pos;
    }
  }

  lemma PartDrop(sp: Printer, d: Json, cs: seq<Change>, seg: Seg)
    ensures Part(DropUndeclared(sp, d, cs), seg) == DropUndeclared(sp, d, Part(cs, seg))
  {
    FiltersCommute(Starts(seg), Keeps(sp, d), cs);
  }

  lemma {:induction false} PartKeys(sp: Printer, a: Json, b: Json, keys: seq<string>, k: string)
    requires a.Obj? && b.Obj? && Distinct(keys)
    ensures Part(DiffKeys(sp, a, b, keys), Key(k)) == if k in keys then AllUnder(Key(k), DiffKey(sp, a, b, k)) else []
    decreases |keys|
  {
    if |keys| > 0 {
      PartKeys(sp, a, b, keys[1..], k);
      PartFirst(DiffKeys(sp, a, b, keys), Key(keys[0]), Key(k), DiffKey(sp, a, b, keys[0]), DiffKeys(sp, a, b, keys[1..]));
    }
  }

  lemma {:induction false} PartNames(sp: Printer, a: Json, b: Json, names: seq<string>, n: string)
    requires a.List? && b.List? && Distinct(names)
    ensures Part(DiffNames(sp, a, b, names), Name(n)) == if n in names then AllUnder(Name(n), DiffName(sp, a, b, n)) else []
    decreases |names|
  {
    if |names| > 0 {
      PartNames(sp, a, b, names[1..], n);
      PartFirst(DiffNames(sp, a, b, names), Name(names[0]), Name(n), DiffName(sp, a, b, names[0]), DiffNames(sp, a, b, names[1..]));
    }
  }

  lemma {:induction false} PartItems(sp: Printer, a: Json, b: Json, from: nat, i: nat)
    requires a.List? && b.List?
    ensures Part(DiffItems(sp, a, b, from), Index(i))
         == if from <= i && (i < |a.items| || i < |b.items|) then AllUnder(Index(i), DiffItem(sp, a, b, i)) else []
    decreases |a.items| + |b.items| - from
  {
    if from < |a.items| || from < |b.items| {
      ItemsNext(sp, a, b, from);
      PartItems(sp, a, b, from + 1, i);
      PartFirst(DiffItems(sp, a, b, from), Index(from), Index(i), DiffItem(sp, a, b, from), DiffItems(sp, a, b, from + 1));
    }
  }

  /** The changes of one segment come first, and no others have it. */
  lemma {:induction false} PartFirst(all: seq<Change>, seg: Seg, other: Seg, here: seq<Change>, rest: seq<Change>)
    requires all == AllUnder(seg, here) + rest && (seg == other ==> Part(rest, other) == [])
    ensures Part(all, other) == if seg == other then AllUnder(seg, here) else Part(rest, other)
  {
    PartStep(seg, other, here, rest);
    assert AllUnder(seg, here) + [] == AllUnder(seg, here);
  }

  lemma OrderedDistinct(keys: set<string>)
    ensures Distinct(OrderedKeys(keys)) && forall k :: k in OrderedKeys(keys) <==> k in keys
  {
    EnumerateIsExact(KeyRank, keys);
    var ks := OrderedKeys(keys);
    forall i, j | 0 <= i < j < |ks| ensures ks[i] != ks[j] {
      PrecedesIsOrder(KeyRank, ks[i], ks[j], ks[j]);
      assert Precedes(KeyRank, ks[i], ks[j]);
    }
  }

  lemma PartOfKey(sp: Printer, a: Json, b: Json, k: string)
    requires a.Obj? && b.Obj?
    ensures Part(Diff(sp, a, b), Key(k)) == AllUnder(Key(k), DiffKey(sp, a, b, k))
  {
    var keys := a.fields.Keys + b.fields.Keys;
    OrderedDistinct(keys);
    PartKeys(sp, a, b, OrderedKeys(keys), k);
  }

  lemma PartOfName(sp: Printer, a: Json, b: Json, n: string)
    requires a.List? && b.List? && Named(sp, a.items) && Named(sp, b.items)
    ensures Part(Diff(sp, a, b), Name(n)) == AllUnder(Name(n), DiffName(sp, a, b, n))
  {
    var names := AllNames(sp, a.items, b.items);
    DistinctNames(sp, a.items, b.items);
    PartNames(sp, a, b, names, n);
    NewNamesAre(sp, a.items, b.items);
    InNames(sp, a.items, n);
    InNames(sp, b.items, n);
  }

  lemma PartOfItem(sp: Printer, a: Json, b: Json, i: nat)
    requires a.List? && b.List? && !(Named(sp, a.items) && Named(sp, b.items))
    ensures Part(Diff(sp, a, b), Index(i)) == AllUnder(Index(i), DiffItem(sp, a, b, i))
  {
    PartItems(sp, a, b, 0, i);
  }

  /** Equal but for the undeclared lines: `x` stands for the pruned `l`, or for anything else. */
  ghost predicate Agrees(sp: Printer, d: Json, x: Json, l: Json) {
    Diff(sp, d, x) == DropUndeclared(sp, d, Diff(sp, d, l))
  }

  lemma AgreesAtKey(sp: Printer, d: Json, x: Json, l: Json, k: string)
    requires d.Obj? && x.Obj? && l.Obj? && k in d.fields && Agrees(sp, d, x, l)
    ensures Agrees(sp, d.fields[k], At(x, k), At(l, k))
  {
    PartOfKey(sp, d, x, k);
    PartOfKey(sp, d, l, k);
    PartDrop(sp, d, Diff(sp, d, l), Key(k));
    DropUnder(sp, d, Key(k), d.fields[k], DiffKey(sp, d, l, k));
    UnderInjective(Key(k), DiffKey(sp, d, x, k), DropUndeclared(sp, d.fields[k], DiffKey(sp, d, l, k)));
  }

  lemma UndeclaredIsGone(sp: Printer, d: Json, x: Json, l: Json, k: string)
    requires d.Obj? && x.Obj? && l.Obj? && k !in d.fields && Agrees(sp, d, x, l)
    ensures At(x, k) == Null
  {
    PartOfKey(sp, d, x, k);
    PartOfKey(sp, d, l, k);
    PartDrop(sp, d, Diff(sp, d, l), Key(k));
    UndeclaredKey(sp, d, l, k);
    assert |AllUnder(Key(k), DiffKey(sp, d, x, k))| == 0;
  }

  lemma AgreesAtName(sp: Printer, d: Json, x: Json, l: Json, n: string)
    requires d.List? && x.List? && l.List? && Named(sp, d.items) && Named(sp, x.items) && Named(sp, l.items)
    requires Agrees(sp, d, x, l) && Find(sp, d.items, n) >= 0
    ensures DiffName(sp, d, x, n) == DropUndeclared(sp, d.items[Find(sp, d.items, n)], DiffName(sp, d, l, n))
  {
    var child := d.items[Find(sp, d.items, n)];
    PartOfName(sp, d, x, n);
    PartOfName(sp, d, l, n);
    PartDrop(sp, d, Diff(sp, d, l), Name(n));
    DropUnder(sp, d, Name(n), child, DiffName(sp, d, l, n));
    UnderInjective(Name(n), DiffName(sp, d, x, n), DropUndeclared(sp, child, DiffName(sp, d, l, n)));
  }

  lemma AgreesAtIndex(sp: Printer, d: Json, x: Json, l: Json, i: nat)
    requires d.List? && x.List? && l.List? && i < |d.items| && i < |x.items| && i < |l.items|
    requires !(Named(sp, d.items) && Named(sp, x.items)) && !(Named(sp, d.items) && Named(sp, l.items))
    requires Agrees(sp, d, x, l)
    ensures Agrees(sp, d.items[i], x.items[i], l.items[i])
  {
    PartOfItem(sp, d, x, i);
    PartOfItem(sp, d, l, i);
    PartDrop(sp, d, Diff(sp, d, l), Index(i));
    DropUnder(sp, d, Index(i), d.items[i], DiffItem(sp, d, l, i));
    UnderInjective(Index(i), DiffItem(sp, d, x, i), DropUndeclared(sp, d.items[i], DiffItem(sp, d, l, i)));
  }

  // ---- the lines of an item tell its name ----------------------------------

  lemma PlainFromDiff(sp: Printer, d: Json, x: Json, l: Json)
    requires PlainValue(d) && PlainValue(x) && PlainValue(l) && Agrees(sp, d, x, l)
    ensures x == l
  {
    RootStays(sp, d, Diff(sp, d, l));
  }

  lemma SameAtKey(sp: Printer, d: Json, x: Json, l: Json, k: string)
    requires d.Obj? && x.Obj? && l.Obj? && Agrees(sp, d, x, l)
    requires PlainValue(At(d, k)) && PlainValue(At(x, k)) && PlainValue(At(l, k))
    ensures At(x, k) == At(Prune(sp, l, d), k)
  {
    if k in d.fields {
      AgreesAtKey(sp, d, x, l, k);
      PlainFromDiff(sp, d.fields[k], At(x, k), At(l, k));
    } else {
      UndeclaredIsGone(sp, d, x, l, k);
    }
  }

  lemma NameFromKeys(sp: Printer, a: Json, b: Json)
    requires At(a, "name") == At(b, "name") && At(a, "key") == At(b, "key")
    requires At(a, "mountPath") == At(b, "mountPath") && At(a, "containerPort") == At(b, "containerPort")
    ensures ItemName(sp, a) == ItemName(sp, b)
  {
  }

  /** An item with the same declared lines as the live one has the name the live one is left with. */
  lemma SameLinesSameName(sp: Printer, d: Json, x: Json, l: Json)
    requires d.Obj? && x.Obj? && l.Obj? && PlainItem(d) && PlainItem(x) && PlainItem(l) && Agrees(sp, d, x, l)
    ensures ItemName(sp, x) == ItemName(sp, Prune(sp, l, d))
  {
    SameAtKey(sp, d, x, l, "name");
    SameAtKey(sp, d, x, l, "key");
    SameAtKey(sp, d, x, l, "mountPath");
    SameAtKey(sp, d, x, l, "containerPort");
    NameFromKeys(sp, x, Prune(sp, l, d));
  }

  /** A field of a live item that satisfies the declared one is left as declared. */
  lemma SatisfiedAtKey(sp: Printer, d: Json, l: Json, k: string)
    requires d.Obj? && l.Obj? && Satisfies(sp, d, l) && PlainValue(At(d, k)) && PlainValue(At(l, k))
    ensures At(Prune(sp, l, d), k) == At(d, k)
  {
    if k in d.fields {
      assert Satisfies(sp, d.fields[k], At(l, k));
    }
  }

  /** A live item with every declared field as declared is left with the declared name. */
  lemma SatisfiedKeepsName(sp: Printer, d: Json, l: Json)
    requires d.Obj? && PlainItem(d) && PlainItem(l) && Satisfies(sp, d, l)
    ensures l.Obj? && ItemName(sp, Prune(sp, l, d)) == ItemName(sp, d)
  {
    SatisfiedAtKey(sp, d, l, "name");
    SatisfiedAtKey(sp, d, l, "key");
    SatisfiedAtKey(sp, d, l, "mountPath");
    SatisfiedAtKey(sp, d, l, "containerPort");
    NameFromKeys(sp, d, Prune(sp, l, d));
  }

  // ---- lists ---------------------------------------------------------------

  /** Comparisons by name and by index have no line in common. */
  lemma ByNameOrByIndex(sp: Printer, d: Json, x: Json, l: Json)
    requires d.List? && x.List? && l.List? && Named(sp, d.items) && Agrees(sp, d, x, l)
    requires Named(sp, x.items) != Named(sp, l.items)
    ensures Diff(sp, d, x) == [] && Satisfies(sp, d, l)
  {
    SatisfiesIff(sp, d, l);
    var cs := Diff(sp, d, x);
    if cs != [] {
      FilterIff(Keeps(sp, d), Diff(sp, d, l), cs[0]);
      if Named(sp, x.items) {
        var n, e := NameLine(sp, d, x, AllNames(sp, d.items, x.items), cs[0]);
        var i, f := ItemLine(sp, d, l, 0, cs[0]);
      } else {
        var n, e := NameLine(sp, d, l, AllNames(sp, d.items, l.items), cs[0]);
        var i, f := ItemLine(sp, d, x, 0, cs[0]);
      }
    }
  }

  lemma ListPlain(v: Json, i: nat)
    requires v.List? && i < |v.items| && PlainDoc(v)
    ensures PlainItem(v.items[i]) && PlainDoc(v.items[i])
  {
  }

  /** Every item of a satisfied named list has its declared one and keeps its name. */
  lemma SatisfiedItem(sp: Printer, d: Json, l: Json, i: nat) returns (j: nat)
    requires d.List? && l.List? && Named(sp, d.items) && Named(sp, l.items) && PlainDoc(d) && PlainDoc(l)
    requires Satisfies(sp, d, l) && i < |l.items|
    ensures j < |d.items| && j == Partner(sp, l.items, d.items, i) && KeepsName(sp, l.items[i], d.items[j])
    ensures Satisfies(sp, d.items[j], l.items[i])
  {
    j := Find(sp, d.items, ItemName(sp, l.items[i]));
    NamedIsObject(sp, l.items, i);
    NamedIsObject(sp, d.items, j);
    ListPlain(d, j);
    ListPlain(l, i);
    SatisfiedKeepsName(sp, d.items[j], l.items[i]);
  }

  lemma SatisfiedStaysNamed(sp: Printer, d: Json, l: Json)
    requires d.List? && l.List? && Named(sp, d.items) && Named(sp, l.items) && PlainDoc(d) && PlainDoc(l)
    requires Satisfies(sp, d, l)
    ensures Named(sp, Prune(sp, l, d).items)
    ensures forall i :: 0 <= i < |l.items| ==>
              ItemName(sp, Prune(sp, l, d).items[i]) == ItemName(sp, l.items[i])
  {
    var p := Prune(sp, l, d);
    forall i | 0 <= i < |l.items| ensures ItemName(sp, p.items[i]) == ItemName(sp, l.items[i]) {
      var j := SatisfiedItem(sp, d, l, i);
    }
    SameNamesNamed(sp, p.items, l.items);
  }

  lemma ExactStaysNamed(sp: Printer, d: Json, l: Json)
    requires d.List? && l.List? && Named(sp, d.items) && Named(sp, l.items) && PlainDoc(d) && PlainDoc(l)
    requires Exact(sp, d, l)
    ensures Prune(sp, l, d).List? && Named(sp, Prune(sp, l, d).items)
  {
    if !Named(sp, Prune(sp, l, d).items) {
      ByNameOrByIndex(sp, d, Prune(sp, l, d), l);
      SatisfiedStaysNamed(sp, d, l);
    }
  }

  lemma PrunedPlain(sp: Printer, l: Json, d: Json, k: string)
    requires PlainValue(At(l, k))
    ensures PlainValue(At(Prune(sp, l, d), k))
  {
  }

  lemma PrunedItemPlain(sp: Printer, l: Json, d: Json, i: nat)
    requires d.List? && l.List? && i < |l.items| && PlainDoc(l)
    ensures PlainItem(Prune(sp, l, d).items[i])
  {
    ListPlain(l, i);
    var j := Partner(sp, l.items, d.items, i);
    if j >= 0 {
      PrunedPlain(sp, l.items[i], d.items[j], "name");
      PrunedPlain(sp, l.items[i], d.items[j], "key");
      PrunedPlain(sp, l.items[i], d.items[j], "mountPath");
      PrunedPlain(sp, l.items[i], d.items[j], "containerPort");
    }
  }

  /** The declared item is found again under its name, or its whole removal would be reported. */
  lemma StillFound(sp: Printer, d: Json, x: Json, l: Json, n: string)
    requires d.List? && x.List? && l.List? && Named(sp, d.items) && Named(sp, x.items) && Named(sp, l.items)
    requires Agrees(sp, d, x, l) && Find(sp, d.items, n) >= 0 && Find(sp, l.items, n) >= 0
    ensures Find(sp, x.items, n) >= 0
    ensures Agrees(sp, d.items[Find(sp, d.items, n)], x.items[Find(sp, x.items, n)], l.items[Find(sp, l.items, n)])
  {
    var i, j := Find(sp, d.items, n), Find(sp, l.items, n);
    NamedIsObject(sp, d.items, i);
    NamedIsObject(sp, l.items, j);
    AgreesAtName(sp, d, x, l, n);
    if Find(sp, x.items, n) < 0 {
      var c := DiffLeaf(d.items[i], Null)[0];
      assert c in DiffName(sp, d, x, n) && c.pos == [];
      FilterIff(Keeps(sp, d.items[i]), Diff(sp, d.items[i], l.items[j]), c);
      var k, e := KeyLine(sp, d.items[i], l.items[j], OrderedKeys(d.items[i].fields.Keys + l.items[j].fields.Keys), c);
    }
  }

  /** Where the equation holds for a named list, its items keep their names and it holds for them too. */
  lemma ItemIsExact(sp: Printer, d: Json, l: Json, i: nat)
    requires d.List? && l.List? && Named(sp, d.items) && Named(sp, l.items) && PlainDoc(d) && PlainDoc(l)
    requires Exact(sp, d, l) && i < |l.items| && Partner(sp, l.items, d.items, i) >= 0
    ensures var j := Partner(sp, l.items, d.items, i);
            KeepsName(sp, l.items[i], d.items[j]) && Exact(sp, d.items[j], l.items[i])
  {
    var p, n := Prune(sp, l, d), ItemName(sp, l.items[i]);
    var j := Find(sp, d.items, n);
    ExactStaysNamed(sp, d, l);
    NamedIsObject(sp, l.items, i);
    StillFound(sp, d, p, l, n);
    var f := Find(sp, p.items, n);
    NamedIsObject(sp, p.items, f);
    NamedIsObject(sp, d.items, j);
    PrunedItemPlain(sp, l, d, f);
    ListPlain(d, j);
    ListPlain(l, i);
    SameLinesSameName(sp, d.items[j], p.items[f], l.items[i]);
    assert p.items[i] == Prune(sp, l.items[i], d.items[j]);
    NamedIsObject(sp, p.items, i);
  }

  // ---- the theorems --------------------------------------------------------

  lemma {:induction false} ExactIsAligned(sp: Printer, declared: Json, live: Json)
    requires PlainDoc(declared) && PlainDoc(live) && Exact(sp, declared, live)
    ensures Aligned(sp, live, declared)
    decreases declared, 1
  {
    var p := Prune(sp, live, declared);
    if declared.Obj? && live.Obj? {
      forall k | k in declared.fields && k in live.fields ensures Aligned(sp, live.fields[k], declared.fields[k]) {
        AgreesAtKey(sp, declared, p, live, k);
        ExactIsAligned(sp, declared.fields[k], live.fields[k]);
      }
    } else if declared.List? && live.List? {
      forall i | 0 <= i < |live.items| ensures AlignedItem(sp, live, declared, i) {
        ItemIsAligned(sp, declared, live, i);
      }
      if NamedByPruning(sp, live, declared) {
        ByNameOrByIndex(sp, declared, p, live);
        SatisfiedNames(sp, declared, live);
      }
    }
  }

  lemma {:induction false} ItemIsAligned(sp: Printer, declared: Json, live: Json, i: nat)
    requires declared.List? && live.List? && i < |live.items|
    requires PlainDoc(declared) && PlainDoc(live) && Exact(sp, declared, live)
    ensures AlignedItem(sp, live, declared, i)
    decreases declared, 0
  {
    var j := Partner(sp, live.items, declared.items, i);
    if j >= 0 {
      ListPlain(declared, j);
      ListPlain(live, i);
      if Named(sp, declared.items) && Named(sp, live.items) {
        ItemIsExact(sp, declared, live, i);
      } else if NamedByPruning(sp, live, declared) {
        ByNameOrByIndex(sp, declared, Prune(sp, live, declared), live);
        assert Satisfies(sp, declared.items[i], ItemAt(live, i));
        SatisfiedIsExact(sp, declared.items[i], live.items[i]);
      } else {
        AgreesAtIndex(sp, declared, Prune(sp, live, declared), live, i);
      }
      ExactIsAligned(sp, declared.items[j], live.items[i]);
    }
  }

  lemma SatisfiedIsExact(sp: Printer, d: Json, l: Json)
    requires PlainDoc(d) && PlainDoc(l) && Satisfies(sp, d, l)
    ensures Exact(sp, d, l)
  {
    NoFalseDrift(sp, d, l);
    SatisfiesIff(sp, d, l);
  }

  lemma {:induction false} SatisfiedNames(sp: Printer, d: Json, l: Json)
    requires d.List? && l.List? && Named(sp, d.items) && !Named(sp, l.items)
    requires PlainDoc(d) && PlainDoc(l) && Satisfies(sp, d, l)
    ensures NamesAsDeclared(sp, l, d)
  {
    forall i | 0 <= i < |d.items| && i < |l.items|
      ensures ItemName(sp, Prune(sp, l.items[i], d.items[i])) == ItemName(sp, d.items[i]) {
      ListPlain(d, i);
      ListPlain(l, i);
      NamedIsObject(sp, d.items, i);
      assert Satisfies(sp, d.items[i], ItemAt(l, i));
      SatisfiedKeepsName(sp, d.items[i], l.items[i]);
    }
  }

  /** The drift equation holds exactly for aligned documents. */
  lemma DriftIsExact(sp: Printer, declared: Json, live: Json)
    requires PlainDoc(declared) && PlainDoc(live)
    ensures Diff(sp, declared, Prune(sp, live, declared)) == DropUndeclared(sp, declared, Diff(sp, declared, live))
       <==> Aligned(sp, live, declared)
  {
    if Aligned(sp, live, declared) {
      DriftIsDeclaredDiff(sp, declared, live);
    }
    if Exact(sp, declared, live) {
      ExactIsAligned(sp, declared, live);
    }
  }

  // ---- no false drift ------------------------------------------------------

  /**
   An object with every declared field as declared shows no drift, whatever
   else the server has filled in.
   */
  lemma {:induction false} NoFalseDrift(sp: Printer, declared: Json, live: Json)
    requires PlainDoc(declared) && PlainDoc(live) && Satisfies(sp, declared, live)
    ensures Diff(sp, declared, Prune(sp, live, declared)) == []
    decreases declared, 1
  {
    var p := Prune(sp, live, declared);
    if declared.Obj? && live.Obj? {
      var keys := declared.fields.Keys + p.fields.Keys;
      OrderedDistinct(keys);
      forall k | k in OrderedKeys(keys) ensures DiffKey(sp, declared, p, k) == [] {
        assert Satisfies(sp, declared.fields[k], At(live, k));
        NoFalseDrift(sp, declared.fields[k], At(live, k));
      }
      KeysEmpty(sp, declared, p, OrderedKeys(keys));
    } else if declared.List? && live.List? && Named(sp, declared.items) && Named(sp, live.items) {
      SatisfiedStaysNamed(sp, declared, live);
      var names := AllNames(sp, declared.items, p.items);
      forall n | n in names ensures DiffName(sp, declared, p, n) == [] {
        NoFalseName(sp, declared, live, n);
      }
      NamesEmpty(sp, declared, p, names);
    } else if declared.List? && live.List? {
      NoFalseItems(sp, declared, live);
    }
  }

  lemma {:induction false} FoundInPruned(sp: Printer, d: Json, l: Json, n: string)
    requires d.List? && l.List? && Named(sp, d.items) && Named(sp, l.items) && PlainDoc(d) && PlainDoc(l)
    requires Satisfies(sp, d, l)
    ensures Find(sp, Prune(sp, l, d).items, n) == Find(sp, l.items, n)
  {
    SatisfiedStaysNamed(sp, d, l);
    FindFromSame(sp, l.items, Prune(sp, l, d).items, n, 0);
  }

  lemma {:induction false} NoFalseName(sp: Printer, d: Json, l: Json, n: string)
    requires d.List? && l.List? && Named(sp, d.items) && Named(sp, l.items) && PlainDoc(d) && PlainDoc(l)
    requires Satisfies(sp, d, l)
    ensures DiffName(sp, d, Prune(sp, l, d), n) == []
    decreases d, 0
  {
    FoundInPruned(sp, d, l, n);
    SatisfiedName(sp, d, l, n);
    var j := Find(sp, l.items, n);
    if j >= 0 {
      var k := SatisfiedItem(sp, d, l, j);
      ListPlain(d, k);
      ListPlain(l, j);
      NoFalseDrift(sp, d.items[k], l.items[j]);
    }
  }

  lemma {:induction false} NoFalseItem(sp: Printer, d: Json, l: Json, i: nat)
    requires d.List? && l.List? && !(Named(sp, d.items) && Named(sp, l.items)) && PlainDoc(d) && PlainDoc(l)
    requires Satisfies(sp, d, l)
    ensures DiffItem(sp, d, Prune(sp, l, d), i) == []
    decreases d, 0, 0
  {
    if i < |d.items| {
      ListPlain(d, i);
      if i < |l.items| {
        ListPlain(l, i);
      }
      assert Satisfies(sp, d.items[i], ItemAt(l, i));
      NoFalseDrift(sp, d.items[i], ItemAt(l, i));
    }
  }

  lemma {:induction false} NoFalseItems(sp: Printer, d: Json, l: Json)
    requires d.List? && l.List? && !(Named(sp, d.items) && Named(sp, l.items)) && PlainDoc(d) && PlainDoc(l)
    requires Satisfies(sp, d, l)
    ensures Diff(sp, d, Prune(sp, l, d)) == []
    decreases d, 0, 1
  {
    var p := Prune(sp, l, d);
    forall i: nat ensures DiffItem(sp, d, p, i) == [] {
      NoFalseItem(sp, d, l, i);
    }
    ItemsEmpty(sp, d, p, 0);
    if NamedByPruning(sp, l, d) {
      SatisfiedNames(sp, d, l);
      QuietByName(sp, d, l);
    }
  }

  // ---- hidden drift --------------------------------------------------------

  function Keyed(key: Json): Json {
    Obj(map["key" := key])
  }

  function Called(name: Json, key: Json): Json {
    Obj(map["name" := name, "key" := key])
  }

  lemma PrunedCalled(sp: Printer, s: Json, t: Json)
    requires t.Str?
    ensures Prune(sp, Called(s, t), Keyed(s)) == Keyed(t)
  {
    var p := Prune(sp, Called(s, t), Keyed(s));
    assert p.fields.Keys == {"key"} && p.fields["key"] == Prune(sp, t, s) == t;
  }

  /**
   Where pruning changes names, a difference can disappear: two items declared
   by "key", called by the other's key in the live object, trade places.
   */
  lemma PermutedNamesHideDrift(sp: Printer, s: Json, t: Json)
    requires s.Str? && t.Str? && sp(s) != sp(t) && sp(s) != "" && sp(t) != ""
    ensures var d, l := List([Keyed(s), Keyed(t)]), List([Called(s, t), Called(t, s)]);
            Diff(sp, d, Prune(sp, l, d)) == [] && !Satisfies(sp, d, l) && !Aligned(sp, l, d)
  {
    var d, l := List([Keyed(s), Keyed(t)]), List([Called(s, t), Called(t, s)]);
    CalledPair(sp, s, t);
    TwoItems(sp, Keyed(s), Keyed(t));
    NamedReorder(sp, Keyed(s), Keyed(t));
    if Aligned(sp, l, d) {
      DriftIsDeclaredDiff(sp, d, l);
      SatisfiesIff(sp, d, l);
    }
  }

  lemma CalledPair(sp: Printer, s: Json, t: Json)
    requires s.Str? && t.Str? && sp(s) != sp(t) && sp(s) != "" && sp(t) != ""
    ensures var d, l := List([Keyed(s), Keyed(t)]), List([Called(s, t), Called(t, s)]);
            Prune(sp, l, d) == List([Keyed(t), Keyed(s)]) && !Satisfies(sp, d, l)
  {
    var d, l := List([Keyed(s), Keyed(t)]), List([Called(s, t), Called(t, s)]);
    CalledNames(sp, s, t);
    PrunedCalled(sp, s, t);
    PrunedCalled(sp, t, s);
    assert Prune(sp, l, d).items == [Keyed(t), Keyed(s)];
    NotSatisfied(sp, s, t);
    assert d.items[0] == Keyed(s);
  }

  lemma CalledNames(sp: Printer, s: Json, t: Json)
    requires s.Str? && t.Str? && sp(s) != sp(t) && sp(s) != "" && sp(t) != ""
    ensures var xs, ys := [Keyed(s), Keyed(t)], [Called(s, t), Called(t, s)];
            && Named(sp, xs) && Named(sp, ys) && Find(sp, ys, ItemName(sp, xs[0])) == 0
            && Partner(sp, ys, xs, 0) == 0 && Partner(sp, ys, xs, 1) == 1
  {
    var xs, ys := [Keyed(s), Keyed(t)], [Called(s, t), Called(t, s)];
    assert ItemName(sp, xs[0]) == sp(s) == ItemName(sp, ys[0]) && ItemName(sp, xs[1]) == sp(t) == ItemName(sp, ys[1]);
    PairName(sp, xs[0], xs[1], sp(s));
    PairName(sp, xs[0], xs[1], sp(t));
    PairName(sp, ys[0], ys[1], sp(s));
  }

  lemma NotSatisfied(sp: Printer, s: Json, t: Json)
    requires s.Str? && t.Str? && s != t
    ensures !Satisfies(sp, Keyed(s), Called(s, t))
  {
    assert "key" in Keyed(s).fields && !Satisfies(sp, Keyed(s).fields["key"], At(Called(s, t), "key"));
  }

  /**
   An item declared by "key" and called by "name" in the live object loses its
   name to pruning, and the drift is then not what the live comparison says.
   */
  lemma {:induction false} DriftNeedsSameIdentity(sp: Printer, s: Json, t: Json)
    requires s.Str? && t.Str? && sp(s) != sp(t) && sp(s) != ""
    ensures var d, l := List([Keyed(s)]), List([Called(s, t)]);
            && Diff(sp, d, Prune(sp, l, d)) != DropUndeclared(sp, d, Diff(sp, d, l))
            && !SameIdentity(Called(s, t), Keyed(s))
  {
    LosesItsName(sp, s, t);
    PlainKeyed(s, t);
    DriftIsExact(sp, List([Keyed(s)]), List([Called(s, t)]));
  }

  lemma PlainKeyed(s: Json, t: Json)
    requires s.Str? && t.Str?
    ensures PlainDoc(List([Keyed(s)])) && PlainDoc(List([Called(s, t)]))
  {
    assert PlainItem(Keyed(s)) && PlainItem(Called(s, t));
    assert PlainDoc(Keyed(s)) && PlainDoc(Called(s, t));
  }

  lemma {:induction false} LosesItsName(sp: Printer, s: Json, t: Json)
    requires s.Str? && t.Str? && sp(s) != sp(t) && sp(s) != ""
    ensures !Aligned(sp, List([Called(s, t)]), List([Keyed(s)]))
  {
    var d, l := List([Keyed(s)]), List([Called(s, t)]);
    assert ItemName(sp, Keyed(s)) == sp(s) == ItemName(sp, Called(s, t));
    assert Named(sp, d.items) && Named(sp, l.items);
    assert Partner(sp, l.items, d.items, 0) == 0;
    PrunedCalled(sp, s, t);
    assert !KeepsName(sp, Called(s, t), Keyed(s));
    assert !AlignedItem(sp, l, d, 0);
  }
}
