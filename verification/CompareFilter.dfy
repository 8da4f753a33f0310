/** The lines of a comparison at map keys that the declared document does not have, and dropping them. */
module CompareFilter {
  import opened Collections
  import opened Json
  import opened Compare

  /** The position is a map key that the declared document's map at that place lacks. */
  predicate Undeclared(sp: Printer, d: Json, pos: seq<Seg>)
    decreases |pos|
  {
    if |pos| == 0 then false else
    match pos[0]
    case Key(k) => d.Obj? && (if k in d.fields then Undeclared(sp, d.fields[k], pos[1..]) else |pos| == 1)
    case Name(n) => d.List? && Find(sp, d.items, n) >= 0 && Undeclared(sp, d.items[Find(sp, d.items, n)], pos[1..])
    case Index(i) => d.List? && i < |d.items| && Undeclared(sp, d.items[i], pos[1..])
  }

  function Filter(keep: Change -> bool, cs: seq<Change>): seq<Change> {
    if |cs| == 0 then []
    else (if keep(cs[0]) then [cs[0]] else []) + Filter(keep, cs[1..])
  }

  function Keeps(sp: Printer, d: Json): Change -> bool {
    (c: Change) => !Undeclared(sp, d, c.pos)
  }

  function DropUndeclared(sp: Printer, d: Json, cs: seq<Change>): seq<Change> {
    Filter(Keeps(sp, d), cs)
  }

  // ---- filtering -----------------------------------------------------------

  lemma {:induction false} FilterConcat(keep: Change -> bool, xs: seq<Change>, ys: seq<Change>)
    ensures Filter(keep, xs + ys) == Filter(keep, xs) + Filter(keep, ys)
  {
    if |xs| == 0 {
      assert xs + ys == ys;
    } else {
      FilterConcat(keep, xs[1..], ys);
      assert (xs + ys)[1..] == xs[1..] + ys && (xs + ys)[0] == xs[0];
      Associate(if keep(xs[0]) then [xs[0]] else [], Filter(keep, xs[1..]), Filter(keep, ys));
    }
  }

  lemma {:induction false} FilterIff(keep: Change -> bool, cs: seq<Change>, c: Change)
    ensures c in Filter(keep, cs) <==> c in cs && keep(c)
  {
    if |cs| > 0 {
      FilterIff(keep, cs[1..], c);
      assert cs == [cs[0]] + cs[1..];
    }
  }

  lemma FilterOne(keep: Change -> bool, cs: seq<Change>)
    requires |cs| == 1
    ensures Filter(keep, cs) == if keep(cs[0]) then cs else []
  {
    assert cs[1..] == [];
  }

  lemma DropConcat(sp: Printer, d: Json, xs: seq<Change>, ys: seq<Change>)
    ensures DropUndeclared(sp, d, xs + ys) == DropUndeclared(sp, d, xs) + DropUndeclared(sp, d, ys)
  {
    FilterConcat(Keeps(sp, d), xs, ys);
  }

  /** Filtering commutes with moving changes below a segment. */
  lemma {:induction false} FilterUnder(keep: Change -> bool, keepChild: Change -> bool, seg: Seg, cs: seq<Change>)
    requires forall i :: 0 <= i < |cs| ==> keep(Under(seg, cs[i])) == keepChild(cs[i])
    ensures Filter(keep, AllUnder(seg, cs)) == AllUnder(seg, Filter(keepChild, cs))
  {
    if |cs| > 0 {
      FilterUnder(keep, keepChild, seg, cs[1..]);
      assert AllUnder(seg, cs)[1..] == AllUnder(seg, cs[1..]);
      AllUnderConcat(seg, if keepChild(cs[0]) then [cs[0]] else [], Filter(keepChild, cs[1..]));
    }
  }

  /** Below one segment, filtering depends on what the declared document has there. */
  lemma DropUnder(sp: Printer, d: Json, seg: Seg, child: Json, cs: seq<Change>)
    requires match seg
             case Key(k) => d.Obj? && k in d.fields && d.fields[k] == child
             case Name(n) => d.List? && Find(sp, d.items, n) >= 0 && d.items[Find(sp, d.items, n)] == child
             case Index(i) => d.List? && i < |d.items| && d.items[i] == child
    ensures DropUndeclared(sp, d, AllUnder(seg, cs)) == AllUnder(seg, DropUndeclared(sp, child, cs))
  {
    forall i | 0 <= i < |cs|
      ensures Undeclared(sp, d, Under(seg, cs[i]).pos) == Undeclared(sp, child, cs[i].pos)
    {
      assert Under(seg, cs[i]).pos[1..] == cs[i].pos;
    }
    FilterUnder(Keeps(sp, d), Keeps(sp, child), seg, cs);
  }

  lemma AllUnderConcat(seg: Seg, xs: seq<Change>, ys: seq<Change>)
    ensures AllUnder(seg, xs + ys) == AllUnder(seg, xs) + AllUnder(seg, ys)
  {
  }

  /** A difference at the root itself is never an undeclared addition. */
  lemma RootStays(sp: Printer, d: Json, cs: seq<Change>)
    requires |cs| <= 1 && (|cs| == 1 ==> cs[0].pos == [])
    ensures DropUndeclared(sp, d, cs) == cs
  {
    if |cs| == 1 {
      FilterOne(Keeps(sp, d), cs);
    }
  }

  lemma UndeclaredKey(sp: Printer, d: Json, l: Json, k: string)
    requires d.Obj? && l.Obj? && k !in d.fields
    ensures DropUndeclared(sp, d, AllUnder(Key(k), DiffKey(sp, d, l, k))) == []
  {
    var cs := AllUnder(Key(k), DiffKey(sp, d, l, k));
    if |cs| > 0 {
      assert |cs| == 1 && cs[0].pos == [Key(k)] + [] == [Key(k)];
      assert Undeclared(sp, d, cs[0].pos);
      FilterOne(Keeps(sp, d), cs);
    }
  }

  /** An item the declared list does not have is reported whole. */
  lemma ExtraStays(sp: Printer, d: Json, seg: Seg, item: Json)
    requires d.List? && !seg.Key?
    requires seg.Name? ==> Find(sp, d.items, seg.n) == -1
    requires seg.Index? ==> seg.i >= |d.items|
    ensures DropUndeclared(sp, d, AllUnder(seg, DiffLeaf(Null, item))) == AllUnder(seg, DiffLeaf(Null, item))
  {
    var cs := AllUnder(seg, DiffLeaf(Null, item));
    if |cs| == 1 {
      assert cs[0].pos[0] == seg;
      FilterOne(Keeps(sp, d), cs);
    }
  }
}
