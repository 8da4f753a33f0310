/** Laws of the comparison: symmetry, and what an empty difference means. */
module CompareLaws {
  import opened Options
  import opened Json
  import opened KeyOrder
  import opened Compare

  // ---- symmetry ------------------------------------------------------------

  function SwapType(k: ChangeType): ChangeType {
    match k
    case OnlyInA => OnlyInB
    case OnlyInB => OnlyInA
    case Changed => Changed
  }

  function Swap(c: Change): Change {
    Change(c.pos, SwapType(c.kind), c.b, c.a)
  }

  function SwapAll(cs: seq<Change>): (r: seq<Change>)
    ensures |r| == |cs| && forall i :: 0 <= i < |cs| ==> r[i] == Swap(cs[i])
  {
    seq(|cs|, i requires 0 <= i < |cs| => Swap(cs[i]))
  }

  /** The second list is the first with its sides swapped, up to order. */
  ghost predicate Mirrored(xs: seq<Change>, ys: seq<Change>) {
    multiset(ys) == multiset(SwapAll(xs))
  }

  lemma MirroredConcat(xs: seq<Change>, ys: seq<Change>, xs': seq<Change>, ys': seq<Change>)
    requires Mirrored(xs, ys) && Mirrored(xs', ys')
    ensures Mirrored(xs + xs', ys + ys')
  {
    assert SwapAll(xs + xs') == SwapAll(xs) + SwapAll(xs');
  }

  /** The head of a list occurs in any rearrangement of it, and the rest rearranges the rest. */
  lemma FindHead<T>(xs: seq<T>, ys: seq<T>) returns (i: nat)
    requires |xs| > 0 && multiset(xs) == multiset(ys)
    ensures i < |ys| && ys[i] == xs[0]
    ensures ys == ys[..i] + ([ys[i]] + ys[i + 1..])
    ensures multiset(xs[1..]) == multiset(ys[..i] + ys[i + 1..])
  {
    assert xs[0] in multiset(ys);
    i :| 0 <= i < |ys| && ys[i] == xs[0];
    assert ys == ys[..i] + ([ys[i]] + ys[i + 1..]);
    assert xs == [xs[0]] + xs[1..];
    assert multiset(xs) == multiset{xs[0]} + multiset(xs[1..]);
    assert multiset(ys) == multiset(ys[..i]) + (multiset{ys[i]} + multiset(ys[i + 1..]));
    assert multiset(xs[1..]) == multiset(xs) - multiset{xs[0]};
    assert multiset(ys[..i] + ys[i + 1..]) == multiset(ys) - multiset{ys[i]};
  }

  lemma UnderHead(seg: Seg, cs: seq<Change>)
    requires |cs| > 0
    ensures multiset(cs) == multiset{cs[0]} + multiset(cs[1..])
    ensures multiset(AllUnder(seg, cs)) == multiset{Under(seg, cs[0])} + multiset(AllUnder(seg, cs[1..]))
    ensures Under(seg, cs[0]).pos[1..] == cs[0].pos
  {
    assert cs == [cs[0]] + cs[1..];
    assert AllUnder(seg, cs) == [Under(seg, cs[0])] + AllUnder(seg, cs[1..]);
  }

  /** Moving changes below a segment keeps how often each occurs. */
  lemma {:induction false} UnderCount(seg: Seg, cs: seq<Change>, c: Change)
    ensures multiset(AllUnder(seg, cs))[c] ==
            if |c.pos| > 0 && c.pos[0] == seg then multiset(cs)[c.(pos := c.pos[1..])] else 0
    decreases |cs|
  {
    if |cs| > 0 {
      UnderCount(seg, cs[1..], c);
      UnderHead(seg, cs);
      if |c.pos| > 0 && c.pos[0] == seg {
        assert c.pos == [seg] + c.pos[1..];
      }
    }
  }

  lemma UnderMultiset(seg: Seg, xs: seq<Change>, ys: seq<Change>)
    requires multiset(xs) == multiset(ys)
    ensures multiset(AllUnder(seg, xs)) == multiset(AllUnder(seg, ys))
  {
    forall c ensures multiset(AllUnder(seg, xs))[c] == multiset(AllUnder(seg, ys))[c] {
      UnderCount(seg, xs, c);
      UnderCount(seg, ys, c);
    }
  }

  lemma MirroredUnder(seg: Seg, xs: seq<Change>, ys: seq<Change>)
    requires Mirrored(xs, ys)
    ensures Mirrored(AllUnder(seg, xs), AllUnder(seg, ys))
  {
    UnderMultiset(seg, ys, SwapAll(xs));
    assert SwapAll(AllUnder(seg, xs)) == AllUnder(seg, SwapAll(xs));
  }

  lemma {:induction false} DiffIsSymmetric(sp: Printer, a: Json, b: Json)
    ensures Mirrored(Diff(sp, a, b), Diff(sp, b, a))
    decreases a, 2
  {
    if a == Null || b == Null {
    } else if a.Obj? && b.Obj? {
      ObjectsSymmetric(sp, a, b);
    } else if a.List? && b.List? {
      ListsSymmetric(sp, a, b);
    }
  }

  lemma {:induction false} ObjectsSymmetric(sp: Printer, a: Json, b: Json)
    requires a.Obj? && b.Obj?
    ensures Mirrored(Diff(sp, a, b), Diff(sp, b, a))
    decreases a, 1
  {
    assert a.fields.Keys + b.fields.Keys == b.fields.Keys + a.fields.Keys;
    KeysSymmetric(sp, a, b, OrderedKeys(a.fields.Keys + b.fields.Keys));
  }

  lemma {:induction false} ListsSymmetric(sp: Printer, a: Json, b: Json)
    requires a.List? && b.List?
    ensures Mirrored(Diff(sp, a, b), Diff(sp, b, a))
    decreases a, 1
  {
    if Named(sp, a.items) && Named(sp, b.items) {
      NamesSymmetric(sp, a, b, AllNames(sp, a.items, b.items));
      AllNamesOnce(sp, a.items, b.items);
      NamesPermute(sp, b, a, AllNames(sp, a.items, b.items), AllNames(sp, b.items, a.items));
    } else {
      ItemsSymmetric(sp, a, b, 0);
    }
  }

  lemma {:induction false} KeysSymmetric(sp: Printer, a: Json, b: Json, keys: seq<string>)
    requires a.Obj? && b.Obj?
    ensures Mirrored(DiffKeys(sp, a, b, keys), DiffKeys(sp, b, a, keys))
    decreases a, 0, |keys|
  {
    if |keys| > 0 {
      KeySymmetric(sp, a, b, keys[0]);
      MirroredUnder(Key(keys[0]), DiffKey(sp, a, b, keys[0]), DiffKey(sp, b, a, keys[0]));
      KeysSymmetric(sp, a, b, keys[1..]);
      MirroredConcat(AllUnder(Key(keys[0]), DiffKey(sp, a, b, keys[0])), AllUnder(Key(keys[0]), DiffKey(sp, b, a, keys[0])),
                     DiffKeys(sp, a, b, keys[1..]), DiffKeys(sp, b, a, keys[1..]));
    }
  }

  lemma {:induction false} KeySymmetric(sp: Printer, a: Json, b: Json, k: string)
    requires a.Obj? && b.Obj?
    ensures Mirrored(DiffKey(sp, a, b, k), DiffKey(sp, b, a, k))
    decreases a, 0, 0
  {
    if k in a.fields && k in b.fields {
      DiffIsSymmetric(sp, a.fields[k], b.fields[k]);
    }
  }

  lemma {:induction false} NamesSymmetric(sp: Printer, a: Json, b: Json, names: seq<string>)
    requires a.List? && b.List?
    ensures Mirrored(DiffNames(sp, a, b, names), DiffNames(sp, b, a, names))
    decreases a, 0, |names|
  {
    if |names| > 0 {
      var n := names[0];
      NameSymmetric(sp, a, b, n);
      MirroredUnder(Name(n), DiffName(sp, a, b, n), DiffName(sp, b, a, n));
      NamesSymmetric(sp, a, b, names[1..]);
      MirroredConcat(AllUnder(Name(n), DiffName(sp, a, b, n)), AllUnder(Name(n), DiffName(sp, b, a, n)),
                     DiffNames(sp, a, b, names[1..]), DiffNames(sp, b, a, names[1..]));
    }
  }

  lemma {:induction false} NameSymmetric(sp: Printer, a: Json, b: Json, n: string)
    requires a.List? && b.List?
    ensures Mirrored(DiffName(sp, a, b, n), DiffName(sp, b, a, n))
    decreases a, 0, 0
  {
    var i, j := Find(sp, a.items, n), Find(sp, b.items, n);
    if i >= 0 && j >= 0 {
      DiffIsSymmetric(sp, a.items[i], b.items[j]);
    }
  }

  lemma ItemsNext(sp: Printer, a: Json, b: Json, i: nat)
    requires a.List? && b.List? && (i < |a.items| || i < |b.items|)
    ensures DiffItems(sp, a, b, i) == AllUnder(Index(i), DiffItem(sp, a, b, i)) + DiffItems(sp, a, b, i + 1)
  {
  }

  lemma {:induction false} ItemsSymmetric(sp: Printer, a: Json, b: Json, i: nat)
    requires a.List? && b.List?
    ensures Mirrored(DiffItems(sp, a, b, i), DiffItems(sp, b, a, i))
    decreases a, 0, |a.items| + |b.items| - i
  {
    if i < |a.items| || i < |b.items| {
      ItemSymmetric(sp, a, b, i);
      ItemsSymmetric(sp, a, b, i + 1);
      ItemsNext(sp, a, b, i);
      ItemsNext(sp, b, a, i);
      MirroredUnder(Index(i), DiffItem(sp, a, b, i), DiffItem(sp, b, a, i));
      MirroredConcat(AllUnder(Index(i), DiffItem(sp, a, b, i)), AllUnder(Index(i), DiffItem(sp, b, a, i)),
                     DiffItems(sp, a, b, i + 1), DiffItems(sp, b, a, i + 1));
    }
  }

  lemma {:induction false} ItemSymmetric(sp: Printer, a: Json, b: Json, i: nat)
    requires a.List? && b.List?
    ensures Mirrored(DiffItem(sp, a, b, i), DiffItem(sp, b, a, i))
    decreases a, 0, 0
  {
    if i < |a.items| && i < |b.items| {
      DiffIsSymmetric(sp, a.items[i], b.items[i]);
    }
  }

  // The names come in the first list's order, so the two comparisons list them differently.

  lemma {:induction false} NamesConcat(sp: Printer, a: Json, b: Json, xs: seq<string>, ys: seq<string>)
    requires a.List? && b.List?
    ensures DiffNames(sp, a, b, xs + ys) == DiffNames(sp, a, b, xs) + DiffNames(sp, a, b, ys)
    decreases |xs|
  {
    if |xs| == 0 {
      assert xs + ys == ys;
    } else {
      assert (xs + ys)[1..] == xs[1..] + ys;
      NamesConcat(sp, a, b, xs[1..], ys);
    }
  }

  lemma {:induction false} NamesPermute(sp: Printer, a: Json, b: Json, xs: seq<string>, ys: seq<string>)
    requires a.List? && b.List? && multiset(xs) == multiset(ys)
    ensures multiset(DiffNames(sp, a, b, xs)) == multiset(DiffNames(sp, a, b, ys))
    decreases |xs|
  {
    if |xs| == 0 {
      assert |multiset(ys)| == 0;
    } else {
      var i := FindHead(xs, ys);
      NamesPermute(sp, a, b, xs[1..], ys[..i] + ys[i + 1..]);
      NamesConcat(sp, a, b, ys[..i], ys[i + 1..]);
      NamesConcat(sp, a, b, ys[..i], [ys[i]] + ys[i + 1..]);
      assert ([ys[i]] + ys[i + 1..])[1..] == ys[i + 1..];
    }
  }

  /** Either way round, every name of the two lists appears exactly once. */
  lemma AllNamesOnce(sp: Printer, xs: seq<Json>, ys: seq<Json>)
    requires Named(sp, xs) && Named(sp, ys)
    ensures multiset(AllNames(sp, xs, ys)) == multiset(AllNames(sp, ys, xs))
  {
    var p, q := AllNames(sp, xs, ys), AllNames(sp, ys, xs);
    NewNamesAre(sp, xs, ys);
    NewNamesAre(sp, ys, xs);
    DistinctNames(sp, xs, ys);
    DistinctNames(sp, ys, xs);
    forall n ensures multiset(p)[n] == multiset(q)[n] {
      OccursOnce(p, n);
      OccursOnce(q, n);
      InNames(sp, xs, n);
      InNames(sp, ys, n);
      assert n in p <==> n in q;
    }
  }

  lemma InNames(sp: Printer, xs: seq<Json>, n: string)
    ensures n in NamesOf(sp, xs) <==> Find(sp, xs, n) >= 0
  {
    if Find(sp, xs, n) >= 0 {
      assert NamesOf(sp, xs)[Find(sp, xs, n)] == n;
    }
  }

  lemma {:induction false} NewNamesAre(sp: Printer, xs: seq<Json>, ys: seq<Json>)
    ensures forall n :: n in NewNames(sp, xs, ys) <==> n in NamesOf(sp, ys) && Find(sp, xs, n) < 0
    decreases |ys|
  {
    if |ys| > 0 {
      NewNamesAre(sp, xs, ys[1..]);
      assert NamesOf(sp, ys) == [ItemName(sp, ys[0])] + NamesOf(sp, ys[1..]);
    }
  }

  ghost predicate Distinct(xs: seq<string>) {
    forall i, j :: 0 <= i < j < |xs| ==> xs[i] != xs[j]
  }

  lemma {:induction false} NewNamesDistinct(sp: Printer, xs: seq<Json>, ys: seq<Json>)
    requires Distinct(NamesOf(sp, ys))
    ensures Distinct(NewNames(sp, xs, ys))
    decreases |ys|
  {
    if |ys| > 0 {
      var ns := NamesOf(sp, ys);
      assert NamesOf(sp, ys[1..]) == ns[1..];
      NewNamesDistinct(sp, xs, ys[1..]);
      NewNamesAre(sp, xs, ys[1..]);
      assert ItemName(sp, ys[0]) !in ns[1..];
    }
  }

  lemma DistinctNames(sp: Printer, xs: seq<Json>, ys: seq<Json>)
    requires Named(sp, xs) && Named(sp, ys)
    ensures Distinct(AllNames(sp, xs, ys))
  {
    NewNamesAre(sp, xs, ys);
    NewNamesDistinct(sp, xs, ys);
    var xn, yn := NamesOf(sp, xs), NewNames(sp, xs, ys);
    forall i, j | 0 <= i < j < |xn + yn| ensures (xn + yn)[i] != (xn + yn)[j] {
      if i < |xn| <= j {
        assert yn[j - |xn|] in yn;
        InNames(sp, xs, xn[i]);
      }
    }
  }

  lemma {:induction false} OccursOnce(xs: seq<string>, n: string)
    requires Distinct(xs)
    ensures multiset(xs)[n] == if n in xs then 1 else 0
    decreases |xs|
  {
    if |xs| > 0 {
      assert xs == [xs[0]] + xs[1..];
      OccursOnce(xs[1..], n);
    }
  }
}
