/** The reporting loop `diffAt`, and that no two of its lines have the same path. */
module CompareReport {
  import opened Options
  import opened Json
  import opened KeyOrder
  import opened Compare
  import opened ComparePaths
  import opened CompareLaws

  datatype FieldChange = FieldChange(path: string, kind: ChangeType, a: Option<Json>, b: Option<Json>)

  function Line(path: string, c: Change): FieldChange {
    FieldChange(PathFrom(path, c.pos), c.kind, c.a, c.b)
  }

  function Report(path: string, cs: seq<Change>): (r: seq<FieldChange>)
    ensures |r| == |cs|
    ensures forall i {:trigger r[i]} :: 0 <= i < |cs| ==> r[i] == Line(path, cs[i])
  {
    seq(|cs|, i requires 0 <= i < |cs| => Line(path, cs[i]))
  }

  lemma ReportConcat(path: string, xs: seq<Change>, ys: seq<Change>)
    ensures Report(path, xs + ys) == Report(path, xs) + Report(path, ys)
  {
  }

  lemma ReportUnder(path: string, seg: Seg, cs: seq<Change>)
    ensures Report(path, AllUnder(seg, cs)) == Report(Extend(path, seg), cs)
  {
    var l, r := Report(path, AllUnder(seg, cs)), Report(Extend(path, seg), cs);
    forall i | 0 <= i < |cs| ensures l[i] == r[i] {
      var c := AllUnder(seg, cs)[i];
      assert c.pos[0] == seg && c.pos[1..] == cs[i].pos;
    }
  }

  class ChangeList {
    var out: seq<FieldChange>

    constructor ()
      ensures out == []
    {
      out := [];
    }

    /** Appends the differences of a and b, with paths below `path`. */
    method DiffAt(sp: Printer, path: string, a: Json, b: Json)
      modifies this
      ensures out == old(out) + Report(path, Diff(sp, a, b))
      decreases a, 1
    {
      if a == Null || b == Null {
        AddMissing(path, a, b);
      } else if a.Obj? && b.Obj? {
        AddKeys(sp, path, a, b);
      } else if a.List? && b.List? {
        if Named(sp, a.items) && Named(sp, b.items) {
          AddNames(sp, path, a, b);
        } else {
          AddItems(sp, path, a, b);
        }
      } else if !LooseEqual(a, b) {
        out := out + [FieldChange(path, Changed, Some(a), Some(b))];
      }
    }

    /** The first lines of `diffAt`: a side that is missing. */
    method AddMissing(path: string, a: Json, b: Json)
      requires a == Null || b == Null
      modifies this
      ensures out == old(out) + Report(path, DiffLeaf(a, b))
    {
      if a == Null && b == Null {
        return;
      }
      if a == Null {
        out := out + [FieldChange(path, OnlyInB, None, Some(b))];
      } else {
        out := out + [FieldChange(path, OnlyInA, Some(a), None)];
      }
    }

    method AddKeys(sp: Printer, path: string, a: Json, b: Json)
      requires a.Obj? && b.Obj?
      modifies this
      ensures out == old(out) + Report(path, DiffKeys(sp, a, b, OrderedKeys(a.fields.Keys + b.fields.Keys)))
      decreases a, 0, 1
    {
      var keys := SortKeys(KeyRank, a.fields.Keys + b.fields.Keys);
      ghost var whole := out + Report(path, DiffKeys(sp, a, b, keys));
      assert keys[0..] == keys;
      for i := 0 to |keys|
        invariant out + Report(path, DiffKeys(sp, a, b, keys[i..])) == whole
      {
        KeysStep(sp, path, a, b, keys, i);
        ghost var before := out;
        AddKey(sp, Extend(path, Key(keys[i])), a, b, keys[i]);
        Regroup(before, out, Report(path, DiffKeys(sp, a, b, keys[i + 1..])));
      }
      assert DiffKeys(sp, a, b, keys[|keys|..]) == [];
    }

    method AddKey(sp: Printer, path: string, a: Json, b: Json, k: string)
      requires a.Obj? && b.Obj?
      modifies this
      ensures out == old(out) + Report(path, DiffKey(sp, a, b, k))
      decreases a, 0, 0
    {
      if k in a.fields && k in b.fields {
        DiffAt(sp, path, a.fields[k], b.fields[k]);
      } else if k in a.fields {
        AddMissing(path, a.fields[k], Null);
      } else if k in b.fields {
        AddMissing(path, Null, b.fields[k]);
      }
    }

    method AddNames(sp: Printer, path: string, a: Json, b: Json)
      requires a.List? && b.List?
      modifies this
      ensures out == old(out) + Report(path, DiffNames(sp, a, b, AllNames(sp, a.items, b.items)))
      decreases a, 0, 1
    {
      var names := CollectNames(sp, a.items, b.items);
      ghost var whole := out + Report(path, DiffNames(sp, a, b, names));
      assert names[0..] == names;
      for i := 0 to |names|
        invariant out + Report(path, DiffNames(sp, a, b, names[i..])) == whole
      {
        NamesStep(sp, path, a, b, names, i);
        ghost var before := out;
        AddName(sp, Extend(path, Name(names[i])), a, b, names[i]);
        Regroup(before, out, Report(path, DiffNames(sp, a, b, names[i + 1..])));
      }
      assert DiffNames(sp, a, b, names[|names|..]) == [];
    }

    method AddName(sp: Printer, path: string, a: Json, b: Json, n: string)
      requires a.List? && b.List?
      modifies this
      ensures out == old(out) + Report(path, DiffName(sp, a, b, n))
      decreases a, 0, 0
    {
      var x, y := Find(sp, a.items, n), Find(sp, b.items, n);
      if x >= 0 && y >= 0 {
        DiffAt(sp, path, a.items[x], b.items[y]);
      } else if x >= 0 {
        AddMissing(path, a.items[x], Null);
      } else if y >= 0 {
        AddMissing(path, Null, b.items[y]);
      }
    }

    method AddItems(sp: Printer, path: string, a: Json, b: Json)
      requires a.List? && b.List?
      modifies this
      ensures out == old(out) + Report(path, DiffItems(sp, a, b, 0))
      decreases a, 0, 1
    {
      var max := if |b.items| > |a.items| then |b.items| else |a.items|;
      ghost var whole := out + Report(path, DiffItems(sp, a, b, 0));
      for i := 0 to max
        invariant out + Report(path, DiffItems(sp, a, b, i)) == whole
      {
        ItemsStep(sp, path, a, b, i);
        ghost var before := out;
        AddItem(sp, Extend(path, Index(i)), a, b, i);
        Regroup(before, out, Report(path, DiffItems(sp, a, b, i + 1)));
      }
      assert DiffItems(sp, a, b, max) == [];
    }

    method AddItem(sp: Printer, path: string, a: Json, b: Json, i: nat)
      requires a.List? && b.List?
      modifies this
      ensures out == old(out) + Report(path, DiffItem(sp, a, b, i))
      decreases a, 0, 0
    {
      if i < |a.items| && i < |b.items| {
        DiffAt(sp, path, a.items[i], b.items[i]);
      } else if i < |a.items| {
        AddMissing(path, a.items[i], Null);
      } else if i < |b.items| {
        AddMissing(path, Null, b.items[i]);
      }
    }
  }

  lemma Regroup(before: seq<FieldChange>, after: seq<FieldChange>, rest: seq<FieldChange>)
    requires before <= after
    ensures before + (after[|before|..] + rest) == after + rest
  {
  }

  // Each iteration adds the next segment's lines.

  lemma Ahead(path: string, seg: Seg, here: seq<Change>, later: seq<Change>)
    ensures Report(path, AllUnder(seg, here) + later) == Report(Extend(path, seg), here) + Report(path, later)
  {
    ReportConcat(path, AllUnder(seg, here), later);
    ReportUnder(path, seg, here);
  }

  lemma KeysStep(sp: Printer, path: string, a: Json, b: Json, keys: seq<string>, i: nat)
    requires a.Obj? && b.Obj? && i < |keys|
    ensures Report(path, DiffKeys(sp, a, b, keys[i..])) ==
            Report(Extend(path, Key(keys[i])), DiffKey(sp, a, b, keys[i])) + Report(path, DiffKeys(sp, a, b, keys[i + 1..]))
  {
    assert keys[i..][1..] == keys[i + 1..];
    Ahead(path, Key(keys[i]), DiffKey(sp, a, b, keys[i]), DiffKeys(sp, a, b, keys[i + 1..]));
  }

  lemma NamesStep(sp: Printer, path: string, a: Json, b: Json, names: seq<string>, i: nat)
    requires a.List? && b.List? && i < |names|
    ensures Report(path, DiffNames(sp, a, b, names[i..])) ==
            Report(Extend(path, Name(names[i])), DiffName(sp, a, b, names[i])) + Report(path, DiffNames(sp, a, b, names[i + 1..]))
  {
    assert names[i..][1..] == names[i + 1..];
    Ahead(path, Name(names[i]), DiffName(sp, a, b, names[i]), DiffNames(sp, a, b, names[i + 1..]));
  }

  lemma ItemsStep(sp: Printer, path: string, a: Json, b: Json, i: nat)
    requires a.List? && b.List? && (i < |a.items| || i < |b.items|)
    ensures Report(path, DiffItems(sp, a, b, i)) ==
            Report(Extend(path, Index(i)), DiffItem(sp, a, b, i)) + Report(path, DiffItems(sp, a, b, i + 1))
  {
    Ahead(path, Index(i), DiffItem(sp, a, b, i), DiffItems(sp, a, b, i + 1));
  }

  /** Names in the first list's order, then those only the second has. */
  method CollectNames(sp: Printer, xs: seq<Json>, ys: seq<Json>) returns (names: seq<string>)
    ensures names == AllNames(sp, xs, ys)
  {
    names := [];
    var seen: set<string> := {};
    for i := 0 to |xs|
      invariant names == NamesOf(sp, xs)[..i]
      invariant seen == set j | 0 <= j < i :: ItemName(sp, xs[j])
    {
      var n := ItemName(sp, xs[i]);
      seen := seen + {n};
      names := names + [n];
    }
    assert names == NamesOf(sp, xs);
    assert ys[0..] == ys;
    for i := 0 to |ys|
      invariant names + NewNames(sp, xs, ys[i..]) == AllNames(sp, xs, ys)
    {
      var n := ItemName(sp, ys[i]);
      assert n in seen <==> Find(sp, xs, n) >= 0;
      assert ys[i..][1..] == ys[i + 1..];
      if n !in seen {
        names := names + [n];
      }
    }
  }

  // ---- distinct paths ------------------------------------------------------

  predicate SameKind(s: Seg, t: Seg) {
    s.Key? == t.Key? && s.Name? == t.Name?
  }

  /** Positions of one document pair that part ways, or one of which goes on. */
  predicate Apart(p: seq<Seg>, q: seq<Seg>) {
    if |p| == 0 || |q| == 0 then |p| != |q|
    else if p[0] == q[0] then Apart(p[1..], q[1..])
    else SameKind(p[0], q[0])
  }

  ghost predicate AllApart(cs: seq<Change>) {
    forall i, j :: 0 <= i < j < |cs| ==> Apart(cs[i].pos, cs[j].pos)
  }

  /** All changes begin with a segment of this kind that is not excluded. */
  lemma ApartConcat(seg: Seg, here: seq<Change>, later: seq<Change>)
    requires AllApart(here) && AllApart(later)
    requires forall i :: 0 <= i < |later| ==> |later[i].pos| > 0 && later[i].pos[0] != seg && SameKind(seg, later[i].pos[0])
    ensures AllApart(AllUnder(seg, here) + later)
  {
    var cs := AllUnder(seg, here) + later;
    forall i, j | 0 <= i < j < |cs| ensures Apart(cs[i].pos, cs[j].pos) {
      if i < |here| {
        assert cs[i].pos[0] == seg && cs[i].pos[1..] == here[i].pos;
        if j < |here| {
          assert cs[j].pos[0] == seg && cs[j].pos[1..] == here[j].pos;
        }
      }
    }
  }

  lemma {:induction false} DiffIsApart(sp: Printer, a: Json, b: Json)
    ensures AllApart(Diff(sp, a, b))
    decreases a, 1
  {
    if a == Null || b == Null {
    } else if a.Obj? && b.Obj? {
      var all := a.fields.Keys + b.fields.Keys;
      EnumerateIsExact(KeyRank, all);
      var keys := OrderedKeys(all);
      forall i, j | 0 <= i < j < |keys| ensures keys[i] != keys[j] {
        PrecedesIsOrder(KeyRank, keys[i], keys[j], keys[i]);
      }
      KeysApart(sp, a, b, keys);
    } else if a.List? && b.List? {
      if Named(sp, a.items) && Named(sp, b.items) {
        DistinctNames(sp, a.items, b.items);
        NamesApart(sp, a, b, AllNames(sp, a.items, b.items));
      } else {
        ItemsApart(sp, a, b, 0);
      }
    }
  }

  lemma {:induction false} KeysApart(sp: Printer, a: Json, b: Json, keys: seq<string>)
    requires a.Obj? && b.Obj? && forall i, j :: 0 <= i < j < |keys| ==> keys[i] != keys[j]
    ensures AllApart(DiffKeys(sp, a, b, keys))
    ensures forall i :: 0 <= i < |DiffKeys(sp, a, b, keys)| ==>
              |DiffKeys(sp, a, b, keys)[i].pos| > 0 && DiffKeys(sp, a, b, keys)[i].pos[0].Key?
              && DiffKeys(sp, a, b, keys)[i].pos[0].k in keys
    decreases a, 0, |keys|
  {
    if |keys| > 0 {
      KeysApart(sp, a, b, keys[1..]);
      if keys[0] in a.fields && keys[0] in b.fields {
        DiffIsApart(sp, a.fields[keys[0]], b.fields[keys[0]]);
      }
      assert keys[0] !in keys[1..];
      ApartConcat(Key(keys[0]), DiffKey(sp, a, b, keys[0]), DiffKeys(sp, a, b, keys[1..]));
    }
  }

  lemma {:induction false} NamesApart(sp: Printer, a: Json, b: Json, names: seq<string>)
    requires a.List? && b.List? && forall i, j :: 0 <= i < j < |names| ==> names[i] != names[j]
    ensures AllApart(DiffNames(sp, a, b, names))
    ensures forall i :: 0 <= i < |DiffNames(sp, a, b, names)| ==>
              |DiffNames(sp, a, b, names)[i].pos| > 0 && DiffNames(sp, a, b, names)[i].pos[0].Name?
              && DiffNames(sp, a, b, names)[i].pos[0].n in names
    decreases a, 0, |names|
  {
    if |names| > 0 {
      NamesApart(sp, a, b, names[1..]);
      var i, j := Find(sp, a.items, names[0]), Find(sp, b.items, names[0]);
      if i >= 0 && j >= 0 {
        DiffIsApart(sp, a.items[i], b.items[j]);
      }
      assert names[0] !in names[1..];
      ApartConcat(Name(names[0]), DiffName(sp, a, b, names[0]), DiffNames(sp, a, b, names[1..]));
    }
  }

  lemma {:induction false} ItemsApart(sp: Printer, a: Json, b: Json, i: nat)
    requires a.List? && b.List?
    ensures AllApart(DiffItems(sp, a, b, i))
    ensures forall j :: 0 <= j < |DiffItems(sp, a, b, i)| ==>
              |DiffItems(sp, a, b, i)[j].pos| > 0 && DiffItems(sp, a, b, i)[j].pos[0].Index?
              && DiffItems(sp, a, b, i)[j].pos[0].i >= i
    decreases a, 0, |a.items| + |b.items| - i
  {
    if i < |a.items| || i < |b.items| {
      ItemsApart(sp, a, b, i + 1);
      if i < |a.items| && i < |b.items| {
        DiffIsApart(sp, a.items[i], b.items[i]);
      }
      ApartConcat(Index(i), DiffItem(sp, a, b, i), DiffItems(sp, a, b, i + 1));
    }
  }

  // ---- so their texts differ -----------------------------------------------

  lemma {:induction false} EscapesDiffer(s: string, t: string)
    requires EscapeAll(s) == EscapeAll(t)
    ensures s == t
    decreases |s|
  {
    if |s| > 0 && |t| > 0 {
      SameEscape(s[0], EscapeAll(s[1..]), t[0], EscapeAll(t[1..]));
      EscapesDiffer(s[1..], t[1..]);
      assert s == [s[0]] + s[1..] && t == [t[0]] + t[1..];
    }
  }

  /** An escaped character can be read off the front of a text. */
  lemma SameEscape(c: char, r: string, d: char, q: string)
    requires Escape(c) + r == Escape(d) + q
    ensures c == d && r == q
  {
    var x, y := Escape(c) + r, Escape(d) + q;
    assert x[0] == Escape(c)[0] && y[0] == Escape(d)[0];
    if Escaped(c) {
      assert x[1] == Escape(c)[1] && y[1] == Escape(d)[1];
      if EscapeLetter(c) == 'x' {
        assert x[2] == Escape(c)[2] && y[2] == Escape(d)[2];
        assert x[3] == Escape(c)[3] && y[3] == Escape(d)[3];
        HexDigitsDiffer(c as int / 16, d as int / 16);
        HexDigitsDiffer(c as int % 16, d as int % 16);
      }
    }
    assert r == x[|Escape(c)|..] && q == y[|Escape(d)|..];
  }

  lemma HexDigitsDiffer(d: int, e: int)
    requires 0 <= d < 16 && 0 <= e < 16 && HexDigit(d) == HexDigit(e)
    ensures d == e
  {
  }

  lemma {:induction false} ItoaDiffers(m: nat, n: nat)
    requires Itoa(m) == Itoa(n)
    ensures m == n
    decreases m
  {
    var x, y := Itoa(m), Itoa(n);
    assert x[|x| - 1] == "0123456789"[m % 10] && y[|y| - 1] == "0123456789"[n % 10];
    if m >= 10 && n >= 10 {
      assert x[..|x| - 1] == Itoa(m / 10) && y[..|y| - 1] == Itoa(n / 10);
      ItoaDiffers(m / 10, n / 10);
    }
  }

  lemma BracketFirst(s: Seg)
    ensures |SegText(s)| > 0 && (Bracketed(s) <==> SegText(s)[0] == '[')
  {
    if !Bracketed(s) {
      assert s.k[0] !in "./[]\" ";
    }
  }

  /** Different segments of one kind have different texts. */
  lemma TextsDiffer(s: Seg, t: Seg)
    requires SameKind(s, t) && SegText(s) == SegText(t)
    ensures s == t
  {
    BracketFirst(s);
    BracketFirst(t);
    if Bracketed(s) {
      var x, y := SegText(s), SegText(t);
      assert x == "[" + Inner(s) + "]" && y == "[" + Inner(t) + "]";
      assert x[1..|x| - 1] == Inner(s) && y[1..|y| - 1] == Inner(t);
      match s
      case Key(k) =>
        var a, b := Quote(k), Quote(t.k);
        assert a[1..|a| - 1] == EscapeAll(k) && b[1..|b| - 1] == EscapeAll(t.k);
        EscapesDiffer(k, t.k);
      case Name(_) =>
      case Index(i) => ItoaDiffers(i, t.i);
    }
  }

  lemma {:induction false} ApartTexts(p: seq<Seg>, q: seq<Seg>)
    requires Apart(p, q)
    ensures Texts(p) != Texts(q)
    decreases |p|
  {
    if |p| > 0 && |q| > 0 {
      if p[0] == q[0] {
        ApartTexts(p[1..], q[1..]);
        assert Texts(p)[1..] == Texts(p[1..]) && Texts(q)[1..] == Texts(q[1..]);
      } else if SegText(p[0]) == SegText(q[0]) {
        TextsDiffer(p[0], q[0]);
      } else {
        assert Texts(p)[0] != Texts(q)[0];
      }
    }
  }

  /** No two lines of a report on documents whose keys and names have no brackets have the same path. */
  lemma PathsAreDistinct(sp: Printer, a: Json, b: Json, i: nat, j: nat)
    requires i < j < |Diff(sp, a, b)|
    requires AllPlain(Diff(sp, a, b)[i].pos) && AllPlain(Diff(sp, a, b)[j].pos)
    ensures Report("", Diff(sp, a, b))[i].path != Report("", Diff(sp, a, b))[j].path
  {
    var cs := Diff(sp, a, b);
    DiffIsApart(sp, a, b);
    ApartTexts(cs[i].pos, cs[j].pos);
    SplitOfPath(cs[i].pos);
    SplitOfPath(cs[j].pos);
  }
}
