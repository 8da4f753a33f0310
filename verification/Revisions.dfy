/** Rollout histories, after `changes/workloads.go`. */
module Revisions {
  import opened Options
  import opened Json
  import opened TemplateDiff

  /** A template that is missing is an empty object. */
  datatype Revision = Revision(number: int, created: int, template: Json, name: string, changeBy: string)

  // ---- ordering ------------------------------------------------------------

  predicate Before(a: Revision, b: Revision) {
    if a.number != b.number then a.number < b.number else a.created < b.created
  }

  function Insert(sorted: seq<Revision>, r: Revision): seq<Revision> {
    if sorted == [] then [r]
    else if Before(r, sorted[|sorted| - 1]) then Insert(sorted[..|sorted| - 1], r) + [sorted[|sorted| - 1]]
    else sorted + [r]
  }

  function StableSort(rs: seq<Revision>): seq<Revision> {
    if rs == [] then [] else Insert(StableSort(rs[..|rs| - 1]), rs[|rs| - 1])
  }

  ghost predicate Sorted(rs: seq<Revision>) {
    forall i, j :: 0 <= i < j < |rs| ==> !Before(rs[j], rs[i])
  }

  /** The revisions of one number and time, in order. */
  function OfRank(rs: seq<Revision>, number: int, created: int): seq<Revision> {
    if rs == [] then []
    else
      var before, r := OfRank(rs[..|rs| - 1], number, created), rs[|rs| - 1];
      if r.number == number && r.created == created then before + [r] else before
  }

  lemma {:induction false} InsertKeepsOrder(sorted: seq<Revision>, r: Revision)
    requires Sorted(sorted)
    ensures Sorted(Insert(sorted, r)) && |Insert(sorted, r)| == |sorted| + 1
    ensures forall x :: x in Insert(sorted, r) <==> x in sorted || x == r
  {
    if sorted != [] && Before(r, sorted[|sorted| - 1]) {
      var init := sorted[..|sorted| - 1];
      InsertKeepsOrder(init, r);
      var all := Insert(init, r);
      forall i | 0 <= i < |all| ensures !Before(sorted[|sorted| - 1], all[i]) {
        assert all[i] in all;
        if all[i] != r {
          var k :| 0 <= k < |init| && init[k] == all[i];
          assert sorted[k] == init[k];
        }
      }
      assert sorted == init + [sorted[|sorted| - 1]];
    }
  }

  lemma {:induction false} InsertKeepsRanks(sorted: seq<Revision>, r: Revision, number: int, created: int)
    ensures OfRank(Insert(sorted, r), number, created) == OfRank(sorted + [r], number, created)
  {
    assert (sorted + [r])[..|sorted|] == sorted;
    if sorted != [] && Before(r, sorted[|sorted| - 1]) {
      var init, last := sorted[..|sorted| - 1], sorted[|sorted| - 1];
      InsertKeepsRanks(init, r, number, created);
      assert Insert(sorted, r)[..|Insert(sorted, r)| - 1] == Insert(init, r);
      assert (init + [r])[..|init|] == init;
    }
  }

  /** The sorted list is in order and stable: revisions of one rank stay as they came. */
  lemma {:induction false} StableSortIsStable(rs: seq<Revision>)
    ensures Sorted(StableSort(rs)) && |StableSort(rs)| == |rs|
    ensures forall n, c :: OfRank(StableSort(rs), n, c) == OfRank(rs, n, c)
  {
    if rs != [] {
      var init, last := rs[..|rs| - 1], rs[|rs| - 1];
      StableSortIsStable(init);
      InsertKeepsOrder(StableSort(init), last);
      forall n, c ensures OfRank(StableSort(rs), n, c) == OfRank(rs, n, c) {
        InsertKeepsRanks(StableSort(init), last, n, c);
        assert (StableSort(init) + [last])[..|StableSort(init)|] == StableSort(init);
      }
    }
  }

  method SortRevisions(r: array<Revision>)
    modifies r
    ensures r[..] == StableSort(old(r[..]))
  {
    ghost var was := r[..];
    for i := 0 to r.Length
      invariant r[..] == StableSort(was[..i]) + was[i..] && |StableSort(was[..i])| == i
    {
      InsertInPlace(r, i, StableSort(was[..i]), was[i..]);
      assert was[..i + 1][..i] == was[..i] && was[i..][1..] == was[i + 1..];
      StableSortIsStable(was[..i + 1]);
    }
    assert was[..r.Length] == was && was[r.Length..] == [];
  }

  /** Moves element i down past the later ones before it. */
  method InsertInPlace(r: array<Revision>, i: nat, ghost sorted: seq<Revision>, ghost rest: seq<Revision>)
    requires i < r.Length && |sorted| == i && |rest| > 0 && r[..] == sorted + rest
    modifies r
    ensures r[..] == Insert(sorted, rest[0]) + rest[1..]
  {
    var j := i;
    ghost var x := rest[0];
    assert r[..] == sorted[..i] + [x] + sorted[i..] + rest[1..];
    assert sorted[..i] == sorted;
    while j > 0 && Before(r[j], r[j - 1])
      invariant 0 <= j <= i
      invariant r[..] == sorted[..j] + [x] + sorted[j..] + rest[1..]
      invariant Insert(sorted, x) == Insert(sorted[..j], x) + sorted[j..]
    {
      InsertStep(sorted, j, x, r[..], rest[1..]);
      r[j], r[j - 1] := r[j - 1], r[j];
      j := j - 1;
      assert r[..] == sorted[..j] + [x] + sorted[j..] + rest[1..];
    }
    InsertStops(sorted, j, x, r[..], rest[1..]);
  }

  lemma {:induction false} InsertStep(sorted: seq<Revision>, j: nat, x: Revision, all: seq<Revision>, rest: seq<Revision>)
    requires 0 < j <= |sorted| && all == sorted[..j] + [x] + sorted[j..] + rest
    requires Insert(sorted, x) == Insert(sorted[..j], x) + sorted[j..]
    requires Before(all[j], all[j - 1])
    ensures all[j] == x && all[j - 1] == sorted[j - 1]
    ensures Insert(sorted, x) == Insert(sorted[..j - 1], x) + sorted[j - 1..]
  {
    var s := sorted[..j];
    assert all[j] == x && all[j - 1] == s[j - 1] == sorted[j - 1];
    assert s[..j - 1] == sorted[..j - 1];
    assert Insert(s, x) == Insert(sorted[..j - 1], x) + [sorted[j - 1]];
    assert sorted[j - 1..] == [sorted[j - 1]] + sorted[j..];
  }

  lemma InsertStops(sorted: seq<Revision>, j: nat, x: Revision, all: seq<Revision>, rest: seq<Revision>)
    requires j <= |sorted| && all == sorted[..j] + [x] + sorted[j..] + rest
    requires Insert(sorted, x) == Insert(sorted[..j], x) + sorted[j..]
    requires j > 0 ==> !Before(all[j], all[j - 1])
    ensures all == Insert(sorted, x) + rest
  {
    assert all[j] == x;
    if j > 0 {
      assert all[j - 1] == sorted[..j][j - 1];
    }
    assert Insert(sorted[..j], x) == sorted[..j] + [x];
  }

  // ---- entries -------------------------------------------------------------

  datatype Entry = Entry(revision: int, time: int, current: bool, firstRollout: bool, diff: seq<FieldChange>)

  function CurrentOf(revs: seq<Revision>, current: int): int {
    if current == 0 && |revs| > 0 then revs[|revs| - 1].number else current
  }

  /** The flattened forms a diff was taken between. */
  datatype Sides = Sides(was: Flat, now: Flat)

  ghost predicate IsEntry(marshal: Printer, revs: seq<Revision>, current: int, i: nat, e: Entry, sides: Sides)
    requires i < |revs|
  {
    && e.revision == revs[i].number && e.time == revs[i].created
    && e.current == (revs[i].number == CurrentOf(revs, current))
    && e.firstRollout == (i == 0 && revs[i].number == 1)
    && if i == 0 then e.diff == []
       else IsFlat(marshal, Some(revs[i - 1].template), sides.was) && IsFlat(marshal, Some(revs[i].template), sides.now)
            && e.diff == Diff(sides.was, sides.now)
  }

  method RevisionEntries(marshal: Printer, revs: seq<Revision>, current: int)
    returns (out: seq<Entry>, ghost sides: seq<Sides>)
    ensures |out| == |revs|
    ensures |sides| == |revs| && forall i :: 0 <= i < |revs| ==> IsEntry(marshal, revs, current, i, out[i], sides[i])
    ensures forall i :: 0 <= i < |revs| ==>
              && out[i].revision == revs[i].number && out[i].time == revs[i].created
              && (out[i].current <==> revs[i].number == if current == 0 then revs[|revs| - 1].number else current)
              && (out[i].firstRollout <==> i == 0 && revs[i].number == 1)
  {
    var running := current;
    if current == 0 && |revs| > 0 {
      running := revs[|revs| - 1].number;
    }
    out, sides := [], [];
    for i := 0 to |revs|
      invariant |out| == i == |sides|
      invariant forall j :: 0 <= j < i ==> IsEntry(marshal, revs, current, j, out[j], sides[j])
    {
      var e, s := MakeEntry(marshal, revs, current, running, i);
      out, sides := out + [e], sides + [s];
    }
  }

  method MakeEntry(marshal: Printer, revs: seq<Revision>, ghost current: int, running: int, i: nat)
    returns (e: Entry, ghost s: Sides)
    requires i < |revs| && running == CurrentOf(revs, current)
    ensures IsEntry(marshal, revs, current, i, e, s)
  {
    var r := revs[i];
    if i == 0 {
      s := Sides(map[], map[]);
      e := Entry(r.number, r.created, r.number == running, r.number == 1, []);
    } else {
      var diff;
      ghost var was, now;
      diff, was, now := DiffValues(marshal, Some(revs[i - 1].template), Some(r.template));
      s := Sides(was, now);
      e := Entry(r.number, r.created, r.number == running, false, diff);
    }
  }

  /** Where the running revision is not known, the newest entry is marked. */
  lemma NewestIsCurrent(marshal: Printer, revs: seq<Revision>, out: seq<Entry>, sides: seq<Sides>)
    requires |revs| > 0 && |out| == |revs| == |sides|
    requires forall i :: 0 <= i < |revs| ==> IsEntry(marshal, revs, 0, i, out[i], sides[i])
    ensures out[|revs| - 1].current
    ensures forall i :: 0 <= i < |revs| && out[i].current ==> revs[i].number == revs[|revs| - 1].number
  {
    assert IsEntry(marshal, revs, 0, |revs| - 1, out[|revs| - 1], sides[|revs| - 1]);
    forall i | 0 <= i < |revs| && out[i].current ensures revs[i].number == revs[|revs| - 1].number {
      assert IsEntry(marshal, revs, 0, i, out[i], sides[i]);
    }
  }

  // ---- replay --------------------------------------------------------------

  /** The oldest template patched with the diff of each later entry. */
  function Replay(start: Flat, diffs: seq<seq<FieldChange>>): Flat {
    if diffs == [] then start else Patch(Replay(start, diffs[..|diffs| - 1]), diffs[|diffs| - 1])
  }

  /** Successive flattened templates and the diffs between them. */
  ghost predicate AreDiffs(flats: seq<Flat>, diffs: seq<seq<FieldChange>>) {
    |flats| == |diffs| + 1 && forall i :: 0 <= i < |diffs| ==> diffs[i] == Diff(flats[i], flats[i + 1])
  }

  ghost predicate AlwaysAt(flats: seq<Flat>, p: string, v: Option<string>) {
    forall i :: 0 <= i < |flats| ==> At(flats[i], p) == v
  }

  /** A value is replayed as it is, except one that became empty on the way: that is lost. */
  lemma {:induction false} ReplayAt(flats: seq<Flat>, diffs: seq<seq<FieldChange>>, p: string)
    requires AreDiffs(flats, diffs) && !IsNoisy(p)
    ensures At(Replay(flats[0], diffs), p)
         == if At(flats[|diffs|], p) == Some("") && !AlwaysAt(flats, p, Some("")) then None else At(flats[|diffs|], p)
  {
    if diffs == [] {
      assert At(flats[0], p) == Some("") ==> AlwaysAt(flats, p, Some(""));
    } else {
      var n := |diffs| - 1;
      ReplayAt(flats[..|diffs|], diffs[..n], p);
      PatchedAt(Replay(flats[0], diffs[..n]), flats[n], flats[n + 1], p);
      AlwaysNext(flats, p, Some(""));
    }
  }

  lemma AlwaysNext(flats: seq<Flat>, p: string, v: Option<string>)
    requires |flats| > 0
    ensures AlwaysAt(flats, p, v) <==> AlwaysAt(flats[..|flats| - 1], p, v) && At(flats[|flats| - 1], p) == v
  {
    var init := flats[..|flats| - 1];
    if AlwaysAt(init, p, v) && At(flats[|flats| - 1], p) == v {
      forall i | 0 <= i < |flats| ensures At(flats[i], p) == v {
        if i < |init| {
          assert init[i] == flats[i];
        }
      }
    }
    if AlwaysAt(flats, p, v) {
      forall i | 0 <= i < |init| ensures At(init[i], p) == v {
        assert init[i] == flats[i];
      }
    }
  }

  /** Folding the diffs gives the newest template exactly when no value became empty on the way. */
  lemma ReplayIsExact(flats: seq<Flat>, diffs: seq<seq<FieldChange>>)
    requires AreDiffs(flats, diffs)
    ensures AgreeOffNoise(Replay(flats[0], diffs), flats[|diffs|])
       <==> forall p :: !IsNoisy(p) && At(flats[|diffs|], p) == Some("") ==> AlwaysAt(flats, p, Some(""))
  {
    forall p | !IsNoisy(p)
      ensures At(Replay(flats[0], diffs), p) == At(flats[|diffs|], p)
         <==> (At(flats[|diffs|], p) == Some("") ==> AlwaysAt(flats, p, Some(""))) {
      ReplayAt(flats, diffs, p);
    }
  }

  /** The flattened templates of a history, where each has one form for both its diffs. */
  ghost function Flats(revs: seq<Revision>, sides: seq<Sides>): seq<Flat>
    requires |sides| == |revs| > 1
  {
    seq(|revs|, i requires 0 <= i < |revs| => if i == 0 then sides[1].was else sides[i].now)
  }

  function Diffs(out: seq<Entry>): seq<seq<FieldChange>>
    requires |out| > 0
  {
    seq(|out| - 1, i requires 0 <= i < |out| - 1 => out[i + 1].diff)
  }

  /** Where each template between the first and the last flattens to one form, the entries are such diffs and replay. */
  lemma HistoryReplays(marshal: Printer, revs: seq<Revision>, current: int, out: seq<Entry>, sides: seq<Sides>)
    requires |revs| > 1 && |out| == |revs| == |sides|
    requires forall i :: 0 <= i < |revs| ==> IsEntry(marshal, revs, current, i, out[i], sides[i])
    requires forall i :: 0 < i < |revs| - 1 ==> IsStable(marshal, revs[i].template)
    ensures var flats, n := Flats(revs, sides), |revs| - 1;
            && (forall i :: 0 <= i < |revs| ==> IsFlat(marshal, Some(revs[i].template), flats[i]))
            && (AgreeOffNoise(Replay(flats[0], Diffs(out)), flats[n])
                <==> forall p :: !IsNoisy(p) && At(flats[n], p) == Some("") ==> AlwaysAt(flats, p, Some("")))
  {
    var flats, diffs := Flats(revs, sides), Diffs(out);
    forall i | 0 <= i < |revs| ensures IsFlat(marshal, Some(revs[i].template), flats[i]) {
      assert IsEntry(marshal, revs, current, i, out[i], sides[i]) && IsEntry(marshal, revs, current, 1, out[1], sides[1]);
    }
    forall i | 0 <= i < |diffs| ensures diffs[i] == Diff(flats[i], flats[i + 1]) {
      assert IsEntry(marshal, revs, current, i + 1, out[i + 1], sides[i + 1]);
      if i > 0 {
        assert IsEntry(marshal, revs, current, i, out[i], sides[i]) && IsStable(marshal, revs[i].template);
        assert IsFlat(marshal, Some(revs[i].template), sides[i + 1].was);
      }
    }
    ReplayIsExact(flats, diffs);
  }

  /** Sorted revisions are in order of number, and those of one number in order of creation. */
  lemma SortedReads(rs: seq<Revision>)
    ensures var sorted := StableSort(rs);
            forall i, j :: 0 <= i < j < |sorted| ==>
              sorted[i].number < sorted[j].number || (sorted[i].number == sorted[j].number && sorted[i].created <= sorted[j].created)
  {
    StableSortIsStable(rs);
  }

}
