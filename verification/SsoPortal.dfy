/**
 Resolves that queue at a portal's lock: over any run of them a rejected refresh
 token is not tried again.
 */
module SsoPortal {
  import opened Options
  import opened SsoTokens
  import opened SsoStore

  /** One stay inside the lock, up to where the trace stood when it was released. */
  datatype Turn = Turn(visit: Visit, out: nat)

  /** The step by which a turn notes that the portal rejected its token. */
  ghost predicate Notes(trace: seq<Step>, t: Turn, k: nat) {
    && t.visit.pick <= k < t.out && k < |trace|
    && t.visit.answer == Some(Rejected) && trace[k] == Mark(t.visit.tok, REJECTED)
  }

  ghost predicate IsTurn(trace: seq<Step>, t: Turn) {
    && IsVisit(trace, t.visit) && t.visit.pick <= t.out <= |trace|
    && (t.visit.answer == Some(Rejected) ==> exists k: nat :: Notes(trace, t, k))
  }

  /** The turns of one portal, one after another; other steps may come between and during them. */
  ghost predicate InTurn(trace: seq<Step>, turns: seq<Turn>) {
    && (forall a :: 0 <= a < |turns| ==> IsTurn(trace, turns[a]))
    && (forall a, b :: 0 <= a < b < |turns| ==> turns[a].out <= turns[b].visit.inv)
  }

  /** Every mark on the file was noted by one of these turns. */
  ghost predicate MarkedInTurn(trace: seq<Step>, turns: seq<Turn>, p: string) {
    forall k: nat :: k < |trace| && trace[k].Mark? && trace[k].tok.path == p ==> NotedBySome(trace, turns, k)
  }

  ghost predicate AllMarkedInTurn(trace: seq<Step>, turns: seq<Turn>) {
    forall k: nat :: k < |trace| && trace[k].Mark? ==> NotedBySome(trace, turns, k)
  }

  ghost predicate NotedBySome(trace: seq<Step>, turns: seq<Turn>, k: nat) {
    exists a :: 0 <= a < |turns| && Notes(trace, turns[a], k)
  }

  /**
   After the portal rejected a file's refresh token, no later turn asks the
   portal about that file, as long as every scan finds it unchanged.
   */
  lemma {:induction false} PortalNeverRetries(trace: seq<Step>, turns: seq<Turn>, a: nat, i: nat, b: nat)
    requires InTurn(trace, turns) && a < b < |turns| && Notes(trace, turns[a], i)
    requires turns[a].visit.tok.path != "" && MarkedInTurn(trace, turns, turns[a].visit.tok.path)
    requires forall k :: i < k < turns[b].visit.pick && trace[k].Rescan? ==>
               Sees(trace[k].listing, turns[a].visit.tok.path, turns[a].visit.tok.modTime)
    ensures turns[b].visit.answer.Some? ==> turns[b].visit.tok.path != turns[a].visit.tok.path
    decreases b
  {
    var p, m := turns[a].visit.tok.path, turns[a].visit.tok.modTime;
    forall k | i < k < turns[b].visit.pick ensures Steady(trace[k], p, m) {
      if trace[k].Mark? && trace[k].tok.path == p {
        assert NotedBySome(trace, turns, k);
        var c :| 0 <= c < |turns| && Notes(trace, turns[c], k);
        NoterIsBetween(trace, turns, a, i, b, k, c);
        if a < c {
          PortalNeverRetries(trace, turns, a, i, c);
        }
      }
    }
    assert IsTurn(trace, turns[b]);
    NoRetry(trace, i, turns[b].visit);
  }

  /** A mark made between two turns' notes is made by a turn from the first up to before the second. */
  lemma NoterIsBetween(trace: seq<Step>, turns: seq<Turn>, a: nat, i: nat, b: nat, k: nat, c: nat)
    requires InTurn(trace, turns) && a < b < |turns| && Notes(trace, turns[a], i)
    requires i < k < turns[b].visit.pick && c < |turns| && Notes(trace, turns[c], k)
    ensures a <= c < b
  {
    assert IsTurn(trace, turns[a]) && IsTurn(trace, turns[b]) && IsTurn(trace, turns[c]);
  }

  // ---- the store's own resolves --------------------------------------------

  /** A resolve that waits for the ones before it takes the next turn. */
  method ResolveInTurn(store: TokenStore, startUrl: string, ghost turns: seq<Turn>)
    returns (r: Result, ghost turns': seq<Turn>)
    requires store.Valid() && InTurn(store.trace, turns) && AllMarkedInTurn(store.trace, turns)
    modifies store
    ensures store.Valid() && InTurn(store.trace, turns') && AllMarkedInTurn(store.trace, turns')
    ensures turns <= turns' && |turns'| <= |turns| + 1
    ensures r.Refreshed? ==> |turns'| == |turns| + 1 && turns'[|turns|].visit.answer == Some(Granted(r.tok))
  {
    ghost var before := store.trace;
    ghost var at, visit;
    r, at, visit := store.Resolve(startUrl);
    turns' := turns;
    if visit.Some? {
      turns' := turns + [Turn(visit.value, |store.trace|)];
    }
    TurnTaken(before, store.trace, turns, visit);
  }

  lemma TurnTaken(before: seq<Step>, after: seq<Step>, turns: seq<Turn>, visit: Option<Visit>)
    requires InTurn(before, turns) && AllMarkedInTurn(before, turns) && before <= after
    requires NoMarks(after, |before|, if visit.Some? then visit.value.pick else |after|)
    requires visit.Some? ==> IsVisit(after, visit.value) && |before| <= visit.value.inv
                             && after == after[..visit.value.pick] + Traces(visit.value)
    ensures var turns' := if visit.Some? then turns + [Turn(visit.value, |after|)] else turns;
            InTurn(after, turns') && AllMarkedInTurn(after, turns')
  {
    var turns' := if visit.Some? then turns + [Turn(visit.value, |after|)] else turns;
    TurnsStay(before, after, turns);
    if visit.Some? {
      NewTurn(after, visit.value);
      TurnAppended(after, turns, turns'[|turns|]);
    }
    forall k: nat | k < |after| && after[k].Mark? ensures NotedBySome(after, turns', k) {
      if k < |before| {
        assert NotedBySome(before, turns, k);
        var a :| 0 <= a < |turns| && Notes(before, turns[a], k);
        assert Notes(after, turns'[a], k);
      } else {
        assert Notes(after, turns'[|turns|], k);
      }
    }
  }

  lemma TurnsStay(before: seq<Step>, after: seq<Step>, turns: seq<Turn>)
    requires InTurn(before, turns) && before <= after
    ensures InTurn(after, turns) && forall a :: 0 <= a < |turns| ==> turns[a].out <= |before|
  {
    forall a | 0 <= a < |turns| ensures IsTurn(after, turns[a]) && turns[a].out <= |before| {
      TurnStays(before, after, turns[a]);
    }
  }

  lemma TurnAppended(trace: seq<Step>, turns: seq<Turn>, t: Turn)
    requires InTurn(trace, turns) && IsTurn(trace, t)
    requires forall a :: 0 <= a < |turns| ==> turns[a].out <= t.visit.inv
    ensures InTurn(trace, turns + [t])
  {
  }

  lemma TurnStays(before: seq<Step>, after: seq<Step>, t: Turn)
    requires IsTurn(before, t) && before <= after
    ensures IsTurn(after, t)
  {
    VisitStays(before, after, t.visit);
    if t.visit.answer == Some(Rejected) {
      var k: nat :| Notes(before, t, k);
      assert Notes(after, t, k);
    }
  }

  lemma NewTurn(trace: seq<Step>, v: Visit)
    requires IsVisit(trace, v) && trace == trace[..v.pick] + Traces(v)
    ensures IsTurn(trace, Turn(v, |trace|))
    ensures forall k :: v.pick <= k < |trace| && trace[k].Mark? ==> Notes(trace, Turn(v, |trace|), k)
  {
    if v.answer == Some(Rejected) {
      assert trace[v.pick] == Traces(v)[0];
      assert Notes(trace, Turn(v, |trace|), v.pick);
    }
    forall k | v.pick <= k < |trace| && trace[k].Mark? ensures Notes(trace, Turn(v, |trace|), k) {
      assert trace[k] == Traces(v)[k - v.pick];
    }
  }

  // ---- two portals and one file --------------------------------------------

  /**
   A file is rewritten from one portal's token to another's while the first
   portal's refresh is still under way, and both portals reject theirs; the
   first rejection arrives last.
   */
  function LateRun(stale: Token, t: Token): seq<Step> {
    [Invalidate, Rescan([stale]), Invalidate, Rescan([t]), Mark(t, REJECTED), Invalidate,
     Mark(stale, REJECTED), Invalidate, Invalidate, Rescan([t])]
  }

  lemma AfterStep(trace: seq<Step>, i: nat)
    requires i < |trace|
    ensures After(trace[..i + 1]) == Apply(After(trace[..i]), trace[i])
  {
    assert trace[..i + 1] == trace[..i] + [trace[i]];
    AfterNext(trace[..i], trace[i]);
  }

  lemma ScannedFirst(stale: Token, t: Token)
    ensures After(LateRun(stale, t)[..4]) == State(Some([t]), map[])
    ensures After(LateRun(stale, t)[..2]).scanned == Some([stale])
  {
    var run := LateRun(stale, t);
    AfterStep(run, 0);
    AfterStep(run, 1);
    AfterStep(run, 2);
    AfterStep(run, 3);
    assert AnnotateAll(map[], [stale]) == [stale] && AnnotateAll(map[], [t]) == [t];
    assert KeepMarks(map[], [stale]) == map[] && KeepMarks(map[], [t]) == map[];
  }

  lemma ScannedLast(stale: Token, t: Token)
    requires t.path == stale.path != "" && t.modTime != stale.modTime
    ensures After(LateRun(stale, t)[..10]).scanned == Some([t])
  {
    var run := LateRun(stale, t);
    ScannedFirst(stale, t);
    AfterStep(run, 4);
    AfterStep(run, 5);
    AfterStep(run, 6);
    AfterStep(run, 7);
    AfterStep(run, 8);
    AfterStep(run, 9);
    var marks := After(run[..9]).marks;
    assert marks[t.path] == Failure(stale.modTime, REJECTED);
    assert AnnotateAll(marks, [t]) == [t];
  }

  /**
   In that run the second portal's next resolve asks about the file again,
   although every scan since its rejection has found the file unchanged.
   */
  lemma LateMarkForgets(stale: Token, t: Token, now: int)
    requires t.path == stale.path != "" && t.startUrl != stale.startUrl && t.modTime != stale.modTime
    requires Asks(stale, now) && Asks(t, now)
    ensures var run := LateRun(stale, t);
            && IsTurn(run, Turn(Visit(0, 2, stale, now, Some(Rejected)), 8))
            && IsTurn(run, Turn(Visit(2, 4, t, now, Some(Rejected)), 6))
            && (forall k :: 4 < k < |run| && run[k].Rescan? ==> Sees(run[k].listing, t.path, t.modTime))
            && IsVisit(run, Visit(8, 10, t, now, Some(Rejected)))
  {
    var run := LateRun(stale, t);
    ScannedFirst(stale, t);
    ScannedLast(stale, t);
    assert Notes(run, Turn(Visit(0, 2, stale, now, Some(Rejected)), 8), 6);
    assert Notes(run, Turn(Visit(2, 4, t, now, Some(Rejected)), 6), 4);
    assert t in [t] && stale in [stale];
    assert [t][0].path == t.path;
  }
}
