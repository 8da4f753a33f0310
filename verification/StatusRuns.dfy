/**
 Runs of the prober over a fixed list of clusters: one background loop, any
 number of on-request and full-refresh probes, answers in any order.
 */
module StatusRuns {
  import opened Collections
  import opened Options
  import opened StatusState

  /** A probe that was started; one of the background loop comes with the backoff it had waited out. */
  datatype Probe = Probe(name: string, time: int, background: bool, waited: int)

  /**
   `pending` is the background probe whose answer is outstanding, `asked` the
   other outstanding probes, `fails` the unhealthy answers of a cluster since its
   last healthy one or on-request reset.
   */
  datatype State = State(
    sched: Sched, clock: int, pending: Option<string>, asked: multiset<string>,
    fails: map<string, nat>, probes: seq<Probe>)

  datatype Step =
    | Advance(d: nat)
    | Select(reading: int, target: Option<string>)
    | BackgroundAnswer(answer: Option<bool>)
    | Request(c: string)
    | FullProbe(c: string)
    | Answered(c: string, answer: Option<bool>)

  ghost predicate Init(s: State) {
    s.sched == Sched(map[], map[], map[]) && s.clock >= 0 && s.pending == None && s.asked == multiset{}
    && s.fails == map[] && s.probes == []
  }

  // The clock is read before the lock for a selection, under it for the others.
  ghost predicate Enabled(s: State, clusters: seq<string>, l: Step) {
    match l
    case Advance(_) => true
    case Select(r, t) => s.pending == None && 0 <= r <= s.clock
                         && (if t.Some? then Picked(s.sched, clusters, r, t.value)
                             else forall c :: c in clusters ==> r < Due(s.sched, c))
    case BackgroundAnswer(_) => s.pending.Some?
    case Request(_) => true
    case FullProbe(_) => true
    case Answered(c, _) => c in s.asked
  }

  function Fails(s: State, c: string): nat {
    if c in s.fails then s.fails[c] else 0
  }

  /** An answer, if the probe gave one. */
  function Hear(s: State, c: string, answer: Option<bool>): State {
    match answer
    case None => s
    case Some(healthy) =>
      s.(sched := StoreState(s.sched, c, healthy),
         fails := if healthy then s.fails - {c} else s.fails[c := Fails(s, c) + 1])
  }

  function Next(s: State, clusters: seq<string>, l: Step): State {
    match l
    case Advance(d) => s.(clock := s.clock + d)
    case Select(r, t) =>
      var gone := Gone(s.sched, clusters);
      var kept := s.(sched := ForgetState(s.sched, gone), fails := s.fails - gone);
      if t.None? then kept else
      kept.(sched := TouchState(kept.sched, t.value, r), pending := t,
            probes := s.probes + [Probe(t.value, r, true, Lookup(s.sched.backoff, t.value))])
    case BackgroundAnswer(a) => if s.pending.None? then s else Hear(s, s.pending.value, a).(pending := None)
    case Request(c) =>
      s.(sched := RequestState(s.sched, c, s.clock), asked := s.asked + multiset{c}, fails := s.fails - {c},
         probes := s.probes + [Probe(c, s.clock, false, 0)])
    case FullProbe(c) =>
      s.(sched := TouchState(s.sched, c, s.clock), asked := s.asked + multiset{c},
         probes := s.probes + [Probe(c, s.clock, false, 0)])
    case Answered(c, a) => Hear(s, c, a).(asked := s.asked - multiset{c})
  }

  ghost predicate Runs(s: State, clusters: seq<string>, ls: seq<Step>)
    decreases |ls|
  {
    |ls| == 0 || (Enabled(s, clusters, ls[0]) && Runs(Next(s, clusters, ls[0]), clusters, ls[1..]))
  }

  function Exec(s: State, clusters: seq<string>, ls: seq<Step>): State
    decreases |ls|
  {
    if |ls| == 0 then s else Exec(Next(s, clusters, ls[0]), clusters, ls[1..])
  }

  ghost predicate Reachable(s: State, clusters: seq<string>) {
    exists s0, ls :: Init(s0) && Runs(s0, clusters, ls) && Exec(s0, clusters, ls) == s
  }

  // ---- invariant ---------------------------------------------------------

  function Pow2(k: nat): nat {
    if k == 0 then 1 else 2 * Pow2(k - 1)
  }

  /** The documented backoff after k unhealthy answers in a row. */
  function Backoff(k: nat): int {
    if k == 0 then 0 else Min(PERIOD * Pow2(k - 1), MAX_BACKOFF)
  }

  lemma {:induction false} BackoffDoubles(k: nat)
    ensures Backoff(k + 1) == Min(Max(2 * Backoff(k), PERIOD), MAX_BACKOFF)
    ensures k > 0 ==> PERIOD <= Backoff(k) <= MAX_BACKOFF
  {
    if k > 0 {
      assert Pow2(k) == 2 * Pow2(k - 1);
      Pow2Positive(k - 1);
      assert PERIOD * Pow2(k) == 2 * (PERIOD * Pow2(k - 1));
      assert PERIOD * Pow2(k - 1) >= PERIOD;
    }
  }

  lemma {:induction false} Pow2Positive(k: nat)
    ensures Pow2(k) >= 1
  {
    if k > 0 { Pow2Positive(k - 1); }
  }

  ghost predicate BackoffOk(s: State, c: string) {
    Lookup(s.sched.backoff, c) == Backoff(Fails(s, c))
  }

  ghost predicate ProbeOk(s: State, clusters: seq<string>, p: Probe) {
    && p.time <= s.clock && (p.background ==> p.name in clusters)
    && (p.name in clusters ==> p.time <= Lookup(s.sched.lastRefresh, p.name))
  }

  ghost predicate Spaced(p: Probe, q: Probe) {
    q.background && p.name == q.name ==> q.time >= p.time + PERIOD + q.waited
  }

  ghost predicate Inv(s: State, clusters: seq<string>) {
    && (forall c :: BackoffOk(s, c))
    && s.sched.backoff.Keys <= s.sched.statuses.Keys
    && (forall c :: c in s.sched.lastRefresh ==> s.sched.lastRefresh[c] <= s.clock)
    && 0 <= s.clock
    && (forall i :: 0 <= i < |s.probes| ==> ProbeOk(s, clusters, s.probes[i]))
    && (forall i, j :: 0 <= i < j < |s.probes| ==> Spaced(s.probes[i], s.probes[j]))
  }

  lemma HearKeepsBackoff(s: State, c: string, answer: Option<bool>)
    requires forall k :: BackoffOk(s, k)
    ensures forall k :: BackoffOk(Hear(s, c, answer), k)
  {
    forall k ensures BackoffOk(Hear(s, c, answer), k) {
      assert BackoffOk(s, k);
      BackoffDoubles(Fails(s, k));
    }
  }

  lemma BackoffStep(s: State, clusters: seq<string>, l: Step)
    requires Inv(s, clusters) && Enabled(s, clusters, l)
    ensures forall c :: BackoffOk(Next(s, clusters, l), c)
  {
    match l
    case BackgroundAnswer(a) => HearKeepsBackoff(s, s.pending.value, a);
      forall c ensures BackoffOk(Next(s, clusters, l), c) {
        assert BackoffOk(Hear(s, s.pending.value, a), c);
      }
    case Answered(k, a) => HearKeepsBackoff(s, k, a);
      forall c ensures BackoffOk(Next(s, clusters, l), c) {
        assert BackoffOk(Hear(s, k, a), c);
      }
    case _ =>
      forall c ensures BackoffOk(Next(s, clusters, l), c) {
        assert BackoffOk(s, c);
      }
  }

  /** Nobody's last refresh goes back, as long as the cluster is listed. */
  lemma RefreshForward(s: State, clusters: seq<string>, l: Step, c: string)
    requires Inv(s, clusters) && Enabled(s, clusters, l) && c in clusters
    ensures Lookup(Next(s, clusters, l).sched.lastRefresh, c) >= Lookup(s.sched.lastRefresh, c)
  {
    assert BackoffOk(s, c);
    BackoffDoubles(Fails(s, c));
  }

  lemma ProbesStep(s: State, clusters: seq<string>, l: Step)
    requires Inv(s, clusters) && Enabled(s, clusters, l)
    ensures forall i :: 0 <= i < |Next(s, clusters, l).probes| ==> ProbeOk(Next(s, clusters, l), clusters, Next(s, clusters, l).probes[i])
  {
    var t := Next(s, clusters, l);
    forall i | 0 <= i < |t.probes| ensures ProbeOk(t, clusters, t.probes[i]) {
      if i < |s.probes| {
        assert ProbeOk(s, clusters, s.probes[i]);
        if s.probes[i].name in clusters {
          RefreshForward(s, clusters, l, s.probes[i].name);
        }
      }
    }
  }

  lemma SpacingStep(s: State, clusters: seq<string>, l: Step)
    requires Inv(s, clusters) && Enabled(s, clusters, l)
    ensures var t := Next(s, clusters, l);
            forall i, j :: 0 <= i < j < |t.probes| ==> Spaced(t.probes[i], t.probes[j])
  {
    var t := Next(s, clusters, l);
    forall i, j | 0 <= i < j < |t.probes| ensures Spaced(t.probes[i], t.probes[j]) {
      assert ProbeOk(s, clusters, s.probes[i]);
      if j < |s.probes| {
        assert Spaced(s.probes[i], s.probes[j]);
      }
    }
  }

  lemma InvStep(s: State, clusters: seq<string>, l: Step)
    requires Inv(s, clusters) && Enabled(s, clusters, l)
    ensures Inv(Next(s, clusters, l), clusters)
  {
    BackoffStep(s, clusters, l);
    ProbesStep(s, clusters, l);
    SpacingStep(s, clusters, l);
  }

  lemma {:induction false} RunInv(s: State, clusters: seq<string>, ls: seq<Step>)
    requires Inv(s, clusters) && Runs(s, clusters, ls)
    ensures Inv(Exec(s, clusters, ls), clusters)
    decreases |ls|
  {
    if |ls| > 0 {
      InvStep(s, clusters, ls[0]);
      RunInv(Next(s, clusters, ls[0]), clusters, ls[1..]);
    }
  }

  lemma ReachableInv(s: State, clusters: seq<string>)
    requires Reachable(s, clusters)
    ensures Inv(s, clusters)
  {
    var s0, ls :| Init(s0) && Runs(s0, clusters, ls) && Exec(s0, clusters, ls) == s;
    RunInv(s0, clusters, ls);
  }

  /**
   A background probe of a cluster starts at least the refresh period plus the
   backoff in force after every earlier probe of it, whoever asked for that.
   */
  lemma ProbesAreSpaced(s: State, clusters: seq<string>, i: nat, j: nat)
    requires Reachable(s, clusters) && i < j < |s.probes| && s.probes[i].name == s.probes[j].name && s.probes[j].background
    ensures s.probes[j].time >= s.probes[i].time + 30_000_000_000 + s.probes[j].waited
  {
    ReachableInv(s, clusters);
    assert Spaced(s.probes[i], s.probes[j]);
  }

  /** Probes are recorded as they start: at the clock for those asked for, at its earlier reading for the background loop's. */
  lemma ProbesAreRecorded(s: State, clusters: seq<string>, l: Step)
    requires Enabled(s, clusters, l)
    ensures Next(s, clusters, l).probes == s.probes + match l
              case Request(c) => [Probe(c, s.clock, false, 0)]
              case FullProbe(c) => [Probe(c, s.clock, false, 0)]
              case Select(r, t) =>
                if t.Some? then [Probe(t.value, r, true, if t.value in s.sched.backoff then s.sched.backoff[t.value] else 0)] else []
              case _ => []
  {
  }

  /** An answer is kept as the cluster's status, and clears the backoff or doubles it within its bounds. */
  lemma AnswersAreHeard(s: State, clusters: seq<string>, l: Step, c: string, healthy: bool)
    requires Enabled(s, clusters, l)
    requires l == Answered(c, Some(healthy)) || (l == BackgroundAnswer(Some(healthy)) && s.pending == Some(c))
    ensures var t, twice := Next(s, clusters, l), if c in s.sched.backoff then 2 * s.sched.backoff[c] else 0;
            && t.sched.statuses == s.sched.statuses[c := healthy] && t.sched.lastRefresh == s.sched.lastRefresh
            && t.fails == (if healthy then s.fails - {c} else s.fails[c := 1 + if c in s.fails then s.fails[c] else 0])
            && t.sched.backoff == if healthy then s.sched.backoff - {c}
                                  else s.sched.backoff[c := if twice < 30_000_000_000 then 30_000_000_000
                                                            else if twice > 300_000_000_000 then 300_000_000_000 else twice]
  {
  }

  /** The backoffs in nanoseconds: half a minute, doubled up to five minutes. */
  lemma {:induction false} BackoffSchedule(k: nat)
    ensures Backoff(0) == 0 && Backoff(1) == 30_000_000_000 && Backoff(2) == 60_000_000_000
    ensures Backoff(3) == 120_000_000_000 && Backoff(4) == 240_000_000_000
    ensures k >= 5 ==> Backoff(k) == 300_000_000_000
  {
    BackoffDoubles(0);
    BackoffDoubles(1);
    BackoffDoubles(2);
    BackoffDoubles(3);
    if k >= 5 {
      BackoffDoubles(k - 1);
      if k > 5 {
        BackoffSchedule(k - 1);
      } else {
        BackoffDoubles(4);
      }
    }
  }

  lemma BackoffCountsFailures(s: State, clusters: seq<string>, c: string)
    requires Reachable(s, clusters)
    ensures Lookup(s.sched.backoff, c) == Backoff(Fails(s, c))
  {
    ReachableInv(s, clusters);
    assert BackoffOk(s, c);
  }

  // ---- fairness ----------------------------------------------------------

  /** The step neither refreshes c nor finds it unhealthy, and a selection in it finds c due. */
  predicate SparesDue(s: State, l: Step, c: string) {
    match l
    case Advance(_) => true
    case Select(r, t) => r >= Due(s.sched, c) && t != Some(c)
    case BackgroundAnswer(a) => s.pending != Some(c) || a != Some(false)
    case Request(k) => k != c
    case FullProbe(k) => k != c
    case Answered(k, a) => k != c || a != Some(false)
  }

  predicate AllSpare(s: State, clusters: seq<string>, ls: seq<Step>, c: string)
    decreases |ls|
  {
    |ls| == 0 || (SparesDue(s, ls[0], c) && AllSpare(Next(s, clusters, ls[0]), clusters, ls[1..], c))
  }

  function Selections(ls: seq<Step>): nat {
    if |ls| == 0 then 0 else (if ls[0].Select? then 1 else 0) + Selections(ls[1..])
  }

  /** The clusters probed since c fell due have been refreshed at or after that time. */
  ghost predicate Passed(s: State, done: set<string>, due: int) {
    && (done != {} ==> s.clock >= due)
    && forall d :: d in done ==> Lookup(s.sched.lastRefresh, d) >= due
  }

  /** A step that spares c does not put off its due time, and picks, if it selects, a cluster not picked since. */
  lemma {:induction false} SpareStep(s: State, clusters: seq<string>, l: Step, c: string, done: set<string>) returns (d': set<string>)
    requires Inv(s, clusters) && Enabled(s, clusters, l) && c in clusters && SparesDue(s, l, c)
    requires Passed(s, done, Due(s.sched, c)) && c !in done && done <= set k | k in clusters
    ensures Due(Next(s, clusters, l).sched, c) <= Due(s.sched, c)
    ensures Passed(Next(s, clusters, l), d', Due(Next(s, clusters, l).sched, c)) && c !in d' && d' <= set k | k in clusters
    ensures if l.Select? then |d'| == |done| + 1 else d' == done
    ensures l.Select? ==> l.target.Some? && d' == done + {l.target.value} && l.target.value !in done
  {
    assert BackoffOk(s, c);
    if l.Select? {
      assert l.target.Some?;
      var t := l.target.value;
      assert BackoffOk(s, t);
      BackoffDoubles(Fails(s, t));
      assert t !in done;
      d' := done + {t};
    } else {
      d' := done;
    }
  }

  lemma {:induction false} SpareRun(s: State, clusters: seq<string>, ls: seq<Step>, c: string, done: set<string>)
    returns (d': set<string>)
    requires Inv(s, clusters) && Runs(s, clusters, ls) && c in clusters && AllSpare(s, clusters, ls, c)
    requires Passed(s, done, Due(s.sched, c)) && c !in done && done <= set k | k in clusters
    ensures c !in d' && d' <= set k | k in clusters
    ensures |d'| == |done| + Selections(ls)
    decreases |ls|
  {
    d' := done;
    if |ls| > 0 {
      InvStep(s, clusters, ls[0]);
      d' := SpareStep(s, clusters, ls[0], c, done);
      d' := SpareRun(Next(s, clusters, ls[0]), clusters, ls[1..], c, d');
    }
  }

  /** The targets of a run's selections. */
  function Targets(ls: seq<Step>): seq<string> {
    if |ls| == 0 then []
    else (if ls[0].Select? && ls[0].target.Some? then [ls[0].target.value] else []) + Targets(ls[1..])
  }

  lemma {:induction false} TargetsDistinct(s: State, clusters: seq<string>, ls: seq<Step>, c: string, done: set<string>)
    requires Inv(s, clusters) && Runs(s, clusters, ls) && c in clusters && AllSpare(s, clusters, ls, c)
    requires Passed(s, done, Due(s.sched, c)) && c !in done && done <= set k | k in clusters
    ensures forall i :: 0 <= i < |Targets(ls)| ==> Targets(ls)[i] !in done
    ensures forall i, j :: 0 <= i < j < |Targets(ls)| ==> Targets(ls)[i] != Targets(ls)[j]
    decreases |ls|
  {
    if |ls| > 0 {
      InvStep(s, clusters, ls[0]);
      var d' := SpareStep(s, clusters, ls[0], c, done);
      TargetsDistinct(Next(s, clusters, ls[0]), clusters, ls[1..], c, d');
    }
  }

  /**
   From a state in which c is due, as long as nobody refreshes c on request, no
   answer finds it unhealthy and the background loop has not reached it,
   no other cluster is background-probed twice; so there are fewer selections
   than clusters, and the next one to come after them is for c.
   */
  lemma Fairness(s: State, clusters: seq<string>, ls: seq<Step>, c: string)
    requires Reachable(s, clusters) && Runs(s, clusters, ls) && c in clusters && AllSpare(s, clusters, ls, c)
    ensures forall i, j :: 0 <= i < j < |Targets(ls)| ==> Targets(ls)[i] != Targets(ls)[j]
    ensures Selections(ls) < |set k | k in clusters|
  {
    ReachableInv(s, clusters);
    TargetsDistinct(s, clusters, ls, c, {});
    var d' := SpareRun(s, clusters, ls, c, {});
    var all := set k | k in clusters;
    assert d' <= all - {c};
    SubsetSize(d', all - {c});
  }

}
