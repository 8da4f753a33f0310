/** The promises of the cache, over every reachable state of its protocol. */
module CacheTheorems {
  import opened Options
  import opened CacheState
  import opened CacheProtocol
  import opened CacheSafety

  /** The reply carries a value whose fetch was registered before an invalidation that the call began after. */
  ghost predicate ServesOldValue(s: State, c: Call) {
    && c.phase.Replied? && c.phase.reply.Got? && c.phase.reply.v.origin.Fetched?
    && c.phase.reply.v.origin.flight < |s.flights|
    && exists i :: 0 <= i < |s.invs| && Covers(s.invs[i].pattern, c.key) && s.invs[i].tick < c.begun
                   && s.flights[c.phase.reply.v.origin.flight].born <= s.invs[i].tick
  }

  /** Get and GetOrSet never return a value fetched before an invalidation that preceded the call. */
  lemma ReadsSeeInvalidations(s: State, c: nat)
    requires Reachable(s) && c < |s.calls| && !s.calls[c].kind.SwrCall?
    ensures !ServesOldValue(s, s.calls[c])
  {
    ReachableInv(s);
    assert CallOk(s, s.calls[c]);
  }

  /** Whoever waits, waits on a fetch registered after every invalidation that preceded the call. */
  lemma WaitersJoinNewFetches(s: State, c: nat)
    requires Reachable(s) && c < |s.calls| && s.calls[c].phase.Waiting?
    ensures var f := s.calls[c].phase.f;
            && f < |s.flights| && s.flights[f].key == s.calls[c].key
            && forall i :: 0 <= i < |s.invs| && Covers(s.invs[i].pattern, s.calls[c].key) && s.invs[i].tick < s.calls[c].begun
                           ==> s.invs[i].tick < s.flights[f].born
  {
    ReachableInv(s);
    assert CallOk(s, s.calls[c]);
  }

  /**
   GetOrSetSWR may return a value fetched before such an invalidation in two
   cases only: the newer fetch it waited for gave none, or another invalidation
   of the key overtook the call between its clock reading and its read.
   */
  lemma SwrSeesInvalidations(s: State, c: nat)
    requires Reachable(s) && c < |s.calls| && s.calls[c].kind.SwrCall?
    requires ServesOldValue(s, s.calls[c])
    ensures var via := s.calls[c].phase.reply.via;
            || (via.Fallback? && FellBack(s, s.calls[c], via.f))
            || (via.Hit? && Overtaken(s, s.calls[c]))
  {
    ReachableInv(s);
    assert CallOk(s, s.calls[c]);
  }

  /** A fallback hands out the marked entry it had read, and only inside that entry's stale window. */
  lemma FallbackStaysInWindow(s: State, c: nat)
    requires Reachable(s) && Enabled(s, Answer(c))
    ensures var reply := Next(s, Answer(c)).calls[c].phase.reply;
            var ph := s.calls[c].phase;
            reply.Got? && reply.via.Fallback? ==>
              && s.calls[c].kind.SwrCall?
              && ph.prior.Some? && reply.v == ph.prior.value.value
              && ph.prior.value.invalidated && s.calls[c].now <= ph.prior.value.staleUntil
              && s.flights[ph.f].outcome != None && !s.flights[ph.f].outcome.value.Good?
  {
    ReachableInv(s);
    assert CallOk(s, s.calls[c]);
  }

  /**
   A GetOrSetSWR call that finds a marked entry serves it at once exactly when
   the invalidation that stamped the entry read the clock after the call did;
   that invalidation then held the lock after the call began.
   */
  lemma MarkedEntryServedIff(s: State, c: nat, i: nat)
    requires Reachable(s) && Enabled(s, ReadItem(c)) && s.calls[c].kind.SwrCall?
    requires s.calls[c].key in s.shared.items && s.shared.items[s.calls[c].key].invalidated
    requires i < |s.invs| && Covers(s.invs[i].pattern, s.calls[c].key)
    requires s.invs[i].reading == Some(s.shared.items[s.calls[c].key].exp + 1)
    ensures Next(s, ReadItem(c)).calls[c].phase.Replied? <==> s.calls[c].now < s.invs[i].reading.value
    ensures s.calls[c].now < s.invs[i].reading.value ==> s.calls[c].begun < s.invs[i].tick
    ensures !Next(s, ReadItem(c)).calls[c].phase.Replied? ==> Next(s, ReadItem(c)).calls[c].phase.NeedFetch?
  {
    ReachableInv(s);
    assert Ordered(s.invs[i], s.calls[c]);
  }

  /** Every marked entry has such an invalidation. */
  lemma MarksAreStamped(s: State, k: string)
    requires Reachable(s) && k in s.shared.items && s.shared.items[k].invalidated
    ensures Stamped(s, k, s.shared.items[k])
  {
    ReachableInv(s);
    assert EntryOk(s, k, s.shared.items[k]);
  }

  // ---- single flight -----------------------------------------------------

  /** A running fetch whose result may still be stored. */
  predicate Live(s: State, f: nat) {
    f < |s.flights| && Unfinished(s.flights[f].phase) && f !in s.shared.superseded
  }

  lemma FlightDiscipline(s: State)
    requires Reachable(s)
    ensures forall f: nat :: Live(s, f) ==> s.flights[f].key in s.shared.fetching && s.shared.fetching[s.flights[f].key] == f
    ensures forall f: nat, g: nat :: Live(s, f) && Live(s, g) && s.flights[f].key == s.flights[g].key ==> f == g
    ensures forall f: nat :: f < |s.flights| ==> s.flights[f].closes == (if s.flights[f].phase.Closed? then 1 else 0)
  {
    ReachableInv(s);
    forall f: nat | f < |s.flights|
      ensures Live(s, f) ==> s.flights[f].key in s.shared.fetching && s.shared.fetching[s.flights[f].key] == f
      ensures s.flights[f].closes == (if s.flights[f].phase.Closed? then 1 else 0)
    {
      assert FlightOk(s, f);
    }
  }

  /** Leaving the register removes the fetch itself, if it is there, and no other. */
  lemma FinishRemovesOnlyItself(s: State, f: nat)
    requires Reachable(s) && Enabled(s, Unregister(f))
    ensures var after := Next(s, Unregister(f)).shared.fetching;
            forall k :: k in after <==> k in s.shared.fetching && s.shared.fetching[k] != f
    ensures var after := Next(s, Unregister(f)).shared.fetching;
            forall k :: k in after ==> after[k] == s.shared.fetching[k]
  {
    ReachableInv(s);
    assert FlightOk(s, f);
  }

  /** How many of its own steps a fetch still has to make. */
  function Left(p: Phase): nat {
    match p
    case Running => 4
    case Storing(_) => 3
    case Unregistering => 2
    case Closing => 1
    case Closed => 0
  }

  predicate OwnStep(l: Step, f: nat) {
    match l
    case FetcherReturns(g, _) => g == f
    case StoreResult(g) => g == f
    case Unregister(g) => g == f
    case CloseDone(g) => g == f
    case _ => false
  }

  /**
   A fetch is never stuck, however its fetcher ended: until its channel is
   closed one of its own steps is possible, each brings the close nearer, and no
   step of anyone else moves it. So every waiter is woken.
   */
  lemma FetchesFinish(s: State, f: nat, l: Step)
    requires Reachable(s) && f < |s.flights| && Enabled(s, l)
    ensures s.flights[f].phase != Closed ==> exists own :: OwnStep(own, f) && Enabled(s, own)
    ensures OwnStep(l, f) ==> Left(Next(s, l).flights[f].phase) < Left(s.flights[f].phase)
    ensures !OwnStep(l, f) ==> Next(s, l).flights[f].phase == s.flights[f].phase
  {
    match s.flights[f].phase
    case Running => assert OwnStep(FetcherReturns(f, Panicked), f) && Enabled(s, FetcherReturns(f, Panicked));
    case Storing(_) => assert OwnStep(StoreResult(f), f) && Enabled(s, StoreResult(f));
    case Unregistering => assert OwnStep(Unregister(f), f) && Enabled(s, Unregister(f));
    case Closing => assert OwnStep(CloseDone(f), f) && Enabled(s, CloseDone(f));
    case Closed =>
  }

  /** Once the awaited channel is closed the waiter has its answer. */
  lemma WaitersAreWoken(s: State, c: nat)
    requires Reachable(s) && c < |s.calls| && s.calls[c].phase.Waiting?
    ensures s.calls[c].phase.f < |s.flights|
    ensures s.flights[s.calls[c].phase.f].phase.Closed? <==> Enabled(s, Answer(c))
  {
    ReachableInv(s);
    assert CallOk(s, s.calls[c]);
    assert FlightOk(s, s.calls[c].phase.f);
  }

  // ---- the overtaking run ------------------------------------------------

  lemma {:induction false} ExecSnoc(s: State, ls: seq<Step>, l: Step)
    requires Runs(s, ls) && Enabled(Exec(s, ls), l)
    ensures Runs(s, ls + [l]) && Exec(s, ls + [l]) == Next(Exec(s, ls), l)
    decreases |ls|
  {
    if |ls| == 0 {
      assert (ls + [l])[1..] == [];
    } else {
      ExecSnoc(Next(s, ls[0]), ls[1..], l);
      assert (ls + [l])[1..] == ls[1..] + [l];
    }
  }

  lemma ReachNext(s: State, l: Step)
    requires Reachable(s) && Enabled(s, l)
    ensures Reachable(Next(s, l))
  {
    var s0, ls :| Init(s0) && Runs(s0, ls) && Exec(s0, ls) == s;
    ExecSnoc(s0, ls, l);
  }

  const K := "k"
  const ENTRY := Entry(Tagged(7, Fetched(0)), 12, 112, false)
  const SHARED: Shared<nat, Tagged> := Shared.Shared(map[K := ENTRY], map[K := 0], {})
  const FLIGHT := Flight(K, 2, Swr(10, 100), Unregistering, Some(Good(7)), 0)
  const WAITER := Call(SwrCall(10, 100), K, 0, 2, Waiting(0, true, None))

  /** A first GetOrSetSWR call is running its fetcher at time 2. */
  lemma FetchingState()
    ensures Reachable(State(Shared.Shared(map[], map[K := 0], {}), [FLIGHT.(phase := Running, outcome := None)], [WAITER], [], 2, 3, 60))
  {
    var s0 := State(Shared.Shared(map[], map[], {}), [], [], [], 2, 0, 60);
    assert Init(s0) && Runs(s0, []) && Exec(s0, []) == s0;
    assert Reachable(s0);
    ReachNext(s0, Begin(SwrCall(10, 100), K));
    var s1 := Next(s0, Begin(SwrCall(10, 100), K));
    ReachNext(s1, ReadItem(0));
    var s2 := Next(s1, ReadItem(0));
    ReachNext(s2, Fetch(0));
    assert Next(s2, Fetch(0)) ==
      State(Shared.Shared(map[], map[K := 0], {}), [FLIGHT.(phase := Running, outcome := None)], [WAITER], [], 2, 3, 60);
  }

  /** Its value has been stored. */
  lemma StoredState()
    ensures Reachable(State(SHARED, [FLIGHT], [WAITER], [], 2, 5, 60))
  {
    FetchingState();
    var s3 := State(Shared.Shared(map[], map[K := 0], {}), [FLIGHT.(phase := Running, outcome := None)], [WAITER], [], 2, 3, 60);
    ReachNext(s3, FetcherReturns(0, Good(7)));
    var s4 := Next(s3, FetcherReturns(0, Good(7)));
    ReachNext(s4, StoreResult(0));
    assert Next(s4, StoreResult(0)) == State(SHARED, [FLIGHT], [WAITER], [], 2, 5, 60);
  }

  const MARKED: Shared<nat, Tagged> := Shared.Shared(map[K := ENTRY.(exp := 1, invalidated := true)], map[K := 0], {0})
  const FIRST := Inv(Exact(K), 5, Some(2))
  const LATE := Call(SwrCall(10, 100), K, 7, 5, Begun)

  /** An invalidation at time 2 has returned; a second call then begins at time 5. */
  lemma InvalidatedState()
    ensures Reachable(State(MARKED, [FLIGHT], [WAITER, LATE], [FIRST], 5, 8, 60))
  {
    StoredState();
    var s5 := State(SHARED, [FLIGHT], [WAITER], [], 2, 5, 60);
    ReachNext(s5, Invalidate(K, 2));
    var s6 := Next(s5, Invalidate(K, 2));
    assert K in SHARED.fetching && Covers(Exact(K), K) && ParsePattern(K) == Exact(K);
    assert s6.shared.superseded == {0};
    assert s6.shared.items == MARKED.items;
    ReachNext(s6, Advance(3));
    var s7 := Next(s6, Advance(3));
    ReachNext(s7, Begin(SwrCall(10, 100), K));
    assert Next(s7, Begin(SwrCall(10, 100), K)) == State(MARKED, [FLIGHT], [WAITER, LATE], [FIRST], 5, 8, 60);
  }

  /**
   The second call has read the clock at 5 when a third party invalidates at 10
   and moves the mark to 9; the call then takes the entry for fresh and returns
   the value of before.
   */
  lemma SwrCanServeOldValue()
    ensures exists s, c: nat :: Reachable(s) && c < |s.calls| && s.calls[c].kind.SwrCall?
                           && ServesOldValue(s, s.calls[c]) && s.calls[c].phase.reply.via.Hit?
  {
    InvalidatedState();
    var s8 := State(MARKED, [FLIGHT], [WAITER, LATE], [FIRST], 5, 8, 60);
    ReachNext(s8, Advance(5));
    var s9 := Next(s8, Advance(5));
    ReachNext(s9, Invalidate(K, 10));
    var s10 := Next(s9, Invalidate(K, 10));
    assert s10.shared.items[K] == Entry(Tagged(7, Fetched(0)), 9, 112, true);
    ReachNext(s10, ReadItem(1));
    var s11 := Next(s10, ReadItem(1));
    assert s11.calls[1] == LATE.(phase := Replied(Got(Tagged(7, Fetched(0)), Hit)));
    assert s11.invs[0] == FIRST && Covers(FIRST.pattern, K);
    assert ServesOldValue(s11, s11.calls[1]);
  }
}
