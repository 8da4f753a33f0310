/**
 What holds in every reachable state of the cache protocol, and what that means
 for the callers of Get, GetOrSet and GetOrSetSWR.
 */
module CacheSafety {
  import opened Options
  import opened CacheState
  import opened CacheProtocol

  /** The value did not come from a fetch registered before an invalidation of `key` that precedes step `since`. */
  ghost predicate FreshSince(s: State, o: Origin, key: string, since: nat) {
    o.Fetched? ==>
      && o.flight < |s.flights|
      && s.flights[o.flight].key == key
      && forall i :: 0 <= i < |s.invs| && Covers(s.invs[i].pattern, key) && s.invs[i].tick < since ==>
           s.invs[i].tick < s.flights[o.flight].born
  }

  /** An invalidation of the key ran after the call began, with a later clock reading than the call's. */
  ghost predicate Overtaken(s: State, c: Call) {
    exists i :: 0 <= i < |s.invs| && Covers(s.invs[i].pattern, c.key) && c.begun < s.invs[i].tick
                && s.invs[i].reading.Some? && c.now < s.invs[i].reading.value
  }

  /** The entry was stamped by a recorded invalidation of its key. */
  ghost predicate Stamped(s: State, key: string, e: Entry<Tagged>) {
    exists i :: 0 <= i < |s.invs| && Covers(s.invs[i].pattern, key) && s.invs[i].reading == Some(e.exp + 1)
  }

  ghost predicate FlightOk(s: State, f: nat)
    requires f < |s.flights|
  {
    var fl := s.flights[f];
    && fl.born < s.tick
    && fl.closes == (if fl.phase.Closed? then 1 else 0)
    && (fl.phase.Running? <==> fl.outcome.None?)
    && (fl.phase.Storing? ==> fl.phase.e.value.origin == Fetched(f) && !fl.phase.e.invalidated)
    && (Unfinished(fl.phase) && f !in s.shared.superseded ==>
          && fl.key in s.shared.fetching && s.shared.fetching[fl.key] == f
          && forall i :: 0 <= i < |s.invs| && Covers(s.invs[i].pattern, fl.key) ==> s.invs[i].tick < fl.born)
  }

  ghost predicate FlightsInv(s: State) {
    && (forall f: nat :: f < |s.flights| ==> FlightOk(s, f))
    && (forall k :: k in s.shared.fetching ==>
          s.shared.fetching[k] < |s.flights| && s.flights[s.shared.fetching[k]].key == k
          && Unfinished(s.flights[s.shared.fetching[k]].phase))
    && (forall f :: f in s.shared.superseded ==> f < |s.flights|)
  }

  /** Unless it is marked, a cached value predates no invalidation of its key. */
  ghost predicate EntryOk(s: State, key: string, e: Entry<Tagged>) {
    if e.invalidated then Stamped(s, key, e) else FreshSince(s, e.value.origin, key, s.tick)
  }

  ghost predicate ItemsInv(s: State) {
    forall k :: k in s.shared.items ==> EntryOk(s, k, s.shared.items[k])
  }

  ghost predicate InvsInv(s: State) {
    && s.clock >= 2
    && (forall i :: 0 <= i < |s.invs| ==>
          && s.invs[i].tick < s.tick
          && (s.invs[i].reading.Some? ==> 2 <= s.invs[i].reading.value <= s.clock))
    && (forall i, c :: 0 <= i < |s.invs| && 0 <= c < |s.calls| ==> Ordered(s.invs[i], s.calls[c]))
  }

  /** An invalidation that held the lock before a call began read the clock no later than the call did. */
  predicate Ordered(inv: Inv, c: Call) {
    && inv.tick != c.begun
    && (inv.tick < c.begun && inv.reading.Some? ==> inv.reading.value <= c.now)
  }

  /** An entry a plain reader holds is either fresh enough for it or already expired. */
  ghost predicate ReadOk(s: State, c: Call, e: Entry<Tagged>) {
    FreshSince(s, e.value.origin, c.key, c.begun) || 0 < e.exp < s.clock
  }

  ghost predicate PriorOk(c: Call, prior: Option<Entry<Tagged>>) {
    prior.Some? ==> c.kind.SwrCall? && prior.value.invalidated && c.now <= prior.value.staleUntil
  }

  ghost predicate FellBack(s: State, c: Call, f: nat) {
    && c.kind.SwrCall? && f < |s.flights|
    && FreshSince(s, Fetched(f), c.key, c.begun)
    && s.flights[f].outcome.Some? && !s.flights[f].outcome.value.Good?
  }

  ghost predicate ReplyOk(s: State, c: Call, r: Reply) {
    match r
    case Got(v, Fallback(f)) => FellBack(s, c, f)
    case Got(v, ByFetch(f)) => v.origin == Fetched(f) && FreshSince(s, v.origin, c.key, c.begun)
    case Got(v, StaleHit) => FreshSince(s, v.origin, c.key, c.begun)
    case Got(v, Hit) => FreshSince(s, v.origin, c.key, c.begun) || (c.kind.SwrCall? && Overtaken(s, c))
    case Missing => true
    case Error(f) => FreshSince(s, Fetched(f), c.key, c.begun)
    case Panic(f) => FreshSince(s, Fetched(f), c.key, c.begun)
  }

  ghost predicate CallOk(s: State, c: Call) {
    && c.begun < s.tick
    && c.now <= s.clock
    && match c.phase
       case Begun => true
       case Read(e) => !c.kind.SwrCall? && (e.Some? ==> ReadOk(s, c, e.value))
       case NeedFetch(prior) => PriorOk(c, prior)
       case NeedRefresh(e) => FreshSince(s, e.value.origin, c.key, c.begun)
       case Waiting(f, _, prior) => PriorOk(c, prior) && FreshSince(s, Fetched(f), c.key, c.begun)
       case Replied(r) => ReplyOk(s, c, r)
  }

  ghost predicate CallsInv(s: State) {
    forall c :: 0 <= c < |s.calls| ==> CallOk(s, s.calls[c])
  }

  ghost predicate Inv(s: State) {
    FlightsInv(s) && ItemsInv(s) && InvsInv(s) && CallsInv(s)
  }

  // ---- what later steps leave true -------------------------------------

  /** Fetches keep their key and birth, outcomes stay, invalidations are only added, and later than every call. */
  ghost predicate Grows(s: State, t: State) {
    && |s.flights| <= |t.flights|
    && (forall f :: 0 <= f < |s.flights| ==>
          && t.flights[f].key == s.flights[f].key && t.flights[f].born == s.flights[f].born
          && (s.flights[f].outcome.Some? ==> t.flights[f].outcome == s.flights[f].outcome))
    && |s.invs| <= |t.invs|
    && (forall i :: 0 <= i < |s.invs| ==> t.invs[i] == s.invs[i])
    && (forall i :: |s.invs| <= i < |t.invs| ==> t.invs[i].tick == s.tick)
    && s.clock <= t.clock && s.tick < t.tick
  }

  lemma FreshSinceStays(s: State, t: State, o: Origin, key: string, since: nat)
    requires Grows(s, t) && since <= s.tick && FreshSince(s, o, key, since)
    ensures FreshSince(t, o, key, since)
  {
  }

  lemma OvertakenStays(s: State, t: State, c: Call)
    requires Grows(s, t) && Overtaken(s, c)
    ensures Overtaken(t, c)
  {
    var i :| 0 <= i < |s.invs| && Covers(s.invs[i].pattern, c.key) && c.begun < s.invs[i].tick
                && s.invs[i].reading.Some? && c.now < s.invs[i].reading.value;
    assert t.invs[i] == s.invs[i];
  }

  lemma CallStays(s: State, t: State, c: Call)
    requires Grows(s, t) && CallOk(s, c)
    ensures CallOk(t, c)
  {
    match c.phase
    case Begun =>
    case Read(e) =>
      if e.Some? && FreshSince(s, e.value.value.origin, c.key, c.begun) {
        FreshSinceStays(s, t, e.value.value.origin, c.key, c.begun);
      }
    case NeedFetch(_) =>
    case NeedRefresh(e) => FreshSinceStays(s, t, e.value.origin, c.key, c.begun);
    case Waiting(f, _, _) => FreshSinceStays(s, t, Fetched(f), c.key, c.begun);
    case Replied(r) => ReplyStays(s, t, c, r);
  }

  lemma ReplyStays(s: State, t: State, c: Call, r: Reply)
    requires Grows(s, t) && c.begun < s.tick && ReplyOk(s, c, r)
    ensures ReplyOk(t, c, r)
  {
    match r
    case Got(v, Fallback(f)) => FreshSinceStays(s, t, Fetched(f), c.key, c.begun);
    case Got(v, ByFetch(f)) => FreshSinceStays(s, t, v.origin, c.key, c.begun);
    case Got(v, StaleHit) => FreshSinceStays(s, t, v.origin, c.key, c.begun);
    case Got(v, Hit) =>
      if FreshSince(s, v.origin, c.key, c.begun) {
        FreshSinceStays(s, t, v.origin, c.key, c.begun);
      } else {
        OvertakenStays(s, t, c);
      }
    case Missing =>
    case Error(f) => FreshSinceStays(s, t, Fetched(f), c.key, c.begun);
    case Panic(f) => FreshSinceStays(s, t, Fetched(f), c.key, c.begun);
  }

  lemma StampedStays(s: State, t: State, key: string, e: Entry<Tagged>)
    requires Grows(s, t) && Stamped(s, key, e)
    ensures Stamped(t, key, e)
  {
    var i :| 0 <= i < |s.invs| && Covers(s.invs[i].pattern, key) && s.invs[i].reading == Some(e.exp + 1);
    assert t.invs[i] == s.invs[i];
  }

  /** With no new invalidation, an entry that was in order still is. */
  lemma EntryStays(s: State, t: State, key: string, e: Entry<Tagged>)
    requires InvsInv(s) && Grows(s, t) && t.invs == s.invs && EntryOk(s, key, e)
    ensures EntryOk(t, key, e)
  {
    if e.invalidated { StampedStays(s, t, key, e); }
  }

  lemma Grown(s: State, l: Step)
    requires Enabled(s, l) && FlightsInv(s)
    ensures Grows(s, Next(s, l))
  {
    if l.FetcherReturns? {
      assert FlightOk(s, l.f);
    }
  }

  // ---- each step keeps the invariant -----------------------------------

  predicate IsInvalidation(l: Step) {
    l.Invalidate? || l.Drop?
  }

  predicate IsFlightStep(l: Step) {
    l.FetcherReturns? || l.StoreResult? || l.Unregister? || l.CloseDone?
  }

  predicate IsRegistering(l: Step) {
    l.Fetch? || l.Refresh?
  }

  /** Steps that touch neither fetches nor their register. */
  lemma FlightsIdle(s: State, l: Step)
    requires Inv(s) && Enabled(s, l) && !IsInvalidation(l) && !IsFlightStep(l) && !IsRegistering(l)
    ensures FlightsInv(Next(s, l))
  {
    var t := Next(s, l);
    forall f: nat | f < |t.flights|
      ensures FlightOk(t, f)
    {
      assert FlightOk(s, f);
    }
  }

  lemma FlightsRegister(s: State, l: Step)
    requires Inv(s) && Enabled(s, l) && IsRegistering(l)
    ensures FlightsInv(Next(s, l))
  {
    var t := Next(s, l);
    forall f: nat | f < |t.flights|
      ensures FlightOk(t, f)
    {
      if f < |s.flights| {
        assert FlightOk(s, f);
      }
    }
  }

  lemma FlightsOwn(s: State, l: Step)
    requires Inv(s) && Enabled(s, l) && IsFlightStep(l)
    ensures FlightsInv(Next(s, l))
  {
    var t := Next(s, l);
    assert FlightOk(s, l.f);
    forall f: nat | f < |t.flights|
      ensures FlightOk(t, f)
    {
      assert FlightOk(s, f);
    }
  }

  lemma FlightsStep(s: State, l: Step)
    requires Inv(s) && Enabled(s, l)
    ensures FlightsInv(Next(s, l))
  {
    if IsInvalidation(l) {
      FlightsInvalidation(s, l);
    } else if IsFlightStep(l) {
      FlightsOwn(s, l);
    } else if IsRegistering(l) {
      FlightsRegister(s, l);
    } else {
      FlightsIdle(s, l);
    }
  }

  lemma FlightsInvalidation(s: State, l: Step)
    requires Inv(s) && Enabled(s, l) && IsInvalidation(l)
    ensures FlightsInv(Next(s, l))
  {
    var t := Next(s, l);
    forall f: nat | f < |t.flights|
      ensures FlightOk(t, f)
    {
      assert FlightOk(s, f);
    }
  }

  lemma ItemsStep(s: State, l: Step)
    requires Inv(s) && Enabled(s, l) && !IsInvalidation(l)
    ensures ItemsInv(Next(s, l))
  {
    var t := Next(s, l);
    Grown(s, l);
    forall k | k in t.shared.items
      ensures EntryOk(t, k, t.shared.items[k])
    {
      if k in s.shared.items && t.shared.items[k] == s.shared.items[k] {
        EntryStays(s, t, k, s.shared.items[k]);
      } else if l.StoreResult? {
        assert FlightOk(s, l.f);
      }
    }
  }

  lemma ItemsInvalidation(s: State, l: Step)
    requires Inv(s) && Enabled(s, l) && IsInvalidation(l)
    ensures ItemsInv(Next(s, l))
  {
    var t := Next(s, l);
    Grown(s, l);
    forall k | k in t.shared.items
      ensures EntryOk(t, k, t.shared.items[k])
    {
      var inv := t.invs[|s.invs|];
      var e := s.shared.items[k];
      if Covers(inv.pattern, k) {
        assert t.invs[|s.invs|].reading == Some(t.shared.items[k].exp + 1);
        assert Stamped(t, k, t.shared.items[k]);
      } else if e.invalidated {
        StampedStays(s, t, k, e);
      } else {
        assert FreshSince(s, e.value.origin, k, s.tick);
      }
    }
  }

  lemma InvsStep(s: State, l: Step)
    requires Inv(s) && Enabled(s, l)
    ensures InvsInv(Next(s, l))
  {
    var t := Next(s, l);
    forall i, c | 0 <= i < |t.invs| && 0 <= c < |t.calls|
      ensures Ordered(t.invs[i], t.calls[c])
    {
      if i < |s.invs| && c < |s.calls| {
        assert Ordered(s.invs[i], s.calls[c]);
      } else if c < |s.calls| {
        assert CallOk(s, s.calls[c]);
      }
    }
  }

  /** What a read may hand on, whichever entry it finds. */
  lemma ReadStep(s: State, c: nat)
    requires Inv(s) && Enabled(s, ReadItem(c))
    ensures CallOk(s, Next(s, ReadItem(c)).calls[c])
  {
    var call := s.calls[c];
    assert CallOk(s, call);
    if call.key in s.shared.items {
      var e := s.shared.items[call.key];
      assert EntryOk(s, call.key, e);
      if e.invalidated {
        var i :| 0 <= i < |s.invs| && Covers(s.invs[i].pattern, call.key) && s.invs[i].reading == Some(e.exp + 1);
        assert Ordered(s.invs[i], call);
        assert SwrFresh(e, call.now) ==> Overtaken(s, call);
      } else {
        assert FreshSince(s, e.value.origin, call.key, call.begun);
      }
    }
  }

  /** A joined or started fetch was registered after every invalidation that precedes the call. */
  lemma FetchStep(s: State, c: nat)
    requires Inv(s) && Enabled(s, Fetch(c))
    ensures CallOk(Next(s, Fetch(c)), Next(s, Fetch(c)).calls[c])
  {
    var call := s.calls[c];
    var t := Next(s, Fetch(c));
    assert CallOk(s, call);
    var f := t.calls[c].phase.f;
    if CanJoin(s.shared, call.key) {
      assert FlightOk(s, f);
    } else {
      assert t.flights[f].born == s.tick;
    }
    assert FreshSince(t, Fetched(f), call.key, call.begun);
  }

  lemma CallsStep(s: State, l: Step)
    requires Inv(s) && Enabled(s, l)
    ensures CallsInv(Next(s, l))
  {
    var t := Next(s, l);
    Grown(s, l);
    forall c: nat | c < |t.calls|
      ensures CallOk(t, t.calls[c])
    {
      if c < |s.calls| {
        CallStays(s, t, s.calls[c]);
      }
      if l.ReadItem? && c == l.c {
        ReadStep(s, c);
        CallStays(s, t, t.calls[c]);
      } else if l.Fetch? && c == l.c {
        FetchStep(s, c);
      }
    }
  }

  lemma InvStep(s: State, l: Step)
    requires Inv(s) && Enabled(s, l)
    ensures Inv(Next(s, l))
  {
    FlightsStep(s, l);
    if IsInvalidation(l) {
      ItemsInvalidation(s, l);
    } else {
      ItemsStep(s, l);
    }
    InvsStep(s, l);
    CallsStep(s, l);
  }

  lemma {:induction false} RunInv(s: State, ls: seq<Step>)
    requires Inv(s) && Runs(s, ls)
    ensures Inv(Exec(s, ls))
    decreases |ls|
  {
    if |ls| > 0 {
      InvStep(s, ls[0]);
      RunInv(Next(s, ls[0]), ls[1..]);
    }
  }

  lemma ReachableInv(s: State)
    requires Reachable(s)
    ensures Inv(s)
  {
    var s0, ls :| Init(s0) && Runs(s0, ls) && Exec(s0, ls) == s;
    RunInv(s0, ls);
  }
}
