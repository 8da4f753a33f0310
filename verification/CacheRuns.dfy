/** The cache's promises in terms of the steps of a run: the text of an invalidation, what fetchers returned, and clocks. */
module CacheRuns {
  import opened Options
  import opened CacheState
  import opened CacheProtocol
  import opened CacheSafety
  import opened CacheTheorems

  // ---- what an invalidation reaches ----------------------------------------

  /** The step invalidates or deletes the key, by the text of its argument. */
  predicate Invalidates(l: Step, key: string) {
    match l
    case Invalidate(text, _) => Reaches(text, key)
    case Drop(Exact(k)) => key == k
    case Drop(Prefix(prefix)) => |prefix| <= |key| && key[..|prefix|] == prefix
    case _ => false
  }

  /** A key it reaches is gone or marked as expired, with its fetch superseded; any other key is as before. */
  lemma InvalidationReaches(s: State, l: Step, key: string)
    requires Enabled(s, l) && (l.Invalidate? || l.Drop?)
    ensures var was, now := s.shared, Next(s, l).shared;
            && now.fetching == was.fetching
            && (Invalidates(l, key) ==>
                  && (key in was.fetching ==> was.fetching[key] in now.superseded)
                  && (key in now.items ==> l.Invalidate? && key in was.items && l.reading < was.items[key].staleUntil
                                           && now.items[key] == was.items[key].(exp := l.reading - 1, invalidated := true)))
            && (!Invalidates(l, key) ==>
                  && (key in now.items <==> key in was.items)
                  && (key in now.items ==> now.items[key] == was.items[key]))
    ensures forall f :: f in Next(s, l).shared.superseded ==>
              f in s.shared.superseded || exists k :: k in s.shared.fetching && s.shared.fetching[k] == f && Invalidates(l, k)
  {
    forall k ensures Covers(Next(s, l).invs[|s.invs|].pattern, k) <==> Invalidates(l, k) {
      if l.Invalidate? {
        CoversIsReaches(l.pattern, k);
      }
    }
  }

  lemma {:induction false} InvsStay(s: State, ls: seq<Step>)
    requires Runs(s, ls)
    ensures |s.invs| <= |Exec(s, ls).invs| && s.tick <= Exec(s, ls).tick
    ensures forall i :: 0 <= i < |s.invs| ==> Exec(s, ls).invs[i] == s.invs[i]
    decreases |ls|
  {
    if |ls| > 0 {
      InvsStay(Next(s, ls[0]), ls[1..]);
    }
  }

  lemma {:induction false} ReachRun(s: State, ls: seq<Step>)
    requires Reachable(s) && Runs(s, ls)
    ensures Reachable(Exec(s, ls))
    decreases |ls|
  {
    if |ls| > 0 {
      ReachNext(s, ls[0]);
      ReachRun(Next(s, ls[0]), ls[1..]);
    }
  }

  /** The state a run leads to after a step. */
  ghost predicate Follows(s: State, l: Step, ls: seq<Step>, t: State) {
    Reachable(s) && Enabled(s, l) && Runs(Next(s, l), ls) && t == Exec(Next(s, l), ls)
  }

  lemma InvalidationRecorded(s: State, l: Step, ls: seq<Step>, t: State, key: string)
    requires Follows(s, l, ls, t) && Invalidates(l, key)
    ensures Reachable(t) && |s.invs| < |t.invs|
    ensures Covers(t.invs[|s.invs|].pattern, key) && t.invs[|s.invs|].tick == s.tick
    ensures l.Invalidate? ==> t.invs[|s.invs|].reading == Some(l.reading)
  {
    ReachNext(s, l);
    ReachRun(Next(s, l), ls);
    InvsStay(Next(s, l), ls);
    assert t.invs[|s.invs|] == Next(s, l).invs[|s.invs|];
    if l.Invalidate? {
      CoversIsReaches(l.pattern, key);
    }
  }

  /**
   Whatever happens in between: a Get or GetOrSet that begins after an
   invalidation or a deletion of its key never returns a value whose fetch was
   registered before that.
   */
  lemma LaterReadsAreNew(s: State, l: Step, ls: seq<Step>, t: State, c: nat)
    requires Follows(s, l, ls, t) && c < |t.calls| && Invalidates(l, t.calls[c].key)
    requires s.tick < t.calls[c].begun && !t.calls[c].kind.SwrCall?
    ensures var r := t.calls[c].phase;
            r.Replied? && r.reply.Got? && r.reply.v.origin.Fetched? ==>
              r.reply.v.origin.flight < |t.flights| && s.tick < t.flights[r.reply.v.origin.flight].born
  {
    InvalidationRecorded(s, l, ls, t, t.calls[c].key);
    ReadsSeeInvalidations(t, c);
    ReachableInv(t);
    assert CallOk(t, t.calls[c]);
  }

  /** Nor does any kind of call that begins after it wait for such a fetch. */
  lemma LaterWaitersAreNew(s: State, l: Step, ls: seq<Step>, t: State, c: nat)
    requires Follows(s, l, ls, t) && c < |t.calls| && Invalidates(l, t.calls[c].key)
    requires s.tick < t.calls[c].begun && t.calls[c].phase.Waiting?
    ensures t.calls[c].phase.f < |t.flights| && s.tick < t.flights[t.calls[c].phase.f].born
  {
    InvalidationRecorded(s, l, ls, t, t.calls[c].key);
    WaitersJoinNewFetches(t, c);
  }

  /** GetOrSetSWR gives such a value only if the fetch it waited for failed, or if another invalidation overtook it. */
  lemma LaterSwrReads(s: State, l: Step, ls: seq<Step>, t: State, c: nat)
    requires Follows(s, l, ls, t) && c < |t.calls| && Invalidates(l, t.calls[c].key)
    requires s.tick < t.calls[c].begun && t.calls[c].kind.SwrCall?
    requires t.calls[c].phase.Replied? && t.calls[c].phase.reply.Got? && t.calls[c].phase.reply.v.origin.Fetched?
    requires var f := t.calls[c].phase.reply.v.origin.flight; f < |t.flights| && t.flights[f].born <= s.tick
    ensures var via := t.calls[c].phase.reply.via;
            (via.Fallback? && FellBack(t, t.calls[c], via.f)) || (via.Hit? && Overtaken(t, t.calls[c]))
  {
    InvalidationRecorded(s, l, ls, t, t.calls[c].key);
    assert ServesOldValue(t, t.calls[c]);
    SwrSeesInvalidations(t, c);
  }

  // ---- values --------------------------------------------------------------

  /** A fetched value is what the fetcher of that key returned. */
  ghost predicate IsReturned(s: State, v: Tagged, key: string) {
    v.origin.Fetched? ==>
      && v.origin.flight < |s.flights| && s.flights[v.origin.flight].key == key
      && s.flights[v.origin.flight].outcome == Some(Good(v.payload))
  }

  /** What a call holds on to. */
  ghost predicate HoldsReturned(s: State, c: Call) {
    match c.phase
    case Begun => true
    case Read(e) => e.Some? ==> IsReturned(s, e.value.value, c.key)
    case NeedFetch(prior) => prior.Some? ==> IsReturned(s, prior.value.value, c.key)
    case NeedRefresh(e) => IsReturned(s, e.value, c.key)
    case Waiting(f, _, prior) => prior.Some? ==> IsReturned(s, prior.value.value, c.key)
    case Replied(r) => r.Got? ==> IsReturned(s, r.v, c.key)
  }

  ghost predicate ValuesInv(s: State) {
    && (forall k :: k in s.shared.items ==> IsReturned(s, s.shared.items[k].value, k))
    && (forall f: nat :: f < |s.flights| && s.flights[f].phase.Storing? ==> IsReturned(s, s.flights[f].phase.e.value, s.flights[f].key))
    && (forall c :: 0 <= c < |s.calls| ==> HoldsReturned(s, s.calls[c]))
  }

  lemma HeldStays(s: State, t: State, c: Call)
    requires Grows(s, t) && HoldsReturned(s, c)
    ensures HoldsReturned(t, c)
  {
  }

  lemma ItemValues(s: State, l: Step)
    requires CacheSafety.Inv(s) && ValuesInv(s) && Enabled(s, l)
    ensures var t := Next(s, l); forall k :: k in t.shared.items ==> IsReturned(t, t.shared.items[k].value, k)
  {
    var t := Next(s, l);
    Grown(s, l);
    forall k | k in t.shared.items ensures IsReturned(t, t.shared.items[k].value, k) {
      ItemComesFrom(s, l, k);
      if k in s.shared.items && t.shared.items[k].value == s.shared.items[k].value {
        ReturnedStays(s, t, s.shared.items[k].value, k);
      } else if l.StoreResult? {
        ReturnedStays(s, t, s.flights[l.f].phase.e.value, s.flights[l.f].key);
      }
    }
  }

  lemma ReturnedStays(s: State, t: State, v: Tagged, key: string)
    requires Grows(s, t) && IsReturned(s, v, key)
    ensures IsReturned(t, v, key)
  {
  }

  /** A value in the cache was there before, was stored by its fetch, or was supplied. */
  lemma ItemComesFrom(s: State, l: Step, k: string)
    requires Enabled(s, l) && k in Next(s, l).shared.items
    ensures var v := Next(s, l).shared.items[k].value;
            || (k in s.shared.items && v == s.shared.items[k].value)
            || (l.StoreResult? && k == s.flights[l.f].key && v == s.flights[l.f].phase.e.value)
            || ((l.Set? || l.Replace?) && k == l.key && v == Tagged(l.payload, Supplied))
  {
  }

  lemma FlightValues(s: State, l: Step)
    requires CacheSafety.Inv(s) && ValuesInv(s) && Enabled(s, l)
    ensures var t := Next(s, l);
            forall f: nat :: f < |t.flights| && t.flights[f].phase.Storing? ==> IsReturned(t, t.flights[f].phase.e.value, t.flights[f].key)
  {
    var t := Next(s, l);
    Grown(s, l);
    forall f: nat | f < |t.flights| && t.flights[f].phase.Storing?
      ensures IsReturned(t, t.flights[f].phase.e.value, t.flights[f].key) {
      if f < |s.flights| && s.flights[f].phase.Storing? && t.flights[f] == s.flights[f] {
        ReturnedStays(s, t, s.flights[f].phase.e.value, s.flights[f].key);
      }
    }
  }

  lemma CallValues(s: State, l: Step)
    requires CacheSafety.Inv(s) && ValuesInv(s) && Enabled(s, l)
    ensures var t := Next(s, l); forall c :: 0 <= c < |t.calls| ==> HoldsReturned(t, t.calls[c])
  {
    var t := Next(s, l);
    Grown(s, l);
    forall c | 0 <= c < |t.calls| ensures HoldsReturned(t, t.calls[c]) {
      if c < |s.calls| {
        HeldStays(s, t, s.calls[c]);
        assert CallOk(s, s.calls[c]);
      }
    }
  }

  lemma {:induction false} RunValues(s: State, ls: seq<Step>)
    requires CacheSafety.Inv(s) && ValuesInv(s) && Runs(s, ls)
    ensures ValuesInv(Exec(s, ls))
    decreases |ls|
  {
    if |ls| > 0 {
      InvStep(s, ls[0]);
      ItemValues(s, ls[0]);
      FlightValues(s, ls[0]);
      CallValues(s, ls[0]);
      RunValues(Next(s, ls[0]), ls[1..]);
    }
  }

  /** Whoever gets a fetched value, by whatever way, gets what the fetcher of the key returned. */
  lemma RepliesAreReturned(s: State, c: nat)
    requires Reachable(s) && c < |s.calls| && s.calls[c].phase.Replied? && s.calls[c].phase.reply.Got?
    ensures IsReturned(s, s.calls[c].phase.reply.v, s.calls[c].key)
  {
    var s0, ls :| Init(s0) && Runs(s0, ls) && Exec(s0, ls) == s;
    RunValues(s0, ls);
    assert HoldsReturned(s, s.calls[c]);
  }

  // ---- clocks --------------------------------------------------------------

  /** Get and GetOrSet serve the entry they read exactly if it is not past its expiry. */
  lemma DecidesByClock(s: State, c: nat)
    requires Enabled(s, Decide(c))
    ensures var e, after := s.calls[c].phase.e, Next(s, Decide(c)).calls[c].phase;
            if e.Some? && (e.value.exp <= 0 || s.clock <= e.value.exp) then after == Replied(Got(e.value.value, Hit))
            else after == if s.calls[c].kind.GetCall? then Replied(Missing) else NeedFetch(None)
  {
  }

  /** GetOrSetSWR serves an entry as fresh, as stale, keeps it to fall back to, or forgets it, by its own clock reading. */
  lemma SwrReadsByClock(s: State, c: nat)
    requires Enabled(s, ReadItem(c)) && s.calls[c].kind.SwrCall?
    ensures var key, now, after := s.calls[c].key, s.calls[c].now, Next(s, ReadItem(c)).calls[c].phase;
            if key !in s.shared.items then after == NeedFetch(None)
            else
              var e := s.shared.items[key];
              && (e.exp == 0 || now <= e.exp ==> after == Replied(Got(e.value, Hit)))
              && (e.exp != 0 && e.exp < now <= e.staleUntil ==> after == if e.invalidated then NeedFetch(Some(e)) else NeedRefresh(e))
              && (e.exp != 0 && e.exp < now && e.staleUntil < now ==> after == NeedFetch(None))
  {
  }

  /** What a fetch stores, and for how long it is then served. */
  lemma FetchStores(s: State, f: nat, payload: int, at: int)
    requires Enabled(s, FetcherReturns(f, Good(payload))) && s.clock > 0
    ensures var fl := Next(s, FetcherReturns(f, Good(payload))).flights[f];
            && fl.phase.Storing? && fl.phase.e.value == Tagged(payload, Fetched(f)) && !fl.phase.e.invalidated
            && match s.flights[f].mode
               case Plain(ttl) =>
                 var life := if ttl == 0 then s.def else ttl;
                 fl.phase.e.staleUntil == 0 && (Fresh(fl.phase.e, at) <==> life <= 0 || at <= s.clock + life)
               case Swr(ttl, maxStale) => fl.phase.e.exp == s.clock + ttl && fl.phase.e.staleUntil == s.clock + ttl + maxStale
  {
  }

  /** A call that starts a fetch asks for its own key and times; one that finds a fetch that may be joined starts none. */
  lemma FetchStarts(s: State, c: nat)
    requires Reachable(s) && Enabled(s, Fetch(c))
    ensures var call, t := s.calls[c], Next(s, Fetch(c));
            var joins := call.key in s.shared.fetching && s.shared.fetching[call.key] !in s.shared.superseded;
            if joins then t.flights == s.flights && t.calls[c].phase == Waiting(s.shared.fetching[call.key], false, call.phase.prior)
            else && |t.flights| == |s.flights| + 1 && t.calls[c].phase == Waiting(|s.flights|, true, call.phase.prior)
                 && t.flights[|s.flights|].key == call.key && t.shared.fetching == s.shared.fetching[call.key := |s.flights|]
                 && t.flights[|s.flights|].mode == match call.kind
                                                   case GetCall => Plain(0)
                                                   case GetOrSetCall(ttl) => Plain(ttl)
                                                   case SwrCall(ttl, maxStale) => Swr(ttl, maxStale)
  {
  }

  /** A stale entry is handed out at once, and a fetch for the key starts unless one is registered, superseded or not. */
  lemma RefreshStarts(s: State, c: nat)
    requires Enabled(s, Refresh(c))
    ensures var call, t := s.calls[c], Next(s, Refresh(c));
            && t.calls[c].phase == Replied(Got(call.phase.stale.value, StaleHit))
            && (call.key in s.shared.fetching ==> t.flights == s.flights && t.shared == s.shared)
            && (call.key !in s.shared.fetching ==>
                  && |t.flights| == |s.flights| + 1 && t.flights[|s.flights|].key == call.key
                  && t.shared.fetching == s.shared.fetching[call.key := |s.flights|])
  {
  }

  /** A fetch stores its entry under its key unless it was superseded. */
  lemma StoresUnlessSuperseded(s: State, f: nat)
    requires Enabled(s, StoreResult(f))
    ensures Next(s, StoreResult(f)).shared.items
         == if f in s.shared.superseded then s.shared.items else s.shared.items[s.flights[f].key := s.flights[f].phase.e]
  {
  }

  /** The answer of a finished fetch: its value, or the marked entry, or its error; a panic goes to the caller that ran it. */
  lemma AnswersByOutcome(s: State, c: nat)
    requires Enabled(s, Answer(c))
    ensures var ph, after := s.calls[c].phase, Next(s, Answer(c)).calls[c].phase;
            var o := s.flights[ph.f].outcome.value;
            after.Replied? && match o
            case Good(v) => after.reply == Got(Tagged(v, Fetched(ph.f)), ByFetch(ph.f))
            case Panicked => (ph.own ==> after.reply == Panic(ph.f))
                             && (!ph.own ==> after.reply == if ph.prior.Some? then Got(ph.prior.value.value, Fallback(ph.f)) else Error(ph.f))
            case Failed => after.reply == if ph.prior.Some? then Got(ph.prior.value.value, Fallback(ph.f)) else Error(ph.f)
  {
  }
}
