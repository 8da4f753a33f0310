/**
 Every interleaving of the cache's critical sections: readers, fetches,
 invalidations, writers and the cleanup loop, over the sections of `CacheState`.

 Values are tagged with the fetch that produced them, so that freshness can be
 stated. A fetcher starts after its fetch is registered, so "started before an
 invalidation" is bounded by the step at which the fetch was registered.
 */
module CacheProtocol {
  import opened Options
  import opened CacheState

  datatype Origin = Supplied | Fetched(flight: nat)
  datatype Tagged = Tagged(payload: int, origin: Origin)

  datatype StoreMode = Plain(ttl: int) | Swr(ttl: int, maxStale: int)
  datatype Outcome = Good(payload: int) | Failed | Panicked

  // A fetch runs its fetcher, stores a good result, leaves the register and
  // then closes its channel.
  datatype Phase = Running | Storing(e: Entry<Tagged>) | Unregistering | Closing | Closed
  datatype Flight = Flight(key: string, born: nat, mode: StoreMode, phase: Phase, outcome: Option<Outcome>, closes: nat)

  datatype Kind = GetCall | GetOrSetCall(ttl: int) | SwrCall(ttl: int, maxStale: int)
  datatype Via = Hit | StaleHit | ByFetch(f: nat) | Fallback(f: nat)
  datatype Reply = Got(v: Tagged, via: Via) | Missing | Error(f: nat) | Panic(f: nat)
  datatype CallPhase =
    | Begun
    | Read(e: Option<Entry<Tagged>>)
    | NeedFetch(prior: Option<Entry<Tagged>>)
    | NeedRefresh(stale: Entry<Tagged>)
    | Waiting(f: nat, own: bool, prior: Option<Entry<Tagged>>)
    | Replied(reply: Reply)
  // `now` is the clock when the call began; only GetOrSetSWR uses it.
  datatype Call = Call(kind: Kind, key: string, begun: nat, now: int, phase: CallPhase)

  // The step at which an invalidation held the lock, and the clock it had read
  // before that, if it reads one.
  datatype Inv = Inv(pattern: Pattern, tick: nat, reading: Option<int>)

  datatype State = State(
    shared: Shared<nat, Tagged>, flights: seq<Flight>, calls: seq<Call>,
    invs: seq<Inv>, clock: int, tick: nat, def: int)

  datatype Step =
    | Advance(d: nat)
    | Begin(kind: Kind, key: string)
    | ReadItem(c: nat)
    | Decide(c: nat)
    | Fetch(c: nat)
    | Refresh(c: nat)
    | Answer(c: nat)
    | FetcherReturns(f: nat, outcome: Outcome)
    | StoreResult(f: nat)
    | Unregister(f: nat)
    | CloseDone(f: nat)
    | Invalidate(pattern: string, reading: int)
    | Drop(p: Pattern)
    | Set(key: string, payload: int, ttl: int, reading: int)
    | Replace(key: string, prior: Tagged, payload: int, ttl: int, reading: int)
    | Janitor(reading: int)

  // The clock starts high enough that an invalidation's "now - 1" is not the
  // zero that means "no expiry".
  ghost predicate Init(s: State) {
    && s.shared == Shared(map[], map[], {})
    && s.flights == [] && s.calls == [] && s.invs == []
    && s.clock >= 2
  }

  function CallStore(kind: Kind): StoreMode {
    match kind
    case GetCall => Plain(0)
    case GetOrSetCall(ttl) => Plain(ttl)
    case SwrCall(ttl, maxStale) => Swr(ttl, maxStale)
  }

  function EntryFor(mode: StoreMode, v: Tagged, def: int, now: int): Entry<Tagged> {
    match mode
    case Plain(ttl) => NewEntry(v, ttl, def, now)
    case Swr(ttl, maxStale) => SwrEntry(v, ttl, maxStale, now)
  }

  predicate Unfinished(p: Phase) {
    p.Running? || p.Storing? || p.Unregistering?
  }

  ghost predicate Enabled(s: State, l: Step) {
    match l
    case Advance(_) => true
    case Begin(_, _) => true
    case ReadItem(c) => c < |s.calls| && s.calls[c].phase.Begun?
    case Decide(c) => c < |s.calls| && s.calls[c].phase.Read?
    case Fetch(c) => c < |s.calls| && s.calls[c].phase.NeedFetch?
    case Refresh(c) => c < |s.calls| && s.calls[c].phase.NeedRefresh?
    case Answer(c) => c < |s.calls| && s.calls[c].phase.Waiting? && s.calls[c].phase.f < |s.flights|
                      && s.flights[s.calls[c].phase.f].phase.Closed? && s.flights[s.calls[c].phase.f].outcome.Some?
    case FetcherReturns(f, _) => f < |s.flights| && s.flights[f].phase.Running?
    case StoreResult(f) => f < |s.flights| && s.flights[f].phase.Storing?
    case Unregister(f) => f < |s.flights| && s.flights[f].phase.Unregistering?
    case CloseDone(f) => f < |s.flights| && s.flights[f].phase.Closing?
    case Invalidate(_, r) => 2 <= r <= s.clock
    case Drop(_) => true
    case Set(_, _, _, r) => r <= s.clock
    case Replace(_, _, _, _, r) => r <= s.clock
    case Janitor(r) => r <= s.clock
  }

  function SetPhase(s: State, c: nat, p: CallPhase): State
    requires c < |s.calls|
  {
    s.(calls := s.calls[c := s.calls[c].(phase := p)])
  }

  function SetFlight(s: State, f: nat, fl: Flight): State
    requires f < |s.flights|
  {
    s.(flights := s.flights[f := fl])
  }

  /** What a read does with the entry it found; GetOrSetSWR decides on the clock it read first. */
  function AfterRead(c: Call, e: Option<Entry<Tagged>>): CallPhase {
    if !c.kind.SwrCall? then Read(e)
    else if e.None? then NeedFetch(None)
    else if SwrFresh(e.value, c.now) then Replied(Got(e.value.value, Hit))
    else if c.now <= e.value.staleUntil then
      if e.value.invalidated then NeedFetch(e) else NeedRefresh(e.value)
    else NeedFetch(None)
  }

  function AfterDecide(c: Call, e: Option<Entry<Tagged>>, clock: int): CallPhase {
    if e.Some? && Fresh(e.value, clock) then Replied(Got(e.value.value, Hit))
    else if c.kind.GetCall? then Replied(Missing)
    else NeedFetch(None)
  }

  function NewFlight(s: State, c: Call): Flight {
    Flight(c.key, s.tick, CallStore(c.kind), Running, None, 0)
  }

  function DoFetch(s: State, c: nat): State
    requires c < |s.calls| && s.calls[c].phase.NeedFetch?
  {
    var call := s.calls[c];
    if CanJoin(s.shared, call.key) then
      SetPhase(s, c, Waiting(s.shared.fetching[call.key], false, call.phase.prior))
    else
      SetPhase(s, c, Waiting(|s.flights|, true, call.phase.prior))
      .(flights := s.flights + [NewFlight(s, call)], shared := RegisterState(s.shared, call.key, |s.flights|))
  }

  function DoRefresh(s: State, c: nat): State
    requires c < |s.calls| && s.calls[c].phase.NeedRefresh?
  {
    var call := s.calls[c];
    var s1 := SetPhase(s, c, Replied(Got(call.phase.stale.value, StaleHit)));
    if call.key in s.shared.fetching then s1
    else s1.(flights := s.flights + [NewFlight(s, call)], shared := RegisterState(s.shared, call.key, |s.flights|))
  }

  function AnswerOf(ph: CallPhase, o: Outcome): Reply
    requires ph.Waiting?
  {
    match o
    case Good(v) => Got(Tagged(v, Fetched(ph.f)), ByFetch(ph.f))
    case Panicked =>
      if ph.own then Panic(ph.f)
      else if ph.prior.Some? then Got(ph.prior.value.value, Fallback(ph.f)) else Error(ph.f)
    case Failed =>
      if ph.prior.Some? then Got(ph.prior.value.value, Fallback(ph.f)) else Error(ph.f)
  }

  function DoReturn(s: State, f: nat, o: Outcome): State
    requires f < |s.flights|
  {
    var fl := s.flights[f];
    var next := if o.Good? then Storing(EntryFor(fl.mode, Tagged(o.payload, Fetched(f)), s.def, s.clock)) else Unregistering;
    SetFlight(s, f, fl.(outcome := Some(o), phase := next))
  }

  /** The state after `l`, before the step counter moves. */
  function Apply(s: State, l: Step): State
    requires Enabled(s, l)
  {
    match l
    case Advance(d) => s.(clock := s.clock + d)
    case Begin(kind, key) => s.(calls := s.calls + [Call(kind, key, s.tick, s.clock, Begun)])
    case ReadItem(c) =>
      var k := s.calls[c].key;
      var e := if k in s.shared.items then Some(s.shared.items[k]) else None;
      SetPhase(s, c, AfterRead(s.calls[c], e))
    case Decide(c) => SetPhase(s, c, AfterDecide(s.calls[c], s.calls[c].phase.e, s.clock))
    case Fetch(c) => DoFetch(s, c)
    case Refresh(c) => DoRefresh(s, c)
    case Answer(c) =>
      var ph := s.calls[c].phase;
      SetPhase(s, c, Replied(AnswerOf(ph, s.flights[ph.f].outcome.value)))
    case FetcherReturns(f, o) => DoReturn(s, f, o)
    case StoreResult(f) =>
      var fl := s.flights[f];
      SetFlight(s, f, fl.(phase := Unregistering)).(shared := StoreState(s.shared, fl.key, f, fl.phase.e))
    case Unregister(f) =>
      var fl := s.flights[f];
      SetFlight(s, f, fl.(phase := Closing)).(shared := UnregisterState(s.shared, fl.key, f))
    case CloseDone(f) =>
      var fl := s.flights[f];
      SetFlight(s, f, fl.(phase := Closed, closes := fl.closes + 1))
    case Invalidate(pattern, r) =>
      var p := ParsePattern(pattern);
      s.(shared := InvalidateState(s.shared, p, r), invs := s.invs + [Inv(p, s.tick, Some(r))])
    case Drop(p) =>
      s.(shared := DropState(s.shared, p), invs := s.invs + [Inv(p, s.tick, None)])
    case Set(key, v, ttl, r) =>
      s.(shared := SetState(s.shared, key, NewEntry(Tagged(v, Supplied), ttl, s.def, r)))
    case Replace(key, prior, v, ttl, r) =>
      if CanReplace(s.shared, key, prior)
      then s.(shared := SetState(s.shared, key, NewEntry(Tagged(v, Supplied), ttl, s.def, r)))
      else s
    case Janitor(r) => s.(shared := SweepState(s.shared, r))
  }

  function Next(s: State, l: Step): State
    requires Enabled(s, l)
  {
    Apply(s, l).(tick := s.tick + 1)
  }

  ghost predicate Runs(s: State, ls: seq<Step>)
    decreases |ls|
  {
    |ls| == 0 || (Enabled(s, ls[0]) && Runs(Next(s, ls[0]), ls[1..]))
  }

  ghost function Exec(s: State, ls: seq<Step>): State
    requires Runs(s, ls)
    decreases |ls|
  {
    if |ls| == 0 then s else Exec(Next(s, ls[0]), ls[1..])
  }

  ghost predicate Reachable(s: State) {
    exists s0, ls :: Init(s0) && Runs(s0, ls) && Exec(s0, ls) == s
  }
}
