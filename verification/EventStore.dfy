/** The batched event upsert in `db/events.go`. */
module EventStore {
  import opened Options
  import opened EventRows
  import opened EventTrim

  const CHUNK := 500

  datatype Listener = Listener(eventCount: int, lastEventTime: int, updatedAt: int)

  function Stamp(e: Event, cluster: string, now: int): Event {
    e.(cluster := cluster, createdAt := now)
  }

  /** What a batch makes of one event: the last delivery's body, and the identity already stored or else its own. */
  function BatchAt(prev: Option<Content>, es: seq<Event>, uid: string): Option<Content> {
    match LastOf(es, uid)
    case None => prev
    case Some(e) => Some(Content(if prev.Some? then prev.value.identity else e.identity, e.body))
  }

  /** The whole observable effect of storing a batch. */
  ghost predicate Stores(cluster: string, es: seq<Event>, before: seq<Event>, after: seq<Event>) {
    && Unique(after)
    && (forall uid :: uid != "" ==> StoredAt(after, cluster, uid) == BatchAt(StoredAt(before, cluster, uid), es, uid))
    && Anonymous(after, cluster) == Anonymous(before, cluster) + Contents(Nameless(es))
    && (forall other :: other != cluster ==> RowsOf(after, other) == RowsOf(before, other))
  }

  /** Rows keep the time they were created at, and new ones have the batch's. */
  ghost predicate Dated(before: seq<Event>, after: seq<Event>, now: int) {
    && |after| >= |before|
    && forall i :: 0 <= i < |after| ==> after[i].createdAt == if i < |before| then before[i].createdAt else now
  }

  /** The rows a batch creates. */
  function Created(rows: seq<Event>, cluster: string, es: seq<Event>): nat {
    |Nameless(es)| + |NewUids(rows, cluster, es)|
  }

  function Counted(listeners: map<string, Listener>, cluster: string, n: nat, now: int): map<string, Listener> {
    if cluster in listeners
    then listeners[cluster := Listener(listeners[cluster].eventCount + n, now, now)]
    else listeners
  }

  ghost predicate LatestAt(byUid: map<string, nat>, slots: seq<Event>, es: seq<Event>, cluster: string, now: int,
                           uid: string) {
    if uid in byUid
    then uid != "" && byUid[uid] < |slots| && LastOf(es, uid).Some?
         && slots[byUid[uid]] == Stamp(LastOf(es, uid).value, cluster, now)
    else uid == "" || LastOf(es, uid).None?
  }

  /** Each uid's slot holds the last delivery seen so far. */
  ghost predicate IsLatest(byUid: map<string, nat>, slots: seq<Event>, es: seq<Event>, cluster: string, now: int) {
    forall uid :: LatestAt(byUid, slots, es, cluster, now, uid)
  }

  /** The nameless deliveries seen so far, stamped. */
  ghost predicate IsNameless(added: seq<Event>, es: seq<Event>, cluster: string, now: int) {
    && |added| == |Nameless(es)|
    && Contents(added) == Contents(Nameless(es))
    && (forall e :: e in added ==> e.cluster == cluster && e.uid == "" && e.createdAt == now)
  }

  class EventTable {
    var rows: seq<Event>
    var listeners: map<string, Listener>

    constructor (rows: seq<Event>, listeners: map<string, Listener>)
      ensures this.rows == rows && this.listeners == listeners
    {
      this.rows, this.listeners := rows, listeners;
    }

    /**
     Any statement may fail; the transaction then leaves both tables as they
     were. A batch that creates rows may find a trim due, which leaves `drop`
     out of the rows stored.
     */
    method StoreEvents(cluster: string, events: array<Event>, now: int)
      returns (ok: bool, ghost stored: seq<Event>, ghost drop: set<nat>)
      requires Unique(rows)
      modifies this, events
      ensures ok ==> Stores(cluster, old(events[..]), old(rows), stored) && Dated(old(rows), stored, now)
      ensures ok ==> rows == Keep(stored, drop) && (drop == {} || IsTrim(stored, cluster, drop))
      ensures ok && drop != {} ==> Created(old(rows), cluster, old(events[..])) > 0
      ensures Unique(rows)
      ensures ok ==> listeners == if events.Length == 0 then old(listeners)
                                  else Counted(old(listeners), cluster,
                                               Created(old(rows), cluster, old(events[..])), now)
      ensures !ok ==> rows == old(rows) && listeners == old(listeners)
    {
      stored, drop := rows, {};
      KeepAll(rows);
      if events.Length == 0 {
        NothingStored(cluster, events[..], rows);
        return true, stored, drop;
      }
      ghost var es := events[..];
      var byUid, nameless := Dedup(cluster, events, now);
      var full, kept, n;
      ok, full, n := Transact(rows, cluster, byUid, nameless, events[..], es, now);
      if ok {
        stored := full;
        kept, drop := TrimIfDue(full, cluster, n);
        TrimStaysUnique(full, drop);
        rows, listeners := kept, Counted(listeners, cluster, n, now);
      }
    }
  }

  /** At most once a minute, and only if the batch created rows. */
  method TrimIfDue(stored: seq<Event>, cluster: string, created: nat) returns (kept: seq<Event>, ghost drop: set<nat>)
    ensures kept == Keep(stored, drop) && (drop == {} || IsTrim(stored, cluster, drop))
    ensures drop != {} ==> created > 0
  {
    kept, drop := stored, {};
    KeepAll(stored);
    if created > 0 {
      if * {
        kept, drop := Trim(stored, cluster);
      }
    }
  }

  /** Later deliveries overwrite the slot of the first; nameless ones are copied out. */
  method Dedup(cluster: string, events: array<Event>, now: int) returns (byUid: map<string, nat>, added: seq<Event>)
    modifies events
    ensures IsLatest(byUid, events[..], old(events[..]), cluster, now)
    ensures IsNameless(added, old(events[..]), cluster, now)
  {
    ghost var es := events[..];
    byUid, added := map[], [];
    for i := 0 to events.Length
      invariant IsLatest(byUid, events[..i], es[..i], cluster, now)
      invariant IsNameless(added, es[..i], cluster, now)
      invariant events[i..] == es[i..]
    {
      assert events[i] == events[i..][0] == es[i..][0] == es[i];
      assert events[i + 1..] == events[i..][1..] && es[i + 1..] == es[i..][1..];
      events[i] := Stamp(events[i], cluster, now);
      assert events[i + 1..] == es[i + 1..];
      byUid, added := DedupOne(cluster, events, i, es, now, byUid, added);
    }
    assert events[..events.Length] == events[..];
    assert es[..events.Length] == es;
  }

  method DedupOne(cluster: string, events: array<Event>, i: nat, ghost es: seq<Event>, now: int,
                  byUid: map<string, nat>, added: seq<Event>)
    returns (byUid': map<string, nat>, added': seq<Event>)
    requires i < events.Length == |es|
    requires IsLatest(byUid, events[..i], es[..i], cluster, now)
    requires IsNameless(added, es[..i], cluster, now)
    requires events[i] == Stamp(es[i], cluster, now)
    modifies events
    ensures IsLatest(byUid', events[..i + 1], es[..i + 1], cluster, now)
    ensures IsNameless(added', es[..i + 1], cluster, now)
    ensures events[i + 1..] == old(events[i + 1..])
  {
    var e := events[i];
    assert es[..i + 1] == es[..i] + [es[i]];
    NamelessGrows(added, es[..i], es[i], cluster, now);
    LatestGrows(byUid, events[..i], es[..i], es[i], cluster, now);
    if e.uid == "" {
      byUid', added' := byUid, added + [e];
    } else if e.uid in byUid {
      byUid', added' := byUid, added;
      events[byUid[e.uid]] := e;
    } else {
      byUid', added' := byUid[e.uid := i], added;
    }
    assert events[..i + 1] == NextSlots(byUid, old(events[..i]), es[i], cluster, now);
  }

  function NextSlots(byUid: map<string, nat>, slots: seq<Event>, e: Event, cluster: string, now: int): seq<Event> {
    var stamped := Stamp(e, cluster, now);
    if e.uid in byUid && byUid[e.uid] < |slots| then slots[byUid[e.uid] := stamped] + [stamped] else slots + [stamped]
  }

  lemma LatestGrows(byUid: map<string, nat>, slots: seq<Event>, es: seq<Event>, e: Event, cluster: string, now: int)
    requires IsLatest(byUid, slots, es, cluster, now) && |slots| == |es|
    ensures var slots' := NextSlots(byUid, slots, e, cluster, now);
            var byUid' := if e.uid == "" || e.uid in byUid then byUid else byUid[e.uid := |slots|];
            IsLatest(byUid', slots', es + [e], cluster, now)
  {
    var slots' := NextSlots(byUid, slots, e, cluster, now);
    var byUid' := if e.uid == "" || e.uid in byUid then byUid else byUid[e.uid := |slots|];
    assert LatestAt(byUid, slots, es, cluster, now, e.uid);
    forall uid ensures LatestAt(byUid', slots', es + [e], cluster, now, uid) {
      assert LatestAt(byUid, slots, es, cluster, now, uid);
      LastOfAppend(es, e, uid);
      LastOfIff(es, uid);
      LastOfIff(es, e.uid);
    }
  }

  lemma NamelessGrows(added: seq<Event>, es: seq<Event>, e: Event, cluster: string, now: int)
    requires IsNameless(added, es, cluster, now)
    ensures e.uid == "" ==> IsNameless(added + [Stamp(e, cluster, now)], es + [e], cluster, now)
    ensures e.uid != "" ==> IsNameless(added, es + [e], cluster, now)
  {
    assert (es + [e])[..|es|] == es;
    if e.uid == "" {
      var more := added + [Stamp(e, cluster, now)];
      assert more[..|added|] == added;
      assert (Nameless(es) + [e])[..|Nameless(es)|] == Nameless(es);
    } else {
      assert Nameless(es + [e]) == Nameless(es);
    }
  }

  /** `keys` found among the cluster's rows, each with a row number. */
  ghost predicate IsLookup(rows: seq<Event>, cluster: string, keys: set<string>, found: map<string, nat>) {
    && (forall u :: u in found ==> u in keys && found[u] < |rows|
                                   && rows[found[u]].cluster == cluster && rows[found[u]].uid == u)
    && (forall i :: 0 <= i < |rows| && rows[i].cluster == cluster && rows[i].uid in keys ==> rows[i].uid in found)
  }

  /** Looks the uids up in chunks, to keep within the statement's parameter limit. */
  method Lookup(rows: seq<Event>, cluster: string, keys: set<string>) returns (ok: bool, found: map<string, nat>)
    ensures ok ==> IsLookup(rows, cluster, keys, found)
  {
    found, ok := map[], true;
    var todo := keys;
    while todo != {}
      invariant todo <= keys && IsLookup(rows, cluster, keys - todo, found)
      decreases |todo|
    {
      ok := *;
      if !ok {
        return;
      }
      var chunk := Take(todo, CHUNK);
      var more := SelectIds(rows, cluster, chunk);
      LookupJoins(rows, cluster, keys - todo, found, chunk, more);
      found := found + more;
      assert (keys - todo) + chunk == keys - (todo - chunk);
      todo := todo - chunk;
    }
  }

  lemma LookupJoins(rows: seq<Event>, cluster: string, a: set<string>, found: map<string, nat>,
                    b: set<string>, more: map<string, nat>)
    requires IsLookup(rows, cluster, a, found) && IsLookup(rows, cluster, b, more)
    ensures IsLookup(rows, cluster, a + b, found + more)
  {
  }

  method Take(s: set<string>, n: nat) returns (t: set<string>)
    requires s != {} && n > 0
    ensures t <= s && t != {} && |t| <= n
    ensures |s - t| < |s|
  {
    t := {};
    var rest := s;
    while rest != {} && |t| < n
      invariant t !! rest && t + rest == s && |t| <= n
      invariant t == {} ==> rest == s
      decreases |rest|
    {
      var u :| u in rest;
      t, rest := t + {u}, rest - {u};
    }
    assert s - t == rest;
    assert s == t + rest;
  }

  method SelectIds(rows: seq<Event>, cluster: string, keys: set<string>) returns (found: map<string, nat>)
    ensures IsLookup(rows, cluster, keys, found)
  {
    found := map[];
    for i := 0 to |rows|
      invariant forall u :: u in found ==> u in keys && found[u] < i
                                           && rows[found[u]].cluster == cluster && rows[found[u]].uid == u
      invariant forall j :: 0 <= j < i && rows[j].cluster == cluster && rows[j].uid in keys ==> rows[j].uid in found
    {
      if rows[i].cluster == cluster && rows[i].uid in keys {
        found := found[rows[i].uid := i];
      }
    }
  }

  ghost function UpdatedAt(cluster: string, es: seq<Event>, rows: seq<Event>, existing: map<string, nat>,
                           done: set<string>, uid: string): Option<Content> {
    if uid in done && uid in existing then BatchAt(StoredAt(rows, cluster, uid), es, uid)
    else StoredAt(rows, cluster, uid)
  }

  /** The stored events of `done` carry their last delivery's body; nothing else has changed. */
  ghost predicate IsUpdated(cluster: string, es: seq<Event>, rows: seq<Event>, existing: map<string, nat>,
                            done: set<string>, updated: seq<Event>) {
    && Unique(updated) && |updated| == |rows|
    && (forall i :: 0 <= i < |rows| ==> updated[i].cluster == rows[i].cluster && updated[i].uid == rows[i].uid
                                        && updated[i].identity == rows[i].identity && updated[i].createdAt == rows[i].createdAt)
    && (forall uid :: uid != "" ==> StoredAt(updated, cluster, uid) == UpdatedAt(cluster, es, rows, existing, done, uid))
    && Anonymous(updated, cluster) == Anonymous(rows, cluster)
    && (forall other :: other != cluster ==> RowsOf(updated, other) == RowsOf(rows, other))
  }

  ghost function CreatedAt(cluster: string, es: seq<Event>, existing: map<string, nat>, done: set<string>, now: int,
                           uid: string): Option<Event> {
    if uid in done && uid !in existing && LastOf(es, uid).Some? then Some(Stamp(LastOf(es, uid).value, cluster, now))
    else None
  }

  /** One new row for each event of `done` that had none. */
  ghost predicate IsCreated(cluster: string, es: seq<Event>, existing: map<string, nat>, done: set<string>,
                            created: seq<Event>, now: int) {
    && (forall i :: 0 <= i < |created| ==> created[i].cluster == cluster && created[i].uid != "" && created[i].createdAt == now)
    && (forall i, j :: 0 <= i < j < |created| ==> created[i].uid != created[j].uid)
    && (forall uid :: LastOf(created, uid) == CreatedAt(cluster, es, existing, done, now, uid))
    && |created| == |done - existing.Keys|
  }

  ghost predicate IsApplied(rows: seq<Event>, cluster: string, es: seq<Event>, existing: map<string, nat>,
                            done: set<string>, updated: seq<Event>, created: seq<Event>, now: int) {
    && IsUpdated(cluster, es, rows, existing, done, updated)
    && IsCreated(cluster, es, existing, done, created, now)
  }

  method ApplyOne(rows: seq<Event>, cluster: string, existing: map<string, nat>, ghost keys: set<string>,
                  e: Event, ghost es: seq<Event>, now: int, ghost done: set<string>,
                  updated: seq<Event>, created: seq<Event>)
    returns (ok: bool, updated': seq<Event>, created': seq<Event>)
    requires Unique(rows) && IsLookup(rows, cluster, keys, existing)
    requires e.uid != "" && e.uid !in done && LastOf(es, e.uid).Some?
    requires e == Stamp(LastOf(es, e.uid).value, cluster, now)
    requires IsUpdated(cluster, es, rows, existing, done, updated)
    requires IsCreated(cluster, es, existing, done, created, now)
    ensures ok ==> IsUpdated(cluster, es, rows, existing, done + {e.uid}, updated')
    ensures ok ==> IsCreated(cluster, es, existing, done + {e.uid}, created', now)
  {
    ok, updated', created' := true, updated, created;
    if e.uid in existing {
      ok := *;
      if !ok {
        return;
      }
      UpdateOne(cluster, es, rows, existing, done, updated, keys, e.uid);
      SkipCreate(cluster, es, existing, done, created, now, e.uid);
      updated' := updated[existing[e.uid] := updated[existing[e.uid]].(body := e.body)];
    } else {
      CreateOne(cluster, es, existing, done, created, now, e.uid);
      SkipUpdate(cluster, es, rows, existing, done, updated, e.uid);
      created' := created + [e];
    }
  }

  lemma {:induction false} SkipCreate(cluster: string, es: seq<Event>, existing: map<string, nat>, done: set<string>, created: seq<Event>,
                   now: int, uid: string)
    requires IsCreated(cluster, es, existing, done, created, now) && uid in existing
    ensures IsCreated(cluster, es, existing, done + {uid}, created, now)
  {
    assert (done + {uid}) - existing.Keys == done - existing.Keys;
    forall u ensures LastOf(created, u) == CreatedAt(cluster, es, existing, done + {uid}, now, u) {
      assert CreatedAt(cluster, es, existing, done + {uid}, now, u) == CreatedAt(cluster, es, existing, done, now, u);
    }
  }

  lemma {:induction false} SkipUpdate(cluster: string, es: seq<Event>, rows: seq<Event>, existing: map<string, nat>, done: set<string>,
                   updated: seq<Event>, uid: string)
    requires IsUpdated(cluster, es, rows, existing, done, updated) && uid !in existing
    ensures IsUpdated(cluster, es, rows, existing, done + {uid}, updated)
  {
    forall u | u != "" ensures StoredAt(updated, cluster, u) == UpdatedAt(cluster, es, rows, existing, done + {uid}, u) {
      assert UpdatedAt(cluster, es, rows, existing, done + {uid}, u) == UpdatedAt(cluster, es, rows, existing, done, u);
    }
  }

  lemma NothingDone(cluster: string, es: seq<Event>, rows: seq<Event>, existing: map<string, nat>, now: int)
    requires Unique(rows)
    ensures IsUpdated(cluster, es, rows, existing, {}, rows)
    ensures IsCreated(cluster, es, existing, {}, [], now)
  {
  }

  lemma SlotIsLast(byUid: map<string, nat>, slots: seq<Event>, es: seq<Event>, cluster: string, now: int, uid: string)
    requires IsLatest(byUid, slots, es, cluster, now) && uid in byUid
    ensures uid != "" && byUid[uid] < |slots| && LastOf(es, uid).Some? && LastOf(es, uid).value.uid == uid
    ensures slots[byUid[uid]] == Stamp(LastOf(es, uid).value, cluster, now)
  {
    assert LatestAt(byUid, slots, es, cluster, now, uid);
    LastOfIff(es, uid);
  }

  lemma UidsIff(es: seq<Event>, uid: string)
    ensures uid in Uids(es) <==> uid != "" && LastOf(es, uid).Some?
  {
    LastOfIff(es, uid);
    if uid != "" && LastOf(es, uid).Some? {
      assert LastOf(es, uid).value in es;
    }
  }

  lemma KeysAreUids(byUid: map<string, nat>, slots: seq<Event>, es: seq<Event>, cluster: string, now: int)
    requires IsLatest(byUid, slots, es, cluster, now)
    ensures byUid.Keys == Uids(es)
  {
    forall uid ensures uid in byUid <==> uid in Uids(es) {
      assert LatestAt(byUid, slots, es, cluster, now, uid);
      UidsIff(es, uid);
    }
  }

  method Apply(rows: seq<Event>, cluster: string, existing: map<string, nat>, byUid: map<string, nat>,
               slots: seq<Event>, ghost es: seq<Event>, now: int)
    returns (ok: bool, updated: seq<Event>, created: seq<Event>)
    requires Unique(rows) && IsLookup(rows, cluster, byUid.Keys, existing)
    requires IsLatest(byUid, slots, es, cluster, now)
    ensures ok ==> IsApplied(rows, cluster, es, existing, byUid.Keys, updated, created, now)
  {
    ok, updated, created := true, rows, [];
    var todo := byUid.Keys;
    ghost var done: set<string> := {};
    NothingDone(cluster, es, rows, existing, now);
    while ok && todo != {}
      invariant Parts(byUid.Keys, done, todo)
      invariant ok ==> IsApplied(rows, cluster, es, existing, done, updated, created, now)
      decreases |todo|
    {
      var uid :| uid in todo;
      ok, updated, created := ApplySlot(rows, cluster, existing, byUid, slots, uid, es, now, done, updated, created);
      MoveOne(byUid.Keys, done, todo, uid);
      done, todo := done + {uid}, todo - {uid};
    }
    assert ok ==> done == byUid.Keys;
  }

  ghost predicate Parts(all: set<string>, done: set<string>, todo: set<string>) {
    done == all - todo && todo <= all
  }

  lemma MoveOne(all: set<string>, done: set<string>, todo: set<string>, u: string)
    requires Parts(all, done, todo) && u in todo
    ensures Parts(all, done + {u}, todo - {u}) && u in all && u !in done
  {
  }

  method ApplySlot(rows: seq<Event>, cluster: string, existing: map<string, nat>, byUid: map<string, nat>,
                   slots: seq<Event>, uid: string, ghost es: seq<Event>, now: int, ghost done: set<string>,
                   updated: seq<Event>, created: seq<Event>)
    returns (ok: bool, updated': seq<Event>, created': seq<Event>)
    requires Unique(rows) && IsLookup(rows, cluster, byUid.Keys, existing)
    requires IsLatest(byUid, slots, es, cluster, now) && uid in byUid && uid !in done
    requires IsApplied(rows, cluster, es, existing, done, updated, created, now)
    ensures ok ==> IsApplied(rows, cluster, es, existing, done + {uid}, updated', created', now)
  {
    SlotIsLast(byUid, slots, es, cluster, now, uid);
    ok, updated', created' := ApplyOne(rows, cluster, existing, byUid.Keys, slots[byUid[uid]], es, now,
                                       done, updated, created);
  }

  /** The transaction: look up, update, insert, count. */
  method Transact(rows: seq<Event>, cluster: string, byUid: map<string, nat>, nameless: seq<Event>, slots: seq<Event>,
                  ghost es: seq<Event>, now: int)
    returns (ok: bool, stored: seq<Event>, n: nat)
    requires Unique(rows) && IsLatest(byUid, slots, es, cluster, now) && IsNameless(nameless, es, cluster, now)
    ensures ok ==> Stores(cluster, es, rows, stored) && n == Created(rows, cluster, es)
    ensures ok ==> Dated(rows, stored, now)
  {
    stored, n := rows, 0;
    var existing, updated, created;
    ok, existing := Lookup(rows, cluster, byUid.Keys);
    if !ok {
      return;
    }
    ok, updated, created := Apply(rows, cluster, existing, byUid, slots, es, now);
    if !ok {
      return;
    }
    KeysAreUids(byUid, slots, es, cluster, now);
    BatchStored(cluster, es, rows, existing, byUid.Keys, updated, nameless, created, now);
    CreatedCount(cluster, es, rows, existing, byUid.Keys, |created|);
    stored, n := updated + (nameless + created), |nameless + created|;
    NewAreDated(rows, updated, nameless + created, now);
    // The insert, the trim and the counter update may still fail.
    ok := *;
  }

  lemma NewAreDated(rows: seq<Event>, updated: seq<Event>, added: seq<Event>, now: int)
    requires |updated| == |rows| && forall i :: 0 <= i < |rows| ==> updated[i].createdAt == rows[i].createdAt
    requires forall e :: e in added ==> e.createdAt == now
    ensures Dated(rows, updated + added, now)
  {
    forall i | |rows| <= i < |updated + added| ensures (updated + added)[i].createdAt == now {
      assert (updated + added)[i] in added;
    }
  }

  lemma UpdateOne(cluster: string, es: seq<Event>, rows: seq<Event>, existing: map<string, nat>, done: set<string>,
                  updated: seq<Event>, keys: set<string>, uid: string)
    requires Unique(rows) && IsLookup(rows, cluster, keys, existing) && uid in existing && uid != ""
    requires IsUpdated(cluster, es, rows, existing, done, updated)
    requires LastOf(es, uid).Some?
    ensures var i := existing[uid];
            IsUpdated(cluster, es, rows, existing, done + {uid},
                      updated[i := updated[i].(body := LastOf(es, uid).value.body)])
  {
    var i, body := existing[uid], LastOf(es, uid).value.body;
    var to := updated[i := updated[i].(body := body)];
    StoredAtRow(rows, i);
    forall u | u != "" ensures StoredAt(to, cluster, u) == UpdatedAt(cluster, es, rows, existing, done + {uid}, u) {
      UpdateShows(updated, i, body, cluster, u);
    }
    UpdateSpares(updated, i, body, cluster);
    forall other | other != cluster ensures RowsOf(to, other) == RowsOf(updated, other) {
      UpdateSparesOthers(updated, i, body, other);
    }
  }

  lemma {:induction false} CreateOne(cluster: string, es: seq<Event>, existing: map<string, nat>, done: set<string>, created: seq<Event>,
                  now: int, uid: string)
    requires IsCreated(cluster, es, existing, done, created, now)
    requires uid !in done && uid !in existing && uid != "" && LastOf(es, uid).Some?
    ensures IsCreated(cluster, es, existing, done + {uid},
                      created + [Stamp(LastOf(es, uid).value, cluster, now)], now)
  {
    LastOfIff(es, uid);
    var e := Stamp(LastOf(es, uid).value, cluster, now);
    forall u ensures LastOf(created + [e], u) == CreatedAt(cluster, es, existing, done + {uid}, now, u) {
      assert LastOf(created, u) == CreatedAt(cluster, es, existing, done, now, u);
      OneMoreCreated(cluster, es, existing, done, created, now, uid, u);
    }
    NotCreatedYet(cluster, es, existing, done, created, now, uid);
    OneMoreOf(done, existing.Keys, uid);
  }

  lemma OneMoreOf(done: set<string>, known: set<string>, uid: string)
    requires uid !in done && uid !in known
    ensures |(done + {uid}) - known| == |done - known| + 1
  {
    assert (done + {uid}) - known == (done - known) + {uid};
  }

  lemma {:induction false} OneMoreCreated(cluster: string, es: seq<Event>, existing: map<string, nat>, done: set<string>,
                                          created: seq<Event>, now: int, uid: string, u: string)
    requires uid !in done && uid !in existing && LastOf(es, uid).Some?
    requires LastOf(created, u) == CreatedAt(cluster, es, existing, done, now, u)
    ensures LastOf(created + [Stamp(LastOf(es, uid).value, cluster, now)], u)
         == CreatedAt(cluster, es, existing, done + {uid}, now, u)
  {
    LastOfIff(es, uid);
    LastOfAppend(created, Stamp(LastOf(es, uid).value, cluster, now), u);
  }

  lemma NotCreatedYet(cluster: string, es: seq<Event>, existing: map<string, nat>, done: set<string>,
                      created: seq<Event>, now: int, uid: string)
    requires IsCreated(cluster, es, existing, done, created, now) && uid !in done
    ensures forall i :: 0 <= i < |created| ==> created[i].uid != uid
  {
    LastOfIff(created, uid);
    assert LastOf(created, uid) == CreatedAt(cluster, es, existing, done, now, uid);
  }

  lemma NothingStored(cluster: string, es: seq<Event>, rows: seq<Event>)
    requires es == [] && Unique(rows)
    ensures Stores(cluster, es, rows, rows)
  {
  }

  lemma {:induction false} LastOfConcat(a: seq<Event>, b: seq<Event>, uid: string)
    ensures LastOf(a + b, uid) == if LastOf(b, uid).Some? then LastOf(b, uid) else LastOf(a, uid)
  {
    if b == [] {
      assert a + b == a;
    } else {
      assert (a + b)[..|a + b| - 1] == a + b[..|b| - 1];
      LastOfConcat(a, b[..|b| - 1], uid);
    }
  }

  lemma {:induction false} NamelessFirst(nameless: seq<Event>, created: seq<Event>)
    requires forall e :: e in nameless ==> e.uid == ""
    requires forall e :: e in created ==> e.uid != ""
    ensures Nameless(nameless + created) == nameless
    decreases |created|, |nameless|
  {
    if created != [] {
      assert (nameless + created)[..|nameless + created| - 1] == nameless + created[..|created| - 1];
      NamelessFirst(nameless, created[..|created| - 1]);
    } else if nameless != [] {
      assert nameless + created == nameless;
      NamelessFirst(nameless[..|nameless| - 1], []);
      assert nameless[..|nameless| - 1] + [] == nameless[..|nameless| - 1];
    }
  }

  lemma StoredThenListed(rows: seq<Event>, cluster: string, keys: set<string>, found: map<string, nat>, uid: string)
    requires Unique(rows) && IsLookup(rows, cluster, keys, found) && uid in keys && uid != ""
    ensures uid in found <==> StoredAt(rows, cluster, uid).Some?
  {
    if uid in found {
      StoredAtRow(rows, found[uid]);
    } else {
      RowStored(rows, cluster, uid);
    }
  }

  lemma RowStored(rows: seq<Event>, cluster: string, uid: string)
    requires forall i :: 0 <= i < |rows| && rows[i].cluster == cluster ==> rows[i].uid != uid
    ensures StoredAt(rows, cluster, uid).None?
  {
    if rows != [] {
      RowStored(rows[..|rows| - 1], cluster, uid);
    }
  }

  /** The two passes together leave what the batch asks for. */
  lemma BatchStored(cluster: string, es: seq<Event>, rows: seq<Event>, existing: map<string, nat>, keys: set<string>,
                    updated: seq<Event>, nameless: seq<Event>, created: seq<Event>, now: int)
    requires Unique(rows) && IsLookup(rows, cluster, keys, existing)
    requires keys == Uids(es)
    requires IsUpdated(cluster, es, rows, existing, keys, updated)
    requires IsNameless(nameless, es, cluster, now) && IsCreated(cluster, es, existing, keys, created, now)
    ensures Stores(cluster, es, rows, updated + (nameless + created))
  {
    var added := nameless + created;
    forall uid | uid != ""
      ensures StoredAt(updated + added, cluster, uid) == BatchAt(StoredAt(rows, cluster, uid), es, uid) {
      BatchStoredAt(cluster, es, rows, existing, keys, updated, nameless, created, now, uid);
    }
    CreateCounts(updated, added, cluster);
    NamelessFirst(nameless, created);
    forall other | other != cluster ensures RowsOf(updated + added, other) == RowsOf(rows, other) {
      CreateSpares(updated, added, other);
    }
    CreatedAreNew(cluster, es, existing, keys, created, now);
    StaysUnique(cluster, rows, existing, keys, updated, nameless, created);
  }

  lemma BatchStoredAt(cluster: string, es: seq<Event>, rows: seq<Event>, existing: map<string, nat>, keys: set<string>,
                      updated: seq<Event>, nameless: seq<Event>, created: seq<Event>, now: int, uid: string)
    requires uid != ""
    requires Unique(rows) && IsLookup(rows, cluster, keys, existing)
    requires keys == Uids(es)
    requires IsUpdated(cluster, es, rows, existing, keys, updated)
    requires IsNameless(nameless, es, cluster, now) && IsCreated(cluster, es, existing, keys, created, now)
    ensures StoredAt(updated + (nameless + created), cluster, uid) == BatchAt(StoredAt(rows, cluster, uid), es, uid)
  {
    CreateShows(updated, nameless + created, cluster, uid);
    LastOfConcat(nameless, created, uid);
    LastOfIff(nameless, uid);
    UidsIff(es, uid);
    if uid in keys {
      StoredThenListed(rows, cluster, keys, existing, uid);
    }
  }

  ghost predicate AreNew(cluster: string, existing: map<string, nat>, keys: set<string>, created: seq<Event>) {
    && (forall i :: 0 <= i < |created| ==> created[i].cluster == cluster && created[i].uid in keys
                                           && created[i].uid !in existing)
    && (forall i, j :: 0 <= i < j < |created| ==> created[i].uid != created[j].uid)
  }

  lemma CreatedAreNew(cluster: string, es: seq<Event>, existing: map<string, nat>, keys: set<string>,
                      created: seq<Event>, now: int)
    requires IsCreated(cluster, es, existing, keys, created, now)
    ensures AreNew(cluster, existing, keys, created)
  {
    forall i | 0 <= i < |created| ensures created[i].uid in keys && created[i].uid !in existing {
      LastOfIff(created, created[i].uid);
      assert LastOf(created, created[i].uid) == CreatedAt(cluster, es, existing, keys, now, created[i].uid);
    }
  }

  lemma StaysUnique(cluster: string, rows: seq<Event>, existing: map<string, nat>, keys: set<string>,
                    updated: seq<Event>, nameless: seq<Event>, created: seq<Event>)
    requires Unique(updated) && |updated| == |rows| && IsLookup(rows, cluster, keys, existing)
    requires forall i :: 0 <= i < |rows| ==> updated[i].cluster == rows[i].cluster && updated[i].uid == rows[i].uid
    requires forall e :: e in nameless ==> e.uid == ""
    requires AreNew(cluster, existing, keys, created)
    ensures Unique(updated + (nameless + created))
  {
    var all, m := updated + (nameless + created), |updated| + |nameless|;
    forall i, j | 0 <= i < j < |all| && all[i].cluster == all[j].cluster && all[i].uid == all[j].uid
      ensures all[i].uid == "" {
      if |updated| <= i < m {
        assert all[i] in nameless;
      } else if |updated| <= j < m {
        assert all[j] in nameless;
      }
    }
  }

  lemma CreatedCount(cluster: string, es: seq<Event>, rows: seq<Event>, existing: map<string, nat>, keys: set<string>,
                     n: nat)
    requires Unique(rows) && IsLookup(rows, cluster, keys, existing)
    requires keys == Uids(es)
    requires n == |keys - existing.Keys|
    ensures |Nameless(es)| + n == Created(rows, cluster, es)
  {
    forall u ensures u in keys - existing.Keys <==> u in NewUids(rows, cluster, es) {
      if u in keys {
        UidsIff(es, u);
        StoredThenListed(rows, cluster, keys, existing, u);
      }
    }
    assert keys - existing.Keys == NewUids(rows, cluster, es);
  }

  // ---- on the rows themselves ----------------------------------------------

  /** The cluster's counter grows by the rows created, both its times become the batch's, and no other counter moves. */
  lemma CounterGrows(listeners: map<string, Listener>, cluster: string, n: nat, now: int, c: string)
    ensures var after := Counted(listeners, cluster, n, now);
            && after.Keys == listeners.Keys
            && (c in listeners ==> after[c] == if c == cluster then Listener(listeners[c].eventCount + n, now, now) else listeners[c])
  {
  }

  /**
   An event stored under a uid keeps its row's identity and takes the body of
   the last delivery; one not stored gets one row, all of its last delivery.
   */
  lemma StoredRowsAre(cluster: string, es: seq<Event>, before: seq<Event>, after: seq<Event>, i: nat)
    requires Stores(cluster, es, before, after) && Unique(before)
    requires i < |es| && es[i].uid != "" && forall j :: i < j < |es| ==> es[j].uid != es[i].uid
    ensures exists r :: 0 <= r < |after| && IsRowFor(after[r], cluster, es[i], before)
    ensures forall r, q :: 0 <= r < q < |after| && after[r].cluster == after[q].cluster == cluster ==>
              !(after[r].uid == after[q].uid == es[i].uid)
  {
    LastDelivered(es, i);
    var r := FindRow(after, cluster, es[i].uid);
    StoredAtRow(after, r);
    forall k | 0 <= k < |before| && before[k].cluster == cluster && before[k].uid == es[i].uid
      ensures after[r].identity == before[k].identity {
      StoredAtRow(before, k);
    }
    if forall k :: 0 <= k < |before| ==> before[k].cluster != cluster || before[k].uid != es[i].uid {
      NoRow(before, cluster, es[i].uid);
    }
    assert IsRowFor(after[r], cluster, es[i], before);
  }

  ghost predicate IsRowFor(row: Event, cluster: string, last: Event, before: seq<Event>) {
    && row.cluster == cluster && row.uid == last.uid && row.body == last.body
    && (forall k :: 0 <= k < |before| && before[k].cluster == cluster && before[k].uid == last.uid ==> row.identity == before[k].identity)
    && ((forall k :: 0 <= k < |before| ==> before[k].cluster != cluster || before[k].uid != last.uid) ==> row.identity == last.identity)
  }

  lemma {:induction false} LastDelivered(es: seq<Event>, i: nat)
    requires i < |es| && forall j :: i < j < |es| ==> es[j].uid != es[i].uid
    ensures LastOf(es, es[i].uid) == Some(es[i])
  {
    if i < |es| - 1 {
      LastDelivered(es[..|es| - 1], i);
    }
  }

  lemma {:induction false} FindRow(rows: seq<Event>, cluster: string, uid: string) returns (r: nat)
    requires StoredAt(rows, cluster, uid).Some?
    ensures r < |rows| && rows[r].cluster == cluster && rows[r].uid == uid
  {
    var last := rows[|rows| - 1];
    if last.cluster == cluster && last.uid == uid {
      r := |rows| - 1;
    } else {
      r := FindRow(rows[..|rows| - 1], cluster, uid);
    }
  }

  lemma {:induction false} NoRow(rows: seq<Event>, cluster: string, uid: string)
    requires forall k :: 0 <= k < |rows| ==> rows[k].cluster != cluster || rows[k].uid != uid
    ensures StoredAt(rows, cluster, uid).None?
  {
    if rows != [] {
      NoRow(rows[..|rows| - 1], cluster, uid);
    }
  }

}
