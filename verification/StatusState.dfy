/**
 The cluster prober of `cluster/status_manager.go`: what its lock guards, the
 object that keeps it, and the runs of background and on-request probes.
 Times are nanoseconds; a cluster never refreshed has the zero time.
 */
module StatusState {
  import opened Options

  const PERIOD := 30_000_000_000
  const MAX_BACKOFF := 300_000_000_000

  datatype Sched = Sched(statuses: map<string, bool>, lastRefresh: map<string, int>, backoff: map<string, int>)

  function Lookup(m: map<string, int>, k: string): int {
    if k in m then m[k] else 0
  }

  function Min(a: int, b: int): int { if a < b then a else b }
  function Max(a: int, b: int): int { if a < b then b else a }

  /** When a cluster's next background probe is due. */
  function Due(s: Sched, c: string): int {
    Lookup(s.lastRefresh, c) + PERIOD + Lookup(s.backoff, c)
  }

  function StoreState(s: Sched, c: string, healthy: bool): Sched {
    Sched(s.statuses[c := healthy], s.lastRefresh,
          if healthy then s.backoff - {c}
          else s.backoff[c := Min(Max(2 * Lookup(s.backoff, c), PERIOD), MAX_BACKOFF)])
  }

  /** An on-request probe starts: it counts as a refresh and forgives past failures. */
  function RequestState(s: Sched, c: string, now: int): Sched {
    s.(lastRefresh := s.lastRefresh[c := now], backoff := s.backoff - {c})
  }

  /** A probe of the full refresh starts. */
  function TouchState(s: Sched, c: string, now: int): Sched {
    s.(lastRefresh := s.lastRefresh[c := now])
  }

  /** Clusters with a status that are no longer listed. */
  function Gone(s: Sched, clusters: seq<string>): set<string> {
    set k | k in s.statuses && k !in clusters
  }

  function ForgetState(s: Sched, gone: set<string>): Sched {
    Sched(s.statuses - gone, s.lastRefresh - gone, s.backoff - gone)
  }

  /** The name is listed, none listed is due before it, and none before it in the list is due as early. */
  ghost predicate IsEarliest(s: Sched, clusters: seq<string>, target: string) {
    && target in clusters
    && (forall c :: c in clusters ==> Due(s, target) <= Due(s, c))
    && (forall i, j :: 0 <= i < j < |clusters| && clusters[j] == target && target !in clusters[..j] ==>
          Due(s, target) < Due(s, clusters[i]))
  }

  ghost predicate Picked(s: Sched, clusters: seq<string>, now: int, target: string) {
    IsEarliest(s, clusters, target) && Due(s, target) <= now
  }

  // ---- on the fields themselves --------------------------------------------

  /** The last refresh plus half a minute plus the backoff. */
  function NextProbe(lastRefresh: map<string, int>, backoff: map<string, int>, c: string): int {
    (if c in lastRefresh then lastRefresh[c] else 0) + 30_000_000_000 + if c in backoff then backoff[c] else 0
  }

  /** The target is the first in the list of those that may be probed earliest, and may be probed now. */
  lemma PickedIsEarliest(s: Sched, clusters: seq<string>, now: int, target: string)
    ensures Picked(s, clusters, now, target) <==>
              && target in clusters && NextProbe(s.lastRefresh, s.backoff, target) <= now
              && (forall c :: c in clusters ==>
                    NextProbe(s.lastRefresh, s.backoff, target) <= NextProbe(s.lastRefresh, s.backoff, c))
              && (forall i, j :: 0 <= i < j < |clusters| && clusters[j] == target && target !in clusters[..j] ==>
                    NextProbe(s.lastRefresh, s.backoff, target) < NextProbe(s.lastRefresh, s.backoff, clusters[i]))
    ensures forall c :: Due(s, c) == NextProbe(s.lastRefresh, s.backoff, c)
  {
  }

  /** Unlisted clusters with a status are forgotten altogether, and nothing else changes. */
  lemma ForgottenAreUnlisted(s: Sched, clusters: seq<string>, c: string)
    ensures var kept, gone := ForgetState(s, Gone(s, clusters)), c in s.statuses && c !in clusters;
            && (c in kept.statuses <==> c in s.statuses && !gone) && (c in kept.statuses ==> kept.statuses[c] == s.statuses[c])
            && (c in kept.lastRefresh <==> c in s.lastRefresh && !gone)
            && (c in kept.lastRefresh ==> kept.lastRefresh[c] == s.lastRefresh[c])
            && (c in kept.backoff <==> c in s.backoff && !gone) && (c in kept.backoff ==> kept.backoff[c] == s.backoff[c])
  {
  }

  class StatusManager {
    var statuses: map<string, bool>
    var lastRefresh: map<string, int>
    var backoff: map<string, int>

    ghost function Abs(): Sched
      reads this
    {
      Sched(statuses, lastRefresh, backoff)
    }

    constructor ()
      ensures Abs() == Sched(map[], map[], map[])
    {
      statuses, lastRefresh, backoff := map[], map[], map[];
    }

    method Store(cluster: string, healthy: bool)
      modifies this
      ensures Abs() == StoreState(old(Abs()), cluster, healthy)
      ensures statuses == old(statuses)[cluster := healthy] && lastRefresh == old(lastRefresh)
      ensures healthy ==> backoff == old(backoff) - {cluster}
      ensures !healthy ==>
                var twice := if cluster in old(backoff) then 2 * old(backoff)[cluster] else 0;
                backoff == old(backoff)[cluster := if twice < 30_000_000_000 then 30_000_000_000
                                                   else if twice > 300_000_000_000 then 300_000_000_000 else twice]
    {
      statuses := statuses[cluster := healthy];
      if healthy {
        backoff := backoff - {cluster};
      } else {
        var b := 2 * Lookup(backoff, cluster);
        backoff := backoff[cluster := Min(Max(b, PERIOD), MAX_BACKOFF)];
      }
    }

    /** The first section of `RefreshCluster`. */
    method BeginRequest(cluster: string, now: int)
      modifies this
      ensures Abs() == RequestState(old(Abs()), cluster, now)
      ensures statuses == old(statuses) && lastRefresh == old(lastRefresh)[cluster := now] && backoff == old(backoff) - {cluster}
    {
      lastRefresh := lastRefresh[cluster := now];
      backoff := backoff - {cluster};
    }

    /** The section before each probe of `fetchAllStatuses`: failures are not forgiven. */
    method BeginFullProbe(cluster: string, now: int)
      modifies this
      ensures Abs() == TouchState(old(Abs()), cluster, now)
      ensures statuses == old(statuses) && lastRefresh == old(lastRefresh)[cluster := now] && backoff == old(backoff)
    {
      lastRefresh := lastRefresh[cluster := now];
    }

    /**
     `refreshNextCluster` up to the probe itself. `listed` is what ListClusters
     returned, if it did; an unnamed cluster is never a target.
     */
    method SelectNext(active: bool, listed: Option<seq<string>>, now: int) returns (target: Option<string>)
      modifies this
      ensures !active || listed.None? || listed.value == [] ==> target == None && Abs() == old(Abs())
      ensures active && listed.Some? && listed.value != [] ==>
                var kept := ForgetState(old(Abs()), Gone(old(Abs()), listed.value));
                Abs() == if target.Some? then TouchState(kept, target.value, now) else kept
      ensures active && listed.Some? && listed.value != [] && "" !in listed.value ==>
                if target.Some? then Picked(old(Abs()), listed.value, now, target.value)
                else forall c :: c in listed.value ==> now < Due(old(Abs()), c)
    {
      target := None;
      if !active || listed.None? || |listed.value| == 0 {
        return;
      }
      var clusters := listed.value;
      var name, earliest := "", 0;
      var i := 0;
      while i < |clusters|
        invariant 0 <= i <= |clusters|
        invariant i == 0 ==> name == ""
        invariant i > 0 && "" !in clusters ==>
            IsEarliest(Abs(), clusters[..i], name) && earliest == Due(Abs(), name)
        modifies {}
      {
        var due := Lookup(lastRefresh, clusters[i]) + (PERIOD + Lookup(backoff, clusters[i]));
        ghost var prior := name;
        if name == "" || due < earliest {
          name, earliest := clusters[i], due;
        }
        assert clusters[..i + 1] == clusters[..i] + [clusters[i]];
        assert i == 0 <==> clusters[..i] == [];
        assert i > 0 && "" !in clusters ==> prior in clusters[..i] && prior in clusters;
        if "" !in clusters {
          StillEarliest(Abs(), clusters[..i], clusters[i], prior, name);
        }
        i := i + 1;
      }
      assert clusters[..|clusters|] == clusters;
      ForgetGone(clusters);
      if name == "" || earliest > now {
        return;
      }
      lastRefresh := lastRefresh[name := now];
      target := Some(name);
    }

    method Forget(k: string)
      modifies this
      ensures Abs() == ForgetState(old(Abs()), {k})
    {
      statuses := statuses - {k};
      lastRefresh := lastRefresh - {k};
      backoff := backoff - {k};
    }

    method ForgetGone(clusters: seq<string>)
      modifies this
      ensures Abs() == ForgetState(old(Abs()), Gone(old(Abs()), clusters))
    {
      ghost var before := Abs();
      ghost var gone := Gone(before, clusters);
      var todo := statuses.Keys;
      ForgetNone(before);
      ghost var done: set<string> := {};
      while todo != {}
        invariant done == gone - todo && todo <= before.statuses.Keys
        invariant Abs() == ForgetState(before, done)
        decreases |todo|
      {
        var k :| k in todo;
        if k !in clusters {
          ForgetOne(before, done, k);
          Forget(k);
          done := done + {k};
        }
        todo := todo - {k};
      }
      assert done == gone;
    }
  }

  lemma ForgetNone(s: Sched)
    ensures ForgetState(s, {}) == s
  {
    assert s.statuses - {} == s.statuses;
    assert s.lastRefresh - {} == s.lastRefresh;
    assert s.backoff - {} == s.backoff;
  }

  lemma ForgetOne(s: Sched, done: set<string>, k: string)
    ensures ForgetState(ForgetState(s, done), {k}) == ForgetState(s, done + {k})
  {
    assert s.statuses - done - {k} == s.statuses - (done + {k});
    assert s.lastRefresh - done - {k} == s.lastRefresh - (done + {k});
    assert s.backoff - done - {k} == s.backoff - (done + {k});
  }

  lemma StillEarliest(s: Sched, cs: seq<string>, c: string, prior: string, name: string)
    requires cs != [] ==> IsEarliest(s, cs, prior)
    requires name == if cs == [] || Due(s, c) < Due(s, prior) then c else prior
    ensures IsEarliest(s, cs + [c], name)
  {
    var all := cs + [c];
    forall i, j | 0 <= i < j < |all| && all[j] == name && name !in all[..j]
      ensures Due(s, name) < Due(s, all[i])
    {
      if j < |cs| {
        assert all[..j] == cs[..j];
      } else {
        assert all[..j] == cs;
      }
    }
  }
}
