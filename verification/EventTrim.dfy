/** Trimming a cluster's events to the newest ones, after `db/events.go`. */
module EventTrim {
  import opened Collections
  import opened EventRows

  const MAX_EVENTS := 10000

  /** The order of the deletion: by event time, then by time of creation. */
  predicate Older(a: Event, b: Event) {
    a.body.eventTime < b.body.eventTime || (a.body.eventTime == b.body.eventTime && a.createdAt < b.createdAt)
  }

  /** The cluster's rows, by position. */
  function Own(rows: seq<Event>, cluster: string): set<nat> {
    set i: nat | i < |rows| && rows[i].cluster == cluster
  }

  function Keep(rows: seq<Event>, drop: set<nat>): seq<Event> {
    if rows == [] then []
    else
      var before := Keep(rows[..|rows| - 1], drop);
      if |rows| - 1 in drop then before else before + [rows[|rows| - 1]]
  }

  /** As many of the cluster's rows as there are too many, none newer than one that stays. */
  ghost predicate IsTrim(rows: seq<Event>, cluster: string, drop: set<nat>) {
    && drop <= Own(rows, cluster)
    && |drop| == (if |Own(rows, cluster)| > MAX_EVENTS then |Own(rows, cluster)| - MAX_EVENTS else 0)
    && OldestFirst(rows, cluster, drop)
  }

  ghost predicate OldestFirst(rows: seq<Event>, cluster: string, drop: set<nat>) {
    forall i, j :: i in drop && j in Own(rows, cluster) - drop && i < |rows| ==> !Older(rows[j], rows[i])
  }

  method Trim(rows: seq<Event>, cluster: string) returns (kept: seq<Event>, ghost drop: set<nat>)
    ensures IsTrim(rows, cluster, drop) && kept == Keep(rows, drop)
  {
    var own := Own(rows, cluster);
    var gone: set<nat> := {};
    while |own| - |gone| > MAX_EVENTS
      invariant gone <= own && |gone| <= (if |own| > MAX_EVENTS then |own| - MAX_EVENTS else 0)
      invariant OldestFirst(rows, cluster, gone)
      decreases |own| - |gone|
    {
      MoreAreLeft(own, gone);
      var i := FindOldest(rows, own - gone);
      gone := gone + {i};
    }
    drop := gone;
    kept := KeepRows(rows, gone);
  }

  lemma MoreAreLeft(own: set<nat>, gone: set<nat>)
    requires |gone| < |own|
    ensures own - gone != {}
  {
    assert own <= gone + (own - gone);
    SubsetSize(own, gone + (own - gone));
  }

  method FindOldest(rows: seq<Event>, among: set<nat>) returns (i: nat)
    requires among != {} && forall j :: j in among ==> j < |rows|
    ensures i in among && forall j :: j in among ==> !Older(rows[j], rows[i])
  {
    i :| i in among;
    var todo := among;
    while todo != {}
      invariant todo <= among && i in among
      invariant forall j :: j in among - todo ==> !Older(rows[j], rows[i])
      decreases |todo|
    {
      var j :| j in todo;
      if Older(rows[j], rows[i]) {
        i := j;
      }
      todo := todo - {j};
    }
  }

  method KeepRows(rows: seq<Event>, drop: set<nat>) returns (kept: seq<Event>)
    ensures kept == Keep(rows, drop)
  {
    kept := [];
    for i := 0 to |rows|
      invariant kept == Keep(rows[..i], drop)
    {
      assert rows[..i + 1][..i] == rows[..i];
      if i !in drop {
        kept := kept + [rows[i]];
      }
    }
    assert rows[..|rows|] == rows;
  }

  // ---- what a trim leaves --------------------------------------------------

  lemma {:induction false} KeepAll(rows: seq<Event>)
    ensures Keep(rows, {}) == rows
  {
    if rows != [] {
      KeepAll(rows[..|rows| - 1]);
    }
  }

  /** Each row that is left stood at a place that was not dropped, and in the old order. */
  lemma {:induction false} KeptFrom(rows: seq<Event>, drop: set<nat>, i: nat, j: nat) returns (p: nat, q: nat)
    requires i < j < |Keep(rows, drop)|
    ensures p < q < |rows| && rows[p] == Keep(rows, drop)[i] && rows[q] == Keep(rows, drop)[j]
  {
    var init := rows[..|rows| - 1];
    if j < |Keep(init, drop)| {
      p, q := KeptFrom(init, drop, i, j);
    } else {
      p := KeptAt(init, drop, i);
      q := |rows| - 1;
    }
  }

  lemma {:induction false} KeptAt(rows: seq<Event>, drop: set<nat>, i: nat) returns (p: nat)
    requires i < |Keep(rows, drop)|
    ensures p < |rows| && rows[p] == Keep(rows, drop)[i]
  {
    var init := rows[..|rows| - 1];
    if i < |Keep(init, drop)| {
      p := KeptAt(init, drop, i);
    } else {
      p := |rows| - 1;
    }
  }

  lemma {:induction false} TrimStaysUnique(rows: seq<Event>, drop: set<nat>)
    requires Unique(rows)
    ensures Unique(Keep(rows, drop))
  {
    var kept := Keep(rows, drop);
    forall i, j | 0 <= i < j < |kept| && kept[i].cluster == kept[j].cluster && kept[i].uid == kept[j].uid
      ensures kept[i].uid == "" {
      var p, q := KeptFrom(rows, drop, i, j);
    }
  }

  lemma {:induction false} OwnOf(rows: seq<Event>, cluster: string)
    requires rows != []
    ensures var init, n := rows[..|rows| - 1], |rows| - 1;
            Own(rows, cluster) == Own(init, cluster) + (if rows[n].cluster == cluster then {n} else {}) && n !in Own(init, cluster)
  {
  }

  lemma {:induction false} RowsCounted(rows: seq<Event>, cluster: string)
    ensures |RowsOf(rows, cluster)| == |Own(rows, cluster)|
  {
    if rows != [] {
      RowsCounted(rows[..|rows| - 1], cluster);
      OwnOf(rows, cluster);
    } else {
      assert Own(rows, cluster) == {};
    }
  }

  lemma {:induction false} KeepCounts(rows: seq<Event>, cluster: string, drop: set<nat>)
    requires drop <= Own(rows, cluster)
    ensures |RowsOf(Keep(rows, drop), cluster)| == |RowsOf(rows, cluster)| - |drop|
  {
    if rows != [] {
      var init, n := rows[..|rows| - 1], |rows| - 1;
      OwnOf(rows, cluster);
      KeepCounts(init, cluster, drop - {n});
      SameKeep(init, drop, drop - {n});
      RowsAppend(Keep(init, drop), rows[n], cluster);
      if n in drop {
        assert |drop - {n}| == |drop| - 1;
      } else {
        assert drop - {n} == drop;
      }
    }
  }

  lemma {:induction false} SameKeep(rows: seq<Event>, drop: set<nat>, other: set<nat>)
    requires forall i :: 0 <= i < |rows| ==> (i in drop <==> i in other)
    ensures Keep(rows, drop) == Keep(rows, other)
  {
    if rows != [] {
      SameKeep(rows[..|rows| - 1], drop, other);
    }
  }

  lemma {:induction false} RowsAppend(rows: seq<Event>, e: Event, cluster: string)
    ensures RowsOf(rows + [e], cluster) == if e.cluster == cluster then RowsOf(rows, cluster) + [e] else RowsOf(rows, cluster)
  {
    assert (rows + [e])[..|rows|] == rows;
  }

  lemma {:induction false} KeepSpares(rows: seq<Event>, cluster: string, drop: set<nat>, other: string)
    requires drop <= Own(rows, cluster) && other != cluster
    ensures RowsOf(Keep(rows, drop), other) == RowsOf(rows, other)
  {
    if rows != [] {
      var init, n := rows[..|rows| - 1], |rows| - 1;
      OwnOf(rows, cluster);
      SameKeep(init, drop, drop - {n});
      KeepSpares(init, cluster, drop - {n}, other);
      RowsAppend(Keep(init, drop), rows[n], other);
    }
  }

  /** A trim leaves at most the newest 10000 events of the cluster, all of them if there are no more, and no other cluster's fewer. */
  lemma {:induction false} TrimLeavesTheNewest(rows: seq<Event>, cluster: string, drop: set<nat>, other: string)
    requires IsTrim(rows, cluster, drop)
    ensures var n := |RowsOf(rows, cluster)|;
            |RowsOf(Keep(rows, drop), cluster)| == if n > 10000 then 10000 else n
    ensures |RowsOf(rows, cluster)| <= 10000 ==> Keep(rows, drop) == rows
    ensures other != cluster ==> RowsOf(Keep(rows, drop), other) == RowsOf(rows, other)
  {
    RowsCounted(rows, cluster);
    KeepCounts(rows, cluster, drop);
    if |RowsOf(rows, cluster)| <= MAX_EVENTS {
      assert drop == {};
      KeepAll(rows);
    }
    if other != cluster {
      KeepSpares(rows, cluster, drop, other);
    }
  }

  /** An event that a trim drops is no younger than any of its cluster that stays, by the times themselves. */
  lemma TrimDropsTheOldest(rows: seq<Event>, cluster: string, drop: set<nat>, gone: nat, stays: nat)
    requires IsTrim(rows, cluster, drop) && gone in drop && stays < |rows| && stays !in drop && rows[stays].cluster == cluster
    ensures gone < |rows| && rows[gone].cluster == cluster
    ensures rows[gone].body.eventTime < rows[stays].body.eventTime
            || (rows[gone].body.eventTime == rows[stays].body.eventTime && rows[gone].createdAt <= rows[stays].createdAt)
  {
    assert stays in Own(rows, cluster) - drop;
  }

}
