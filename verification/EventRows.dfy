/** Stored Kubernetes events and what is observable of them, after `db/events.go`. */
module EventRows {
  import opened Options

  /** The columns a row keeps from its first delivery. */
  datatype Identity = Identity(name: string, namespace: string, involvedUid: string, involvedName: string,
                               involvedNamespace: string, involvedKind: string, involvedApiVersion: string)
  /** The columns every later delivery overwrites. */
  datatype Body = Body(eventType: string, reason: string, message: string, count: int, firstTimestamp: int,
                       lastTimestamp: int, eventTime: int, sourceComponent: string, sourceHost: string)
  datatype Event = Event(cluster: string, uid: string, identity: Identity, body: Body, createdAt: int)
  datatype Content = Content(identity: Identity, body: Body)

  function ContentOf(e: Event): Content {
    Content(e.identity, e.body)
  }

  /** What the table says of an event: the row with its uid. */
  function StoredAt(rows: seq<Event>, cluster: string, uid: string): Option<Content> {
    if rows == [] then None
    else
      var last := rows[|rows| - 1];
      if last.cluster == cluster && last.uid == uid then Some(ContentOf(last))
      else StoredAt(rows[..|rows| - 1], cluster, uid)
  }

  /** Rows without a uid can only be counted. */
  function Anonymous(rows: seq<Event>, cluster: string): multiset<Content> {
    if rows == [] then multiset{}
    else
      var last := rows[|rows| - 1];
      var before := Anonymous(rows[..|rows| - 1], cluster);
      if last.cluster == cluster && last.uid == "" then before + multiset{ContentOf(last)} else before
  }

  function RowsOf(rows: seq<Event>, cluster: string): seq<Event> {
    if rows == [] then []
    else
      var last := rows[|rows| - 1];
      var before := RowsOf(rows[..|rows| - 1], cluster);
      if last.cluster == cluster then before + [last] else before
  }

  /** At most one row for each uid of a cluster. */
  ghost predicate Unique(rows: seq<Event>) {
    forall i, j :: 0 <= i < j < |rows| && rows[i].cluster == rows[j].cluster && rows[i].uid == rows[j].uid
                   ==> rows[i].uid == ""
  }

  function LastOf(es: seq<Event>, uid: string): Option<Event> {
    if es == [] then None
    else if es[|es| - 1].uid == uid then Some(es[|es| - 1])
    else LastOf(es[..|es| - 1], uid)
  }

  function FirstOf(es: seq<Event>, uid: string): Option<Event> {
    if es == [] then None
    else if FirstOf(es[..|es| - 1], uid).Some? then FirstOf(es[..|es| - 1], uid)
    else if es[|es| - 1].uid == uid then Some(es[|es| - 1])
    else None
  }

  /** The deliveries without a uid. */
  function Nameless(es: seq<Event>): seq<Event> {
    if es == [] then []
    else Nameless(es[..|es| - 1]) + (if es[|es| - 1].uid == "" then [es[|es| - 1]] else [])
  }

  function Contents(es: seq<Event>): multiset<Content> {
    if es == [] then multiset{} else Contents(es[..|es| - 1]) + multiset{ContentOf(es[|es| - 1])}
  }

  function Uids(es: seq<Event>): set<string> {
    set e | e in es && e.uid != "" :: e.uid
  }

  function NewUids(rows: seq<Event>, cluster: string, es: seq<Event>): set<string> {
    set u | u in Uids(es) && StoredAt(rows, cluster, u).None?
  }

  lemma {:induction false} LastOfIff(es: seq<Event>, uid: string)
    ensures LastOf(es, uid).Some? <==> exists i :: 0 <= i < |es| && es[i].uid == uid
    ensures LastOf(es, uid).Some? ==> LastOf(es, uid).value.uid == uid && LastOf(es, uid).value in es
  {
    if es != [] && es[|es| - 1].uid != uid {
      LastOfIff(es[..|es| - 1], uid);
    }
  }

  lemma LastOfAppend(es: seq<Event>, e: Event, uid: string)
    ensures LastOf(es + [e], uid) == if e.uid == uid then Some(e) else LastOf(es, uid)
  {
    assert (es + [e])[..|es|] == es;
  }

  /** A row that StoredAt can find, and the only one. */
  lemma {:induction false} StoredAtRow(rows: seq<Event>, i: nat)
    requires i < |rows| && rows[i].uid != "" && Unique(rows)
    ensures StoredAt(rows, rows[i].cluster, rows[i].uid) == Some(ContentOf(rows[i]))
  {
    if i < |rows| - 1 {
      StoredAtRow(rows[..|rows| - 1], i);
    }
  }

  lemma {:induction false} NotStored(rows: seq<Event>, cluster: string, uid: string)
    requires StoredAt(rows, cluster, uid).None?
    ensures forall i :: 0 <= i < |rows| ==> rows[i].cluster != cluster || rows[i].uid != uid
  {
    if rows != [] {
      NotStored(rows[..|rows| - 1], cluster, uid);
    }
  }

  /** Overwriting a row's body shows at its own uid and nowhere else. */
  lemma {:induction false} UpdateShows(rows: seq<Event>, i: nat, body: Body, cluster: string, uid: string)
    requires i < |rows| && Unique(rows) && rows[i].uid != ""
    ensures StoredAt(rows[i := rows[i].(body := body)], cluster, uid)
         == if rows[i].cluster == cluster && rows[i].uid == uid then Some(Content(rows[i].identity, body))
            else StoredAt(rows, cluster, uid)
  {
    var to := rows[i := rows[i].(body := body)];
    if i < |rows| - 1 {
      assert to[..|to| - 1] == rows[..|rows| - 1][i := rows[i].(body := body)];
      UpdateShows(rows[..|rows| - 1], i, body, cluster, uid);
    } else {
      assert to[..|to| - 1] == rows[..|rows| - 1];
    }
  }

  lemma {:induction false} UpdateSpares(rows: seq<Event>, i: nat, body: Body, cluster: string)
    requires i < |rows| && rows[i].uid != ""
    ensures Anonymous(rows[i := rows[i].(body := body)], cluster) == Anonymous(rows, cluster)
  {
    var to := rows[i := rows[i].(body := body)];
    if i < |rows| - 1 {
      assert to[..|to| - 1] == rows[..|rows| - 1][i := rows[i].(body := body)];
      UpdateSpares(rows[..|rows| - 1], i, body, cluster);
    } else {
      assert to[..|to| - 1] == rows[..|rows| - 1];
    }
  }

  lemma {:induction false} UpdateSparesOthers(rows: seq<Event>, i: nat, body: Body, cluster: string)
    requires i < |rows| && rows[i].cluster != cluster
    ensures RowsOf(rows[i := rows[i].(body := body)], cluster) == RowsOf(rows, cluster)
  {
    var to := rows[i := rows[i].(body := body)];
    if i < |rows| - 1 {
      assert to[..|to| - 1] == rows[..|rows| - 1][i := rows[i].(body := body)];
      UpdateSparesOthers(rows[..|rows| - 1], i, body, cluster);
    } else {
      assert to[..|to| - 1] == rows[..|rows| - 1];
    }
  }

  /** Created rows show at their own uids. */
  lemma {:induction false} CreateShows(rows: seq<Event>, added: seq<Event>, cluster: string, uid: string)
    requires forall e :: e in added ==> e.cluster == cluster
    ensures StoredAt(rows + added, cluster, uid)
         == if LastOf(added, uid).Some? then Some(ContentOf(LastOf(added, uid).value)) else StoredAt(rows, cluster, uid)
  {
    if added == [] {
      assert rows + added == rows;
    } else {
      assert (rows + added)[..|rows + added| - 1] == rows + added[..|added| - 1];
      CreateShows(rows, added[..|added| - 1], cluster, uid);
    }
  }

  lemma {:induction false} CreateCounts(rows: seq<Event>, added: seq<Event>, cluster: string)
    requires forall e :: e in added ==> e.cluster == cluster
    ensures Anonymous(rows + added, cluster) == Anonymous(rows, cluster) + Contents(Nameless(added))
  {
    if added == [] {
      assert rows + added == rows;
    } else {
      var init, last := added[..|added| - 1], added[|added| - 1];
      assert (rows + added)[..|rows + added| - 1] == rows + init;
      CreateCounts(rows, init, cluster);
      if last.uid == "" {
        assert Nameless(added)[..|Nameless(added)| - 1] == Nameless(init);
        assert Contents(Nameless(added)) == Contents(Nameless(init)) + multiset{ContentOf(last)};
      } else {
        assert Nameless(added) == Nameless(init);
      }
    }
  }

  lemma {:induction false} CreateSpares(rows: seq<Event>, added: seq<Event>, cluster: string)
    requires forall e :: e in added ==> e.cluster != cluster
    ensures RowsOf(rows + added, cluster) == RowsOf(rows, cluster)
  {
    if added == [] {
      assert rows + added == rows;
    } else {
      assert (rows + added)[..|rows + added| - 1] == rows + added[..|added| - 1];
      CreateSpares(rows, added[..|added| - 1], cluster);
    }
  }
}
