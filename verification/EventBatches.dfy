/** When storing a batch cannot be told from storing its events one call at a time. */
module EventBatches {
  import opened Options
  import opened EventRows
  import opened EventStore

  /** The tables left by one StoreEvents call for each event. */
  ghost predicate OneByOne(cluster: string, es: seq<Event>, tables: seq<seq<Event>>) {
    && |tables| == |es| + 1
    && (forall i :: 0 <= i < |es| ==> Stores(cluster, [es[i]], tables[i], tables[i + 1]))
  }

  ghost function CreatedOneByOne(cluster: string, es: seq<Event>, tables: seq<seq<Event>>): nat
    requires |tables| == |es| + 1
  {
    if es == [] then 0
    else
      var n := Created(tables[|es| - 1], cluster, [es[|es| - 1]]);
      CreatedOneByOne(cluster, es[..|es| - 1], tables[..|es|]) + n
  }

  /** Equal up to row ids, row order and creation times. */
  ghost predicate SameView(a: seq<Event>, b: seq<Event>, cluster: string) {
    && (forall uid :: uid != "" ==> StoredAt(a, cluster, uid) == StoredAt(b, cluster, uid))
    && Anonymous(a, cluster) == Anonymous(b, cluster)
    && (forall other :: other != cluster ==> RowsOf(a, other) == RowsOf(b, other))
  }

  /** One at a time, a new row keeps the identity of its first delivery. */
  function OneByOneAt(prev: Option<Content>, es: seq<Event>, uid: string): Option<Content> {
    match LastOf(es, uid)
    case None => prev
    case Some(e) =>
      if prev.Some? then Some(Content(prev.value.identity, e.body))
      else if FirstOf(es, uid).Some? then Some(Content(FirstOf(es, uid).value.identity, e.body))
      else None
  }

  lemma {:induction false} FirstIffLast(es: seq<Event>, uid: string)
    ensures FirstOf(es, uid).Some? <==> LastOf(es, uid).Some?
  {
    if es != [] {
      FirstIffLast(es[..|es| - 1], uid);
    }
  }

  lemma LastOfOne(e: Event, uid: string)
    ensures LastOf([e], uid) == if e.uid == uid then Some(e) else None
    ensures Nameless([e]) == if e.uid == "" then [e] else []
  {
    assert [e][..0] == [];
  }

  lemma {:induction false} ChainStoredAt(cluster: string, es: seq<Event>, tables: seq<seq<Event>>, uid: string)
    requires OneByOne(cluster, es, tables) && uid != ""
    ensures StoredAt(tables[|es|], cluster, uid) == OneByOneAt(StoredAt(tables[0], cluster, uid), es, uid)
  {
    if es != [] {
      var init, e := es[..|es| - 1], es[|es| - 1];
      ChainStoredAt(cluster, init, tables[..|es|], uid);
      LastOfOne(e, uid);
      FirstIffLast(init, uid);
      assert Stores(cluster, [e], tables[|es| - 1], tables[|es|]);
    }
  }

  lemma {:induction false} ChainAnonymous(cluster: string, es: seq<Event>, tables: seq<seq<Event>>)
    requires OneByOne(cluster, es, tables)
    ensures Anonymous(tables[|es|], cluster) == Anonymous(tables[0], cluster) + Contents(Nameless(es))
  {
    if es != [] {
      var init, e := es[..|es| - 1], es[|es| - 1];
      ChainAnonymous(cluster, init, tables[..|es|]);
      assert Stores(cluster, [e], tables[|es| - 1], tables[|es|]);
      AnonymousNext(cluster, init, e, tables[0], tables[|es| - 1], tables[|es|]);
      assert es == init + [e];
    }
  }

  lemma {:induction false} AnonymousNext(cluster: string, es: seq<Event>, e: Event, first: seq<Event>, before: seq<Event>,
                                         after: seq<Event>)
    requires Anonymous(before, cluster) == Anonymous(first, cluster) + Contents(Nameless(es))
    requires Anonymous(after, cluster) == Anonymous(before, cluster) + Contents(Nameless([e]))
    ensures Anonymous(after, cluster) == Anonymous(first, cluster) + Contents(Nameless(es + [e]))
  {
    ContentsOfNext(es, e);
  }

  lemma ContentsOfNext(es: seq<Event>, e: Event)
    ensures Contents(Nameless(es + [e])) == Contents(Nameless(es)) + Contents(Nameless([e]))
  {
    assert (es + [e])[..|es|] == es;
    LastOfOne(e, "");
    if e.uid == "" {
      assert (Nameless(es) + [e])[..|Nameless(es)|] == Nameless(es);
      assert [e][..0] == [];
    } else {
      assert Nameless(es + [e]) == Nameless(es);
    }
  }

  lemma {:induction false} ChainOthers(cluster: string, es: seq<Event>, tables: seq<seq<Event>>, other: string)
    requires OneByOne(cluster, es, tables) && other != cluster
    ensures RowsOf(tables[|es|], other) == RowsOf(tables[0], other)
  {
    if es != [] {
      ChainOthers(cluster, es[..|es| - 1], tables[..|es|], other);
      assert Stores(cluster, [es[|es| - 1]], tables[|es| - 1], tables[|es|]);
    }
  }

  /** An event creates a row unless its uid is stored or was delivered before. */
  lemma {:induction false} CreatedNext(cluster: string, es: seq<Event>, e: Event, before: seq<Event>, table: seq<Event>)
    requires e.uid != "" ==> StoredAt(table, cluster, e.uid) == OneByOneAt(StoredAt(before, cluster, e.uid), es, e.uid)
    ensures Created(before, cluster, es + [e]) == Created(before, cluster, es) + Created(table, cluster, [e])
  {
    assert (es + [e])[..|es|] == es;
    LastOfOne(e, e.uid);
    assert Uids([e]) == if e.uid == "" then {} else {e.uid};
    assert Uids(es + [e]) == Uids(es) + Uids([e]);
    if e.uid == "" {
      assert NewUids(before, cluster, es + [e]) == NewUids(before, cluster, es);
      assert NewUids(table, cluster, [e]) == {};
    } else {
      UidsIff(es, e.uid);
      FirstIffLast(es, e.uid);
      assert Nameless(es + [e]) == Nameless(es);
      NewUidsNext(cluster, es, e, before, table);
    }
  }

  lemma UidsNext(es: seq<Event>, e: Event)
    requires e.uid != ""
    ensures Uids(es + [e]) == Uids(es) + {e.uid} && Uids([e]) == {e.uid}
  {
  }

  lemma {:induction false} NewUidsNext(cluster: string, es: seq<Event>, e: Event, before: seq<Event>, table: seq<Event>)
    requires e.uid != ""
    requires StoredAt(table, cluster, e.uid).None?
         <==> StoredAt(before, cluster, e.uid).None? && e.uid !in Uids(es)
    ensures |NewUids(before, cluster, es + [e])| == |NewUids(before, cluster, es)| + |NewUids(table, cluster, [e])|
  {
    UidsNext(es, e);
    if StoredAt(table, cluster, e.uid).None? {
      OneNewUid(cluster, es, e, before, table);
    } else {
      assert NewUids(table, cluster, [e]) == {};
      assert NewUids(before, cluster, es + [e]) == NewUids(before, cluster, es);
    }
  }

  lemma {:induction false} OneNewUid(cluster: string, es: seq<Event>, e: Event, before: seq<Event>, table: seq<Event>)
    requires Uids(es + [e]) == Uids(es) + {e.uid} && Uids([e]) == {e.uid} && StoredAt(table, cluster, e.uid).None?
    requires StoredAt(before, cluster, e.uid).None? && e.uid !in Uids(es)
    ensures |NewUids(before, cluster, es + [e])| == |NewUids(before, cluster, es)| + |NewUids(table, cluster, [e])|
  {
    assert NewUids(table, cluster, [e]) == {e.uid};
    assert NewUids(before, cluster, es + [e]) == NewUids(before, cluster, es) + {e.uid};
  }

  lemma {:induction false} ChainCount(cluster: string, es: seq<Event>, tables: seq<seq<Event>>)
    requires OneByOne(cluster, es, tables)
    ensures CreatedOneByOne(cluster, es, tables) == Created(tables[0], cluster, es)
  {
    if es == [] {
      assert NewUids(tables[0], cluster, es) == {};
    } else {
      var init, e := es[..|es| - 1], es[|es| - 1];
      ChainCount(cluster, init, tables[..|es|]);
      if e.uid != "" {
        ChainStoredAt(cluster, init, tables[..|es|], e.uid);
      }
      CreatedNext(cluster, init, e, tables[0], tables[|es| - 1]);
      assert es == init + [e];
    }
  }

  ghost predicate NewcomerAgrees(before: seq<Event>, cluster: string, es: seq<Event>, uid: string) {
    StoredAt(before, cluster, uid).None? && FirstOf(es, uid).Some? && LastOf(es, uid).Some?
    ==> FirstOf(es, uid).value.identity == LastOf(es, uid).value.identity
  }

  /** Each event not stored yet has one identity in its first and its last delivery. */
  ghost predicate NewcomersAgree(before: seq<Event>, cluster: string, es: seq<Event>) {
    forall uid :: uid != "" ==> NewcomerAgrees(before, cluster, es, uid)
  }

  /**
   A batch leaves the same rows as its events stored one call at a time
   exactly when each newcomer keeps its identity from first to last delivery;
   the event counter comes out the same in any case.
   */
  lemma BatchingIsUnobservable(cluster: string, es: seq<Event>, before: seq<Event>, after: seq<Event>,
                               tables: seq<seq<Event>>)
    requires Stores(cluster, es, before, after)
    requires OneByOne(cluster, es, tables) && tables[0] == before
    ensures SameView(after, tables[|es|], cluster) <==> NewcomersAgree(before, cluster, es)
    ensures Created(before, cluster, es) == CreatedOneByOne(cluster, es, tables)
  {
    ChainCount(cluster, es, tables);
    ChainAnonymous(cluster, es, tables);
    forall other | other != cluster ensures RowsOf(after, other) == RowsOf(tables[|es|], other) {
      ChainOthers(cluster, es, tables, other);
    }
    forall uid | uid != ""
      ensures StoredAt(after, cluster, uid) == StoredAt(tables[|es|], cluster, uid)
         <==> NewcomerAgrees(before, cluster, es, uid) {
      ChainStoredAt(cluster, es, tables, uid);
      FirstIffLast(es, uid);
    }
  }

  /** The last delivery's body is what is stored, in one row, whatever came before. */
  lemma LastDeliveryWins(cluster: string, es: seq<Event>, before: seq<Event>, after: seq<Event>, i: nat)
    requires Stores(cluster, es, before, after)
    requires i < |es| && es[i].uid != "" && forall j :: i < j < |es| ==> es[j].uid != es[i].uid
    ensures exists r :: 0 <= r < |after| && after[r].cluster == cluster && after[r].uid == es[i].uid
                        && after[r].body == es[i].body
                        && forall q :: 0 <= q < |after| && after[q].cluster == cluster && after[q].uid == es[i].uid ==> q == r
  {
    LastDelivered(es, i);
    var uid := es[i].uid;
    assert StoredAt(after, cluster, uid).value.body == es[i].body;
    var r := FindRow(after, cluster, uid);
    StoredAtRow(after, r);
  }
}
