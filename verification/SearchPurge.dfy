/** The keyset-paginated purge of search rows in `db/migrations.go`. */
module SearchPurge {
  import opened Collections

  datatype Row = Row(resourceId: string, cluster: string, kind: string, name: string, namespace: string,
                     group: string, version: string)
  /** Rows by primary key. */
  type Table = map<nat, Row>

  const BATCH := 2000

  function Lower(s: string): string {
    seq(|s|, i requires 0 <= i < |s| => if 'A' <= s[i] <= 'Z' then (s[i] as int + 32) as char else s[i])
  }

  /** `plural` stands for PluralizeKind, the table of irregular plurals included. */
  function CanonicalId(plural: string -> string, r: Row): string {
    r.cluster + "/" + r.group + "/" + r.version + "/" + plural(r.kind)
    + (if r.namespace != "" then "/" + r.namespace else "") + "/" + r.name
  }

  /** Kind definitions and all-lowercase kinds go in the first statement. */
  predicate BadKind(r: Row) {
    r.kind == "KindDefinition" || r.kind == Lower(r.kind)
  }

  predicate Acceptable(plural: string -> string, r: Row) {
    !BadKind(r) && r.resourceId == CanonicalId(plural, r)
  }

  function KeepAcceptable(plural: string -> string, t: Table): Table {
    map id | id in t && Acceptable(plural, t[id]) :: t[id]
  }

  function DropBadKinds(t: Table): Table {
    map id | id in t && !BadKind(t[id]) :: t[id]
  }

  /** The rows whose id is the one `canonical` gives them. */
  predicate Fits(canonical: Row -> string, r: Row) {
    r.resourceId == canonical(r)
  }

  ghost predicate Ascending(ids: seq<nat>) {
    forall i, j :: 0 <= i < j < |ids| ==> ids[i] < ids[j]
  }

  /** `WHERE id > after ORDER BY id LIMIT limit`. */
  ghost predicate IsPage(t: Table, after: nat, limit: nat, page: seq<nat>) {
    && Ascending(page) && |page| <= limit
    && (forall id :: id in page ==> id in t && id > after)
    && (forall id :: id in t && id > after && id !in page ==> |page| == limit && limit > 0 && id > page[limit - 1])
  }

  method SelectPage(t: Table, after: nat, limit: nat) returns (page: seq<nat>)
    requires limit > 0
    ensures IsPage(t, after, limit, page)
  {
    page := [];
    var rest := set id | id in t && id > after;
    while rest != {} && |page| < limit
      invariant |page| <= limit && Ascending(page)
      invariant forall id :: id in page ==> id in t && id > after
      invariant forall id :: id in rest <==> id in t && id > after && id !in page
      invariant forall i, id :: 0 <= i < |page| && id in rest ==> page[i] < id
      decreases |rest|
    {
      var m := Least(rest);
      page := page + [m];
      rest := rest - {m};
    }
  }

  method Least(s: set<nat>) returns (m: nat)
    requires s != {}
    ensures m in s && forall x :: x in s ==> m <= x
  {
    m :| m in s;
    var todo := s - {m};
    while todo != {}
      invariant m in s && todo <= s && forall x :: x in s && x !in todo ==> m <= x
      decreases |todo|
    {
      var x :| x in todo;
      if x < m {
        m := x;
      }
      todo := todo - {x};
    }
  }

  /** What is done when every row up to `last` has been looked at. */
  ghost predicate Swept(canonical: Row -> string, start: Table, rows: Table, last: nat, examined: seq<nat>) {
    && (forall id :: id in rows <==> id in start && (id > last || Fits(canonical, start[id])))
    && (forall id :: id in rows ==> rows[id] == start[id])
    && Ascending(examined)
    && (forall id :: id in examined <==> id in start && id <= last)
  }

  class SearchIndex {
    var rows: Table

    constructor (rows: Table)
      ensures this.rows == rows
    {
      this.rows := rows;
    }

    /** Deletes the given rows, or fails; returns how many went. */
    method DeleteRows(ids: set<nat>) returns (ok: bool, n: int)
      modifies this
      ensures rows == if ok then old(rows) - ids else old(rows)
      ensures n == |old(rows)| - |rows|
    {
      ok, n := *, 0;
      if ok {
        n := |ids * rows.Keys|;
        CountGone(rows, ids);
        rows := rows - ids;
      }
    }

    /**
     Any database call may fail, and the purge then stops with what it has done.
     `examined` lists the rows whose id was compared, in order.
     */
    method Purge(plural: string -> string) returns (ok: bool, removed: int, ghost examined: seq<nat>)
      requires 0 !in rows
      modifies this
      ensures ok ==> rows == KeepAcceptable(plural, old(rows))
      ensures ok ==> Ascending(examined) && forall id :: id in examined <==> id in DropBadKinds(old(rows))
      ensures removed == |old(rows)| - |rows|
      ensures OnlyUnacceptableGone(plural, old(rows), rows)
    {
      ghost var all := rows;
      ok, removed := PurgeKinds(plural);
      examined := [];
      if ok {
        var n;
        ok, n, examined := Sweep((r: Row) => CanonicalId(plural, r));
        removed := removed + n;
        SweptIsAcceptable(plural, all, rows, ok);
      }
    }

    method PurgeKinds(plural: string -> string) returns (ok: bool, removed: int)
      modifies this
      ensures rows == if ok then DropBadKinds(old(rows)) else old(rows)
      ensures removed == |old(rows)| - |rows|
      ensures OnlyUnacceptableGone(plural, old(rows), rows)
    {
      var bad := set id | id in rows && BadKind(rows[id]);
      ghost var all := rows;
      ok, removed := DeleteRows(bad);
      assert all - bad == DropBadKinds(all);
    }

    /** The pagination loop. */
    method Sweep(canonical: Row -> string) returns (ok: bool, removed: int, ghost examined: seq<nat>)
      requires 0 !in rows
      modifies this
      ensures ok ==> rows == KeepFitting(canonical, old(rows))
      ensures ok ==> Ascending(examined) && forall id :: id in examined <==> id in old(rows)
      ensures removed == |old(rows)| - |rows|
      ensures OnlyMisfitsGone(canonical, old(rows), rows)
    {
      ghost var start := rows;
      ok, removed, examined := true, 0, [];
      var last: nat, more := 0, true;
      assert Swept(canonical, start, rows, last, examined);
      while ok && more
        invariant exists at :: Swept(canonical, start, rows, at, examined)
        invariant ok ==> Swept(canonical, start, rows, last, examined)
        invariant removed == |start| - |rows|
        invariant ok && !more ==> forall id :: id in rows ==> id <= last
        decreases ok, more, Ahead(rows, last)
      {
        var n;
        ok, more, last, n, examined := SweepPage(canonical, last, start, examined);
        removed := removed + n;
      }
      SweptSoFar(canonical, start, rows, examined);
      if ok {
        AllSwept(canonical, start, rows, last, examined);
      }
    }

    /** One turn of the loop: read a page, delete its misfits. */
    method SweepPage(canonical: Row -> string, after: nat, ghost start: Table, ghost done: seq<nat>)
      returns (ok: bool, more: bool, last: nat, removed: int, ghost examined: seq<nat>)
      requires Swept(canonical, start, rows, after, done)
      modifies this
      ensures ok ==> Swept(canonical, start, rows, last, examined)
      ensures ok && !more ==> forall id :: id in rows ==> id <= last
      ensures ok && more ==> Ahead(rows, last) < Ahead(old(rows), after)
      ensures !ok ==> rows == old(rows) && examined == done
      ensures removed == |old(rows)| - |rows|
    {
      ok, more, last, removed, examined := *, false, after, 0, done;
      if !ok {
        return;
      }
      var page := SelectPage(rows, after, BATCH);
      if |page| == 0 {
        return;
      }
      var victims := Victims(canonical, page);
      ghost var before := rows;
      if victims != {} {
        ok, removed := DeleteRows(victims);
        if !ok {
          return;
        }
      }
      last := page[|page| - 1];
      examined := done + page;
      assert rows == before - victims;
      PageDone(canonical, start, before, rows, after, done, page);
      more := |page| >= BATCH;
    }

    method Victims(canonical: Row -> string, page: seq<nat>) returns (victims: set<nat>)
      requires forall id :: id in page ==> id in rows
      ensures victims == Misfits(canonical, rows, page)
    {
      victims := {};
      for i := 0 to |page|
        invariant victims == Misfits(canonical, rows, page[..i])
      {
        assert page[..i + 1] == page[..i] + [page[i]];
        if rows[page[i]].resourceId != canonical(rows[page[i]]) {
          victims := victims + {page[i]};
        }
      }
      assert page[..|page|] == page;
    }
  }

  ghost function Misfits(canonical: Row -> string, t: Table, page: seq<nat>): set<nat> {
    set id | id in page && id in t && !Fits(canonical, t[id])
  }

  function KeepFitting(canonical: Row -> string, t: Table): Table {
    map id | id in t && Fits(canonical, t[id]) :: t[id]
  }

  /** Nothing else changes, even when a run stops half way. */
  ghost predicate OnlyMisfitsGone(canonical: Row -> string, all: Table, rows: Table) {
    && (forall id :: id in rows ==> id in all && rows[id] == all[id])
    && (forall id :: id in all && Fits(canonical, all[id]) ==> id in rows)
  }

  ghost predicate OnlyUnacceptableGone(plural: string -> string, all: Table, rows: Table) {
    && (forall id :: id in rows ==> id in all && rows[id] == all[id])
    && (forall id :: id in all && Acceptable(plural, all[id]) ==> id in rows)
  }

  /** Sweeping what the first statement left amounts to keeping the acceptable rows. */
  lemma SweptIsAcceptable(plural: string -> string, all: Table, rows: Table, ok: bool)
    requires var canonical := (r: Row) => CanonicalId(plural, r);
             && OnlyMisfitsGone(canonical, DropBadKinds(all), rows)
             && (ok ==> rows == KeepFitting(canonical, DropBadKinds(all)))
    ensures OnlyUnacceptableGone(plural, all, rows)
    ensures ok ==> rows == KeepAcceptable(plural, all)
  {
    var canonical := (r: Row) => CanonicalId(plural, r);
    forall id | id in all && Acceptable(plural, all[id]) ensures id in rows {
      assert id in DropBadKinds(all) && Fits(canonical, all[id]);
    }
  }

  lemma CountGone(t: Table, ids: set<nat>)
    ensures |t - ids| == |t| - |ids * t.Keys|
  {
    assert (t - ids).Keys == t.Keys - ids;
    assert t.Keys == (t.Keys - ids) + (ids * t.Keys);
  }

  lemma PageBounds(t: Table, from: nat, page: seq<nat>)
    requires |page| > 0 && IsPage(t, from, BATCH, page)
    ensures var last := page[|page| - 1];
            && from < page[0] <= last && last in t
            && (forall id :: id in page ==> from < id <= last && id in t)
            && (forall id :: id in t && from < id <= last ==> id in page)
            && (|page| < BATCH ==> forall id :: id in t ==> id <= last)
  {
    var last := page[|page| - 1];
    assert page[0] in page && last in page;
  }

  /** One page moves the swept prefix to the page's last row. */
  lemma RowsSwept(canonical: Row -> string, start: Table, before: Table, after: Table, from: nat, done: seq<nat>, page: seq<nat>)
    requires Swept(canonical, start, before, from, done)
    requires |page| > 0 && IsPage(before, from, BATCH, page)
    requires after == before - Misfits(canonical, before, page)
    ensures forall id :: id in after <==> id in start && (id > page[|page| - 1] || Fits(canonical, start[id]))
    ensures forall id :: id in after ==> after[id] == start[id]
  {
    PageBounds(before, from, page);
  }

  lemma PageExamined(canonical: Row -> string, start: Table, before: Table, from: nat, done: seq<nat>, page: seq<nat>)
    requires Swept(canonical, start, before, from, done)
    requires |page| > 0 && IsPage(before, from, BATCH, page)
    ensures Ascending(done + page)
    ensures forall id :: id in done + page <==> id in start && id <= page[|page| - 1]
  {
    PageBounds(before, from, page);
    forall i, j | 0 <= i < j < |done + page| ensures (done + page)[i] < (done + page)[j] {
      if i < |done| <= j {
        assert done[i] in done && page[j - |done|] in page;
      }
    }
    forall id ensures id in done + page <==> id in start && id <= page[|page| - 1] {
      assert id in start && id > from ==> id in before;
    }
  }

  /** When no row is left ahead, exactly the fitting rows remain and every row was looked at. */
  lemma AllSwept(canonical: Row -> string, start: Table, rows: Table, last: nat, examined: seq<nat>)
    requires Swept(canonical, start, rows, last, examined)
    requires forall id :: id in rows ==> id <= last
    ensures rows == KeepFitting(canonical, start)
    ensures forall id :: id in examined <==> id in start
  {
    forall id ensures id in examined <==> id in start {
      assert id in start && id > last ==> id in rows;
    }
  }

  lemma SweptSoFar(canonical: Row -> string, start: Table, rows: Table, examined: seq<nat>)
    requires exists at :: Swept(canonical, start, rows, at, examined)
    ensures OnlyMisfitsGone(canonical, start, rows)
  {
    var at :| Swept(canonical, start, rows, at, examined);
  }

  lemma PageDone(canonical: Row -> string, start: Table, before: Table, after: Table, from: nat, done: seq<nat>, page: seq<nat>)
    requires Swept(canonical, start, before, from, done)
    requires |page| > 0 && IsPage(before, from, BATCH, page)
    requires after == before - Misfits(canonical, before, page)
    ensures Swept(canonical, start, after, page[|page| - 1], done + page)
    ensures Ahead(after, page[|page| - 1]) < Ahead(before, from)
    ensures |page| < BATCH ==> forall id :: id in after ==> id <= page[|page| - 1]
  {
    PageBounds(before, from, page);
    RowsSwept(canonical, start, before, after, from, done, page);
    PageExamined(canonical, start, before, from, done, page);
    Shrinks(before, after, from, page[|page| - 1]);
  }

  function Ahead(t: Table, last: nat): nat {
    |set id | id in t && id > last|
  }

  lemma Shrinks(before: Table, after: Table, from: nat, last: nat)
    requires from < last && last in before
    requires after.Keys <= before.Keys
    ensures Ahead(after, last) < Ahead(before, from)
  {
    var a, b := set id | id in after && id > last, set id | id in before && id > from;
    assert a <= b - {last};
    SubsetSize(a, b - {last});
  }

  // ---- on the columns themselves -------------------------------------------

  function Slashed(parts: seq<string>): string {
    if |parts| == 0 then "" else if |parts| == 1 then parts[0] else Slashed(parts[..|parts| - 1]) + "/" + parts[|parts| - 1]
  }

  /** A row is kept exactly if its kind is no definition and has a capital, and its id is its columns in order, slashed. */
  lemma AcceptableReads(plural: string -> string, r: Row)
    ensures Acceptable(plural, r) <==>
              && r.kind != "KindDefinition" && (exists i :: 0 <= i < |r.kind| && 'A' <= r.kind[i] <= 'Z')
              && r.resourceId == Slashed(if r.namespace == "" then [r.cluster, r.group, r.version, plural(r.kind), r.name]
                                         else [r.cluster, r.group, r.version, plural(r.kind), r.namespace, r.name])
  {
    SlashedFour(r.cluster, r.group, r.version, plural(r.kind));
    var four := [r.cluster, r.group, r.version, plural(r.kind)];
    if r.namespace == "" {
      SlashedLast(four, r.name);
      assert four + [r.name] == [r.cluster, r.group, r.version, plural(r.kind), r.name];
    } else {
      SlashedLast(four, r.namespace);
      SlashedLast(four + [r.namespace], r.name);
      assert four + [r.namespace] + [r.name] == [r.cluster, r.group, r.version, plural(r.kind), r.namespace, r.name];
    }
    NoCapitals(r.kind);
  }

  lemma SlashedFour(a: string, b: string, c: string, d: string)
    ensures Slashed([a, b, c, d]) == a + "/" + b + "/" + c + "/" + d
  {
    SlashedLast([a, b, c], d);
    SlashedLast([a, b], c);
    SlashedLast([a], b);
    assert [a, b, c] + [d] == [a, b, c, d] && [a, b] + [c] == [a, b, c] && [a] + [b] == [a, b];
  }

  lemma SlashedLast(parts: seq<string>, last: string)
    requires parts != []
    ensures Slashed(parts + [last]) == Slashed(parts) + "/" + last
  {
    assert (parts + [last])[..|parts|] == parts;
  }

  lemma NoCapitals(s: string)
    ensures s == Lower(s) <==> forall i :: 0 <= i < |s| ==> !('A' <= s[i] <= 'Z')
  {
    if s == Lower(s) {
      forall i | 0 <= i < |s| ensures !('A' <= s[i] <= 'Z') {
        assert s[i] == Lower(s)[i];
      }
    }
  }

}
