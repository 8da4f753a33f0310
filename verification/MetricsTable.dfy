/**
 The byte-budgeted cache of `db/metrics_cache.go`: a table of rows, a running
 total, and a save that evicts the least recently used rows in batches.
 */
module MetricsTable {
  import opened Strings

  datatype Row = Row(data: string, bytes: int, lastUsed: int)
  type Table = map<string, Row>

  /** `ORDER BY last_used ASC, key ASC`. */
  predicate Before(t: Table, a: string, b: string)
    requires a in t && b in t
  {
    t[a].lastUsed < t[b].lastUsed || (t[a].lastUsed == t[b].lastUsed && Less(a, b))
  }

  ghost predicate IsOldest(t: Table, k: string) {
    k in t && forall j {:trigger Before(t, k, j)} :: j in t && j != k ==> Before(t, k, j)
  }

  lemma BeforeIsOrder(t: Table, a: string, b: string, c: string)
    requires a in t && b in t && c in t
    ensures a != b ==> (Before(t, a, b) <==> !Before(t, b, a))
    ensures Before(t, a, b) && Before(t, b, c) ==> Before(t, a, c)
  {
    LessTrichotomy(a, b);
    if Less(a, b) && Less(b, c) {
      LessTransitive(a, b, c);
    }
  }

  lemma {:induction false} OldestExists(t: Table)
    requires |t| > 0
    ensures exists k :: IsOldest(t, k)
    decreases |t|
  {
    var k :| k in t;
    var rest := t - {k};
    if |rest| == 0 {
      assert t.Keys == {k} + rest.Keys;
      assert IsOldest(t, k);
    } else {
      assert |rest.Keys| < |t.Keys|;
      OldestExists(rest);
      var m :| IsOldest(rest, m);
      BeforeIsOrder(t, k, m, k);
      if Before(t, k, m) {
        forall j | j in t && j != k ensures Before(t, k, j) {
          if j != m {
            assert Before(rest, m, j);
            BeforeIsOrder(t, k, m, j);
          }
        }
        assert IsOldest(t, k);
      } else {
        forall j | j in t && j != m ensures Before(t, m, j) {
          if j != k { assert Before(rest, m, j); }
        }
        assert IsOldest(t, m);
      }
    }
  }

  lemma OldestUnique(t: Table, a: string, b: string)
    requires IsOldest(t, a) && IsOldest(t, b)
    ensures a == b
  {
    BeforeIsOrder(t, a, b, a);
  }

  ghost function Oldest(t: Table): (k: string)
    requires |t| > 0
    ensures IsOldest(t, k)
  {
    OldestExists(t);
    var k :| IsOldest(t, k);
    k
  }

  /** The table's keys, oldest first. */
  ghost function InOrder(t: Table): (ks: seq<string>)
    ensures |ks| == |t|
    decreases |t|
  {
    if |t| == 0 then [] else
    var k := Oldest(t);
    assert (t - {k}).Keys == t.Keys - {k};
    [k] + InOrder(t - {k})
  }

  lemma FirstInOrder(t: Table, k: string)
    requires IsOldest(t, k)
    ensures |t - {k}| == |t| - 1 && InOrder(t) == [k] + InOrder(t - {k})
  {
    OldestUnique(t, k, Oldest(t));
    assert (t - {k}).Keys == t.Keys - {k};
  }

  /** `SUM(bytes)`. */
  ghost function Sum(t: Table): int
    decreases |t|
  {
    if |t| == 0 then 0 else
    var k := Oldest(t);
    assert (t - {k}).Keys == t.Keys - {k};
    t[k].bytes + Sum(t - {k})
  }

  lemma {:induction false} SumRemove(t: Table, k: string)
    requires k in t
    ensures Sum(t) == t[k].bytes + Sum(t - {k})
    decreases |t|
  {
    var o := Oldest(t);
    assert (t - {o}).Keys == t.Keys - {o};
    if o != k {
      var rest := t - {k};
      assert rest.Keys == t.Keys - {k};
      SumRemove(t - {o}, k);
      assert o in rest;
      assert |rest| > 0;
      SumRemove(rest, o);
      assert t - {o} - {k} == rest - {o};
    }
  }

  /** One row at a time, as long as the new row does not fit: what the cache is meant to do. */
  ghost function Evict(t: Table, size: int, maxBytes: int): Table
    decreases |t|
  {
    if |t| == 0 || Sum(t) + size <= maxBytes then t
    else
      assert (t - {Oldest(t)}).Keys == t.Keys - {Oldest(t)};
      Evict(t - {Oldest(t)}, size, maxBytes)
  }

  /** The table after its n oldest rows are gone. */
  ghost function Without(t: Table, n: nat): Table
    requires n <= |t|
    decreases n
  {
    if n == 0 then t else
    assert (t - {Oldest(t)}).Keys == t.Keys - {Oldest(t)};
    Without(t - {Oldest(t)}, n - 1)
  }

  function Members(keys: seq<string>): set<string> {
    set k | k in keys
  }

  lemma MembersFirst(k: string, keys: seq<string>)
    ensures Members([k] + keys) == {k} + Members(keys)
  {
  }

  lemma NoMembers(t: Table, keys: seq<string>)
    ensures t - Members(keys[..0]) == t
  {
    assert Members(keys[..0]) == {};
  }

  lemma FirstOf(keys: seq<string>, k: string, rest: seq<string>, n: nat)
    requires keys == [k] + rest && 0 < n <= |keys|
    ensures keys[..n] == [k] + rest[..n - 1]
  {
  }

  lemma MinusBoth(t: Table, a: set<string>, b: set<string>)
    ensures (t - a) - b == t - (a + b)
  {
  }

  /** Those rows are the first n of the eviction order. */
  lemma {:induction false} WithoutIsPrefix(t: Table, n: nat)
    requires n <= |t|
    ensures Without(t, n) == t - Members(InOrder(t)[..n])
    decreases n
  {
    if n == 0 {
      NoMembers(t, InOrder(t));
    } else {
      var o := Oldest(t);
      assert (t - {o}).Keys == t.Keys - {o};
      var rest := InOrder(t - {o})[..n - 1];
      FirstOf(InOrder(t), o, InOrder(t - {o}), n);
      WithoutIsPrefix(t - {o}, n - 1);
      MembersFirst(o, rest);
      MinusBoth(t, {o}, Members(rest));
    }
  }

  /** Removing the n oldest rows makes room, and removing fewer does not. */
  ghost predicate ShortestRun(t: Table, n: nat, size: int, maxBytes: int) {
    && n <= |t|
    && Sum(Without(t, n)) + size <= maxBytes
    && forall m: nat {:trigger Without(t, m)} :: m < n ==> Sum(Without(t, m)) + size > maxBytes
  }

  lemma LongerRun(t: Table, n: nat, size: int, maxBytes: int)
    requires |t| > 0 && Sum(t) + size > maxBytes
    requires ShortestRun(t - {Oldest(t)}, n, size, maxBytes)
    ensures ShortestRun(t, n + 1, size, maxBytes)
  {
    assert (t - {Oldest(t)}).Keys == t.Keys - {Oldest(t)};
    forall m: nat | m < n + 1 ensures Sum(Without(t, m)) + size > maxBytes {
      if m > 0 {
        assert Without(t, m) == Without(t - {Oldest(t)}, m - 1);
      }
    }
  }

  /** The evicted rows are the shortest run of oldest rows whose removal makes room. */
  lemma {:induction false} EvictsShortestRun(t: Table, size: int, maxBytes: int) returns (n: nat)
    requires size <= maxBytes
    ensures ShortestRun(t, n, size, maxBytes) && Evict(t, size, maxBytes) == Without(t, n)
    decreases |t|
  {
    if |t| == 0 || Sum(t) + size <= maxBytes {
      n := 0;
    } else {
      var o := Oldest(t);
      assert (t - {o}).Keys == t.Keys - {o};
      n := EvictsShortestRun(t - {o}, size, maxBytes);
      LongerRun(t, n, size, maxBytes);
      n := n + 1;
    }
  }

  lemma SumInsert(t: Table, k: string, row: Row)
    requires k !in t
    ensures k in t[k := row] && t[k := row] - {k} == t
    ensures Sum(t[k := row]) == Sum(t) + row.bytes
  {
    SumRemove(t[k := row], k);
    assert t[k := row] - {k} == t;
  }

  lemma {:induction false} EvictAddsNothing(t: Table, size: int, maxBytes: int, k: string)
    requires k !in t
    ensures k !in Evict(t, size, maxBytes)
    decreases |t|
  {
    if |t| > 0 && Sum(t) + size > maxBytes {
      assert (t - {Oldest(t)}).Keys == t.Keys - {Oldest(t)};
      EvictAddsNothing(t - {Oldest(t)}, size, maxBytes, k);
    }
  }

  /** The first row was used earlier, or at the same time and its key comes first. */
  ghost predicate UsedEarlier(t: Table, a: string, b: string) {
    && a in t && b in t
    && (t[a].lastUsed < t[b].lastUsed || (t[a].lastUsed == t[b].lastUsed && ComesFirst(a, b)))
  }

  /** Of two tables: rows are only removed, and none that was used later than one that stays. */
  ghost predicate LeastUsedGo(before: Table, after: Table) {
    && (forall k :: k in after ==> k in before && after[k] == before[k])
    && (forall gone, kept :: gone in before && gone !in after && kept in after ==> UsedEarlier(before, gone, kept))
  }

  /** Eviction takes the least recently used rows, by the rows themselves. */
  lemma {:induction false} EvictsLeastUsed(t: Table, size: int, maxBytes: int)
    ensures LeastUsedGo(t, Evict(t, size, maxBytes))
    decreases |t|
  {
    if |t| > 0 && Sum(t) + size > maxBytes {
      var o := Oldest(t);
      var rest, left := t - {o}, Evict(t, size, maxBytes);
      assert rest.Keys == t.Keys - {o};
      EvictsLeastUsed(rest, size, maxBytes);
      forall gone, kept | gone in t && gone !in left && kept in left ensures UsedEarlier(t, gone, kept) {
        if gone == o {
          assert Before(t, o, kept);
          LessIsLexicographic(o, kept);
        } else {
          assert UsedEarlier(rest, gone, kept);
        }
      }
    }
  }

  /** And no more of them than it must: with the last one back there would be no room. */
  lemma {:induction false} EvictsNoMore(t: Table, size: int, maxBytes: int) returns (last: string)
    requires size <= maxBytes && Evict(t, size, maxBytes) != t
    ensures last in t && last !in Evict(t, size, maxBytes)
    ensures Sum(Evict(t, size, maxBytes)) + t[last].bytes + size > maxBytes
    ensures forall gone :: gone in t && gone !in Evict(t, size, maxBytes) && gone != last ==> UsedEarlier(t, gone, last)
    decreases |t|
  {
    var o := Oldest(t);
    var rest, left := t - {o}, Evict(t, size, maxBytes);
    assert rest.Keys == t.Keys - {o};
    if left == rest {
      last := o;
      SumRemove(t, o);
    } else {
      last := EvictsNoMore(rest, size, maxBytes);
      assert Before(t, o, last);
      LessIsLexicographic(o, last);
    }
    EvictAddsNothing(rest, size, maxBytes, o);
  }

  /** The sum counts each row's bytes once. */
  lemma SumIsOfRows(t: Table, k: string, row: Row)
    ensures Sum(map[]) == 0
    ensures k !in t ==> Sum(t[k := row]) == Sum(t) + row.bytes
  {
    if k !in t {
      SumInsert(t, k, row);
    }
  }
}
