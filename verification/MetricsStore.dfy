/**
 The cache object of `db/metrics_cache.go` and what holds over any use of it: its
 saves evict in batches and keep a running total.
 */
module MetricsStore {
  import opened MetricsTable
  import opened Options

  const HOUR := 3600_000_000_000

  /** The file's rows, whether the cache is open, and the running total. */
  datatype Store = Store(rows: Table, open: bool, bytes: int)

  function SizeOf(key: string, data: string): int {
    |key| + |data| + 128
  }

  ghost function OpenStore(s: Store): Store {
    s.(open := true, bytes := Sum(s.rows))
  }

  function CloseStore(s: Store): Store {
    s.(open := false)
  }

  predicate Touches(s: Store, key: string, now: int) {
    s.open && key in s.rows && now - s.rows[key].lastUsed >= HOUR
  }

  function ReadStore(s: Store, key: string, now: int, writes: bool): Store {
    if Touches(s, key, now) && writes then s.(rows := s.rows[key := s.rows[key].(lastUsed := now)]) else s
  }

  predicate Retains(s: Store, key: string, data: string, maxBytes: int) {
    s.open && SizeOf(key, data) <= maxBytes
  }

  ghost function SaveStore(s: Store, key: string, data: string, maxBytes: int, now: int, commits: bool): Store {
    if !Retains(s, key, data, maxBytes) || !commits then s else
    var size := SizeOf(key, data);
    var rows := Evict(s.rows - {key}, size, maxBytes)[key := Row(data, size, now)];
    Store(rows, true, Sum(rows))
  }

  /** Rows go, oldest first, until the running total says that the new row fits. */
  ghost function EvictByTotal(t: Table, total: int, size: int, maxBytes: int): (Table, int)
    decreases |t|
  {
    if total + size <= maxBytes then (t, total)
    else if |t| == 0 then (t, 0)
    else
      var o := Oldest(t);
      assert (t - {o}).Keys == t.Keys - {o};
      EvictByTotal(t - {o}, total - t[o].bytes, size, maxBytes)
  }

  /** A save as the code does it: nothing is summed, the total is carried along. */
  ghost function SaveByTotal(s: Store, key: string, data: string, maxBytes: int, now: int, commits: bool): Store {
    if !Retains(s, key, data, maxBytes) || !commits then s else
    var size := SizeOf(key, data);
    var total := if key in s.rows then s.bytes - s.rows[key].bytes else s.bytes;
    var (left, kept) := EvictByTotal(s.rows - {key}, total, size, maxBytes);
    Store(left[key := Row(data, size, now)], true, kept + size)
  }

  lemma {:induction false} EvictByTotalIsEvict(t: Table, size: int, maxBytes: int)
    requires size <= maxBytes
    ensures EvictByTotal(t, Sum(t), size, maxBytes) == (Evict(t, size, maxBytes), Sum(Evict(t, size, maxBytes)))
    decreases |t|
  {
    if |t| > 0 && Sum(t) + size > maxBytes {
      var o := Oldest(t);
      assert (t - {o}).Keys == t.Keys - {o};
      EvictByTotalIsEvict(t - {o}, size, maxBytes);
    }
  }

  /** As long as the total is right, the save that carries it is the save that sums the table. */
  lemma SaveByTotalIsSave(s: Store, key: string, data: string, maxBytes: int, now: int, commits: bool)
    requires s.open ==> s.bytes == Sum(s.rows)
    ensures SaveByTotal(s, key, data, maxBytes, now, commits) == SaveStore(s, key, data, maxBytes, now, commits)
  {
    if Retains(s, key, data, maxBytes) && commits {
      var size := SizeOf(key, data);
      if key in s.rows {
        SumRemove(s.rows, key);
      } else {
        assert s.rows - {key} == s.rows;
      }
      EvictByTotalIsEvict(s.rows - {key}, size, maxBytes);
      SumAfterInsert(s.rows, key, Row(data, size, now), size, maxBytes);
    }
  }

  lemma SumAfterInsert(t: Table, key: string, row: Row, size: int, maxBytes: int)
    ensures var left := Evict(t - {key}, size, maxBytes); Sum(left[key := row]) == Sum(left) + row.bytes
  {
    EvictAddsNothing(t - {key}, size, maxBytes, key);
    SumInsert(Evict(t - {key}, size, maxBytes), key, row);
  }

  // ---- on the rows themselves ----------------------------------------------

  /**
   The row is there, within the budget, and of the others the least recently
   used ones are gone, no more of them than had to go.
   */
  ghost predicate IsSaved(before: Table, after: Table, key: string, row: Row, maxBytes: int) {
    && key in after && after[key] == row && Sum(after) <= maxBytes
    && LeastUsedGo(before - {key}, after - {key})
    && (after - {key} != before - {key} ==>
          exists last :: last in before && last !in after && Sum(after) + before[last].bytes > maxBytes)
  }

  lemma SavedRows(t: Table, key: string, row: Row, maxBytes: int)
    requires row.bytes <= maxBytes
    ensures IsSaved(t, Evict(t - {key}, row.bytes, maxBytes)[key := row], key, row, maxBytes)
  {
    var others := t - {key};
    var left := Evict(others, row.bytes, maxBytes);
    var after := left[key := row];
    EvictsLeastUsed(others, row.bytes, maxBytes);
    EvictAddsNothing(others, row.bytes, maxBytes, key);
    SumInsert(left, key, row);
    assert after - {key} == left;
    var n := EvictsShortestRun(others, row.bytes, maxBytes);
    if left != others {
      var last := EvictsNoMore(others, row.bytes, maxBytes);
      assert last in t && last !in after;
    }
  }

  /** A save that commits and fits leaves such a table, with its sum as the total; any other changes nothing. */
  lemma SaveByRows(s: Store, key: string, data: string, maxBytes: int, now: int, commits: bool)
    ensures var t, size := SaveStore(s, key, data, maxBytes, now, commits), |key| + |data| + 128;
            if s.open && commits && size <= maxBytes
            then t.open && t.bytes == Sum(t.rows) && IsSaved(s.rows, t.rows, key, Row(data, size, now), maxBytes)
            else t == s
  {
    if s.open && |key| + |data| + 128 <= maxBytes {
      SavedRows(s.rows, key, Row(data, |key| + |data| + 128, now), maxBytes);
    }
  }

  /** A row read within the hour outlives one not used for an hour: no save removes it and keeps the other. */
  lemma ReadRowOutlives(s: Store, read: string, idle: string, at: int, key: string, data: string, maxBytes: int, now: int)
    requires s.open && read in s.rows && idle in s.rows && s.rows[idle].lastUsed <= at - 3600_000_000_000
    ensures var t := ReadStore(s, read, at, true);
            var after := SaveStore(t, key, data, maxBytes, now, true).rows;
            read !in after && key != idle ==> idle !in after
  {
    var t := ReadStore(s, read, at, true);
    if read != key && idle != key && Retains(t, key, data, maxBytes) {
      EvictsLeastUsed(t.rows - {key}, SizeOf(key, data), maxBytes);
      var left := Evict(t.rows - {key}, SizeOf(key, data), maxBytes);
      if read !in left && idle in left {
        assert UsedEarlier(t.rows - {key}, read, idle);
      }
    }
  }

  class MetricsCache {
    var rows: Table
    var open: bool
    var bytes: int

    ghost function Abs(): Store
      reads this
    {
      Store(rows, open, bytes)
    }

    ghost predicate Valid()
      reads this
    {
      open ==> bytes == Sum(rows)
    }

    constructor (file: Table)
      ensures Valid() && Abs() == Store(file, false, 0)
    {
      rows, open, bytes := file, false, 0;
    }

    method Open()
      modifies this
      ensures Valid() && Abs() == OpenStore(old(Abs())) && rows == old(rows) && open
    {
      var total := Total();
      open, bytes := true, total;
    }

    /** `SELECT COALESCE(SUM(bytes), 0)`. */
    method Total() returns (total: int)
      ensures total == Sum(rows)
    {
      total := 0;
      var todo := rows;
      while |todo| > 0
        invariant total + Sum(todo) == Sum(rows)
        decreases |todo|
      {
        var k :| k in todo;
        SumRemove(todo, k);
        assert (todo - {k}).Keys == todo.Keys - {k};
        total := total + todo[k].bytes;
        todo := todo - {k};
      }
    }

    method Close()
      modifies this`open
      ensures Valid() && Abs() == CloseStore(old(Abs())) && !open
    {
      open := false;
    }

    /** `writes` is whether the update of last_used, if one is made, succeeds. */
    method Get(key: string, now: int, writes: bool) returns (r: Option<string>)
      requires Valid()
      modifies this`rows
      ensures Valid() && Abs() == ReadStore(old(Abs()), key, now, writes)
      ensures r == if old(open) && key in old(rows) && (writes || !Touches(old(Abs()), key, now))
                   then Some(old(rows)[key].data) else None
      ensures r.Some? ==> open && key in old(rows) && r.value == old(rows)[key].data
                          && now - rows[key].lastUsed < 3600_000_000_000 && rows[key].lastUsed in {now, old(rows)[key].lastUsed}
      ensures r.None? ==> rows == old(rows)
                          && (!open || key !in rows || (!writes && now - rows[key].lastUsed >= 3600_000_000_000))
      ensures rows.Keys == old(rows).Keys && forall k :: k in rows ==>
                if k == key then rows[k] == old(rows)[k].(lastUsed := rows[k].lastUsed) else rows[k] == old(rows)[k]
    {
      if !open || key !in rows {
        return None;
      }
      var row := rows[key];
      if now - row.lastUsed >= HOUR {
        if !writes {
          return None;
        }
        TouchKeepsSum(rows, key, now);
        rows := rows[key := row.(lastUsed := now)];
      }
      return Some(row.data);
    }

    /** `ORDER BY last_used, key LIMIT n`. */
    method Select(t: Table, n: nat) returns (keys: seq<string>)
      ensures keys == InOrder(t)[..if n < |t| then n else |t|]
    {
      keys := [];
      var rest := t;
      while |rest| > 0 && |keys| < n
        invariant |keys| <= n && InOrder(t) == keys + InOrder(rest)
        invariant |keys| + |rest| == |t|
        decreases |rest|
      {
        var k := First(rest);
        FirstInOrder(rest, k);
        keys := keys + [k];
        rest := rest - {k};
      }
    }

    method First(t: Table) returns (k: string)
      requires |t| > 0
      ensures IsOldest(t, k)
    {
      k :| k in t;
      var todo := t.Keys - {k};
      while todo != {}
        invariant todo < t.Keys && k in t && k !in todo
        invariant forall j :: j in t && j !in todo && j != k ==> Before(t, k, j)
        decreases |todo|
      {
        var j :| j in todo;
        BeforeIsOrder(t, j, k, j);
        if Before(t, j, k) {
          forall i | i in t && i !in todo && i != k ensures Before(t, j, i) {
            BeforeIsOrder(t, j, k, i);
          }
          k := j;
        }
        todo := todo - {j};
      }
    }

    /** `commits` is whether the transaction succeeds. */
    method Save(key: string, data: string, maxBytes: int, now: int, commits: bool) returns (ok: bool)
      requires Valid()
      modifies this
      ensures Valid() && Abs() == SaveStore(old(Abs()), key, data, maxBytes, now, commits)
      ensures ok == (old(open) && (commits || !Retains(old(Abs()), key, data, maxBytes)))
      ensures ok == (old(open) && (commits || |key| + |data| + 128 > maxBytes))
    {
      if !open {
        return false;
      }
      var size := |key| + |data| + 128;
      if size > maxBytes {
        return true;
      }
      var tx, total := Transact(key, Row(data, size, now), size, maxBytes);
      if !commits {
        return false;
      }
      rows, bytes := tx, total;
      return true;
    }

    /** The body of the transaction. */
    method Transact(key: string, row: Row, size: int, maxBytes: int) returns (tx: Table, total: int)
      requires bytes == Sum(rows) && row.bytes == size <= maxBytes
      ensures tx == Evict(rows - {key}, size, maxBytes)[key := row] && total == Sum(tx)
    {
      tx, total := Forget(key);
      tx, total := MakeRoom(tx, total, size, maxBytes);
      SumAfterInsert(rows, key, row, size, maxBytes);
      tx := tx[key := row];
      total := total + size;
    }

    /** The transaction's view of the table without the row to be replaced. */
    method Forget(key: string) returns (tx: Table, total: int)
      requires bytes == Sum(rows)
      ensures tx == rows - {key} && total == Sum(tx)
    {
      tx, total := rows, bytes;
      if key in tx {
        SumRemove(tx, key);
        total := total - tx[key].bytes;
        tx := tx - {key};
      } else {
        assert tx == rows - {key};
      }
    }

    /** The eviction loop of the transaction, 64 rows to a query. It never runs out of rows (`SomethingToEvict`). */
    method MakeRoom(t: Table, sum: int, size: int, maxBytes: int) returns (tx: Table, total: int)
      requires sum == Sum(t) && size <= maxBytes
      ensures tx == Evict(t, size, maxBytes) && total == Sum(tx)
      ensures total + size <= maxBytes
    {
      tx, total := t, sum;
      while total + size > maxBytes
        invariant total == Sum(tx)
        invariant Evict(tx, size, maxBytes) == Evict(t, size, maxBytes)
        decreases |tx|
      {
        var batch := Select(tx, 64);
        if |batch| == 0 {
          total := 0;
          break;
        }
        tx, total := EvictBatch(tx, total, batch, size, maxBytes);
      }
    }

    /** Deletes rows of one batch until the new row fits: at least one, as it does not fit yet. */
    method EvictBatch(t: Table, sum: int, batch: seq<string>, size: int, maxBytes: int) returns (tx: Table, total: int)
      requires sum == Sum(t) && 0 < |batch| && batch <= InOrder(t) && sum + size > maxBytes
      ensures total == Sum(tx) && |tx| < |t|
      ensures Evict(tx, size, maxBytes) == Evict(t, size, maxBytes)
    {
      tx, total := t, sum;
      var i := 0;
      while i < |batch| && total + size > maxBytes
        invariant 0 <= i <= |batch| && total == Sum(tx)
        invariant batch[i..] <= InOrder(tx)
        invariant |tx| + i == |t| && (i == 0 ==> total + size > maxBytes)
        invariant Evict(tx, size, maxBytes) == Evict(t, size, maxBytes)
      {
        var k := batch[i];
        assert batch[i..][0] == k == Oldest(tx);
        assert (tx - {k}).Keys == tx.Keys - {k};
        assert batch[i + 1..] == batch[i..][1..];
        total := total - tx[k].bytes;
        tx := tx - {k};
        i := i + 1;
      }
    }
  }

  /** As long as a row that fits by itself has no room, there is a row to evict. */
  lemma SomethingToEvict(t: Table, total: int, size: int, maxBytes: int)
    requires total == Sum(t) && size <= maxBytes && total + size > maxBytes
    ensures |InOrder(t)| > 0 && Oldest(t) in t
  {
    assert t != map[];
  }

  // ---- over any sequence of uses -----------------------------------------

  datatype Op =
    | OpOpen
    | OpClose
    | OpGet(key: string, now: int, writes: bool)
    | OpSave(key: string, data: string, maxBytes: int, now: int, commits: bool)

  ghost function Do(s: Store, op: Op): Store {
    match op
    case OpOpen => OpenStore(s)
    case OpClose => CloseStore(s)
    case OpGet(key, now, writes) => ReadStore(s, key, now, writes)
    case OpSave(key, data, maxBytes, now, commits) => SaveByTotal(s, key, data, maxBytes, now, commits)
  }

  ghost function DoAll(s: Store, ops: seq<Op>): Store
    decreases |ops|
  {
    if |ops| == 0 then s else DoAll(Do(s, ops[0]), ops[1..])
  }

  lemma TouchKeepsSum(t: Table, k: string, now: int)
    requires k in t
    ensures Sum(t[k := t[k].(lastUsed := now)]) == Sum(t)
  {
    SumRemove(t, k);
    SumInsert(t - {k}, k, t[k].(lastUsed := now));
    assert (t - {k})[k := t[k].(lastUsed := now)] == t[k := t[k].(lastUsed := now)];
  }

  lemma StepKeepsTotal(s: Store, op: Op)
    requires s.open ==> s.bytes == Sum(s.rows)
    ensures Do(s, op).open ==> Do(s, op).bytes == Sum(Do(s, op).rows)
  {
    if op.OpGet? && Touches(s, op.key, op.now) {
      TouchKeepsSum(s.rows, op.key, op.now);
    } else if op.OpSave? {
      SaveByTotalIsSave(s, op.key, op.data, op.maxBytes, op.now, op.commits);
    }
  }

  /** While the cache is open the running total is the table's sum, whatever was done and whatever was rolled back. */
  lemma {:induction false} TotalIsConserved(s: Store, ops: seq<Op>)
    requires s.open ==> s.bytes == Sum(s.rows)
    ensures DoAll(s, ops).open ==> DoAll(s, ops).bytes == Sum(DoAll(s, ops).rows)
    decreases |ops|
  {
    if |ops| > 0 {
      StepKeepsTotal(s, ops[0]);
      TotalIsConserved(Do(s, ops[0]), ops[1..]);
    }
  }

  /**
   A committed save of an entry that fits keeps the new row, stays within the
   call's budget, and removes, apart from the row it replaces, exactly the
   shortest run of oldest rows that makes room.
   */
  lemma SaveKeepsBudget(s: Store, key: string, data: string, maxBytes: int, now: int) returns (n: nat)
    requires Retains(s, key, data, maxBytes)
    ensures var t := SaveStore(s, key, data, maxBytes, now, true);
            && t.bytes == Sum(t.rows) <= maxBytes
            && key in t.rows && t.rows[key].data == data
            && ShortestRun(s.rows - {key}, n, SizeOf(key, data), maxBytes)
            && t.rows - {key} == Without(s.rows - {key}, n)
  {
    var size := SizeOf(key, data);
    var others := s.rows - {key};
    n := EvictsShortestRun(others, size, maxBytes);
    EvictAddsNothing(others, size, maxBytes, key);
    SumInsert(Evict(others, size, maxBytes), key, Row(data, size, now));
  }
}
