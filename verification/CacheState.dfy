/**
 The data that `Cache.mu` guards, and the effect of each critical section on it.

 `V` is the type of cached values and `F` identifies a fetch record: an
 `Inflight` object in the class `Cache`, a number in the protocol.
 */
module CacheState {
  import opened Options

  datatype Entry<V> = Entry(value: V, exp: int, staleUntil: int, invalidated: bool)

  datatype Shared<!F, V> = Shared(items: map<string, Entry<V>>, fetching: map<string, F>, superseded: set<F>)

  /** A key or a key prefix: what an invalidation reaches. */
  datatype Pattern = Exact(key: string) | Prefix(prefix: string)

  /** A trailing star makes the rest of an Invalidate argument a prefix. */
  function ParsePattern(p: string): Pattern {
    if |p| > 0 && p[|p| - 1] == '*' then Prefix(p[..|p| - 1]) else Exact(p)
  }

  predicate Covers(p: Pattern, k: string) {
    match p
    case Exact(key) => k == key
    case Prefix(prefix) => prefix <= k
  }

  // ---- what the patterns and entries mean ----------------------------------

  predicate EndsInStar(text: string) {
    |text| > 0 && text[|text| - 1] == '*'
  }

  /** What an Invalidate argument reaches, by its text: one key, or every key that begins with what precedes the star. */
  predicate Reaches(text: string, k: string) {
    if EndsInStar(text) then text[..|text| - 1] <= k else k == text
  }

  /** The same of a text that is built from a prefix and a star, and of one that is not. */
  lemma ReachesText(x: string, k: string)
    ensures Reaches(x + "*", k) <==> |x| <= |k| && k[..|x|] == x
    ensures !EndsInStar(x) ==> (Reaches(x, k) <==> k == x)
    ensures EndsInStar(x + "*") && !EndsInStar("") && forall c: char :: EndsInStar(x + [c]) <==> c == '*'
  {
    assert (x + "*")[..|x|] == x;
  }

  lemma CoversIsReaches(text: string, k: string)
    ensures Covers(ParsePattern(text), k) <==> Reaches(text, k)
    ensures Covers(Exact(text), k) <==> k == text
    ensures Covers(Prefix(text), k) <==> |text| <= |k| && k[..|text|] == text
  {
  }

  /** An entry is served until its time to live is over, and for ever if it has none; zero stands for the default. */
  lemma PlainEntryLives<V>(value: V, ttl: int, def: int, now: int, at: int)
    requires now > 0
    ensures var e, life := NewEntry(value, ttl, def, now), if ttl == 0 then def else ttl;
            e.value == value && e.staleUntil == 0 && !e.invalidated && (Fresh(e, at) <==> life <= 0 || at <= now + life)
  {
  }

  /** A stale-while-revalidate entry is served as fresh for its time to live, then as stale for `maxStale` more. */
  lemma SwrEntryLives<V>(value: V, ttl: int, maxStale: int, now: int, at: int)
    requires now + ttl != 0
    ensures var e := SwrEntry(value, ttl, maxStale, now);
            e.value == value && !e.invalidated && (SwrFresh(e, at) <==> at <= now + ttl) && e.staleUntil == now + ttl + maxStale
  {
  }

  /** The cleanup takes nothing that Get would still serve, or that is inside its stale window. */
  lemma SweptIsOver<V>(e: Entry<V>, now: int, at: int)
    requires Swept(e, now) && now <= at
    ensures !Fresh(e, at) && at > e.staleUntil && !SwrFresh(e, at)
  {
  }

  /** The entry a plain store writes; a zero ttl means the cache's default. */
  function NewEntry<V>(value: V, ttl: int, def: int, now: int): Entry<V> {
    var t := if ttl == 0 then def else ttl;
    Entry(value, if t > 0 then now + t else 0, 0, false)
  }

  /** The entry a stale-while-revalidate store writes. */
  function SwrEntry<V>(value: V, ttl: int, maxStale: int, now: int): Entry<V> {
    Entry(value, now + ttl, now + ttl + maxStale, false)
  }

  /** Marks the fetches registered under a covered key. */
  function Supersede<F, V>(s: Shared<F, V>, p: Pattern): Shared<F, V> {
    s.(superseded := s.superseded + set k | k in s.fetching && Covers(p, k) :: s.fetching[k])
  }

  /** Invalidation keeps an entry only while its stale window is open. */
  predicate Keeps<V>(e: Entry<V>, now: int) {
    now < e.staleUntil
  }

  function Mark<V>(e: Entry<V>, now: int): Entry<V> {
    e.(exp := now - 1, invalidated := true)
  }

  function InvalidateItems<V>(items: map<string, Entry<V>>, p: Pattern, now: int): map<string, Entry<V>> {
    map k | k in items && (Covers(p, k) ==> Keeps(items[k], now)) ::
      if Covers(p, k) then Mark(items[k], now) else items[k]
  }

  function DropItems<V>(items: map<string, Entry<V>>, p: Pattern): map<string, Entry<V>> {
    map k | k in items && !Covers(p, k) :: items[k]
  }

  function InvalidateState<F, V>(s: Shared<F, V>, p: Pattern, now: int): Shared<F, V> {
    Supersede(s.(items := InvalidateItems(s.items, p, now)), p)
  }

  function DropState<F, V>(s: Shared<F, V>, p: Pattern): Shared<F, V> {
    Supersede(s.(items := DropItems(s.items, p)), p)
  }

  predicate Swept<V>(e: Entry<V>, now: int) {
    e.exp > 0 && now > e.exp && now > e.staleUntil
  }

  function SweepState<F, V>(s: Shared<F, V>, now: int): Shared<F, V> {
    s.(items := map k | k in s.items && !Swept(s.items[k], now) :: s.items[k])
  }

  /** A foreground fetch joins the registered one unless that was superseded. */
  predicate CanJoin<F, V>(s: Shared<F, V>, k: string) {
    k in s.fetching && s.fetching[k] !in s.superseded
  }

  function RegisterState<F, V>(s: Shared<F, V>, k: string, f: F): Shared<F, V> {
    s.(fetching := s.fetching[k := f])
  }

  function StoreState<F, V>(s: Shared<F, V>, k: string, f: F, e: Entry<V>): Shared<F, V> {
    if f in s.superseded then s else s.(items := s.items[k := e])
  }

  function UnregisterState<F(==), V>(s: Shared<F, V>, k: string, f: F): Shared<F, V> {
    if k in s.fetching && s.fetching[k] == f then s.(fetching := s.fetching - {k}) else s
  }

  function SetState<F, V>(s: Shared<F, V>, k: string, e: Entry<V>): Shared<F, V> {
    s.(items := s.items[k := e])
  }

  predicate CanReplace<F, V(==)>(s: Shared<F, V>, k: string, prior: V) {
    k in s.items && s.items[k].value == prior
  }

  /** Get serves an entry without expiry, or one not yet past it. */
  predicate Fresh<V>(e: Entry<V>, now: int) {
    !(e.exp > 0 && now > e.exp)
  }

  /** GetOrSetSWR's own test, made against a clock read before the entry. */
  predicate SwrFresh<V>(e: Entry<V>, now: int) {
    e.exp == 0 || now <= e.exp
  }
}
