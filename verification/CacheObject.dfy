/**
 The cache object of `cache.go`. Each method is one section under `Cache.mu`,
 proved to have exactly the effect that `CacheState` gives that section, so the
 protocol's theorems speak about this object. Clock readings are parameters.
 */
module CacheObject {
  import opened Options
  import opened CacheState

  class Inflight {
    var superseded: bool
    var closed: bool

    constructor ()
      ensures !superseded && !closed
    {
      superseded, closed := false, false;
    }
  }

  class Cache<V(==)> {
    var items: map<string, Entry<V>>
    var fetching: map<string, Inflight>
    const def: int
    // every fetch record ever registered, finished ones included
    ghost var flights: set<Inflight>

    ghost predicate Valid()
      reads this
    {
      fetching.Values <= flights
    }

    ghost function Abs(): Shared<Inflight, V>
      reads this, flights
    {
      Shared(items, fetching, set f | f in flights && f.superseded)
    }

    constructor (def: int)
      ensures Valid() && Abs() == Shared(map[], map[], {})
      ensures this.def == def && flights == {}
    {
      this.def := def;
      items, fetching, flights := map[], map[], {};
    }

    method Get(key: string, now: int) returns (r: Option<V>)
      ensures r == if key in items && (items[key].exp <= 0 || now <= items[key].exp) then Some(items[key].value) else None
    {
      if key !in items || (items[key].exp > 0 && now > items[key].exp) {
        return None;
      }
      return Some(items[key].value);
    }

    /** The locked part of `fetch`: join the registered fetch, or start one. */
    method JoinOrRegister(key: string) returns (f: Inflight, joined: bool)
      requires Valid()
      modifies this`fetching, this`flights
      ensures Valid()
      ensures joined == old(CanJoin(Abs(), key))
      ensures joined <==> key in old(fetching) && !old(fetching[key].superseded)
      ensures joined ==> f == old(fetching)[key] && fetching == old(fetching)
      ensures !joined ==> fetching == old(fetching)[key := f] && f !in old(flights)
      ensures joined ==> f == old(fetching)[key] && Abs() == old(Abs())
      ensures !joined ==> fresh(f) && !f.superseded && !f.closed && Abs() == RegisterState(old(Abs()), key, f)
      ensures flights == old(flights) + {f}
    {
      if key in fetching && !fetching[key].superseded {
        f, joined := fetching[key], true;
        assert f in fetching.Values;
        return;
      }
      f := new Inflight();
      joined := false;
      fetching := fetching[key := f];
      flights := flights + {f};
    }

    /** The locked part of `refreshInBackground`: any registered fetch, superseded or not, is enough. */
    method StartRefresh(key: string) returns (f: Option<Inflight>)
      requires Valid()
      modifies this`fetching, this`flights
      ensures Valid()
      ensures f.None? <==> key in old(fetching)
      ensures f.None? ==> fetching == old(fetching)
      ensures f.Some? ==> fetching == old(fetching)[key := f.value]
      ensures f.None? ==> Abs() == old(Abs()) && flights == old(flights)
      ensures f.Some? ==> fresh(f.value) && !f.value.superseded && Abs() == RegisterState(old(Abs()), key, f.value)
      ensures f.Some? ==> flights == old(flights) + {f.value}
    {
      if key in fetching {
        return None;
      }
      var g := new Inflight();
      fetching := fetching[key := g];
      flights := flights + {g};
      f := Some(g);
    }

    method Store(key: string, f: Inflight, e: Entry<V>)
      requires Valid() && f in flights
      modifies this`items
      ensures Valid() && Abs() == StoreState(old(Abs()), key, f, e)
      ensures items == if f.superseded then old(items) else old(items)[key := e]
    {
      if !f.superseded {
        items := items[key := e];
      }
    }

    /** Takes the fetch off the register, if it is still the one there, and wakes its waiters. */
    method Finish(key: string, f: Inflight)
      requires Valid() && f in flights && !f.closed
      modifies this`fetching, f`closed
      ensures Valid() && Abs() == UnregisterState(old(Abs()), key, f)
      ensures forall k :: k in fetching <==> k in old(fetching) && !(k == key && old(fetching)[k] == f)
      ensures forall k :: k in fetching ==> fetching[k] == old(fetching)[k]
      ensures f.closed
    {
      if key in fetching && fetching[key] == f {
        fetching := fetching - {key};
      }
      f.closed := true;
    }

    method SupersedeLocked(p: Pattern)
      requires Valid()
      modifies flights`superseded
      ensures Valid() && Abs() == Supersede(old(Abs()), p)
      ensures SupersedesOnly(k => Covers(p, k))
    {
      var todo := fetching.Keys;
      while todo != {}
        invariant todo <= fetching.Keys
        invariant forall f :: f in flights ==>
            (f.superseded <==> old(f.superseded) ||
                               exists k :: k in fetching && k !in todo && Covers(p, k) && fetching[k] == f)
        decreases |todo|
      {
        var k :| k in todo;
        assert fetching[k] in fetching.Values;
        if Covers(p, k) {
          fetching[k].superseded := true;
        }
        todo := todo - {k};
      }
    }

    /** The fetches registered under the keys are superseded, and no others. */
    twostate predicate SupersedesOnly(keys: string -> bool)
      reads this, flights
    {
      && flights == old(flights) && fetching == old(fetching)
      && forall f :: f in flights ==>
           (f.superseded <==> old(f.superseded) || exists k :: k in fetching && keys(k) && fetching[k] == f)
    }

    method Invalidate(pattern: string, now: int)
      requires Valid()
      modifies this`items, flights`superseded
      ensures Valid() && Abs() == InvalidateState(old(Abs()), ParsePattern(pattern), now)
      ensures forall k :: k in items <==> k in old(items) && (Reaches(pattern, k) ==> now < old(items)[k].staleUntil)
      ensures forall k :: k in items ==>
                items[k] == if Reaches(pattern, k) then Entry(old(items)[k].value, now - 1, old(items)[k].staleUntil, true)
                            else old(items)[k]
      ensures SupersedesOnly(k => Reaches(pattern, k))
    {
      forall k ensures Covers(ParsePattern(pattern), k) <==> Reaches(pattern, k) {
        CoversIsReaches(pattern, k);
      }
      var p := ParsePattern(pattern);
      if p.Prefix? {
        InvalidatePrefix(p, now);
      } else if p.key in items {
        InvalidateLocked(p.key, items[p.key], now);
      }
      assert items == InvalidateItems(old(items), p, now);
      SupersedeLocked(p);
    }

    method InvalidatePrefix(p: Pattern, now: int)
      modifies this`items
      ensures items == InvalidateItems(old(items), p, now)
    {
      ghost var target := InvalidateItems(items, p, now);
      var todo := items.Keys;
      while todo != {}
        invariant todo <= old(items).Keys
        invariant forall k :: k in todo ==> k in items && items[k] == old(items)[k]
        invariant forall k :: k !in todo ==> (k in items <==> k in target) && (k in items ==> items[k] == target[k])
        decreases |todo|
      {
        var k :| k in todo;
        if Covers(p, k) {
          InvalidateLocked(k, items[k], now);
        }
        todo := todo - {k};
      }
      assert items == target;
    }

    method InvalidateLocked(key: string, e: Entry<V>, now: int)
      modifies this`items
      ensures items == if Keeps(e, now) then old(items)[key := Mark(e, now)] else old(items) - {key}
    {
      if now < e.staleUntil {
        items := items[key := e.(exp := now - 1, invalidated := true)];
        return;
      }
      items := items - {key};
    }

    method Clear()
      requires Valid()
      modifies this`items, flights`superseded
      ensures Valid() && Abs() == DropState(old(Abs()), Prefix(""))
      ensures items == map[] && SupersedesOnly(k => true)
    {
      items := map[];
      SupersedeLocked(Prefix(""));
    }

    method Delete(key: string)
      requires Valid()
      modifies this`items, flights`superseded
      ensures Valid() && Abs() == DropState(old(Abs()), Exact(key))
      ensures items == old(items) - {key} && SupersedesOnly(k => k == key)
    {
      items := items - {key};
      assert items == DropItems(old(items), Exact(key));
      SupersedeLocked(Exact(key));
    }

    method DeleteByPrefix(prefix: string)
      requires Valid()
      modifies this`items, flights`superseded
      ensures Valid() && Abs() == DropState(old(Abs()), Prefix(prefix))
      ensures items == (map k | k in old(items) && !(prefix <= k) :: old(items)[k]) && SupersedesOnly(k => prefix <= k)
    {
      DropPrefix(prefix);
      SupersedeLocked(Prefix(prefix));
    }

    method DropPrefix(prefix: string)
      modifies this`items
      ensures items == DropItems(old(items), Prefix(prefix))
    {
      var todo := items.Keys;
      while todo != {}
        invariant todo <= old(items).Keys
        invariant forall k :: k in items <==> k in old(items) && (k in todo || !(prefix <= k))
        invariant forall k :: k in items ==> items[k] == old(items)[k]
        decreases |todo|
      {
        var k :| k in todo;
        if prefix <= k {
          items := items - {k};
        }
        todo := todo - {k};
      }
      assert items == DropItems(old(items), Prefix(prefix));
    }

    /** Expires after the time to live, or never without one; zero stands for the cache's default. */
    predicate IsPlainEntry(e: Entry<V>, value: V, ttl: int, now: int)
      reads this
    {
      && e.value == value && !e.invalidated && e.staleUntil == 0
      && e.exp == (if ttl > 0 then now + ttl else if ttl == 0 && def > 0 then now + def else 0)
    }

    method Set(key: string, value: V, ttl: int, now: int)
      requires Valid()
      modifies this`items
      ensures Valid() && Abs() == SetState(old(Abs()), key, NewEntry(value, ttl, def, now))
      ensures items == old(items)[key := items[key]] && IsPlainEntry(items[key], value, ttl, now)
    {
      items := items[key := NewEntry(value, ttl, def, now)];
    }

    method Replace(key: string, prior: V, value: V, ttl: int, now: int) returns (done: bool)
      requires Valid()
      modifies this`items
      ensures Valid() && done == CanReplace(old(Abs()), key, prior)
      ensures Abs() == if done then SetState(old(Abs()), key, NewEntry(value, ttl, def, now)) else old(Abs())
      ensures done <==> key in old(items) && old(items)[key].value == prior
      ensures if done then items == old(items)[key := items[key]] && IsPlainEntry(items[key], value, ttl, now)
              else items == old(items)
    {
      var t := if ttl == 0 then def else ttl;
      var exp := if t > 0 then now + t else 0;
      if key !in items || items[key].value != prior {
        return false;
      }
      items := items[key := Entry(value, exp, 0, false)];
      return true;
    }

    /** One pass of the cleanup loop. */
    method Janitor(now: int)
      requires Valid()
      modifies this`items
      ensures Valid() && Abs() == SweepState(old(Abs()), now)
      ensures forall k :: k in items <==> k in old(items) && (old(items)[k].exp <= 0 || now <= old(items)[k].exp
                                                              || now <= old(items)[k].staleUntil)
      ensures forall k :: k in items ==> items[k] == old(items)[k]
    {
      var todo := items.Keys;
      while todo != {}
        invariant todo <= old(items).Keys
        invariant forall k :: k in items <==> k in old(items) && (k in todo || !Swept(old(items)[k], now))
        invariant forall k :: k in items ==> items[k] == old(items)[k]
        decreases |todo|
      {
        var k :| k in todo;
        if items[k].exp > 0 && now > items[k].exp && now > items[k].staleUntil {
          items := items - {k};
        }
        todo := todo - {k};
      }
      assert items == SweepState(old(Abs()), now).items;
    }
  }
}
