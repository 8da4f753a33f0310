/** Enumerating a set of keys by rank, then by name. */
module KeyOrder {
  import opened Strings

  predicate Precedes(rank: string -> int, a: string, b: string) {
    rank(a) < rank(b) || (rank(a) == rank(b) && Less(a, b))
  }

  lemma PrecedesIsOrder(rank: string -> int, a: string, b: string, c: string)
    ensures a != b ==> (Precedes(rank, a, b) <==> !Precedes(rank, b, a))
    ensures !Precedes(rank, a, a)
    ensures Precedes(rank, a, b) && Precedes(rank, b, c) ==> Precedes(rank, a, c)
  {
    LessTrichotomy(a, b);
    LessTrichotomy(a, a);
    if Less(a, b) && Less(b, c) {
      LessTransitive(a, b, c);
    }
  }

  ghost predicate IsFirst(rank: string -> int, s: set<string>, k: string) {
    k in s && forall j {:trigger Precedes(rank, k, j)} :: j in s && j != k ==> Precedes(rank, k, j)
  }

  /** The scan by which the methods that sort keys find the next one. */
  method FindFirst(rank: string -> int, s: set<string>) returns (k: string)
    requires s != {}
    ensures IsFirst(rank, s, k)
  {
    k :| k in s;
    var todo := s - {k};
    while todo != {}
      invariant todo <= s && k in s && k !in todo
      invariant forall j :: j in s && j !in todo && j != k ==> Precedes(rank, k, j)
      decreases |todo|
    {
      var j :| j in todo;
      PrecedesIsOrder(rank, j, k, j);
      if Precedes(rank, j, k) {
        forall i | i in s && i !in todo && i != k ensures Precedes(rank, j, i) {
          PrecedesIsOrder(rank, j, k, i);
        }
        k := j;
      }
      todo := todo - {j};
    }
  }

  lemma {:induction false} FirstExists(rank: string -> int, s: set<string>)
    requires s != {}
    ensures exists k :: IsFirst(rank, s, k)
    decreases |s|
  {
    var k :| k in s;
    var rest := s - {k};
    if rest == {} {
      assert s == {k} + rest;
      assert IsFirst(rank, s, k);
    } else {
      FirstExists(rank, rest);
      var m :| IsFirst(rank, rest, m);
      PrecedesIsOrder(rank, k, m, k);
      var f := if Precedes(rank, k, m) then k else m;
      forall j | j in s && j != f ensures Precedes(rank, f, j) {
        if j != k && j != m {
          assert Precedes(rank, m, j);
          PrecedesIsOrder(rank, k, m, j);
        }
      }
      assert IsFirst(rank, s, f);
    }
  }

  lemma FirstUnique(rank: string -> int, s: set<string>, a: string, b: string)
    requires IsFirst(rank, s, a) && IsFirst(rank, s, b)
    ensures a == b
  {
    PrecedesIsOrder(rank, a, b, a);
  }

  ghost function First(rank: string -> int, s: set<string>): (k: string)
    requires s != {}
    ensures IsFirst(rank, s, k)
  {
    FirstExists(rank, s);
    var k :| IsFirst(rank, s, k);
    k
  }

  ghost function Enumerate(rank: string -> int, s: set<string>): seq<string>
    decreases |s|
  {
    if s == {} then [] else
    var k := First(rank, s);
    [k] + Enumerate(rank, s - {k})
  }

  lemma {:induction false} EnumerateIsExact(rank: string -> int, s: set<string>)
    ensures forall k :: k in s <==> k in Enumerate(rank, s)
    ensures forall i, j :: 0 <= i < j < |Enumerate(rank, s)| ==> Precedes(rank, Enumerate(rank, s)[i], Enumerate(rank, s)[j])
    decreases |s|
  {
    if s != {} {
      var k := First(rank, s);
      var rest := Enumerate(rank, s - {k});
      EnumerateIsExact(rank, s - {k});
      assert Enumerate(rank, s) == [k] + rest;
      forall i, j | 0 <= i < j < |rest| + 1
        ensures Precedes(rank, ([k] + rest)[i], ([k] + rest)[j])
      {
        if i == 0 {
          assert rest[j - 1] in rest;
        }
      }
    }
  }

  lemma EnumerateStep(rank: string -> int, s: set<string>, k: string)
    requires IsFirst(rank, s, k)
    ensures Enumerate(rank, s) == [k] + Enumerate(rank, s - {k})
  {
    FirstUnique(rank, s, k, First(rank, s));
  }

  method SortKeys(rank: string -> int, s: set<string>) returns (keys: seq<string>)
    ensures keys == Enumerate(rank, s)
  {
    keys := [];
    var rest := s;
    while rest != {}
      invariant Enumerate(rank, s) == keys + Enumerate(rank, rest)
      decreases |rest|
    {
      var k := FindFirst(rank, rest);
      EnumerateStep(rank, rest, k);
      keys := keys + [k];
      rest := rest - {k};
    }
  }
}
