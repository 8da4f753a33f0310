/** The order in which Go and SQLite compare strings. */
module Strings {
  predicate Less(a: string, b: string) {
    if |b| == 0 then false
    else if |a| == 0 then true
    else if a[0] != b[0] then a[0] < b[0]
    else Less(a[1..], b[1..])
  }

  lemma {:induction false} LessTrichotomy(a: string, b: string)
    ensures Less(a, b) || Less(b, a) || a == b
    ensures !(Less(a, b) && Less(b, a))
    ensures a == b ==> !Less(a, b)
    decreases |a|
  {
    if |a| > 0 && |b| > 0 && a[0] == b[0] {
      LessTrichotomy(a[1..], b[1..]);
      assert a == [a[0]] + a[1..] && b == [b[0]] + b[1..];
    }
  }

  lemma {:induction false} LessTransitive(a: string, b: string, c: string)
    requires Less(a, b) && Less(b, c)
    ensures Less(a, c)
    decreases |a|
  {
    if |a| > 0 && a[0] == b[0] == c[0] {
      LessTransitive(a[1..], b[1..], c[1..]);
    }
  }

  /** After a common beginning of length i the first text ends or has the smaller character. */
  predicate PartsBelow(a: string, b: string, i: nat) {
    && i <= |a| && i < |b| && a[..i] == b[..i]
    && (i == |a| || a[i] < b[i])
  }

  /** The order of dictionaries. */
  ghost predicate ComesFirst(a: string, b: string) {
    exists i: nat :: PartsBelow(a, b, i)
  }

  lemma {:induction false} LessIsLexicographic(a: string, b: string)
    ensures Less(a, b) <==> ComesFirst(a, b)
    decreases |a|
  {
    if Less(a, b) {
      var i := PartingPlace(a, b);
      assert PartsBelow(a, b, i);
    }
    if i: nat :| PartsBelow(a, b, i) {
      PartedIsLess(a, b, i);
    }
  }

  lemma {:induction false} PartingPlace(a: string, b: string) returns (i: nat)
    requires Less(a, b)
    ensures PartsBelow(a, b, i)
    decreases |a|
  {
    if |a| > 0 && a[0] == b[0] {
      var j := PartingPlace(a[1..], b[1..]);
      i := j + 1;
      assert a[..i] == [a[0]] + a[1..][..j] && b[..i] == [b[0]] + b[1..][..j];
    } else {
      i := 0;
    }
  }

  lemma {:induction false} PartedIsLess(a: string, b: string, i: nat)
    requires PartsBelow(a, b, i)
    ensures Less(a, b)
    decreases |a|
  {
    if i > 0 {
      assert a[0] == a[..i][0] == b[..i][0] == b[0];
      assert a[1..][..i - 1] == a[..i][1..] && b[1..][..i - 1] == b[..i][1..];
      PartedIsLess(a[1..], b[1..], i - 1);
    }
  }
}
