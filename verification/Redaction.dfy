/** `redact` of `backendLog.js`: the session secret is cut out of every line. */
module Redaction {
  import opened Collections

  const MARK := "session_secret="
  const HIDDEN := "<redacted>"

  function LowerCase(c: char): char {
    if 'A' <= c <= 'Z' then (c as int + 32) as char else c
  }

  /** What \s matches. */
  predicate IsSpace(c: char) {
    || '\t' <= c <= '\r' || c == ' ' || c as int == 0xA0 || c as int == 0x1680
    || 0x2000 <= c as int <= 0x200A || c as int in {0x2028, 0x2029, 0x202F, 0x205F, 0x3000, 0xFEFF}
  }

  /** Where a secret ends. */
  predicate Stop(c: char) {
    c == '&' || c == '\"' || c == '\'' || IsSpace(c)
  }

  /** The mark, in any case, with at least one character of secret behind it. */
  predicate Secret(s: string) {
    |s| > 15 && (forall i :: 0 <= i < 15 ==> LowerCase(s[i]) == MARK[i]) && !Stop(s[15])
  }

  /** The length of the run of characters that are no stop. */
  function Run(s: string): (n: nat)
    ensures n <= |s|
    ensures n < |s| ==> Stop(s[n])
  {
    if s == "" || Stop(s[0]) then 0 else 1 + Run(s[1..])
  }

  function Redact(s: string): string
    decreases |s|
  {
    if s == "" then ""
    else if Secret(s) then s[..15] + HIDDEN + Redact(s[15 + Run(s[15..])..])
    else [s[0]] + Redact(s[1..])
  }

  predicate Ended(s: string) {
    s == "" || s[|s| - 1] == '\n'
  }

  lemma {:induction false} RunConcat(a: string, b: string)
    requires exists i :: 0 <= i < |a| && Stop(a[i])
    ensures Run(a + b) == Run(a) < |a|
  {
    if !Stop(a[0]) {
      var i :| 0 <= i < |a| && Stop(a[i]);
      assert a[1..][i - 1] == a[i];
      assert (a + b)[1..] == a[1..] + b;
      RunConcat(a[1..], b);
    }
  }

  /** A secret never runs past the end of a line, so lines can be redacted one by one. */
  lemma {:induction false} RedactConcat(a: string, b: string)
    requires Ended(a)
    ensures Redact(a + b) == Redact(a) + Redact(b)
    decreases |a|
  {
    if a == "" {
      assert a + b == b;
    } else {
      SecretConcat(a, b);
      if Secret(a) {
        var t := a[15..];
        assert t[|t| - 1] == '\n' && Stop(t[|t| - 1]);
        RunConcat(t, b);
        var n := 15 + Run(t);
        assert (a + b)[15..] == t + b && (a + b)[..15] == a[..15];
        assert (a + b)[n..] == a[n..] + b;
        RedactConcat(a[n..], b);
        Associate(a[..15] + HIDDEN, Redact(a[n..]), Redact(b));
      } else {
        assert (a + b)[1..] == a[1..] + b;
        RedactConcat(a[1..], b);
        Associate([a[0]], Redact(a[1..]), Redact(b));
      }
    }
  }

  lemma SecretConcat(a: string, b: string)
    requires a != "" && Ended(a)
    ensures Secret(a + b) <==> Secret(a)
  {
    if |a| <= 15 {
      assert (a + b)[|a| - 1] == '\n';
    } else {
      assert forall i :: 0 <= i < 16 ==> (a + b)[i] == a[i];
    }
  }

  // ---- nothing secret is left ----------------------------------------------

  /** Up to the end of a mark the text stays as it was. */
  lemma {:induction false} SameStart(s: string, k: nat)
    requires k <= |s| && k <= 15
    ensures k <= |Redact(s)| && Redact(s)[..k] == s[..k]
    decreases |s|
  {
    if k > 0 {
      if Secret(s) {
        assert Redact(s)[..15] == s[..15];
        assert Redact(s)[..k] == s[..15][..k];
      } else {
        SameStart(s[1..], k - 1);
        assert Redact(s)[..k] == [s[0]] + Redact(s[1..])[..k - 1];
        assert s[..k] == [s[0]] + s[1..][..k - 1];
      }
    }
  }

  lemma {:induction false} ShortIsKept(s: string)
    requires |s| <= 15
    ensures Redact(s) == s
  {
    if s != "" {
      ShortIsKept(s[1..]);
    }
  }

  lemma NoNewSecret(s: string)
    requires s != "" && !Secret(s)
    ensures !Secret(Redact(s))
  {
    if |s| <= 15 {
      ShortIsKept(s);
    } else {
      RedactPlain(s);
      SameStart(s[1..], 15);
      FrontIsKept(s[0], s[1..], Redact(s[1..]));
      SameFront(s, Redact(s));
    }
  }

  lemma FrontIsKept(c: char, s: string, r: string)
    requires 15 <= |s| && 15 <= |r| && r[..15] == s[..15]
    ensures ([c] + s)[..16] == ([c] + r)[..16]
  {
    assert ([c] + s)[..16] == [c] + s[..15] && ([c] + r)[..16] == [c] + r[..15];
  }

  lemma SameFront(s: string, t: string)
    requires |s| > 15 && |t| > 15 && s[..16] == t[..16]
    ensures Secret(s) <==> Secret(t)
  {
    assert forall i :: 0 <= i < 16 ==> s[i] == s[..16][i] == t[..16][i] == t[i];
  }

  /** Every mark is followed by the placeholder and then by a stop or the end. */
  ghost predicate Clean(s: string) {
    forall i :: 0 <= i < |s| ==> CleanAt(s[i..])
  }

  predicate CleanAt(s: string) {
    Secret(s) ==> |s| >= 25 && s[15..25] == HIDDEN && (|s| > 25 ==> Stop(s[25]))
  }

  lemma {:induction false} SecretsAreGone(s: string)
    ensures Clean(Redact(s))
    decreases |s|
  {
    if s == "" {
    } else if Secret(s) {
      var rest := s[15 + Run(s[15..])..];
      SecretsAreGone(rest);
      StartIsKept(rest);
      HiddenIsClean(s[..15], Redact(rest));
    } else {
      SecretsAreGone(s[1..]);
      NoNewSecret(s);
      var r := Redact(s);
      forall i | 0 <= i < |r| ensures CleanAt(r[i..]) {
        if i == 0 {
          assert r[0..] == r;
        } else {
          assert r[i..] == Redact(s[1..])[i - 1..];
        }
      }
    }
  }

  lemma HiddenIsClean(mark: string, rest: string)
    requires |mark| == 15 && forall i :: 0 <= i < 15 ==> LowerCase(mark[i]) == MARK[i]
    requires Clean(rest) && (rest != "" ==> Stop(rest[0]))
    ensures Clean(mark + HIDDEN + rest)
  {
    var r := mark + HIDDEN + rest;
    assert r[24] == '>' && r[15] == '<' && LowerCase(r[14]) == MARK[14];
    forall i | 0 <= i < |r| ensures CleanAt(r[i..]) {
      var t := r[i..];
      if i == 0 {
        assert t[15..25] == HIDDEN;
        assert |t| > 25 ==> t[25] == rest[0];
      } else if i < 15 {
        assert t[14 - i] == r[14];
        assert MARK[14] == '=' && MARK[14 - i] != '=';
        assert !Secret(t);
      } else if i == 15 {
        assert t[0] == '<';
      } else if i < 25 {
        assert t[24 - i] == '>';
        assert MARK[24 - i] != '>';
        assert !Secret(t);
      } else {
        assert t == rest[i - 25..];
      }
    }
  }

  /** Redacting twice changes nothing more. */
  lemma {:induction false} RedactTwice(s: string)
    ensures Redact(Redact(s)) == Redact(s)
    decreases |s|
  {
    if s == "" {
    } else if Secret(s) {
      var rest := s[15 + Run(s[15..])..];
      RedactTwice(rest);
      RedactSecret(s);
      StartIsKept(rest);
      HiddenNeverStops();
      RedactMarked(s[..15], HIDDEN, Redact(rest));
    } else {
      RedactTwice(s[1..]);
      NoNewSecret(s);
      RedactPlain(s);
      RedactPlain(Redact(s));
    }
  }

  lemma HiddenNeverStops()
    ensures forall i :: 0 <= i < |HIDDEN| ==> !Stop(HIDDEN[i])
  {
  }

  /** Where the text begins with a stop, the redacted text does too. */
  lemma StartIsKept(s: string)
    ensures s == "" <==> Redact(s) == ""
    ensures s != "" ==> Redact(s)[0] == s[0]
  {
    if s != "" {
      SameStart(s, 1);
      assert Redact(s)[..1][0] == s[..1][0];
    }
  }

  lemma RedactPlain(s: string)
    requires s != "" && !Secret(s)
    ensures Redact(s) == [s[0]] + Redact(s[1..]) && Redact(s)[1..] == Redact(s[1..])
  {
  }

  lemma MarkedParts(mark: string, h: string, rest: string)
    requires |mark| == 15 && forall i :: 0 <= i < 15 ==> LowerCase(mark[i]) == MARK[i]
    requires |h| > 0 && !Stop(h[0])
    ensures var r := mark + h + rest;
            Secret(r) && r[..15] == mark && r[15..] == h + rest && r[15 + |h|..] == rest
  {
    var r := mark + h + rest;
    assert r[15] == h[0];
  }

  lemma RedactMarked(mark: string, h: string, rest: string)
    requires |mark| == 15 && forall i :: 0 <= i < 15 ==> LowerCase(mark[i]) == MARK[i]
    requires |h| > 0 && forall i :: 0 <= i < |h| ==> !Stop(h[i])
    requires rest != "" ==> Stop(rest[0])
    ensures Redact(mark + h + rest) == mark + HIDDEN + Redact(rest)
  {
    MarkedParts(mark, h, rest);
    RunOfHidden(h, rest);
    RedactSecret(mark + h + rest);
  }

  lemma RedactSecret(s: string)
    requires Secret(s)
    ensures Redact(s) == s[..15] + HIDDEN + Redact(s[15 + Run(s[15..])..])
  {
  }

  lemma {:induction false} RunOfHidden(h: string, rest: string)
    requires forall i :: 0 <= i < |h| ==> !Stop(h[i])
    requires rest != "" ==> Stop(rest[0])
    ensures Run(h + rest) == |h|
  {
    if h == "" {
      assert h + rest == rest;
    } else {
      assert (h + rest)[1..] == h[1..] + rest;
      RunOfHidden(h[1..], rest);
    }
  }

  // ---- on the characters themselves ----------------------------------------

  /** An ampersand, a quote or white space ends a secret; nothing else does. */
  predicate EndsSecret(c: char) {
    || c in {'&', '\"', '\'', ' ', '\t', '\n', '\r'} || c as int in {11, 12, 0xA0, 0x1680, 0x2028, 0x2029, 0x202F, 0x205F, 0x3000, 0xFEFF}
    || 0x2000 <= c as int <= 0x200A
  }

  predicate SameLetter(c: char, d: char) {
    c == d || ('A' <= c <= 'Z' && d as int == c as int + 32)
  }

  /** The word before a secret, whatever the case of its letters. */
  predicate IsWord(s: string) {
    |s| == 15 && forall i :: 0 <= i < 15 ==> SameLetter(s[i], "session_secret="[i])
  }

  /** The whole secret behind the word, up to where it ends, gives way to the placeholder. */
  lemma {:induction false} WholeSecretGoes(word: string, secret: string, rest: string)
    requires IsWord(word) && secret != "" && forall i :: 0 <= i < |secret| ==> !EndsSecret(secret[i])
    requires rest != "" ==> EndsSecret(rest[0])
    ensures Redact(word + secret + rest) == word + "<redacted>" + Redact(rest)
  {
    var s := word + secret + rest;
    assert s[..15] == word && s[15..] == secret + rest && s[15] == secret[0];
    assert forall i :: 0 <= i < 15 ==> s[i] == word[i];
    RunOf(secret, rest);
    assert s[15 + |secret|..] == rest;
  }

  lemma {:induction false} RunOf(secret: string, rest: string)
    requires forall i :: 0 <= i < |secret| ==> !EndsSecret(secret[i])
    requires rest != "" ==> EndsSecret(rest[0])
    ensures Run(secret + rest) == |secret|
  {
    if secret == "" {
      assert secret + rest == rest;
    } else {
      assert (secret + rest)[1..] == secret[1..] + rest;
      RunOf(secret[1..], rest);
    }
  }

  lemma StopReads(c: char)
    ensures Stop(c) <==> EndsSecret(c)
  {
  }

  lemma {:induction false} SecretReads(s: string)
    ensures Secret(s) <==> |s| > 15 && IsWord(s[..15]) && !EndsSecret(s[15])
  {
    if |s| > 15 {
      StopReads(s[15]);
      assert forall i :: 0 <= i < 15 ==> s[..15][i] == s[i];
      assert forall i :: 0 <= i < 15 ==> (LowerCase(s[i]) == MARK[i] <==> SameLetter(s[i], "session_secret="[i]));
    }
  }

  /** And where no word with a secret begins the text stays. */
  lemma {:induction false} OtherTextStays(c: char, s: string)
    requires |s| < 15 || !IsWord(([c] + s)[..15]) || EndsSecret(s[14])
    ensures Redact([c] + s) == [c] + Redact(s)
  {
    var t := [c] + s;
    assert t[1..] == s && (|s| >= 15 ==> t[15] == s[14]);
    SecretReads(t);
  }
}
