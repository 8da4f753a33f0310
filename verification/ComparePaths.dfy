/** Paths of `compare/diff.go` as text, and `splitPath` of `compare/summary.go`. */
module ComparePaths {
  import opened Collections
  import opened Compare

  // ---- printing ------------------------------------------------------------

  predicate IsIdentKey(k: string) {
    k != "" && forall i :: 0 <= i < |k| ==> k[i] !in "./[]\" "
  }

  function HexDigit(d: int): char
    requires 0 <= d < 16
  {
    "0123456789abcdef"[d]
  }

  /** The letter of a short escape, as in \n, or 'x'. */
  function EscapeLetter(c: char): char {
    if c == '\"' then '\"'
    else if c == '\\' then '\\'
    else if c as int == 7 then 'a'
    else if c as int == 8 then 'b'
    else if c as int == 12 then 'f'
    else if c as int == 10 then 'n'
    else if c as int == 13 then 'r'
    else if c as int == 9 then 't'
    else if c as int == 11 then 'v'
    else 'x'
  }

  predicate Escaped(c: char) {
    c == '\"' || c == '\\' || c as int < 32 || c as int == 127
  }

  /** How `strconv.Quote` writes a printable or ASCII character. */
  function Escape(c: char): string {
    if !Escaped(c) then [c]
    else if EscapeLetter(c) != 'x' then ['\\', EscapeLetter(c)]
    else ['\\', 'x', HexDigit(c as int / 16), HexDigit(c as int % 16)]
  }

  function EscapeAll(s: string): string {
    if |s| == 0 then "" else Escape(s[0]) + EscapeAll(s[1..])
  }

  function Quote(s: string): string {
    "\"" + EscapeAll(s) + "\""
  }

  function Itoa(n: nat): (r: string)
    ensures |r| > 0 && (|r| == 1 <==> n < 10)
  {
    if n < 10 then ["0123456789"[n]] else Itoa(n / 10) + ["0123456789"[n % 10]]
  }

  function JoinKey(path: string, key: string): string {
    if IsIdentKey(key) then (if path == "" then key else path + "." + key)
    else path + "[" + Quote(key) + "]"
  }

  function Extend(path: string, seg: Seg): string {
    match seg
    case Key(k) => JoinKey(path, k)
    case Name(n) => path + "[" + n + "]"
    case Index(i) => path + "[" + Itoa(i) + "]"
  }

  function PathFrom(path: string, pos: seq<Seg>): string
    decreases |pos|
  {
    if |pos| == 0 then path else PathFrom(Extend(path, pos[0]), pos[1..])
  }

  /** The text of one segment, without the dot before a plain key. */
  function SegText(seg: Seg): string {
    match seg
    case Key(k) => if IsIdentKey(k) then k else "[" + Quote(k) + "]"
    case Name(n) => "[" + n + "]"
    case Index(i) => "[" + Itoa(i) + "]"
  }

  function Texts(pos: seq<Seg>): seq<string> {
    if |pos| == 0 then [] else [SegText(pos[0])] + Texts(pos[1..])
  }

  // ---- splitting -----------------------------------------------------------

  /** What the loop of `splitPath` still emits from index i on, with the part begun at `start`. */
  function SplitFrom(p: string, i: nat, depth: int, start: nat): seq<string>
    requires start <= |p| && i <= |p|
    decreases |p| - i
  {
    if i == |p| then (if start < |p| then [p[start..]] else [])
    else if p[i] == '[' then
      if depth == 0 && i > start
      then [p[start..i]] + SplitFrom(p, i + 1, depth + 1, i)
      else SplitFrom(p, i + 1, depth + 1, start)
    else if p[i] == ']' then SplitFrom(p, i + 1, depth - 1, start)
    else if p[i] == '.' && depth == 0 then
      (if i > start then [p[start..i]] else []) + SplitFrom(p, i + 1, depth, i + 1)
    else SplitFrom(p, i + 1, depth, start)
  }

  method SplitPath(p: string) returns (parts: seq<string>)
    ensures parts == SplitFrom(p, 0, 0, 0)
  {
    parts := [];
    var depth, start := 0, 0;
    var i := 0;
    while i < |p|
      invariant 0 <= start <= |p| && 0 <= i <= |p|
      invariant parts + SplitFrom(p, i, depth, start) == SplitFrom(p, 0, 0, 0)
    {
      if p[i] == '[' {
        if depth == 0 && i > start {
          parts := parts + [p[start..i]];
          start := i;
        }
        depth := depth + 1;
      } else if p[i] == ']' {
        depth := depth - 1;
      } else if p[i] == '.' && depth == 0 {
        if i > start {
          parts := parts + [p[start..i]];
        }
        start := i + 1;
      }
      i := i + 1;
    }
    if start < |p| {
      parts := parts + [p[start..]];
    }
  }

  // ---- round trip ----------------------------------------------------------

  predicate NoBrackets(s: string) {
    forall i :: 0 <= i < |s| ==> s[i] != '[' && s[i] != ']'
  }

  /** Keys and names without brackets; an index never has any. */
  predicate Plain(seg: Seg) {
    match seg
    case Key(k) => NoBrackets(k)
    case Name(n) => NoBrackets(n)
    case Index(_) => true
  }

  predicate AllPlain(pos: seq<Seg>) {
    forall i :: 0 <= i < |pos| ==> Plain(pos[i])
  }

  lemma {:induction false} EscapeAllNoBrackets(s: string)
    requires NoBrackets(s)
    ensures NoBrackets(EscapeAll(s))
  {
    if |s| > 0 {
      EscapeAllNoBrackets(s[1..]);
      assert NoBrackets(Escape(s[0]));
    }
  }

  lemma {:induction false} ItoaNoBrackets(n: nat)
    ensures NoBrackets(Itoa(n))
  {
    if n >= 10 { ItoaNoBrackets(n / 10); }
  }

  predicate Bracketed(seg: Seg) {
    !seg.Key? || !IsIdentKey(seg.k)
  }

  function Inner(seg: Seg): string
    requires Bracketed(seg)
  {
    match seg
    case Key(k) => Quote(k)
    case Name(n) => n
    case Index(i) => Itoa(i)
  }

  lemma InnerNoBrackets(seg: Seg)
    requires Bracketed(seg) && Plain(seg)
    ensures NoBrackets(Inner(seg)) && SegText(seg) == "[" + Inner(seg) + "]"
  {
    match seg
    case Key(k) => EscapeAllNoBrackets(k);
    case Name(_) =>
    case Index(i) => ItoaNoBrackets(i);
  }

  /** Text without brackets, and outside brackets without dots, is passed over. */
  lemma {:induction false} SkipPlain(p: string, i: nat, n: nat, depth: int, start: nat)
    requires start <= |p| && i + n <= |p|
    requires forall j :: i <= j < i + n ==> p[j] != '[' && p[j] != ']' && (depth == 0 ==> p[j] != '.')
    ensures SplitFrom(p, i, depth, start) == SplitFrom(p, i + n, depth, start)
    decreases n
  {
    if n > 0 {
      SkipPlain(p, i + 1, n - 1, depth, start);
    }
  }

  /** A bracketed segment is passed over whole, and becomes the part begun at its bracket. */
  lemma SkipBracketed(p: string, i: nat, inner: string, start: nat)
    requires start <= i && i + |inner| + 2 <= |p| && NoBrackets(inner)
    requires p[i] == '[' && p[i + 1..i + 1 + |inner|] == inner && p[i + 1 + |inner|] == ']'
    ensures SplitFrom(p, i, 0, start) ==
            (if i > start then [p[start..i]] else []) + SplitFrom(p, i + |inner| + 2, 0, if i > start then i else start)
  {
    var s := if i > start then i else start;
    forall j | i + 1 <= j < i + 1 + |inner| ensures p[j] != '[' && p[j] != ']' {
      assert p[j] == p[i + 1..i + 1 + |inner|][j - i - 1];
    }
    SkipPlain(p, i + 1, |inner|, 1, s);
    assert SplitFrom(p, i + 1 + |inner|, 1, s) == SplitFrom(p, i + 2 + |inner|, 0, s);
  }

  /** What a segment adds to a path that is not empty. */
  function Piece(seg: Seg): string {
    if Bracketed(seg) then SegText(seg) else "." + SegText(seg)
  }

  function Rest(pos: seq<Seg>): string {
    if |pos| == 0 then "" else Piece(pos[0]) + Rest(pos[1..])
  }

  lemma ExtendAppends(path: string, seg: Seg)
    requires path != ""
    ensures Extend(path, seg) == path + Piece(seg)
  {
    match seg
    case Key(k) =>
      if IsIdentKey(k) {
        assert path + "." + k == path + ("." + k);
      } else {
        assert path + "[" + Quote(k) + "]" == path + ("[" + Quote(k) + "]");
      }
    case Name(n) => assert path + "[" + n + "]" == path + ("[" + n + "]");
    case Index(i) => assert path + "[" + Itoa(i) + "]" == path + ("[" + Itoa(i) + "]");
  }

  lemma {:induction false} PathIsRest(path: string, pos: seq<Seg>)
    requires path != ""
    ensures PathFrom(path, pos) == path + Rest(pos)
    decreases |pos|
  {
    if |pos| > 0 {
      ExtendAppends(path, pos[0]);
      PathIsRest(path + Piece(pos[0]), pos[1..]);
      Associate(path, Piece(pos[0]), Rest(pos[1..]));
    }
  }

  /** Where text continues with t and then r, t is found in place. */
  lemma At(p: string, i: nat, t: string, r: string)
    requires i <= |p| && p[i..] == t + r
    ensures i + |t| <= |p| && p[i..i + |t|] == t && p[i + |t|..] == r
    ensures forall j :: 0 <= j < |t| ==> p[i + j] == t[j]
  {
    assert p[i..][..|t|] == t && p[i..][|t|..] == r;
    forall j | 0 <= j < |t| ensures p[i + j] == t[j] {
      assert p[i..][j] == p[i + j];
    }
  }

  lemma SkipIdent(p: string, i: nat, k: string, start: nat)
    requires IsIdentKey(k) && start <= |p| && i + |k| <= |p| && p[i..i + |k|] == k
    ensures SplitFrom(p, i, 0, start) == SplitFrom(p, i + |k|, 0, start)
  {
    forall j | i <= j < i + |k| ensures p[j] != '[' && p[j] != ']' && p[j] != '.' {
      assert p[j] == p[i..i + |k|][j - i];
    }
    SkipPlain(p, i, |k|, 0, start);
  }

  /** One more segment ends the part begun before it and begins its own. */
  lemma {:induction false} StepPiece(p: string, i: nat, start: nat, seg: Seg, r: string) returns (s: nat, e: nat)
    requires start < i <= |p| && p[i..] == Piece(seg) + r && Plain(seg)
    ensures s < e <= |p| && p[s..e] == SegText(seg) && p[e..] == r
    ensures SplitFrom(p, i, 0, start) == [p[start..i]] + SplitFrom(p, e, 0, s)
  {
    At(p, i, Piece(seg), r);
    e := i + |Piece(seg)|;
    if Bracketed(seg) {
      s := i;
      StepBracketed(p, i, start, seg);
    } else {
      s := i + 1;
      StepIdent(p, i, start, SegText(seg));
    }
  }

  lemma {:induction false} StepBracketed(p: string, i: nat, start: nat, seg: Seg)
    requires Bracketed(seg) && Plain(seg) && start <= i && i + |SegText(seg)| <= |p|
    requires p[i..i + |SegText(seg)|] == SegText(seg)
    ensures SplitFrom(p, i, 0, start) ==
            (if i > start then [p[start..i]] else []) + SplitFrom(p, i + |SegText(seg)|, 0, if i > start then i else start)
  {
    InnerNoBrackets(seg);
    BracketsInPlace(p, i, Inner(seg));
    SkipBracketed(p, i, Inner(seg), start);
  }

  lemma StepIdent(p: string, i: nat, start: nat, k: string)
    requires IsIdentKey(k) && start < i && i + 1 + |k| <= |p| && p[i..i + 1 + |k|] == "." + k
    ensures p[i + 1..i + 1 + |k|] == k
    ensures SplitFrom(p, i, 0, start) == [p[start..i]] + SplitFrom(p, i + 1 + |k|, 0, i + 1)
  {
    var t := p[i..i + 1 + |k|];
    assert t[0] == p[i];
    forall j | 0 <= j < |k| ensures p[i + 1 + j] == k[j] {
      assert t[1 + j] == p[i + 1 + j];
    }
    assert p[i + 1..i + 1 + |k|] == k;
    SkipIdent(p, i + 1, k, i + 1);
  }

  lemma BracketsInPlace(p: string, i: nat, inner: string)
    requires i + |inner| + 2 <= |p| && p[i..i + |inner| + 2] == "[" + inner + "]"
    ensures p[i] == '[' && p[i + 1..i + 1 + |inner|] == inner && p[i + 1 + |inner|] == ']'
  {
    var t := p[i..i + |inner| + 2];
    assert t[0] == p[i] && t[1 + |inner|] == p[i + 1 + |inner|];
    forall j | 0 <= j < |inner| ensures p[i + 1 + j] == inner[j] {
      assert t[1 + j] == p[i + 1 + j];
    }
    assert p[i + 1..i + 1 + |inner|] == inner;
  }

  lemma {:induction false} SplitRest(p: string, i: nat, start: nat, pos: seq<Seg>)
    requires start < i <= |p| && p[i..] == Rest(pos) && AllPlain(pos)
    ensures SplitFrom(p, i, 0, start) == [p[start..i]] + Texts(pos)
    decreases |pos|
  {
    if |pos| == 0 {
      assert i == |p| && p[start..] == p[start..i];
    } else {
      var s, e := StepPiece(p, i, start, pos[0], Rest(pos[1..]));
      SplitRest(p, e, s, pos[1..]);
    }
  }

  /** Splitting a printed path gives back the texts of its segments. */
  lemma SplitOfPath(pos: seq<Seg>)
    requires AllPlain(pos)
    ensures SplitFrom(PathFrom("", pos), 0, 0, 0) == Texts(pos)
  {
    if |pos| > 0 {
      var p := PathFrom("", pos);
      var t := SegText(pos[0]);
      assert Extend("", pos[0]) == t;
      PathIsRest(t, pos[1..]);
      assert p == t + Rest(pos[1..]) && p[0..] == p;
      At(p, 0, t, Rest(pos[1..]));
      FirstPiece(p, pos[0]);
      SplitRest(p, |t|, 0, pos[1..]);
    }
  }

  lemma {:induction false} FirstPiece(p: string, seg: Seg)
    requires Plain(seg) && |SegText(seg)| <= |p| && p[..|SegText(seg)|] == SegText(seg)
    ensures |SegText(seg)| > 0 && SplitFrom(p, 0, 0, 0) == SplitFrom(p, |SegText(seg)|, 0, 0)
  {
    var t := SegText(seg);
    assert p[0..|t|] == t;
    if Bracketed(seg) {
      StepBracketed(p, 0, 0, seg);
    } else {
      SkipIdent(p, 0, t, 0);
    }
  }
}
