/** The token store: memoised scans, serialised refreshes and pinned failure marks, after `cloud/aws_sso_tokens.go`. */
module SsoStore {
  import opened Options
  import opened SsoTokens

  // ---- the critical sections as steps --------------------------------------

  datatype State = State(scanned: Option<seq<Token>>, marks: Marks)

  datatype Step =
    | Rescan(listing: seq<Token>)
    | Mark(tok: Token, reason: string)
    | Invalidate

  function Apply(s: State, step: Step): State {
    match step
    case Rescan(listing) => State(Some(AnnotateAll(s.marks, listing)), KeepMarks(s.marks, listing))
    case Mark(tok, reason) =>
      if tok.path == "" then s else s.(marks := s.marks[tok.path := Failure(tok.modTime, reason)])
    case Invalidate => s.(scanned := None)
  }

  function After(trace: seq<Step>): State {
    if trace == [] then State(None, map[]) else Apply(After(trace[..|trace| - 1]), trace[|trace| - 1])
  }

  lemma AfterNext(trace: seq<Step>, step: Step)
    ensures After(trace + [step]) == Apply(After(trace), step)
  {
    assert (trace + [step])[..|trace|] == trace;
  }

  // ---- the store -----------------------------------------------------------

  datatype Result = Found(tok: Token) | Refreshed(tok: Token) | LoginRequired

  datatype Answer = Granted(tok: Token) | Rejected | Failed

  const REJECTED := "the portal rejected the refresh token; sign in again"

  /**
   The locked part of a resolve: where it invalidated the memo, up to where it
   had read the memo again, what it picked there, and what the portal answered
   if it was asked for a new token.
   */
  datatype Visit = Visit(inv: nat, pick: nat, tok: Token, now: int, answer: Option<Answer>)

  /** A portal is asked only for a token that is about to expire and can be refreshed. */
  predicate Asks(tok: Token, now: int) {
    !FreshEnough(tok, now) && Refreshable(tok, now)
  }

  /** The picked token comes from a scan made after the visit's own invalidation. */
  ghost predicate IsVisit(trace: seq<Step>, v: Visit) {
    && v.inv < v.pick <= |trace| && trace[v.inv] == Invalidate
    && After(trace[..v.pick]).scanned.Some? && v.tok in After(trace[..v.pick]).scanned.value
    && (v.answer.Some? <==> Asks(v.tok, v.now))
  }

  /** Whatever the portal answered, a token that is still valid is good enough. */
  function Outcome(v: Visit): Result {
    if v.answer.Some? && v.answer.value.Granted? then Refreshed(v.answer.value.tok)
    else if IsValid(v.tok, v.now) then Found(v.tok)
    else LoginRequired
  }

  /** What the visit leaves behind after its pick. */
  function Traces(v: Visit): seq<Step> {
    match v.answer
    case Some(Granted(_)) => [Invalidate]
    case Some(Rejected) => [Mark(v.tok, REJECTED), Invalidate]
    case _ => []
  }

  class TokenStore {
    const norm: string -> string
    var scanned: Option<seq<Token>>
    var scannedAt: int
    var marks: Marks
    var clock: int
    ghost var trace: seq<Step>

    ghost predicate Valid()
      reads this
    {
      After(trace) == State(scanned, marks)
    }

    constructor (norm: string -> string)
      ensures Valid() && trace == [] && this.norm == norm
    {
      this.norm := norm;
      scanned, scannedAt, marks, clock, trace := None, 0, map[], 0, [];
    }

    method Now() returns (now: int)
      modifies `clock
      ensures now == clock >= old(clock)
    {
      now := *;
      if now < clock {
        now := clock;
      }
      clock := now;
    }

    /** The directory holds what its owners put there. */
    method ScanDirectory() returns (tokens: array<Token>)
      ensures fresh(tokens) && DistinctPaths(tokens[..])
    {
      var listing: seq<Token> := *;
      var distinct := forall i, j :: 0 <= i < j < |listing| ==> listing[i].path != listing[j].path;
      if !distinct {
        listing := [];
      }
      tokens := new Token[|listing|](i requires 0 <= i < |listing| => listing[i]);
      assert tokens[..] == listing;
    }

    method MarkRefreshFailed(tok: Token, reason: string)
      requires Valid()
      modifies `marks, `trace
      ensures Valid() && trace == old(trace) + [Mark(tok, reason)]
    {
      AfterNext(trace, Mark(tok, reason));
      trace := trace + [Mark(tok, reason)];
      if tok.path == "" {
        return;
      }
      marks := marks[tok.path := Failure(tok.modTime, reason)];
    }

    method InvalidateScan()
      requires Valid()
      modifies `scanned, `scannedAt, `trace
      ensures Valid() && trace == old(trace) + [Invalidate]
    {
      ghost var before := trace;
      trace := before + [Invalidate];
      AfterNext(before, Invalidate);
      scanned, scannedAt := None, 0;
    }

    /** Annotates the tokens with remembered failures and forgets marks whose file has changed or gone. */
    method ApplyFailures(tokens: array<Token>)
      requires DistinctPaths(tokens[..])
      modifies `marks, tokens
      ensures tokens[..] == AnnotateAll(old(marks), old(tokens[..]))
      ensures marks == KeepMarks(old(marks), old(tokens[..]))
    {
      if |marks| == 0 {
        assert marks == map[];
        return;
      }
      ghost var was, all := marks, tokens[..];
      var seen: set<string> := {};
      for i := 0 to tokens.Length
        invariant seen == set j | 0 <= j < i :: all[j].path
        invariant forall j :: 0 <= j < tokens.Length ==> tokens[j] == if j < i then Annotate(was, all[j]) else all[j]
        invariant marks == DropChanged(was, all[..i])
      {
        seen := seen + {tokens[i].path};
        DropChangedNext(was, all, i);
        if tokens[i].path in marks {
          var f := marks[tokens[i].path];
          if f.modTime == tokens[i].modTime {
            tokens[i] := tokens[i].(refreshError := f.reason);
          } else {
            marks := marks - {tokens[i].path};
          }
        }
      }
      marks := map p | p in marks && p in seen :: marks[p];
      assert all[..tokens.Length] == all;
      KeptInTheEnd(was, all, seen, marks);
    }

    /** The memoised scan, taken anew once it is old by the clock reading `at`. */
    method Tokens() returns (tokens: seq<Token>, ghost at: int)
      requires Valid()
      modifies `scanned, `scannedAt, `marks, `clock, `trace
      ensures Valid() && scanned == Some(tokens) && old(clock) <= at <= clock
      ensures if old(scanned).Some? && at - old(scannedAt) < 750
              then trace == old(trace) && scanned == old(scanned) && scannedAt == old(scannedAt)
              else RescannedOnce(old(trace), trace) && at <= scannedAt <= clock
    {
      var now := Now();
      at := now;
      if scanned.Some? && now - scannedAt < SCAN_MEMO {
        return scanned.value, now;
      }
      var listing := ScanDirectory();
      AfterNext(trace, Rescan(listing[..]));
      trace := trace + [Rescan(listing[..])];
      ApplyFailures(listing);
      tokens := listing[..];
      scanned := Some(tokens);
      scannedAt := Now();
    }

    method Best(startUrl: string, now: int) returns (tok: Option<Token>)
      requires Valid()
      modifies `scanned, `scannedAt, `marks, `clock, `trace
      ensures Valid() && scanned.Some?
      ensures old(trace) <= trace && old(clock) <= clock && NoMarks(trace, |old(trace)|, |trace|)
      ensures IsBest(norm, scanned.value, startUrl, now, tok)
    {
      var all;
      ghost var at;
      all, at := Tokens();
      var mine := TokensForUrl(norm, all, startUrl);
      var k := PickToken(mine, now);
      tok := if mine == [] then None else Some(mine[k]);
      if mine != [] {
        ForUrlIff(norm, all, startUrl, mine[k]);
      }
    }

    /** Any answer; what is granted is for the same portal and file. */
    method AskPortal(tok: Token) returns (answer: Answer)
      ensures answer.Granted? ==> answer.tok.path == tok.path && answer.tok.startUrl == tok.startUrl
    {
      answer := *;
      if answer.Granted? {
        answer := Granted(answer.tok.(path := tok.path, startUrl := tok.startUrl));
      }
    }

    /**
     Without a fresh refresh the token found is valid at the clock reading `at`,
     or a sign-in is required. `visit` tells what the locked part did, if it
     came to that.
     */
    method Resolve(startUrl: string) returns (r: Result, ghost at: int, ghost visit: Option<Visit>)
      requires Valid()
      modifies `scanned, `scannedAt, `marks, `clock, `trace
      ensures Valid() && old(trace) <= trace && old(clock) <= at <= clock
      ensures r.Found? ==> r.tok.accessToken != "" && at < r.tok.expiresAt
      ensures !r.LoginRequired? ==> norm(r.tok.startUrl) == norm(startUrl)
      ensures visit.None? ==> !r.Refreshed? && (r.Found? ==> at + 300000 < r.tok.expiresAt)
      ensures visit.None? && r.LoginRequired? ==> scanned.Some? && ForUrl(norm, scanned.value, startUrl) == []
      ensures visit.Some? ==>
                var v := visit.value;
                && IsVisit(trace, v) && |old(trace)| <= v.inv && v.now == at
                && r == Outcome(v) && trace == trace[..v.pick] + Traces(v)
                && IsBest(norm, After(trace[..v.pick]).scanned.value, startUrl, at, Some(v.tok))
      ensures NoMarks(trace, |old(trace)|, if visit.Some? then visit.value.pick else |trace|)
    {
      var now := Now();
      var tok := Best(startUrl, now);
      if tok.Some? && FreshEnough(tok.value, now) {
        return Found(tok.value), now, None;
      }
      r, at, visit := ResolveLocked(startUrl);
    }

    /** The part under the portal's lock. */
    method ResolveLocked(startUrl: string) returns (r: Result, ghost at: int, ghost visit: Option<Visit>)
      requires Valid()
      modifies `scanned, `scannedAt, `marks, `clock, `trace
      ensures Valid() && old(trace) <= trace && old(clock) <= at <= clock
      ensures visit.None? ==> r.LoginRequired? && scanned.Some? && ForUrl(norm, scanned.value, startUrl) == []
      ensures visit.Some? ==>
                var v := visit.value;
                && IsVisit(trace, v) && |old(trace)| <= v.inv && v.now == at
                && r == Outcome(v) && trace == trace[..v.pick] + Traces(v)
                && IsBest(norm, After(trace[..v.pick]).scanned.value, startUrl, at, Some(v.tok))
                && (!r.LoginRequired? ==> norm(r.tok.startUrl) == norm(startUrl))
      ensures NoMarks(trace, |old(trace)|, if visit.Some? then visit.value.pick else |trace|)
    {
      ghost var before := trace;
      InvalidateScan();
      var now := Now();
      at := now;
      var tok := Best(startUrl, now);
      if tok.None? {
        return LoginRequired, now, None;
      }
      assert trace[..|trace|] == trace;
      ghost var v, picked := *, trace;
      r, v := Decide(startUrl, tok.value, now, |before|);
      assert trace[..v.pick] == picked;
      visit := Some(v);
    }

    /** What the locked part does with the token it picked. */
    method Decide(startUrl: string, tok: Token, now: int, ghost inv: nat) returns (r: Result, ghost v: Visit)
      requires Valid() && norm(tok.startUrl) == norm(startUrl)
      requires inv < |trace| && trace[inv] == Invalidate && scanned.Some? && tok in scanned.value
      modifies `scanned, `scannedAt, `marks, `trace
      ensures Valid() && trace == old(trace) + Traces(v)
      ensures v == Visit(inv, |old(trace)|, tok, now, v.answer) && IsVisit(trace, v) && r == Outcome(v)
      ensures !r.LoginRequired? ==> norm(r.tok.startUrl) == norm(startUrl)
    {
      ghost var picked := trace;
      assert trace[..|trace|] == trace;
      v := Visit(inv, |trace|, tok, now, None);
      if FreshEnough(tok, now) {
        return Found(tok), v;
      }
      if Refreshable(tok, now) {
        var answer := AskPortal(tok);
        v := v.(answer := Some(answer));
        if answer.Granted? {
          InvalidateScan();
          VisitStays(picked, trace, v);
          return Refreshed(answer.tok), v;
        }
        if answer.Rejected? {
          MarkRefreshFailed(tok, REJECTED);
          InvalidateScan();
          VisitStays(picked, trace, v);
        }
      }
      r := if IsValid(tok, now) then Found(tok) else LoginRequired;
    }
  }

  ghost predicate NoMarks(trace: seq<Step>, from: nat, to: nat) {
    forall k :: from <= k < to && k < |trace| ==> !trace[k].Mark?
  }

  ghost predicate RescannedOnce(before: seq<Step>, after: seq<Step>) {
    |after| == |before| + 1 && before <= after && after[|before|].Rescan?
  }

  ghost predicate IsBest(norm: string -> string, all: seq<Token>, startUrl: string, now: int, tok: Option<Token>) {
    var mine := ForUrl(norm, all, startUrl);
    if mine == [] then tok.None?
    else tok.Some? && tok.value in all && norm(tok.value.startUrl) == norm(startUrl)
         && exists k :: IsPick(mine, now, k) && tok.value == mine[k]
  }

  lemma VisitStays(before: seq<Step>, after: seq<Step>, v: Visit)
    requires IsVisit(before, v) && before <= after
    ensures IsVisit(after, v)
  {
    assert after[..v.pick] == before[..v.pick];
  }

  /** The marks left once the first tokens have been looked at. */
  function DropChanged(marks: Marks, tokens: seq<Token>): Marks {
    map p | p in marks && (forall i :: 0 <= i < |tokens| && tokens[i].path == p ==> tokens[i].modTime == marks[p].modTime)
      :: marks[p]
  }

  lemma DropChangedNext(marks: Marks, all: seq<Token>, i: nat)
    requires i < |all| && DistinctPaths(all)
    ensures var now, next := DropChanged(marks, all[..i]), DropChanged(marks, all[..i + 1]);
            var p := all[i].path;
            && (p in now <==> p in marks)
            && (if p in marks && marks[p].modTime != all[i].modTime then next == now - {p} else next == now)
  {
    var upTo, next := all[..i], all[..i + 1];
    assert next == upTo + [all[i]];
  }

  lemma KeptInTheEnd(marks: Marks, all: seq<Token>, seen: set<string>, left: Marks)
    requires DistinctPaths(all) && seen == set j | 0 <= j < |all| :: all[j].path
    requires left == map p | p in DropChanged(marks, all) && p in seen :: marks[p]
    ensures left == KeepMarks(marks, all)
  {
    forall p ensures p in left <==> p in KeepMarks(marks, all) {
      if p in left {
        var j :| 0 <= j < |all| && all[j].path == p;
        assert Listed(all, p, marks[p].modTime);
      }
    }
  }

  // ---- no retry of a rejected refresh --------------------------------------

  /** A scan that still finds the file unchanged. */
  ghost predicate Sees(listing: seq<Token>, p: string, m: int) {
    Listed(listing, p, m) && forall i :: 0 <= i < |listing| && listing[i].path == p ==> listing[i].modTime == m
  }

  /** Nothing happens to the file, and no mark on it names another modification time. */
  ghost predicate Steady(step: Step, p: string, m: int) {
    match step
    case Rescan(listing) => Sees(listing, p, m)
    case Mark(tok, reason) => tok.path == p ==> tok.modTime == m && reason != ""
    case Invalidate => true
  }

  /** A mark outlives a step exactly when the file is still listed with its modification time and no other mark replaces it. */
  lemma MarkSurvivesIff(s: State, step: Step, p: string)
    requires p in s.marks && p != ""
    ensures p in Apply(s, step).marks && Apply(s, step).marks[p] == s.marks[p]
       <==> match step
            case Rescan(listing) => Listed(listing, p, s.marks[p].modTime)
            case Mark(tok, reason) => tok.path != p || Failure(tok.modTime, reason) == s.marks[p]
            case Invalidate => true
  {
  }

  ghost predicate IsMarked(s: State, p: string, m: int) {
    p in s.marks && s.marks[p].modTime == m && s.marks[p].reason != ""
  }

  lemma {:induction false} MarkStays(trace: seq<Step>, i: nat, j: nat, p: string, m: int)
    requires i < j <= |trace| && p != ""
    requires trace[i].Mark? && trace[i].tok.path == p && trace[i].tok.modTime == m && trace[i].reason != ""
    requires forall k :: i < k < j ==> Steady(trace[k], p, m)
    ensures IsMarked(After(trace[..j]), p, m)
  {
    assert trace[..j][..j - 1] == trace[..j - 1];
    if j > i + 1 {
      MarkStays(trace, i, j - 1, p, m);
      assert Steady(trace[j - 1], p, m);
    }
  }

  /** Every scan taken after an invalidation that follows the mark shows the mark. */
  lemma {:induction false} ScansShowTheMark(trace: seq<Step>, i: nat, inv: nat, j: nat, p: string, m: int)
    requires i < inv < j <= |trace| && p != "" && trace[inv] == Invalidate
    requires trace[i].Mark? && trace[i].tok.path == p && trace[i].tok.modTime == m && trace[i].reason != ""
    requires forall k :: i < k < j ==> Steady(trace[k], p, m)
    ensures After(trace[..j]).scanned.Some? ==>
              forall t :: t in After(trace[..j]).scanned.value && t.path == p ==> t.refreshError != ""
  {
    assert trace[..j][..j - 1] == trace[..j - 1];
    if j > inv + 1 {
      ScansShowTheMark(trace, i, inv, j - 1, p, m);
      MarkStays(trace, i, j - 1, p, m);
      assert Steady(trace[j - 1], p, m);
    }
  }

  /**
   However the steps of different portals interleave: once a file's refresh
   token was rejected, no resolve that takes the portal's lock afterwards asks
   the portal about that file while it stays as it is.
   */
  lemma NoRetry(trace: seq<Step>, i: nat, v: Visit)
    requires IsVisit(trace, v) && i < v.inv
    requires trace[i].Mark? && trace[i].tok.path != "" && trace[i].reason != ""
    requires forall k :: i < k < v.pick ==> Steady(trace[k], trace[i].tok.path, trace[i].tok.modTime)
    ensures v.answer.Some? ==> v.tok.path != trace[i].tok.path
  {
    ScansShowTheMark(trace, i, v.inv, v.pick, trace[i].tok.path, trace[i].tok.modTime);
  }

  /**
   The portal is asked exactly if the picked token ends within five minutes and
   is renewable; then its answer decides, and otherwise the token's own validity.
   */
  lemma VisitReads(trace: seq<Step>, v: Visit)
    requires IsVisit(trace, v)
    ensures v.answer.Some? <==> !(v.tok.accessToken != "" && v.now + 300000 < v.tok.expiresAt) && Renewable(v.tok, v.now)
    ensures match v.answer
            case Some(Granted(t)) => Outcome(v) == Refreshed(t)
            case _ => Outcome(v) == if v.tok.accessToken != "" && v.now < v.tok.expiresAt then Found(v.tok) else LoginRequired
    ensures match v.answer
            case Some(Rejected) => Traces(v)[0].Mark? && Traces(v)[0].tok == v.tok && Traces(v)[0].reason != "" && Traces(v)[1..] == [Invalidate]
            case Some(Granted(_)) => Traces(v) == [Invalidate]
            case _ => Traces(v) == []
  {
  }

  // ---- which mark counts ---------------------------------------------------

  /** The last mark recorded for the file. */
  function LastMark(trace: seq<Step>, p: string): Option<Failure> {
    if trace == [] then None
    else
      var last := trace[|trace| - 1];
      if last.Mark? && last.tok.path == p then Some(Failure(last.tok.modTime, last.reason))
      else LastMark(trace[..|trace| - 1], p)
  }

  /** While scans find the file unchanged, it is marked for its state exactly if its last mark names that state. */
  lemma {:induction false} MarkedIff(trace: seq<Step>, i: nat, j: nat, p: string, m: int)
    requires i < j <= |trace| && p != "" && trace[i].Mark? && trace[i].tok.path == p
    requires forall k :: i < k < j && trace[k].Rescan? ==> Sees(trace[k].listing, p, m)
    ensures LastMark(trace[..j], p).Some?
    ensures var last, marks := LastMark(trace[..j], p).value, After(trace[..j]).marks;
            p in marks && marks[p].modTime == m <==> last.modTime == m
    ensures var last, marks := LastMark(trace[..j], p).value, After(trace[..j]).marks;
            last.modTime == m ==> p in marks && marks[p] == last
  {
    assert trace[..j][..j - 1] == trace[..j - 1];
    if j > i + 1 {
      MarkedIff(trace, i, j - 1, p, m);
    }
  }

  /** So a scan shows the mark exactly if the last mark before it names the state the scan finds. */
  lemma ScanShowsIff(trace: seq<Step>, i: nat, r: nat, t: Token)
    requires i < r < |trace| && trace[r].Rescan? && t in trace[r].listing && t.path != ""
    requires trace[i].Mark? && trace[i].tok.path == t.path
    requires forall k :: i < k <= r && trace[k].Rescan? ==> Sees(trace[k].listing, t.path, t.modTime)
    ensures LastMark(trace[..r], t.path).Some?
    ensures var last := LastMark(trace[..r], t.path).value;
            Annotate(After(trace[..r]).marks, t)
            == if last.modTime == t.modTime then t.(refreshError := last.reason) else t
  {
    MarkedIff(trace, i, r, t.path, t.modTime);
  }

  /** The scan that a visit's token was picked from. */
  ghost predicate PickedFrom(trace: seq<Step>, v: Visit, r: nat) {
    v.inv < r < v.pick && r < |trace| && trace[r].Rescan? && v.tok in AnnotateAll(After(trace[..r]).marks, trace[r].listing)
  }

  lemma {:induction false} VisitScans(trace: seq<Step>, inv: nat, j: nat, t: Token) returns (r: nat)
    requires inv < j <= |trace| && trace[inv] == Invalidate
    requires After(trace[..j]).scanned.Some? && t in After(trace[..j]).scanned.value
    ensures inv < r < j && trace[r].Rescan? && t in AnnotateAll(After(trace[..r]).marks, trace[r].listing)
  {
    assert trace[..j][..j - 1] == trace[..j - 1];
    if trace[j - 1].Rescan? {
      r := j - 1;
    } else {
      r := VisitScans(trace, inv, j - 1, t);
    }
  }

  /**
   Whatever else is marked meanwhile: a portal is asked again about an
   unchanged file only if the last mark before the scan names another state.
   */
  lemma {:induction false} RetriesIff(trace: seq<Step>, i: nat, v: Visit) returns (r: nat)
    requires IsVisit(trace, v) && i < v.inv && v.tok.path != ""
    requires trace[i].Mark? && trace[i].tok.path == v.tok.path
    requires forall k :: i < k < v.pick && trace[k].Rescan? ==> Sees(trace[k].listing, v.tok.path, trace[i].tok.modTime)
    requires forall k :: i <= k < v.pick && trace[k].Mark? ==> trace[k].reason != ""
    requires forall k :: i < k < v.pick && trace[k].Rescan? ==> Unmarked(trace[k].listing)
    ensures PickedFrom(trace, v, r) && LastMark(trace[..r], v.tok.path).Some?
    ensures v.tok.refreshError == "" <==> LastMark(trace[..r], v.tok.path).value.modTime != trace[i].tok.modTime
    ensures v.answer.Some? ==> LastMark(trace[..r], v.tok.path).value.modTime != trace[i].tok.modTime
  {
    r := VisitScans(trace, v.inv, v.pick, v.tok);
    var listing, marks := trace[r].listing, After(trace[..r]).marks;
    var q :| 0 <= q < |listing| && AnnotateAll(marks, listing)[q] == v.tok;
    var t := listing[q];
    assert v.tok == Annotate(marks, t);
    ScanShowsIff(trace, i, r, t);
    LastMarkReason(trace, i, r, v.tok.path);
  }

  /** Files say nothing about rejections themselves. */
  ghost predicate Unmarked(listing: seq<Token>) {
    forall q :: 0 <= q < |listing| ==> listing[q].refreshError == ""
  }

  lemma {:induction false} LastMarkReason(trace: seq<Step>, i: nat, j: nat, p: string)
    requires i < j <= |trace| && trace[i].Mark? && trace[i].tok.path == p
    requires forall k :: i <= k < j && trace[k].Mark? ==> trace[k].reason != ""
    ensures LastMark(trace[..j], p).Some? && LastMark(trace[..j], p).value.reason != ""
  {
    assert trace[..j][..j - 1] == trace[..j - 1];
    if j > i + 1 {
      LastMarkReason(trace, i, j - 1, p);
    }
  }
}
