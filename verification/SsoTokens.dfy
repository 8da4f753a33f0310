/** Cached single sign-on tokens: ranking, failure marks and safe writing, after `cloud/aws_sso_tokens.go`. */
module SsoTokens {
  import opened Options

  /** Milliseconds. */
  const LEEWAY := 300000
  const SCAN_MEMO := 750

  /** One file of the cache directory. */
  datatype Token = Token(path: string, startUrl: string, accessToken: string, refreshToken: string, clientId: string,
                         clientSecret: string, expiresAt: int, registrationExpiresAt: Option<int>, fromKanivet: bool,
                         modTime: int, refreshError: string)

  predicate IsValid(t: Token, now: int) {
    t.accessToken != "" && now < t.expiresAt
  }

  predicate FreshEnough(t: Token, now: int) {
    t.accessToken != "" && now + LEEWAY < t.expiresAt
  }

  predicate Refreshable(t: Token, now: int) {
    && t.refreshToken != "" && t.clientId != "" && t.clientSecret != "" && t.refreshError == ""
    && (t.registrationExpiresAt.Some? ==> now < t.registrationExpiresAt.value)
  }

  // ---- ranking -------------------------------------------------------------

  function Rank(t: Token, now: int): int {
    if IsValid(t, now) then 0 else if Refreshable(t, now) then 1 else 2
  }

  predicate Better(a: Token, b: Token, now: int) {
    if Rank(a, now) != Rank(b, now) then Rank(a, now) < Rank(b, now)
    else if a.expiresAt != b.expiresAt then a.expiresAt > b.expiresAt
    else a.fromKanivet && !b.fromKanivet
  }

  /** The first token of a stable sort: none is better, and those before it are worse. */
  ghost predicate IsPick(tokens: seq<Token>, now: int, k: int) {
    && 0 <= k < |tokens|
    && (forall j :: 0 <= j < |tokens| ==> !Better(tokens[j], tokens[k], now))
    && (forall j :: 0 <= j < k ==> Better(tokens[k], tokens[j], now))
  }

  method PickToken(tokens: seq<Token>, now: int) returns (k: int)
    ensures if tokens == [] then k == -1 else IsPick(tokens, now, k)
  {
    if |tokens| == 0 {
      return -1;
    }
    k := 0;
    for i := 1 to |tokens|
      invariant 0 <= k < i
      invariant IsPick(tokens[..i], now, k)
    {
      PickNext(tokens, now, k, i);
      if Better(tokens[i], tokens[k], now) {
        k := i;
      }
    }
    assert tokens[..|tokens|] == tokens;
  }

  lemma PickNext(tokens: seq<Token>, now: int, k: int, i: int)
    requires 0 <= k < i < |tokens| && IsPick(tokens[..i], now, k)
    ensures IsPick(tokens[..i + 1], now, if Better(tokens[i], tokens[k], now) then i else k)
  {
    var upTo, next := tokens[..i], tokens[..i + 1];
    assert forall j :: 0 <= j < i ==> next[j] == upTo[j];
  }

  lemma PickIsUnique(tokens: seq<Token>, now: int, j: int, k: int)
    requires IsPick(tokens, now, k) && 0 <= j < |tokens| && j != k
    ensures !IsPick(tokens, now, j)
  {
    assert if j < k then Better(tokens[k], tokens[j], now) else !Better(tokens[j], tokens[k], now);
  }

  /** Valid before refreshable before the rest; then the latest expiry, then Kanivet's own file. */
  lemma PickIsBest(tokens: seq<Token>, now: int, k: int, j: int)
    requires IsPick(tokens, now, k) && 0 <= j < |tokens|
    ensures Rank(tokens[k], now) <= Rank(tokens[j], now)
    ensures Rank(tokens[k], now) == Rank(tokens[j], now) ==>
              tokens[j].expiresAt <= tokens[k].expiresAt
              && (tokens[j].expiresAt == tokens[k].expiresAt && tokens[j].fromKanivet ==> tokens[k].fromKanivet)
  {
    assert !Better(tokens[j], tokens[k], now);
  }

  // ---- on the fields themselves --------------------------------------------

  predicate Unexpired(t: Token, now: int) {
    t.accessToken != "" && now < t.expiresAt
  }

  /** It has all that a refresh takes, was not rejected, and its registration, if it has an end, has not ended. */
  predicate Renewable(t: Token, now: int) {
    && t.refreshToken != "" && t.clientId != "" && t.clientSecret != "" && t.refreshError == ""
    && match t.registrationExpiresAt
       case None => true
       case Some(end) => now < end
  }

  /** Expires later, or at the same time but is Kanivet's own. */
  predicate LastsLonger(a: Token, b: Token) {
    b.expiresAt < a.expiresAt || (b.expiresAt == a.expiresAt && a.fromKanivet && !b.fromKanivet)
  }

  /** An unexpired token is picked if there is one, else a renewable one, and of its class none that lasts longer is passed over. */
  lemma PickReads(tokens: seq<Token>, now: int, k: int, j: int)
    requires IsPick(tokens, now, k) && 0 <= j < |tokens|
    ensures var pick, t := tokens[k], tokens[j];
            && (Unexpired(t, now) ==> Unexpired(pick, now) && !LastsLonger(t, pick))
            && (!Unexpired(pick, now) && Renewable(t, now) ==> Renewable(pick, now) && !LastsLonger(t, pick))
            && (!Unexpired(pick, now) && !Renewable(pick, now) ==> !LastsLonger(t, pick))
            && (j < k && Unexpired(t, now) == Unexpired(pick, now) && (Unexpired(t, now) || Renewable(t, now) == Renewable(pick, now))
                ==> LastsLonger(pick, t))
  {
    assert !Better(tokens[j], tokens[k], now) && (j < k ==> Better(tokens[k], tokens[j], now));
  }

  /** The same tokens with other registrations, none of which makes or ends a token's refreshability. */
  ghost predicate SameButRegistrations(xs: seq<Token>, ys: seq<Token>, now: int) {
    && |xs| == |ys|
    && forall i :: 0 <= i < |xs| ==>
         && ys[i] == xs[i].(registrationExpiresAt := ys[i].registrationExpiresAt)
         && (Refreshable(xs[i], now) <==> Refreshable(ys[i], now))
  }

  /** The pick does not depend on when registrations expire, only on whether tokens can be refreshed. */
  lemma PickIgnoresRegistrations(xs: seq<Token>, ys: seq<Token>, now: int, k: nat)
    requires SameButRegistrations(xs, ys, now)
    ensures IsPick(xs, now, k) <==> IsPick(ys, now, k)
  {
  }

  /** So a token can win over one whose registration lasts longer. */
  lemma ShorterRegistrationCanWin(now: int)
    ensures var early := Token("a", "u", "x", "r", "c", "s", now - 1, Some(now + 10), false, 0, "");
            var late := Token("b", "u", "x", "r", "c", "s", now - 2, Some(now + 99), false, 0, "");
            IsPick([early, late], now, 0) && Refreshable(late, now)
  {
  }

  /** Among tokens that can only be refreshed, the order of the pick. */
  predicate Ahead(a: Token, b: Token) {
    a.expiresAt > b.expiresAt || (a.expiresAt == b.expiresAt && a.fromKanivet && !b.fromKanivet)
  }

  predicate Fresher(a: Token, b: Token) {
    a.registrationExpiresAt.Some? && b.registrationExpiresAt.Some?
    && a.registrationExpiresAt.value > b.registrationExpiresAt.value
  }

  /** No other refreshable token has a fresher registration. */
  ghost predicate IsFreshest(tokens: seq<Token>, now: int, f: int) {
    && 0 <= f < |tokens| && Refreshable(tokens[f], now)
    && forall j :: 0 <= j < |tokens| && Refreshable(tokens[j], now) ==> !Fresher(tokens[j], tokens[f])
  }

  /** It comes first among the refreshable tokens by expiry, then origin, then place. */
  ghost predicate LeadsByExpiry(tokens: seq<Token>, now: int, f: int) {
    && 0 <= f < |tokens|
    && forall j :: 0 <= j < |tokens| && Refreshable(tokens[j], now) ==>
         !Ahead(tokens[j], tokens[f]) && (j < f ==> Ahead(tokens[f], tokens[j]))
  }

  /** With no valid token, the pick has the freshest registration exactly if a token that has it also leads by expiry. */
  lemma FreshestIsPickedIff(tokens: seq<Token>, now: int, k: int)
    requires IsPick(tokens, now, k) && Rank(tokens[k], now) == 1
    ensures IsFreshest(tokens, now, k) <==> exists f :: IsFreshest(tokens, now, f) && LeadsByExpiry(tokens, now, f)
  {
    forall j | 0 <= j < |tokens| ensures !IsValid(tokens[j], now) {
      assert !Better(tokens[j], tokens[k], now);
    }
    if IsFreshest(tokens, now, k) {
      forall j | 0 <= j < |tokens| && Refreshable(tokens[j], now)
        ensures !Ahead(tokens[j], tokens[k]) && (j < k ==> Ahead(tokens[k], tokens[j])) {
        assert !Better(tokens[j], tokens[k], now) && (j < k ==> Better(tokens[k], tokens[j], now));
      }
      assert LeadsByExpiry(tokens, now, k);
    }
    if f :| IsFreshest(tokens, now, f) && LeadsByExpiry(tokens, now, f) {
      LeaderIsPick(tokens, now, f);
      if f != k {
        PickIsUnique(tokens, now, f, k);
      }
    }
  }

  lemma LeaderIsPick(tokens: seq<Token>, now: int, f: int)
    requires IsFreshest(tokens, now, f) && LeadsByExpiry(tokens, now, f)
    requires forall j :: 0 <= j < |tokens| ==> !IsValid(tokens[j], now)
    ensures IsPick(tokens, now, f)
  {
    forall j | 0 <= j < |tokens|
      ensures !Better(tokens[j], tokens[f], now) && (j < f ==> Better(tokens[f], tokens[j], now)) {
    }
  }

  function ForUrl(norm: string -> string, tokens: seq<Token>, startUrl: string): seq<Token> {
    if tokens == [] then []
    else
      var before, t := ForUrl(norm, tokens[..|tokens| - 1], startUrl), tokens[|tokens| - 1];
      if norm(t.startUrl) == norm(startUrl) then before + [t] else before
  }

  lemma {:induction false} ForUrlIff(norm: string -> string, tokens: seq<Token>, startUrl: string, t: Token)
    ensures t in ForUrl(norm, tokens, startUrl) <==> t in tokens && norm(t.startUrl) == norm(startUrl)
  {
    if tokens != [] {
      ForUrlIff(norm, tokens[..|tokens| - 1], startUrl, t);
    }
  }

  method TokensForUrl(norm: string -> string, tokens: seq<Token>, startUrl: string) returns (out: seq<Token>)
    ensures out == ForUrl(norm, tokens, startUrl)
  {
    out := [];
    for i := 0 to |tokens|
      invariant out == ForUrl(norm, tokens[..i], startUrl)
    {
      assert tokens[..i + 1][..i] == tokens[..i];
      if norm(tokens[i].startUrl) == norm(startUrl) {
        out := out + [tokens[i]];
      }
    }
    assert tokens[..|tokens|] == tokens;
  }

  // ---- failure marks -------------------------------------------------------

  datatype Failure = Failure(modTime: int, reason: string)
  type Marks = map<string, Failure>

  ghost predicate DistinctPaths(tokens: seq<Token>) {
    forall i, j :: 0 <= i < j < |tokens| ==> tokens[i].path != tokens[j].path
  }

  /** Whether the file is as it was when its refresh token was rejected. */
  predicate StillMarked(marks: Marks, t: Token) {
    t.path in marks && marks[t.path].modTime == t.modTime
  }

  function Annotate(marks: Marks, t: Token): Token {
    if StillMarked(marks, t) then t.(refreshError := marks[t.path].reason) else t
  }

  function AnnotateAll(marks: Marks, tokens: seq<Token>): seq<Token> {
    seq(|tokens|, i requires 0 <= i < |tokens| => Annotate(marks, tokens[i]))
  }

  predicate Listed(tokens: seq<Token>, path: string, modTime: int) {
    exists i :: 0 <= i < |tokens| && tokens[i].path == path && tokens[i].modTime == modTime
  }

  /** The marks whose file is still there unchanged. */
  function KeepMarks(marks: Marks, tokens: seq<Token>): Marks {
    map p | p in marks && Listed(tokens, p, marks[p].modTime) :: marks[p]
  }

  // ---- writing -------------------------------------------------------------

  class TokenFiles {
    const pathOf: string -> Option<string>
    var files: map<string, Token>
    var clock: int

    constructor (pathOf: string -> Option<string>, files: map<string, Token>)
      ensures this.pathOf == pathOf && this.files == files
    {
      this.pathOf, this.files, clock := pathOf, files, 0;
    }

    method Now() returns (now: int)
      modifies `clock
      ensures now == clock >= old(clock)
    {
      now := *;
      if now < clock {
        now := clock;
      }
      clock := now;
    }

    /**
     Writes the token under every key, but never over one that is valid for
     longer. An expiry that cannot be parsed fails before anything is written;
     a failed write does not keep the other keys from being written.
     */
    method WriteToKeys(token: Token, expiry: Option<int>, keys: seq<string>) returns (ok: bool)
      requires expiry.Some? ==> token.expiresAt == expiry.value
      modifies this
      ensures old(clock) <= clock
      ensures expiry.None? ==> !ok && files == old(files)
      ensures forall p :: p in files && !(p in old(files) && files[p] == old(files)[p]) ==> IsOurs(token, files[p], p)
      ensures forall p :: p in old(files) && IsValid(old(files)[p], clock) && old(files)[p].expiresAt > token.expiresAt
                          ==> p in files && files[p] == old(files)[p]
      ensures forall p :: p in old(files) && Unexpired(old(files)[p], clock) && old(files)[p].expiresAt > token.expiresAt
                          ==> p in files && files[p] == old(files)[p]
      ensures forall p :: p in old(files) ==> p in files
      ensures ok ==> forall i :: 0 <= i < |keys| && pathOf(keys[i]).Some? ==> Served(token, files, pathOf(keys[i]).value, old(clock))
    {
      if expiry.None? {
        return false;
      }
      ok := true;
      for i := 0 to |keys|
        invariant old(clock) <= clock
        invariant forall p :: p in files && !(p in old(files) && files[p] == old(files)[p]) ==> IsOurs(token, files[p], p)
        invariant forall p :: p in old(files) && IsValid(old(files)[p], clock) && old(files)[p].expiresAt > token.expiresAt
                              ==> p in files && files[p] == old(files)[p]
        invariant forall p :: p in old(files) ==> p in files
        invariant ok ==> forall j :: 0 <= j < i && pathOf(keys[j]).Some? ==>
                           Served(token, files, pathOf(keys[j]).value, old(clock))
      {
        if pathOf(keys[i]).Some? {
          var written := WriteOne(token, pathOf(keys[i]).value);
          ok := ok && written;
        }
      }
    }

    method WriteOne(token: Token, path: string) returns (ok: bool)
      modifies this
      ensures old(clock) <= clock
      ensures files == old(files) || files == old(files)[path := token.(path := path)]
      ensures path in old(files) && IsValid(old(files)[path], clock) && old(files)[path].expiresAt > token.expiresAt
              ==> files == old(files)
      ensures ok ==> Served(token, files, path, old(clock))
    {
      var now := Now();
      if path in files && files[path].expiresAt > token.expiresAt && IsValid(files[path], now) {
        return true;
      }
      ok := *;
      if ok {
        files := files[path := token.(path := path)];
      }
    }
  }

  predicate IsOurs(token: Token, t: Token, path: string) {
    t == token.(path := path)
  }

  /** The file holds our token, or one that was valid at the time and expires later. */
  predicate Served(token: Token, files: map<string, Token>, path: string, at: int) {
    path in files && (IsOurs(token, files[path], path)
                      || (files[path].expiresAt > token.expiresAt && IsValid(files[path], at)))
  }
}
