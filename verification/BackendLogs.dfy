/** The bounded, redacting log of `backendLog.js`. */
module BackendLogs {
  import opened Collections
  import opened Options
  import opened Redaction

  const MAX_PENDING := 65536

  // ---- lines ---------------------------------------------------------------

  function LastNewline(s: string): (e: int)
    ensures -1 <= e < |s| && (e >= 0 ==> s[e] == '\n')
    ensures forall i :: e < i < |s| ==> s[i] != '\n'
  {
    if s == "" then -1 else if s[|s| - 1] == '\n' then |s| - 1 else LastNewline(s[..|s| - 1])
  }

  /** What was handed on to the file, what is held back, and how often output was cut without a line break. */
  datatype Feed = Feed(pieces: seq<string>, pending: string, forced: nat)

  /** Complete lines go, the rest waits. */
  function Split(f: Feed, chunk: string): Feed {
    var text := f.pending + chunk;
    var e := LastNewline(text);
    if e == -1 then Feed(f.pieces, text, f.forced)
    else Feed(f.pieces + [text[..e + 1]], text[e + 1..], f.forced)
  }

  /** Too long a rest is ended where it stands. */
  function Cut(f: Feed): Feed {
    if |f.pending| > MAX_PENDING then Feed(f.pieces + [f.pending + "\n"], "", f.forced + 1) else f
  }

  function Next(f: Feed, chunk: string): Feed {
    Cut(Split(f, chunk))
  }

  function Fed(chunks: seq<string>): Feed {
    if chunks == [] then Feed([], "", 0) else Next(Fed(chunks[..|chunks| - 1]), chunks[|chunks| - 1])
  }

  function Flat(texts: seq<string>): string {
    if texts == [] then "" else Flat(texts[..|texts| - 1]) + texts[|texts| - 1]
  }

  /** What reaches the file, each piece redacted on its own. */
  function Written(pieces: seq<string>): string {
    if pieces == [] then "" else Written(pieces[..|pieces| - 1]) + Redact(pieces[|pieces| - 1])
  }

  function Bytes(width: char -> nat, s: string): nat {
    if s == "" then 0 else Bytes(width, s[..|s| - 1]) + width(s[|s| - 1])
  }

  /** Every appended piece is within the bound by itself. */
  ghost predicate AllFit(width: char -> nat, pieces: seq<string>, bound: nat) {
    forall i :: 0 <= i < |pieces| ==> Bytes(width, Redact(pieces[i])) <= bound
  }

  function Text(file: Option<string>): string {
    if file.Some? then file.value else ""
  }

  // ---- the log -------------------------------------------------------------

  class BackendLog {
    /** The encoded length of a character. */
    const width: char -> nat
    const maxBytes: nat
    /** backend.log and backend.log.1. */
    var current: Option<string>
    var previous: Option<string>
    var open: bool
    var size: nat
    var pending: string
    var failed: bool

    ghost const start: string
    ghost var chunks: seq<string>
    ghost var pieces: seq<string>
    ghost var dropped: string
    /** How often the file system has refused something. */
    ghost var faults: nat
    /** Whether a file was larger than the bound at the start. */
    ghost const large: bool

    ghost predicate Valid()
      reads `current, `previous, `open, `size, `failed, `pieces, `dropped, `faults
    {
      && (open ==> current.Some?)
      && (open && !failed ==> size == Bytes(width, Text(current)))
      && AllEnded(pieces)
      && start + Written(pieces) == dropped + (Text(previous) + Text(current))
      && failed == (faults > 0)
      && (!large && AllFit(width, pieces, maxBytes) ==>
            Bytes(width, Text(current)) <= maxBytes && Bytes(width, Text(previous)) <= maxBytes)
    }

    /** Short of a failure, what is on its way to the file is what the chunks ask for. */
    ghost predicate InStep()
      reads `pending, `failed, `pieces, `chunks
    {
      Holds(Fed(chunks))
    }

    ghost predicate Holds(f: Feed)
      reads `pending, `failed, `pieces
    {
      !failed ==> pieces == f.pieces && pending == f.pending
    }

    constructor (width: char -> nat, maxBytes: nat, current: Option<string>, previous: Option<string>)
      ensures Valid() && InStep() && chunks == [] && pieces == [] && !failed
      ensures this.current == current && this.previous == previous && start == Text(previous) + Text(current)
      ensures this.width == width && this.maxBytes == maxBytes
      ensures large == (Bytes(width, Text(current)) > maxBytes || Bytes(width, Text(previous)) > maxBytes)
      ensures dropped == ""
    {
      this.width, this.maxBytes, this.current, this.previous := width, maxBytes, current, previous;
      open, size, pending, failed := false, 0, "", false;
      start, chunks, pieces, dropped := Text(previous) + Text(current), [], [], "";
      faults := 0;
      large := Bytes(width, Text(current)) > maxBytes || Bytes(width, Text(previous)) > maxBytes;
    }

    /** One request to the file system. */
    method Attempt() returns (ok: bool)
      modifies `faults
      ensures faults == if ok then old(faults) else old(faults) + 1
    {
      ok := *;
      if !ok {
        faults := faults + 1;
      }
    }

    /** Opens the file for appending; directory, file or size may be out of reach. */
    method Open()
      requires Valid() && !failed && !open
      modifies `current, `open, `size, `failed, `faults
      ensures Valid() && Text(current) == old(Text(current)) && previous == old(previous)
      ensures !failed ==> open
    {
      var ok := Attempt();
      if !ok {
        failed := true;
        return;
      }
      current, open := Some(Text(current)), true;
      size := Bytes(width, Text(current));
      // Asking for the size may fail after opening.
      ok := Attempt();
      failed := !ok;
    }

    /** Moves the file aside and starts an empty one; any step may fail. */
    method Rotate()
      requires Valid() && !failed && open
      modifies `current, `previous, `open, `size, `failed, `dropped, `faults
      ensures Valid()
      ensures !failed ==> open && current == Some("") && Text(previous) == old(Text(current))
    {
      var ok := Attempt();
      if !ok {
        failed := true;
        return;
      }
      open := false;
      ok := Attempt();
      if !ok {
        failed := true;
        return;
      }
      SetAside();
      ok := Attempt();
      if !ok {
        failed := true;
        return;
      }
      current, open, size := Some(""), true, 0;
    }

    /** The renaming itself. */
    method SetAside()
      requires Valid() && !open
      modifies `current, `previous, `dropped
      ensures Valid() && current == None && Text(previous) == old(Text(current))
    {
      MoveAside(start, Written(pieces), dropped, Text(previous), Text(current));
      dropped := dropped + Text(previous);
      previous, current := current, None;
    }

    /** The file need not be moved aside for the data. */
    predicate HasRoom(file: string, data: string) {
      Bytes(width, file) == 0 || Bytes(width, file) + Bytes(width, data) <= maxBytes
    }

    /** Has the file open with room for the data, or fails. */
    method Prepare(data: string)
      requires Valid() && !failed
      modifies `current, `previous, `open, `size, `failed, `dropped, `faults
      ensures Valid()
      ensures !failed ==> open && (size == 0 || size + Bytes(width, data) <= maxBytes)
      ensures !failed ==> if HasRoom(old(Text(current)), data)
                          then Text(previous) == old(Text(previous)) && Text(current) == old(Text(current))
                          else Text(previous) == old(Text(current)) && Text(current) == ""
    {
      if !open {
        Open();
      }
      if !failed && size > 0 && size + Bytes(width, data) > maxBytes {
        Rotate();
      }
    }

    method Append(text: string)
      requires Valid() && Ended(text)
      modifies `current, `previous, `open, `size, `failed, `dropped, `pieces, `faults
      ensures Valid()
      ensures old(failed) ==> failed
      ensures pieces == if failed || |text| == 0 then old(pieces) else old(pieces) + [text]
      ensures !failed && |text| > 0 ==>
                if HasRoom(old(Text(current)), Redact(text))
                then Text(previous) == old(Text(previous)) && Text(current) == old(Text(current)) + Redact(text)
                else Text(previous) == old(Text(current)) && Text(current) == Redact(text)
    {
      if failed || |text| == 0 {
        return;
      }
      var data := Redact(text);
      Prepare(data);
      if failed {
        return;
      }
      var ok := Attempt();
      if !ok {
        failed := true;
        return;
      }
      WriteData(text, data);
    }

    method AppendLine(line: string)
      requires Valid()
      modifies `current, `previous, `open, `size, `failed, `dropped, `pieces, `faults
      ensures Valid()
      ensures old(failed) ==> failed
      ensures pieces == if failed then old(pieces) else old(pieces) + [line + "\n"]
    {
      var text := line + "\n";
      assert Ended(text);
      Append(text);
    }

    method WriteData(ghost text: string, data: string)
      requires Valid() && !failed && open && data == Redact(text) && text != "" && Ended(text)
      requires size == 0 || size + Bytes(width, data) <= maxBytes
      modifies `current, `size, `pieces
      ensures Valid()
      ensures pieces == old(pieces) + [text] && Text(current) == old(Text(current)) + data && previous == old(previous)
    {
      PieceAppended(width, start, pieces, dropped, Text(previous), Text(current), text);
      current := Some(Text(current) + data);
      size := size + Bytes(width, data);
      pieces := pieces + [text];
    }

    /** Adds output as it arrives. */
    method Write(chunk: string)
      requires Valid() && InStep()
      modifies this
      ensures Valid() && InStep() && chunks == old(chunks) + [chunk]
      ensures old(failed) ==> failed
      ensures failed ==> |pending| <= 65536
    {
      FedNext(chunks, chunk);
      TakeLines(chunk, Fed(chunks));
      CutLong(Split(Fed(chunks), chunk));
      chunks := chunks + [chunk];
    }

    method TakeLines(chunk: string, ghost f: Feed)
      requires Valid() && Holds(f)
      modifies this
      ensures Valid() && Holds(Split(f, chunk)) && chunks == old(chunks)
      ensures old(failed) ==> failed
    {
      pending := pending + chunk;
      var end := LastNewline(pending);
      if end != -1 {
        SplitLines(f, chunk);
        EndsOnNewline(pending);
        HandOn(end + 1);
      }
    }

    /** Passes on the first n characters of what is pending. */
    method HandOn(n: nat)
      requires Valid() && n <= |pending| && Ended(pending[..n]) && n > 0
      modifies this
      ensures Valid() && chunks == old(chunks) && pending == old(pending[n..])
      ensures old(failed) ==> failed
      ensures !failed ==> pieces == old(pieces) + [old(pending[..n])]
    {
      Append(pending[..n]);
      pending := pending[n..];
    }

    method CutLong(ghost f: Feed)
      requires Valid() && Holds(f)
      modifies this
      ensures Valid() && Holds(Cut(f)) && chunks == old(chunks)
      ensures old(failed) ==> failed
      ensures |pending| <= MAX_PENDING
    {
      if |pending| > MAX_PENDING {
        AppendLine(pending);
        pending := "";
      }
    }

    method EndLine()
      requires Valid() && InStep() && pending != ""
      modifies this
      ensures Valid() && chunks == old(chunks) + ["\n"]
      ensures !failed ==> pieces == Fed(chunks).pieces && Fed(chunks).pending == ""
      ensures old(failed) ==> failed
    {
      if !failed {
        ClosingLine(chunks, pending);
      }
      chunks := chunks + ["\n"];
      AppendLine(pending);
    }

    /** Ends an unfinished line and closes the file; closing may fail without consequence. */
    method Close()
      requires Valid() && InStep()
      modifies this
      ensures Valid() && InStep() && !open && pending == ""
      ensures chunks == old(chunks) + if old(pending) == "" then [] else ["\n"]
      ensures old(failed) ==> failed
    {
      if pending != "" {
        EndLine();
      }
      pending := "";
      open := false;
    }
  }

  // ---- bookkeeping ---------------------------------------------------------

  lemma {:induction false} BytesConcat(width: char -> nat, a: string, b: string)
    ensures Bytes(width, a + b) == Bytes(width, a) + Bytes(width, b)
  {
    if b == "" {
      assert a + b == a;
    } else {
      assert (a + b)[..|a + b| - 1] == a + b[..|b| - 1];
      BytesConcat(width, a, b[..|b| - 1]);
    }
  }

  lemma WrittenAppend(pieces: seq<string>, text: string)
    ensures Written(pieces + [text]) == Written(pieces) + Redact(text)
  {
    assert (pieces + [text])[..|pieces|] == pieces;
  }

  /** What appending a piece does to the equations of the log. */
  lemma PieceAppended(width: char -> nat, start: string, pieces: seq<string>, dropped: string, previous: string,
                      current: string, text: string)
    requires start + Written(pieces) == dropped + (previous + current)
    requires AllEnded(pieces) && text != "" && Ended(text)
    ensures start + Written(pieces + [text]) == dropped + (previous + (current + Redact(text)))
    ensures AllEnded(pieces + [text])
    ensures forall bound :: AllFit(width, pieces + [text], bound)
                       <==> AllFit(width, pieces, bound) && Bytes(width, Redact(text)) <= bound
    ensures Bytes(width, current + Redact(text)) == Bytes(width, current) + Bytes(width, Redact(text))
  {
    BytesConcat(width, current, Redact(text));
    WrittenAppend(pieces, text);
    AppendAtEnd(start, Written(pieces), dropped, previous, current, Redact(text));
    EndedAppend(pieces, text);
    forall bound ensures AllFit(width, pieces + [text], bound)
                    <==> AllFit(width, pieces, bound) && Bytes(width, Redact(text)) <= bound {
      FitAppend(width, pieces, text, bound);
    }
  }

  lemma FitAppend(width: char -> nat, pieces: seq<string>, text: string, bound: nat)
    ensures AllFit(width, pieces + [text], bound)
       <==> AllFit(width, pieces, bound) && Bytes(width, Redact(text)) <= bound
  {
    assert (pieces + [text])[|pieces|] == text;
    assert forall i :: 0 <= i < |pieces| ==> (pieces + [text])[i] == pieces[i];
  }

  /** Setting the current file aside drops the previous one and nothing else. */
  lemma MoveAside(start: string, written: string, dropped: string, previous: string, current: string)
    requires start + written == dropped + (previous + current)
    ensures start + written == (dropped + previous) + (current + "")
  {
    Associate(dropped, previous, current);
    assert current + "" == current;
  }

  lemma EndedAppend(pieces: seq<string>, text: string)
    requires AllEnded(pieces) && text != "" && Ended(text)
    ensures AllEnded(pieces + [text])
  {
  }

  lemma AppendAtEnd(start: string, written: string, dropped: string, previous: string, current: string, data: string)
    requires start + written == dropped + (previous + current)
    ensures start + (written + data) == dropped + (previous + (current + data))
  {
    Associate(start, written, data);
    Associate(previous, current, data);
    Associate(dropped, previous + current, data);
  }

  lemma FedNext(chunks: seq<string>, chunk: string)
    ensures Fed(chunks + [chunk]) == Next(Fed(chunks), chunk)
  {
    assert (chunks + [chunk])[..|chunks|] == chunks;
  }

  lemma ClosingLine(chunks: seq<string>, pending: string)
    requires pending == Fed(chunks).pending && pending != ""
    ensures Fed(chunks + ["\n"]) == Feed(Fed(chunks).pieces + [pending + "\n"], "", Fed(chunks).forced)
  {
    FedNext(chunks, "\n");
    EndedIsTaken(Fed(chunks), "\n");
  }

  lemma EndedIsTaken(f: Feed, chunk: string)
    requires chunk != "" && Ended(chunk)
    ensures Next(f, chunk) == Feed(f.pieces + [f.pending + chunk], "", f.forced)
  {
    var text := f.pending + chunk;
    var n := |text|;
    assert text[n - 1] == '\n' && LastNewline(text) == n - 1;
    assert text[..n] == text && text[n..] == "";
  }

  // ---- what is written -----------------------------------------------------

  ghost predicate AllEnded(pieces: seq<string>) {
    forall i :: 0 <= i < |pieces| ==> pieces[i] != "" && Ended(pieces[i])
  }

  lemma FlatAppend(pieces: seq<string>, text: string)
    ensures Flat(pieces + [text]) == Flat(pieces) + text
  {
    assert (pieces + [text])[..|pieces|] == pieces;
  }

  lemma {:induction false} FlatEnds(pieces: seq<string>)
    requires AllEnded(pieces)
    ensures Ended(Flat(pieces))
  {
    if pieces != [] {
      FlatEnds(pieces[..|pieces| - 1]);
    }
  }

  /** Redacting piece by piece is redacting the whole, because pieces end on lines. */
  lemma {:induction false} WrittenIsRedact(pieces: seq<string>)
    requires AllEnded(pieces)
    ensures Written(pieces) == Redact(Flat(pieces))
  {
    if pieces != [] {
      var init := pieces[..|pieces| - 1];
      WrittenIsRedact(init);
      FlatEnds(init);
      RedactConcat(Flat(init), pieces[|pieces| - 1]);
    }
  }

  lemma SplitPieces(f: Feed, chunk: string)
    requires AllEnded(f.pieces)
    ensures AllEnded(Split(f, chunk).pieces)
    ensures forall i :: 0 <= i < |Split(f, chunk).pending| ==> Split(f, chunk).pending[i] != '\n'
  {
    var text := f.pending + chunk;
    if LastNewline(text) >= 0 {
      EndsOnNewline(text);
      EndedAppend(f.pieces, text[..LastNewline(text) + 1]);
    }
  }

  lemma SplitLines(f: Feed, chunk: string)
    ensures var text := f.pending + chunk;
            var e := LastNewline(text);
            e != -1 ==> Split(f, chunk).pieces == f.pieces + [text[..e + 1]] && Split(f, chunk).pending == text[e + 1..]
  {
  }

  lemma EndsOnNewline(text: string)
    requires LastNewline(text) >= 0
    ensures Ended(text[..LastNewline(text) + 1])
  {
    var e := LastNewline(text);
    assert text[..e + 1][e] == '\n';
  }

  lemma NextPieces(f: Feed, chunk: string)
    requires AllEnded(f.pieces)
    ensures AllEnded(Next(f, chunk).pieces) && |Next(f, chunk).pending| <= MAX_PENDING
    ensures forall i :: 0 <= i < |Next(f, chunk).pending| ==> Next(f, chunk).pending[i] != '\n'
  {
    SplitPieces(f, chunk);
    var g := Split(f, chunk);
    EndedAppend(g.pieces, g.pending + "\n");
  }

  lemma SplitText(f: Feed, chunk: string)
    ensures var g := Split(f, chunk); Flat(g.pieces) + g.pending == Flat(f.pieces) + f.pending + chunk
  {
    var text := f.pending + chunk;
    var e := LastNewline(text) + 1;
    if e == 0 {
      Associate(Flat(f.pieces), f.pending, chunk);
    } else {
      FlatAppend(f.pieces, text[..e]);
      Reassemble(Flat(f.pieces), f.pending, chunk, text[..e], text[e..]);
    }
  }

  lemma Reassemble(before: string, a: string, b: string, c: string, d: string)
    requires |c| <= |a + b| && c == (a + b)[..|c|] && d == (a + b)[|c|..]
    ensures (before + c) + d == (before + a) + b
  {
    Associate(before, a, b);
    Associate(before, c, d);
    assert c + d == a + b;
  }

  /** Nothing is lost, added or moved, but for one line break at each forced cut. */
  lemma NextText(f: Feed, chunk: string)
    ensures var g := Next(f, chunk);
            if g.forced == f.forced then Flat(g.pieces) + g.pending == Flat(f.pieces) + f.pending + chunk
            else |Flat(g.pieces) + g.pending| == |Flat(f.pieces) + f.pending + chunk| + 1
                 && g.forced == f.forced + 1
  {
    SplitText(f, chunk);
    CutText(Split(f, chunk));
  }

  lemma CutText(f: Feed)
    ensures var g := Cut(f);
            if g.forced == f.forced then g == f
            else |Flat(g.pieces) + g.pending| == |Flat(f.pieces) + f.pending| + 1 && g.forced == f.forced + 1
  {
    FlatAppend(f.pieces, f.pending + "\n");
  }

  lemma {:induction false} FedPieces(chunks: seq<string>)
    ensures AllEnded(Fed(chunks).pieces) && |Fed(chunks).pending| <= 65536
    ensures forall i :: 0 <= i < |Fed(chunks).pending| ==> Fed(chunks).pending[i] != '\n'
  {
    if chunks != [] {
      FedPieces(chunks[..|chunks| - 1]);
      NextPieces(Fed(chunks[..|chunks| - 1]), chunks[|chunks| - 1]);
    }
  }

  /** The text is the input, whatever the chunks, exactly when no cut was forced. */
  lemma {:induction false} FedText(chunks: seq<string>)
    ensures var f := Fed(chunks);
            && |Flat(f.pieces) + f.pending| == |Flat(chunks)| + f.forced
            && (f.forced == 0 ==> Flat(f.pieces) + f.pending == Flat(chunks))
  {
    if chunks != [] {
      var init := chunks[..|chunks| - 1];
      FedText(init);
      NextText(Fed(init), chunks[|chunks| - 1]);
    }
  }

  lemma TextIsInputIffNoCut(chunks: seq<string>)
    ensures var f := Fed(chunks); Flat(f.pieces) + f.pending == Flat(chunks) <==> f.forced == 0
  {
    FedText(chunks);
  }

  /** The input with its last line ended. */
  function Terminated(s: string): string {
    if Ended(s) then s else s + "\n"
  }

  /** The chunks as Close leaves them. */
  function Closed(chunks: seq<string>): seq<string> {
    if Fed(chunks).pending == "" then chunks else chunks + ["\n"]
  }

  /** By the end of close the bytes appended are the redacted input, however it was split. */
  lemma ChunksDoNotMatter(chunks: seq<string>)
    requires Fed(chunks).forced == 0
    ensures Written(Fed(Closed(chunks)).pieces) == Redact(Terminated(Flat(chunks)))
  {
    FedPieces(Closed(chunks));
    WrittenIsRedact(Fed(Closed(chunks)).pieces);
    ClosedText(chunks);
  }

  lemma ClosedText(chunks: seq<string>)
    requires Fed(chunks).forced == 0
    ensures Flat(Fed(Closed(chunks)).pieces) == Terminated(Flat(chunks))
  {
    var f := Fed(chunks);
    FedPieces(chunks);
    FedText(chunks);
    FlatEnds(f.pieces);
    if f.pending == "" {
      assert Flat(f.pieces) + f.pending == Flat(f.pieces);
    } else {
      ClosingLine(chunks, f.pending);
      FlatAppend(f.pieces, f.pending + "\n");
      OpenLine(Flat(f.pieces), f.pending);
    }
  }

  lemma OpenLine(before: string, rest: string)
    requires rest != "" && forall i :: 0 <= i < |rest| ==> rest[i] != '\n'
    ensures Terminated(before + rest) == before + (rest + "\n")
  {
    Associate(before, rest, "\n");
    assert (before + rest)[|before + rest| - 1] == rest[|rest| - 1];
  }

  ghost predicate Unbroken(s: string, i: nat, j: nat) {
    i <= j <= |s| && forall k :: i <= k < j ==> s[k] != '\n'
  }

  /** No stretch without a line break is longer than what may be held back. */
  ghost predicate ShortLines(s: string) {
    forall i: nat, j: nat :: Unbroken(s, i, j) ==> j - i <= MAX_PENDING
  }

  lemma ShortLinesPrefix(a: string, b: string)
    requires ShortLines(a + b)
    ensures ShortLines(a)
  {
    forall i: nat, j: nat | Unbroken(a, i, j) ensures j - i <= MAX_PENDING {
      assert Unbroken(a + b, i, j);
    }
  }

  lemma ShortRest(before: string, text: string)
    requires ShortLines(before + text)
    ensures |text| - (LastNewline(text) + 1) <= MAX_PENDING
  {
    assert Unbroken(before + text, |before| + LastNewline(text) + 1, |before + text|);
  }

  /** No splitting of an input with short lines forces a cut. */
  lemma {:induction false} ShortLinesAreNeverCut(chunks: seq<string>)
    requires ShortLines(Flat(chunks))
    ensures Fed(chunks).forced == 0
  {
    if chunks != [] {
      var init, chunk := chunks[..|chunks| - 1], chunks[|chunks| - 1];
      ShortLinesPrefix(Flat(init), chunk);
      ShortLinesAreNeverCut(init);
      FedText(init);
      var f := Fed(init);
      Associate(Flat(f.pieces), f.pending, chunk);
      ShortRest(Flat(f.pieces), f.pending + chunk);
    }
  }

  /** And an input with a longer stretch has a splitting that forces one. */
  lemma LongLinesCanBeCut(s: string) returns (chunks: seq<string>)
    requires !ShortLines(s)
    ensures Flat(chunks) == s && Fed(chunks).forced > 0
  {
    var i: nat, j: nat :| Unbroken(s, i, j) && j - i > MAX_PENDING;
    chunks := [s[..j], s[j..]];
    TwoChunks(s[..j], s[j..]);
    assert s == s[..j] + s[j..];
    LateNewline(s[..j], i);
  }

  lemma TwoChunks(a: string, b: string)
    ensures Flat([a, b]) == a + b
    ensures Fed([a, b]) == Next(Next(Feed([], "", 0), a), b)
  {
    assert [a, b] == ([] + [a]) + [b] && [] + [a] == [a];
    FlatAppend([a], b);
    FlatAppend([], a);
    FedNext([a], b);
    FedNext([], a);
  }

  /** Text without a line break from i on is held back from before i. */
  lemma LateNewline(text: string, i: nat)
    requires i <= |text| && forall k :: i <= k < |text| ==> text[k] != '\n'
    requires |text| - i > MAX_PENDING
    ensures Next(Feed([], "", 0), text).forced == 1
  {
    assert "" + text == text;
    assert LastNewline(text) < i;
  }

  /** Whatever was cut or lost, every mark that reached the file has the placeholder behind it. */
  lemma WrittenIsClean(pieces: seq<string>)
    requires AllEnded(pieces)
    ensures Clean(Written(pieces))
  {
    WrittenIsRedact(pieces);
    SecretsAreGone(Flat(pieces));
  }

  /**
   A whole run of the application: every chunk is written, then the log is
   closed. Without a refusal and without a forced cut the bytes appended are
   the redacted input, whatever the chunks; the two files are always the end of
   what was there and what was appended, and within the bound if every piece is.
   */
  method KeepLog(width: char -> nat, maxBytes: nat, current: Option<string>, previous: Option<string>,
                 chunks: seq<string>)
    returns (log: BackendLog)
    ensures fresh(log) && log.Valid() && !log.open && log.width == width && log.maxBytes == maxBytes
    ensures log.faults == 0 && Fed(chunks).forced == 0 ==> Written(log.pieces) == Redact(Terminated(Flat(chunks)))
    ensures Text(previous) + Text(current) + Written(log.pieces)
         == log.dropped + (Text(log.previous) + Text(log.current))
    ensures Bytes(width, Text(current)) <= maxBytes && Bytes(width, Text(previous)) <= maxBytes
            && AllFit(width, log.pieces, maxBytes)
            ==> Bytes(width, Text(log.current)) <= maxBytes && Bytes(width, Text(log.previous)) <= maxBytes
    ensures Clean(Written(log.pieces))
  {
    log := new BackendLog(width, maxBytes, current, previous);
    WriteAndClose(log, chunks);
    if Fed(chunks).forced == 0 {
      ChunksDoNotMatter(chunks);
    }
    WrittenIsClean(log.pieces);
  }

  method WriteAndClose(log: BackendLog, chunks: seq<string>)
    requires log.Valid() && log.InStep() && log.chunks == []
    modifies log
    ensures log.Valid() && !log.open
    ensures log.faults == 0 ==> log.pieces == Fed(Closed(chunks)).pieces
  {
    WriteAll(log, chunks);
    log.Close();
    assert chunks + [] == chunks;
    assert !log.failed ==> log.chunks == Closed(chunks);
  }

  method WriteAll(log: BackendLog, chunks: seq<string>)
    requires log.Valid() && log.InStep() && log.chunks == []
    modifies log
    ensures log.Valid() && log.InStep() && log.chunks == chunks
  {
    for i := 0 to |chunks|
      invariant log.Valid() && log.InStep() && log.chunks == chunks[..i]
    {
      assert chunks[..i + 1] == chunks[..i] + [chunks[i]];
      log.Write(chunks[i]);
    }
    assert chunks[..|chunks|] == chunks;
  }
}
