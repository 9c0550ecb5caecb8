/**
 The two newline framers of the worker protocol: `readLines` on the pool's side, which keeps a
 partial line as a list of chunks and looks for newlines in the newest one only, and the worker's
 stdin handler, which keeps one growing buffer. Both must read the same lines out of the same text
 however the pipe cuts it. A chunk is text already decoded.
 */
module LineFraming {
  import opened Common

  // ---- What the lines of a text are ----

  function TrimStart(s: string): string {
    if s != "" && IsSpace(s[0]) then TrimStart(s[1..]) else s
  }

  function TrimEnd(s: string): string {
    if s != "" && IsSpace(s[|s| - 1]) then TrimEnd(s[..|s| - 1]) else s
  }

  function Trim(s: string): string { TrimEnd(TrimStart(s)) }

  /** The text cut at every newline. */
  function Split(text: string): (pieces: seq<string>)
    ensures pieces != []
  {
    if text == "" then [""]
    else
      var pieces, c := Split(text[..|text| - 1]), text[|text| - 1];
      if c == '\n' then pieces + [""] else pieces[..|pieces| - 1] + [pieces[|pieces| - 1] + [c]]
  }

  /** The pieces trimmed, the empty ones dropped. */
  function Emit(pieces: seq<string>): seq<string> {
    if pieces == [] then []
    else
      var rest, line := Emit(pieces[..|pieces| - 1]), Trim(pieces[|pieces| - 1]);
      if line == "" then rest else rest + [line]
  }

  function Lines(text: string): seq<string> { Emit(Split(text)) }

  /** The lines already ended, and the piece still open. */
  function Complete(text: string): seq<string> { Emit(Closed(text)) }

  function Closed(text: string): seq<string> { Split(text)[..|Split(text)| - 1] }

  function Open(text: string): string { Split(text)[|Split(text)| - 1] }

  function Join(parts: seq<string>): string {
    if parts == [] then "" else Join(parts[..|parts| - 1]) + parts[|parts| - 1]
  }

  predicate AllSpace(s: string) {
    forall i :: 0 <= i < |s| ==> IsSpace(s[i])
  }

  lemma {:induction false} TrimStartIsExact(s: string) returns (before: string)
    ensures s == before + TrimStart(s) && AllSpace(before)
    ensures TrimStart(s) != "" ==> !IsSpace(TrimStart(s)[0])
  {
    if s != "" && IsSpace(s[0]) {
      var more := TrimStartIsExact(s[1..]);
      before := [s[0]] + more;
      assert s == [s[0]] + s[1..];
    } else {
      before := "";
    }
  }

  lemma {:induction false} TrimEndIsExact(s: string) returns (after: string)
    ensures s == TrimEnd(s) + after && AllSpace(after)
    ensures TrimEnd(s) != "" ==> !IsSpace(TrimEnd(s)[|TrimEnd(s)| - 1])
  {
    if s != "" && IsSpace(s[|s| - 1]) {
      var more := TrimEndIsExact(s[..|s| - 1]);
      after := more + [s[|s| - 1]];
      assert s == s[..|s| - 1] + [s[|s| - 1]];
    } else {
      after := "";
    }
  }

  /** Trimming takes the white space off both ends, all of it and nothing else. */
  lemma TrimIsExact(s: string) returns (before: string, after: string)
    ensures s == before + Trim(s) + after && AllSpace(before) && AllSpace(after)
    ensures Trim(s) != "" ==> !IsSpace(Trim(s)[0]) && !IsSpace(Trim(s)[|Trim(s)| - 1])
  {
    before := TrimStartIsExact(s);
    after := TrimEndIsExact(TrimStart(s));
    assert Trim(s) != "" ==> Trim(s)[0] == TrimStart(s)[0];
  }

  function Joined(pieces: seq<string>): string {
    if |pieces| == 0 then "" else if |pieces| == 1 then pieces[0]
    else Joined(pieces[..|pieces| - 1]) + "\n" + pieces[|pieces| - 1]
  }

  lemma JoinedOneMore(front: seq<string>, last: string)
    ensures Joined(front + [last]) == if front == [] then last else Joined(front) + ("\n" + last)
  {
    var pieces := front + [last];
    assert pieces[..|front|] == front;
    Associates(Joined(front), "\n", last);
  }

  lemma Associates(a: string, b: string, c: string)
    ensures (a + b) + c == a + (b + c)
  {
  }

  lemma LongerLast(front: seq<string>, last: string, c: char)
    ensures Joined(front + [last + [c]]) == Joined(front + [last]) + [c]
  {
    JoinedOneMore(front, last);
    JoinedOneMore(front, last + [c]);
    Associates("\n", last, [c]);
    Associates(Joined(front), "\n" + last, [c]);
  }

  /** The pieces are what stands between the newlines: none has one inside, and joined by newlines they are
      the text again. */
  lemma {:induction false} SplitIsExact(text: string)
    ensures Joined(Split(text)) == text
    ensures forall i :: 0 <= i < |Split(text)| ==> OneLine(Split(text)[i])
  {
    if text != "" {
      var front, c := text[..|text| - 1], text[|text| - 1];
      SplitIsExact(front);
      var pieces := Split(front);
      assert pieces == pieces[..|pieces| - 1] + [pieces[|pieces| - 1]];
      JoinedOneMore(pieces, "");
      LongerLast(pieces[..|pieces| - 1], pieces[|pieces| - 1], c);
      assert text == front + [c];
    }
  }

  predicate OneLine(s: string) { '\n' !in s }

  lemma JoinAppend(parts: seq<string>, s: string)
    ensures Join(parts + [s]) == Join(parts) + s
  {
    assert (parts + [s])[..|parts|] == parts;
  }

  lemma EmitAppend(pieces: seq<string>, piece: string)
    ensures Emit(pieces + [piece]) == if Trim(piece) == "" then Emit(pieces) else Emit(pieces) + [Trim(piece)]
  {
    assert (pieces + [piece])[..|pieces|] == pieces;
  }

  lemma LinesAreCompleteAndOpen(text: string)
    ensures Lines(text) == if Trim(Open(text)) == "" then Complete(text) else Complete(text) + [Trim(Open(text))]
  {
    var pieces := Split(text);
    assert pieces == pieces[..|pieces| - 1] + [pieces[|pieces| - 1]];
    EmitAppend(pieces[..|pieces| - 1], pieces[|pieces| - 1]);
  }

  lemma {:induction false} ExtendsSplit(text: string, s: string)
    requires OneLine(s)
    ensures Closed(text + s) == Closed(text) && Open(text + s) == Open(text) + s
  {
    if s == "" {
      assert text + s == text && Open(text) + s == Open(text);
    } else {
      var front, c := s[..|s| - 1], s[|s| - 1];
      assert c in s;
      ExtendsSplit(text, front);
      assert text + s == text + front + [c];
      SplitAppend(text + front, c);
      assert Open(text) + front + [c] == Open(text) + s;
    }
  }

  /** Text without a newline only lengthens the open piece. */
  lemma ExtendsOpen(text: string, s: string)
    requires OneLine(s)
    ensures Complete(text + s) == Complete(text) && Open(text + s) == Open(text) + s
  {
    ExtendsSplit(text, s);
  }

  lemma SplitAppend(text: string, c: char)
    ensures c == '\n' ==> Closed(text + [c]) == Split(text) && Open(text + [c]) == ""
    ensures c != '\n' ==> Closed(text + [c]) == Closed(text) && Open(text + [c]) == Open(text) + [c]
  {
    assert (text + [c])[..|text|] == text;
  }

  /** A newline closes it. */
  lemma ClosesOpen(text: string)
    ensures Complete(text + "\n") == Lines(text) && Open(text + "\n") == ""
  {
    SplitAppend(text, '\n');
  }

  // ---- The pool's reader ----

  method IndexOfNewline(chunk: string, start: nat) returns (at: nat)
    requires start <= |chunk|
    ensures start <= at <= |chunk| && OneLine(chunk[start..at]) && (at < |chunk| ==> chunk[at] == '\n')
  {
    at := start;
    while at < |chunk| && chunk[at] != '\n'
      invariant start <= at <= |chunk| && OneLine(chunk[start..at])
    {
      assert chunk[start..at + 1] == chunk[start..at] + [chunk[at]];
      at := at + 1;
    }
  }

  lemma OneMorePiece(text: string, chunk: string, start: nat, at: nat)
    requires start <= at <= |chunk| && OneLine(chunk[start..at])
    ensures Complete(text + chunk[..at]) == Complete(text + chunk[..start])
    ensures Open(text + chunk[..at]) == Open(text + chunk[..start]) + chunk[start..at]
  {
    assert text + chunk[..start] + chunk[start..at] == text + chunk[..at];
    ExtendsOpen(text + chunk[..start], chunk[start..at]);
  }

  /** A piece and the newline after it: one more line, if there is anything in it. */
  lemma OneMoreLine(text: string, chunk: string, start: nat, at: nat)
    requires start <= at < |chunk| && chunk[at] == '\n' && OneLine(chunk[start..at])
    ensures var line := Trim(Open(text + chunk[..start]) + chunk[start..at]);
      Complete(text + chunk[..at + 1]) == Complete(text + chunk[..start]) + (if line == "" then [] else [line])
    ensures Open(text + chunk[..at + 1]) == ""
  {
    OneMorePiece(text, chunk, start, at);
    LinesAreCompleteAndOpen(text + chunk[..at]);
    assert text + chunk[..at + 1] == text + chunk[..at] + "\n";
    ClosesOpen(text + chunk[..at]);
  }

  /** One chunk: the lines it completes, and what is left open. */
  method ReadChunk(chunk: string, open: seq<string>, ghost text: string)
      returns (lines: seq<string>, pending: seq<string>)
    requires Join(open) == Open(text)
    ensures Complete(text + chunk) == Complete(text) + lines && Join(pending) == Open(text + chunk)
  {
    lines, pending := [], open;
    assert text + chunk[..0] == text;
    var start := 0;
    var newlineIndex := IndexOfNewline(chunk, 0);
    while newlineIndex < |chunk|
      invariant start <= newlineIndex <= |chunk| && OneLine(chunk[start..newlineIndex])
      invariant newlineIndex < |chunk| ==> chunk[newlineIndex] == '\n'
      invariant Complete(text + chunk[..start]) == Complete(text) + lines
      invariant Join(pending) == Open(text + chunk[..start])
      decreases |chunk| - start
    {
      JoinAppend(pending, chunk[start..newlineIndex]);
      pending := pending + [chunk[start..newlineIndex]];
      OneMoreLine(text, chunk, start, newlineIndex);
      var trimmed := Trim(Join(pending));
      if trimmed != "" { lines := lines + [trimmed]; }
      pending := [];
      start := newlineIndex + 1;
      newlineIndex := IndexOfNewline(chunk, start);
    }
    OneMorePiece(text, chunk, start, |chunk|);
    assert chunk[..|chunk|] == chunk;
    if start < |chunk| {
      JoinAppend(pending, chunk[start..]);
      pending := pending + [chunk[start..]];
    }
  }

  /** `tail` is what the decoder still held back when the stream ended. */
  method ReadLines(chunks: seq<string>, tail: string) returns (lines: seq<string>)
    requires OneLine(tail)
    ensures lines == Lines(Join(chunks) + tail)
  {
    lines := [];
    var pending: seq<string> := [];
    for i := 0 to |chunks|
      invariant lines == Complete(Join(chunks[..i])) && Join(pending) == Open(Join(chunks[..i]))
    {
      assert chunks[..i + 1] == chunks[..i] + [chunks[i]];
      JoinAppend(chunks[..i], chunks[i]);
      var more;
      more, pending := ReadChunk(chunks[i], pending, Join(chunks[..i]));
      lines := lines + more;
    }
    assert chunks[..|chunks|] == chunks;
    ExtendsOpen(Join(chunks), tail);
    JoinAppend(pending, tail);
    pending := pending + [tail];
    LinesAreCompleteAndOpen(Join(chunks) + tail);
    var trimmed := Trim(Join(pending));
    if trimmed != "" { lines := lines + [trimmed]; }
  }

  // ---- The worker's reader ----

  class LineBuffer {
    var inputBuffer: string
    ghost var text: string

    /** The buffer is the open piece of all text received. */
    ghost predicate Valid()
      reads this
    {
      inputBuffer == Open(text) && OneLine(inputBuffer)
    }

    constructor ()
      ensures Valid() && text == ""
    {
      inputBuffer, text := "", "";
    }

    method OnData(chunk: string) returns (lines: seq<string>)
      requires Valid()
      modifies this
      ensures Valid() && text == old(text) + chunk
      ensures Complete(text) == Complete(old(text)) + lines
    {
      lines := [];
      var buffer := inputBuffer + chunk;
      ghost var seen, rest, before := text, chunk, text;
      while '\n' in buffer
        invariant seen + rest == before + chunk
        invariant buffer == Open(seen) + rest && OneLine(Open(seen))
        invariant Complete(seen) == Complete(before) + lines
        decreases |buffer|
      {
        var at := IndexOfNewline(buffer, 0);
        NewlineBeyond(Open(seen), rest, at);
        ghost var taken := at - |Open(seen)|;
        TakesLine(seen, rest, at);
        var line := Trim(buffer[..at]);
        buffer := buffer[at + 1..];
        if line != "" { lines := lines + [line]; }
        seen, rest := seen + rest[..taken + 1], rest[taken + 1..];
      }
      assert OneLine(rest) by { assert forall c :: c in rest ==> c in buffer; }
      ExtendsOpen(seen, rest);
      inputBuffer := buffer;
      text := before + chunk;
    }

    method OnEnd() returns (lines: seq<string>)
      requires Valid()
      modifies this`inputBuffer
      ensures Complete(text) + lines == Lines(text) && inputBuffer == ""
    {
      LinesAreCompleteAndOpen(text);
      var line := Trim(inputBuffer);
      inputBuffer := "";
      lines := if line == "" then [] else [line];
    }
  }

  /** The first line of the buffer, newline included, moves from the rest to what is done. */
  lemma TakesLine(seen: string, rest: string, at: nat)
    requires |Open(seen)| <= at < |Open(seen) + rest| && (Open(seen) + rest)[at] == '\n'
        && OneLine((Open(seen) + rest)[0..at])
    ensures var n := at - |Open(seen)|; var line := Trim((Open(seen) + rest)[..at]);
      && Complete(seen + rest[..n + 1]) == Complete(seen) + (if line == "" then [] else [line])
      && Open(seen + rest[..n + 1]) == "" && (Open(seen) + rest)[at + 1..] == rest[n + 1..]
      && seen + rest[..n + 1] + rest[n + 1..] == seen + rest
  {
    var buffer, n := Open(seen) + rest, at - |Open(seen)|;
    assert buffer[..at] == Open(seen) + rest[0..n];
    assert forall c :: c in rest[0..n] ==> c in buffer[0..at];
    assert seen + rest[..0] == seen;
    OneMoreLine(seen, rest, 0, n);
  }

  lemma NewlineBeyond(open: string, rest: string, at: nat)
    requires OneLine(open) && '\n' in open + rest && at <= |open + rest| && OneLine((open + rest)[0..at])
    requires at < |open + rest| ==> (open + rest)[at] == '\n'
    ensures |open| <= at < |open + rest|
  {
    assert (open + rest)[0..|open + rest|] == open + rest;
    assert forall j :: 0 <= j < |open| ==> (open + rest)[j] == open[j] && open[j] in open;
  }

  /** The worker's handler over a whole input, cut anyhow. */
  method HandleInput(chunks: seq<string>) returns (lines: seq<string>)
    ensures lines == Lines(Join(chunks))
  {
    var buffer := new LineBuffer();
    lines := [];
    for i := 0 to |chunks|
      invariant fresh(buffer) && buffer.Valid() && buffer.text == Join(chunks[..i]) && lines == Complete(buffer.text)
    {
      assert chunks[..i + 1] == chunks[..i] + [chunks[i]];
      JoinAppend(chunks[..i], chunks[i]);
      var more := buffer.OnData(chunks[i]);
      lines := lines + more;
    }
    assert chunks[..|chunks|] == chunks;
    var more := buffer.OnEnd();
    lines := lines + more;
  }

  // ---- One-line messages ----

  /** A message as `JSON.stringify` writes it: no newline, and nothing a trim would take. */
  predicate IsMessage(s: string) { OneLine(s) && s != "" && !IsSpace(s[0]) && !IsSpace(s[|s| - 1]) }

  function Written(messages: seq<string>): string {
    if messages == [] then "" else Written(messages[..|messages| - 1]) + messages[|messages| - 1] + "\n"
  }

  /** Messages written one to a line are the lines of what was written, nothing more and nothing less;
      with ReadLines and HandleInput, they are read back exactly however the text is cut. */
  lemma {:induction false} MessagesAreReadBack(messages: seq<string>, chunks: seq<string>)
    requires forall m :: m in messages ==> IsMessage(m)
    requires Join(chunks) == Written(messages)
    ensures Lines(Join(chunks)) == messages && Complete(Join(chunks)) == messages && Open(Join(chunks)) == ""
  {
    WrittenReadsBack(messages);
    LinesAreCompleteAndOpen(Written(messages));
  }

  lemma {:induction false} WrittenReadsBack(messages: seq<string>)
    requires forall m :: m in messages ==> IsMessage(m)
    ensures Complete(Written(messages)) == messages && Open(Written(messages)) == ""
  {
    if messages != [] {
      var front, last := messages[..|messages| - 1], messages[|messages| - 1];
      assert messages == front + [last];
      assert IsMessage(last) && Trim(last) == last;
      WrittenReadsBack(front);
      ExtendsOpen(Written(front), last);
      LinesAreCompleteAndOpen(Written(front) + last);
      ClosesOpen(Written(front) + last);
      assert "" + last == last;
    }
  }
}
