/** Cutting an adapter's stderr, read in chunks, into the pieces that are handled one by one. */
module StderrLines {
  import opened Results

  const MAX_LINE := 4096
  const CHUNK_SIZE := 8192

  function Concat(parts: seq<string>): string {
    if parts == [] then "" else parts[0] + Concat(parts[1..])
  }

  lemma {:induction false} ConcatAppend(a: seq<string>, b: seq<string>)
    ensures Concat(a + b) == Concat(a) + Concat(b)
  {
    if a == [] {
      assert a + b == b;
    } else {
      assert (a + b)[1..] == a[1..] + b;
      ConcatAppend(a[1..], b);
    }
  }

  /** Position of the first line feed. */
  function Newline(s: string): (r: Option<nat>)
    ensures r.Some? ==> r.value < |s| && s[r.value] == '\n' && '\n' !in s[..r.value]
    ensures r.None? <==> '\n' !in s
  {
    if s == "" then None
    else if s[0] == '\n' then Some(0)
    else
      assert s == [s[0]] + s[1..];
      match Newline(s[1..])
      case None => None
      case Some(i) => assert s[..i + 1] == [s[0]] + s[1..][..i]; Some(i + 1)
  }

  /** The lines of a whole text, each with its line feed; the last may lack one. */
  function Lines(text: string): seq<string>
    decreases |text|
  {
    if text == "" then []
    else match Newline(text)
      case None => [text]
      case Some(i) => [text[..i + 1]] + Lines(text[i + 1..])
  }

  // ---- What one read contributes ----

  function Terminated(text: string): seq<string>
    decreases |text|
  {
    match Newline(text)
    case None => []
    case Some(i) => [text[..i + 1]] + Terminated(text[i + 1..])
  }

  /** What follows the last line feed. */
  function Rest(text: string): (r: string)
    ensures '\n' !in r
    decreases |text|
  {
    match Newline(text)
    case None => text
    case Some(i) => Rest(text[i + 1..])
  }

  /** Full-length cuts of an overlong unterminated line. */
  function Cuts(line: string): seq<string>
    decreases |line|
  {
    if |line| < MAX_LINE then [] else [line[..MAX_LINE]] + Cuts(line[MAX_LINE..])
  }

  function CutRest(line: string): (r: string)
    ensures |r| < MAX_LINE && ('\n' !in line ==> '\n' !in r)
    decreases |line|
  {
    if |line| < MAX_LINE then line else CutRest(line[MAX_LINE..])
  }

  /** Pieces handled after a read, with `text` the pending line and the chunk. */
  function Ready(text: string): seq<string> {
    Terminated(text) + Cuts(Rest(text))
  }

  function Pending(text: string): (r: string)
    ensures |r| < MAX_LINE && '\n' !in r
  {
    CutRest(Rest(text))
  }

  /** All pieces handled for the remaining chunks and the end of the stream. */
  function PiecesFrom(pending: string, chunks: seq<string>): seq<string>
    decreases |chunks|
  {
    if chunks == [] then if pending == "" then [] else [pending]
    else Ready(pending + chunks[0]) + PiecesFrom(Pending(pending + chunks[0]), chunks[1..])
  }

  function Pieces(chunks: seq<string>): seq<string> {
    PiecesFrom("", chunks)
  }

  // ---- Nothing is lost ----

  lemma FirstLine(text: string, i: nat)
    requires Newline(text) == Some(i)
    ensures Terminated(text) == [text[..i + 1]] + Terminated(text[i + 1..]) && Rest(text) == Rest(text[i + 1..])
  {
  }

  lemma Prepend(head: string, pieces: seq<string>, rest: string)
    ensures Concat([head] + pieces) + rest == head + (Concat(pieces) + rest)
  {
    assert ([head] + pieces)[1..] == pieces;
  }

  lemma {:induction false} TerminatedAndRest(text: string)
    ensures Concat(Terminated(text)) + Rest(text) == text
    decreases |text|
  {
    if Newline(text).Some? {
      var i := Newline(text).value;
      var head, tail := text[..i + 1], text[i + 1..];
      FirstLine(text, i);
      TerminatedAndRest(tail);
      Prepend(head, Terminated(tail), Rest(tail));
      assert head + tail == text;
    }
  }

  lemma {:induction false} CutsAndRest(line: string)
    ensures Concat(Cuts(line)) + CutRest(line) == line
    decreases |line|
  {
    if |line| >= MAX_LINE {
      CutsAndRest(line[MAX_LINE..]);
      assert line == line[..MAX_LINE] + line[MAX_LINE..];
    }
  }

  lemma ReadyAndPending(text: string)
    ensures Concat(Ready(text)) + Pending(text) == text
  {
    hide Terminated, Rest, Cuts, CutRest, Concat;
    TerminatedAndRest(text);
    CutsAndRest(Rest(text));
    ConcatAppend(Terminated(text), Cuts(Rest(text)));
  }

  /** However the stream is chunked, the pieces concatenate to it. */
  lemma {:induction false} PiecesConcat(pending: string, chunks: seq<string>)
    ensures Concat(PiecesFrom(pending, chunks)) == pending + Concat(chunks)
    decreases |chunks|
  {
    hide Ready, Pending;
    if chunks == [] {
      assert pending + "" == pending;
      assert [pending][1..] == [];
    } else {
      var text := pending + chunks[0];
      ReadyAndPending(text);
      PiecesConcat(Pending(text), chunks[1..]);
      ConcatAppend(Ready(text), PiecesFrom(Pending(text), chunks[1..]));
      assert Concat(Ready(text)) + (Pending(text) + Concat(chunks[1..])) == text + Concat(chunks[1..]);
      assert text + Concat(chunks[1..]) == pending + (chunks[0] + Concat(chunks[1..]));
    }
  }

  lemma NothingLost(chunks: seq<string>)
    ensures Concat(Pieces(chunks)) == Concat(chunks)
  {
    PiecesConcat("", chunks);
  }

  // ---- When chunking does not show ----

  /** Every line, its line feed included, is at most as long as the longest piece. */
  ghost predicate Fits(text: string) {
    forall line :: line in Lines(text) ==> |line| <= MAX_LINE
  }

  ghost predicate IsChunking(chunks: seq<string>, stream: string) {
    Concat(chunks) == stream && forall c :: c in chunks ==> 0 < |c| <= CHUNK_SIZE
  }

  lemma LinesStep(text: string, more: string)
    requires Newline(text).Some?
    ensures var i := Newline(text).value; Lines(text + more) == [text[..i + 1]] + Lines(text[i + 1..] + more)
  {
    var i := Newline(text).value;
    NewlineAfter(text, more);
    assert (text + more)[..i + 1] == text[..i + 1] && (text + more)[i + 1..] == text[i + 1..] + more;
  }

  lemma {:induction false} LinesAfter(text: string, more: string)
    ensures Lines(text + more) == Terminated(text) + Lines(Rest(text) + more)
    decreases |text|
  {
    hide Lines, Newline;
    match Newline(text)
    case None =>
      assert [] + Lines(text + more) == Lines(text + more);
    case Some(i) =>
      var first, tail := text[..i + 1], text[i + 1..];
      LinesStep(text, more);
      LinesAfter(tail, more);
      assert [first] + (Terminated(tail) + Lines(Rest(tail) + more)) == [first] + Terminated(tail) + Lines(Rest(tail) + more);
  }

  lemma FitsAfter(text: string, more: string)
    requires Fits(text + more)
    ensures Fits(Rest(text) + more)
  {
    hide Lines, Terminated, Rest;
    LinesAfter(text, more);
    forall line | line in Lines(Rest(text) + more)
      ensures |line| <= MAX_LINE
    {
      assert line in Terminated(text) + Lines(Rest(text) + more);
    }
  }

  lemma {:induction false} NewlineAfter(text: string, more: string)
    requires '\n' in text
    ensures Newline(text + more) == Newline(text)
  {
    if text[0] != '\n' {
      assert text == [text[0]] + text[1..];
      assert (text + more)[1..] == text[1..] + more;
      NewlineAfter(text[1..], more);
    }
  }

  /** An unterminated start of a text is a start of its first line. */
  lemma {:induction false} FirstLineExtends(start: string, more: string)
    requires '\n' !in start && start + more != ""
    ensures Lines(start + more) != [] && start <= Lines(start + more)[0]
    ensures Lines(start + more)[0] == start ==> more == ""
  {
    var text := start + more;
    if Newline(text).Some? {
      var i := Newline(text).value;
      assert forall j :: 0 <= j < |start| ==> text[j] == start[j] && start[j] in start;
    }
  }

  /** A start without line feed that fits is cut only when it is a whole last line of full length. */
  lemma FittingStart(start: string, more: string)
    requires '\n' !in start && Fits(start + more)
    ensures |start| <= MAX_LINE && (|start| == MAX_LINE ==> more == "")
  {
    if start + more != "" {
      FirstLineExtends(start, more);
      var first := Lines(start + more)[0];
      assert first in Lines(start + more);
      assert |start| == MAX_LINE ==> first == start;
    }
  }

  /** A stream whose lines all fit is handled line by line, whatever the chunks. */
  lemma {:induction false} FittingLines(pending: string, chunks: seq<string>)
    requires '\n' !in pending && |pending| < MAX_LINE && Fits(pending + Concat(chunks))
    requires forall c :: c in chunks ==> c != ""
    ensures PiecesFrom(pending, chunks) == Lines(pending + Concat(chunks))
    decreases |chunks|
  {
    hide Terminated, Rest, Lines, Fits, Cuts, CutRest;
    if chunks == [] {
      assert pending + "" == pending;
      OneLine(pending);
    } else {
      var text, more := pending + chunks[0], Concat(chunks[1..]);
      assert pending + Concat(chunks) == text + more;
      LinesAfter(text, more);
      FitsAfter(text, more);
      var rest := Rest(text);
      assert forall c :: c in chunks[1..] ==> c in chunks;
      FittingStart(rest, more);
      CutFitting(rest);
      if |rest| < MAX_LINE {
        FittingLines(rest, chunks[1..]);
      } else {
        ConcatGrows(chunks[1..]);
        OneLine(rest);
        assert rest + more == rest;
      }
    }
  }

  lemma OneLine(line: string)
    requires '\n' !in line
    ensures Lines(line) == if line == "" then [] else [line]
  {
  }

  lemma CutFitting(line: string)
    requires |line| <= MAX_LINE
    ensures Cuts(line) == if |line| == MAX_LINE then [line] else []
    ensures CutRest(line) == if |line| == MAX_LINE then "" else line
  {
    if |line| == MAX_LINE {
      assert line[..MAX_LINE] == line && line[MAX_LINE..] == "";
    }
  }

  lemma {:induction false} ConcatGrows(chunks: seq<string>)
    requires forall c :: c in chunks ==> c != ""
    ensures |Concat(chunks)| >= |chunks|
  {
    if chunks != [] {
      assert chunks[0] in chunks && forall c :: c in chunks[1..] ==> c in chunks;
      ConcatGrows(chunks[1..]);
    }
  }

  // ---- When it does ----

  function OneByOne(s: string): (chunks: seq<string>)
    ensures |chunks| == |s| && forall i :: 0 <= i < |s| ==> chunks[i] == [s[i]]
  {
    seq(|s|, i requires 0 <= i < |s| => [s[i]])
  }

  lemma {:induction false} OneByOneConcat(s: string)
    ensures Concat(OneByOne(s)) == s
  {
    if s != "" {
      assert OneByOne(s)[1..] == OneByOne(s[1..]);
      OneByOneConcat(s[1..]);
    }
  }

  lemma {:induction false} TerminatedShort(text: string)
    ensures forall p :: p in Terminated(text) ==> |p| <= |text|
    ensures |Rest(text)| <= |text|
    decreases |text|
  {
    if Newline(text).Some? {
      TerminatedShort(text[Newline(text).value + 1..]);
    }
  }

  lemma {:induction false} CutsShort(line: string)
    ensures forall p :: p in Cuts(line) ==> |p| <= MAX_LINE
    decreases |line|
  {
    if |line| >= MAX_LINE {
      CutsShort(line[MAX_LINE..]);
    }
  }

  /** Read character by character, no piece is longer than the bound. */
  lemma {:induction false} SlowPiecesShort(pending: string, s: string)
    requires |pending| < MAX_LINE
    ensures forall p :: p in PiecesFrom(pending, OneByOne(s)) ==> |p| <= MAX_LINE
    decreases |s|
  {
    hide Terminated, Rest, Cuts, CutRest;
    if s != "" {
      assert OneByOne(s)[1..] == OneByOne(s[1..]);
      var text := pending + [s[0]];
      TerminatedShort(text);
      CutsShort(Rest(text));
      SlowPiecesShort(Pending(text), s[1..]);
    }
  }

  lemma ChunkingMeans(chunks: seq<string>, stream: string)
    ensures IsChunking(chunks, stream) <==> Concat(chunks) == stream && forall c :: c in chunks ==> 0 < |c| <= 8192
  {
  }

  /** Every chunking of a stream is handled as its lines exactly when all of its lines fit. */
  lemma ChunkingInvisible(stream: string)
    ensures (forall chunks :: IsChunking(chunks, stream) ==> Pieces(chunks) == Lines(stream)) <==>
      forall line :: line in Lines(stream) ==> |line| <= 4096
    ensures (forall line :: line in Lines(stream) ==> |line| <= 4096) <==> Fits(stream)
  {
    hide Lines, PiecesFrom;
    if Fits(stream) {
      forall chunks | IsChunking(chunks, stream)
        ensures Pieces(chunks) == Lines(stream)
      {
        assert "" + Concat(chunks) == stream;
        FittingLines("", chunks);
      }
    }
    OneByOneConcat(stream);
    SlowPiecesShort("", stream);
    assert IsChunking(OneByOne(stream), stream);
    assert Pieces(OneByOne(stream)) == Lines(stream) ==> Fits(stream);
  }
}
