/** Reading an adapter's output within a byte limit, and separating its event lines from its log. Characters are
    single bytes throughout. */
module StderrFilter {
  import opened Results
  import opened StderrLines

  const EVENT_PREFIX := "@@AGENTHERO_EVENT "

  /** How a stream is read: the byte limit, which listeners there are, and the event a payload decodes to. */
  datatype Reading = Reading(limit: nat, events: bool, logLines: bool, decode: string -> Option<string>)

  datatype Sinks = Sinks(out: string, truncated: bool, events: seq<string>, logLines: seq<string>)

  const EMPTY_SINKS := Sinks("", false, [], [])

  function TrimEnd(line: string): string {
    if line != "" && line[|line| - 1] in {'\n', '\r'} then TrimEnd(line[..|line| - 1]) else line
  }

  /** Trimming removes the line ending, all of it and nothing else. */
  lemma {:induction false} TrimEndMeans(line: string)
    ensures var t := TrimEnd(line);
      && t <= line && (t != "" ==> t[|t| - 1] != '\n' && t[|t| - 1] != '\r')
      && forall i :: |t| <= i < |line| ==> line[i] == '\n' || line[i] == '\r'
  {
    if line != "" && line[|line| - 1] in {'\n', '\r'} {
      TrimEndMeans(line[..|line| - 1]);
    }
  }

  predicate IsEvent(rd: Reading, line: string) {
    rd.events && EVENT_PREFIX <= TrimEnd(line)
  }

  function Payload(line: string): string
    requires EVENT_PREFIX <= TrimEnd(line)
  {
    TrimEnd(line)[|EVENT_PREFIX|..]
  }

  /** A line is an event exactly when events are listened to and its text starts with the marker. */
  lemma EventMeans(rd: Reading, line: string)
    ensures IsEvent(rd, line) <==> rd.events && "@@AGENTHERO_EVENT " <= TrimEnd(line)
    ensures IsEvent(rd, line) ==> TrimEnd(line) == "@@AGENTHERO_EVENT " + Payload(line)
  {
    hide TrimEnd;
  }

  /** Append within the limit, noting when something did not fit. */
  function Appended(limit: nat, s: Sinks, bytes: string): Sinks {
    var remaining := if |s.out| < limit then limit - |s.out| else 0;
    if remaining == 0 then s.(truncated := true)
    else if |bytes| > remaining then s.(out := s.out + bytes[..remaining], truncated := true)
    else s.(out := s.out + bytes)
  }

  function Handle(rd: Reading, s: Sinks, line: string): Sinks {
    if IsEvent(rd, line) then
      match rd.decode(Payload(line))
      case Some(event) => s.(events := s.events + [event])
      case None => s
    else
      var logged := if TrimEnd(line) != "" && rd.logLines then s.(logLines := s.logLines + [TrimEnd(line)]) else s;
      Appended(rd.limit, logged, line)
  }

  function HandleAll(rd: Reading, s: Sinks, pieces: seq<string>): Sinks
    decreases |pieces|
  {
    if pieces == [] then s else HandleAll(rd, Handle(rd, s, pieces[0]), pieces[1..])
  }

  // ---- What the sinks end up with ----

  function LogPiece(rd: Reading, piece: string): seq<string> {
    if IsEvent(rd, piece) then [] else [piece]
  }

  function LogPieces(rd: Reading, pieces: seq<string>): seq<string> {
    if pieces == [] then [] else LogPiece(rd, pieces[0]) + LogPieces(rd, pieces[1..])
  }

  function EventOf(rd: Reading, piece: string): seq<string> {
    if !IsEvent(rd, piece) then []
    else match rd.decode(Payload(piece))
      case Some(event) => [event]
      case None => []
  }

  function EventsOf(rd: Reading, pieces: seq<string>): seq<string> {
    if pieces == [] then [] else EventOf(rd, pieces[0]) + EventsOf(rd, pieces[1..])
  }

  /** A log piece without its line ending, unless it is blank. */
  function LogLineOf(rd: Reading, piece: string): seq<string> {
    if !rd.logLines || IsEvent(rd, piece) || TrimEnd(piece) == "" then [] else [TrimEnd(piece)]
  }

  function LogLinesOf(rd: Reading, pieces: seq<string>): seq<string> {
    if pieces == [] then [] else LogLineOf(rd, pieces[0]) + LogLinesOf(rd, pieces[1..])
  }

  function Prefix(s: string, limit: nat): string {
    if |s| <= limit then s else s[..limit]
  }

  /** Sinks that have received `log`: its first `limit` bytes are kept, and truncation is noted when there were more. */
  predicate Holds(limit: nat, s: Sinks, log: string) {
    s.out == Prefix(log, limit) && (s.truncated <==> |log| > limit)
  }

  lemma AppendHolds(limit: nat, s: Sinks, log: string, bytes: string)
    requires Holds(limit, s, log) && bytes != ""
    ensures Holds(limit, Appended(limit, s, bytes), log + bytes)
  {
    if |log| < limit && |log| + |bytes| > limit {
      assert (log + bytes)[..limit] == log + bytes[..limit - |log|];
    } else if |log| >= limit {
      assert (log + bytes)[..limit] == Prefix(log, limit);
    }
  }

  lemma HandledOne(rd: Reading, s: Sinks, log: string, piece: string)
    requires Holds(rd.limit, s, log) && piece != ""
    ensures var r := Handle(rd, s, piece);
      && Holds(rd.limit, r, log + Concat(LogPiece(rd, piece)))
      && r.events == s.events + EventOf(rd, piece)
      && r.logLines == s.logLines + LogLineOf(rd, piece)
  {
    hide TrimEnd;
    if IsEvent(rd, piece) {
      assert log + Concat([]) == log;
    } else {
      var logged := if TrimEnd(piece) != "" && rd.logLines then s.(logLines := s.logLines + [TrimEnd(piece)]) else s;
      assert Concat([piece]) == piece + "" == piece;
      AppendHolds(rd.limit, logged, log, piece);
    }
  }

  lemma {:induction false} HandledAll(rd: Reading, s: Sinks, log: string, pieces: seq<string>)
    requires Holds(rd.limit, s, log) && forall p :: p in pieces ==> p != ""
    ensures var r := HandleAll(rd, s, pieces);
      && Holds(rd.limit, r, log + Concat(LogPieces(rd, pieces)))
      && r.events == s.events + EventsOf(rd, pieces)
      && r.logLines == s.logLines + LogLinesOf(rd, pieces)
    decreases |pieces|
  {
    hide Holds, Handle, LogPiece, EventOf, LogLineOf;
    if pieces == [] {
      assert log + "" == log;
    } else {
      var p, rest := pieces[0], pieces[1..];
      assert p in pieces && forall q :: q in rest ==> q in pieces;
      HandledOne(rd, s, log, p);
      hide Concat;
      HandledAll(rd, Handle(rd, s, p), log + Concat(LogPiece(rd, p)), rest);
      ConcatAppend(LogPiece(rd, p), LogPieces(rd, rest));
      Regroup(log, Concat(LogPiece(rd, p)), Concat(LogPieces(rd, rest)));
    }
  }

  lemma Regroup(a: string, b: string, c: string)
    ensures a + b + c == a + (b + c)
  {
  }

  lemma {:induction false} LinesNotEmpty(text: string)
    ensures forall line :: line in Lines(text) ==> line != ""
    decreases |text|
  {
    if text != "" && Newline(text).Some? {
      LinesNotEmpty(text[Newline(text).value + 1..]);
    }
  }

  /** For every chunking of a stream whose lines fit, the events, the log lines, the retained bytes and the
      truncation flag are those of its lines: retained is the start of the log, up to the limit. */
  lemma FilteredLineByLine(rd: Reading, chunks: seq<string>, stream: string)
    requires IsChunking(chunks, stream) && Fits(stream)
    ensures var r := HandleAll(rd, EMPTY_SINKS, Pieces(chunks));
      var log := Concat(LogPieces(rd, Lines(stream)));
      && r.out == Prefix(log, rd.limit) && (r.truncated <==> |log| > rd.limit)
      && r.events == EventsOf(rd, Lines(stream))
      && r.logLines == LogLinesOf(rd, Lines(stream))
  {
    hide Lines, Pieces, Fits, HandleAll, LogPieces, Concat, EventsOf, LogLinesOf;
    ChunkingInvisible(stream);
    LinesNotEmpty(stream);
    HandledAll(rd, EMPTY_SINKS, "", Lines(stream));
    assert "" + Concat(LogPieces(rd, Lines(stream))) == Concat(LogPieces(rd, Lines(stream)));
  }

  // ---- The readers ----

  class StderrSinks {
    var out: string
    var truncated: bool
    var events: seq<string>
    var logLines: seq<string>

    function Contents(): Sinks
      reads this
    {
      Sinks(out, truncated, events, logLines)
    }

    constructor ()
      ensures Contents() == EMPTY_SINKS
    {
      out, truncated, events, logLines := "", false, [], [];
    }

    method AppendLimitedOutput(limit: nat, bytes: string)
      modifies this
      ensures Contents() == Appended(limit, old(Contents()), bytes)
    {
      var remaining := if |out| < limit then limit - |out| else 0;
      if remaining == 0 {
        truncated := true;
      } else if |bytes| > remaining {
        out := out + bytes[..remaining];
        truncated := true;
      } else {
        out := out + bytes;
      }
    }

    /** Whether the line was an event line; a malformed event is dropped. */
    method EmitAdapterEventLine(rd: Reading, line: string) returns (isEvent: bool)
      modifies this
      ensures isEvent == (rd.events && EVENT_PREFIX <= line)
      ensures isEvent ==> Contents() == old(Contents()).(events := old(events) +
        match rd.decode(line[|EVENT_PREFIX|..]) case Some(event) => [event] case None => [])
      ensures !isEvent ==> Contents() == old(Contents())
    {
      if !(EVENT_PREFIX <= line) || !rd.events {
        return false;
      }
      match rd.decode(line[|EVENT_PREFIX|..]) {
        case Some(event) => events := events + [event];
        case None =>
      }
      isEvent := true;
    }

    method HandleStderrLine(rd: Reading, line: string)
      modifies this
      ensures Contents() == Handle(rd, old(Contents()), line)
    {
      var trimmed := TrimLineEnding(line);
      var isEvent := EmitAdapterEventLine(rd, trimmed);
      if !isEvent {
        if trimmed != "" && rd.logLines {
          logLines := logLines + [trimmed];
        }
        AppendLimitedOutput(rd.limit, line);
      }
    }
  }

  method TrimLineEnding(line: string) returns (trimmed: string)
    ensures trimmed == TrimEnd(line)
    ensures trimmed <= line && (trimmed != "" ==> trimmed[|trimmed| - 1] != '\n' && trimmed[|trimmed| - 1] != '\r')
    ensures forall i :: |trimmed| <= i < |line| ==> line[i] == '\n' || line[i] == '\r'
  {
    TrimEndMeans(line);
    trimmed := line;
    while trimmed != "" && trimmed[|trimmed| - 1] in {'\n', '\r'}
      invariant TrimEnd(trimmed) == TrimEnd(line)
      decreases |trimmed|
    {
      trimmed := trimmed[..|trimmed| - 1];
    }
  }

  lemma {:induction false} HandleMore(rd: Reading, s: Sinks, a: seq<string>, b: seq<string>)
    ensures HandleAll(rd, s, a + b) == HandleAll(rd, HandleAll(rd, s, a), b)
    decreases |a|
  {
    if a == [] {
      assert a + b == b;
    } else {
      assert (a + b)[1..] == a[1..] + b;
      HandleMore(rd, Handle(rd, s, a[0]), a[1..], b);
    }
  }

  /** Handle the complete lines of `text`, then its full-length cuts; what is left stays pending. */
  method HandleReady(rd: Reading, text: string, sinks: StderrSinks) returns (pending: string)
    modifies sinks
    ensures pending == Pending(text)
    ensures sinks.Contents() == HandleAll(rd, old(sinks.Contents()), Ready(text))
  {
    hide Handle, Newline;
    HandleMore(rd, sinks.Contents(), Terminated(text), Cuts(Rest(text)));
    pending := text;
    while '\n' in pending
      invariant Rest(pending) == Rest(text)
      invariant HandleAll(rd, sinks.Contents(), Terminated(pending)) == HandleAll(rd, old(sinks.Contents()), Terminated(text))
      decreases |pending|
    {
      var end := Newline(pending).value + 1;
      var line := pending[..end];
      assert Terminated(pending)[1..] == Terminated(pending[end..]);
      pending := pending[end..];
      sinks.HandleStderrLine(rd, line);
    }
    assert pending == Rest(text) && Terminated(pending) == [];
    while |pending| >= MAX_LINE
      invariant CutRest(pending) == CutRest(Rest(text))
      invariant HandleAll(rd, sinks.Contents(), Cuts(pending)) == HandleAll(rd, old(sinks.Contents()), Ready(text))
      decreases |pending|
    {
      var line := pending[..MAX_LINE];
      assert Cuts(pending)[1..] == Cuts(pending[MAX_LINE..]);
      pending := pending[MAX_LINE..];
      sinks.HandleStderrLine(rd, line);
    }
  }

  /** Read chunks until an empty read, handling each piece as soon as it is complete. */
  method ReadLimitedAndFilter(rd: Reading, chunks: seq<string>, sinks: StderrSinks)
    modifies sinks
    ensures sinks.Contents() == HandleAll(rd, old(sinks.Contents()), Pieces(chunks))
  {
    hide Ready, Pending, Handle;
    var pending := "";
    var i := 0;
    assert chunks[0..] == chunks;
    while i < |chunks|
      invariant 0 <= i <= |chunks|
      invariant HandleAll(rd, sinks.Contents(), PiecesFrom(pending, chunks[i..])) == HandleAll(rd, old(sinks.Contents()), Pieces(chunks))
    {
      var text := pending + chunks[i];
      assert chunks[i..][1..] == chunks[i + 1..];
      HandleMore(rd, sinks.Contents(), Ready(text), PiecesFrom(Pending(text), chunks[i + 1..]));
      pending := HandleReady(rd, text, sinks);
      i := i + 1;
    }
    assert chunks[i..] == [];
    if pending != "" {
      assert [pending][1..] == [];
      sinks.HandleStderrLine(rd, pending);
    }
  }

  /** Read everything, keeping the first `limit` bytes. */
  method ReadLimited(limit: nat, chunks: seq<string>) returns (out: string, truncated: bool)
    requires forall c :: c in chunks ==> c != ""
    ensures out == Prefix(Concat(chunks), limit)
    ensures truncated <==> |Concat(chunks)| > limit
  {
    out, truncated := "", false;
    var i := 0;
    while i < |chunks|
      invariant 0 <= i <= |chunks|
      invariant Holds(limit, Sinks(out, truncated, [], []), Concat(chunks[..i]))
    {
      ghost var before := Sinks(out, truncated, [], []);
      var read := chunks[i];
      assert read in chunks;
      var remaining := if |out| < limit then limit - |out| else 0;
      if remaining == 0 {
        truncated := true;
      } else if |read| > remaining {
        out := out + read[..remaining];
        truncated := true;
      } else {
        out := out + read;
      }
      AppendHolds(limit, before, Concat(chunks[..i]), read);
      assert chunks[..i + 1] == chunks[..i] + [read];
      ConcatAppend(chunks[..i], [read]);
      i := i + 1;
    }
    assert chunks[..i] == chunks;
  }
}
