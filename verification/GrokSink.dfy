/** The stream sink of the Grok runner: frames lines, normalises records and bounds
    everything it keeps. Decoding, redaction and encoding are parameters. */
module GrokSink {
  import opened Common

  type Byte = b: int | 0 <= b < 256
  type Bytes = seq<Byte>

  const NEWLINE: Byte := 10
  const MAX_SUMMARY: nat := 8192
  const REDACT_OVERLAP: nat := 4096

  datatype Stream = Stdout | Stderr

  datatype Usage = Usage(input: Option<int>, output: Option<int>, total: Option<int>)

  datatype Meta = Meta(session: string, model: string, effort: string, usage: Usage)

  /** A decoded frame; empty strings are absent fields. */
  datatype Frame = Frame(
    session: string, model: string, effort: string, usage: Usage, text: Bytes,
    structured: Option<Bytes>, terminal: bool, error: string)

  datatype Record = Diagnostic(message: Bytes) | Malformed(message: Bytes) | Normalized(frame: Frame)

  datatype Fault =
    | FrameFlood(stream: Stream) | DiagnosticFlood | LogFlood | LogWriteFailed | NotEncodable
    | NotJson | BadFrame | Unterminated(inner: Fault) | ProviderError(message: string)

  datatype Parsed = NoJson | Refused | Good(frame: Frame)

  /** `accepts` says whether the log takes the next write. */
  datatype Codec = Codec(
    trim: Bytes -> Bytes, parse: Bytes -> Parsed, redact: Bytes -> Bytes,
    encode: Record -> Option<Bytes>, accepts: (nat, Bytes) -> bool)

  datatype Config = Config(codec: Codec, maxLog: nat, maxFrame: nat)

  datatype Sink = Sink(
    out: Bytes, err: Bytes, written: nat, log: seq<Bytes>, fault: Option<Fault>,
    terminal: bool, summary: Bytes, meta: Meta)

  // ----- Pieces -----

  function Take(s: Bytes, n: nat): Bytes {
    if |s| <= n then s else s[..n]
  }

  /** A limit of zero or less means no limit; the flag tells that something was cut. */
  function RedactBounded(c: Config, value: Bytes, limit: int): (Bytes, bool) {
    var r := c.codec.redact(value);
    if limit <= 0 || |r| <= limit then (r, false) else (r[..limit], true)
  }

  function Cap(c: Config): nat {
    c.maxFrame + if REDACT_OVERLAP > c.maxFrame then c.maxFrame else REDACT_OVERLAP
  }

  /** Only the first fault is kept. */
  function SetFault(s: Sink, f: Fault): Sink {
    if s.fault.None? then s.(fault := Some(f)) else s
  }

  function Line(s: Sink, stream: Stream): Bytes {
    if stream == Stdout then s.out else s.err
  }

  function SetLine(s: Sink, stream: Stream, line: Bytes): Sink {
    if stream == Stdout then s.(out := line) else s.(err := line)
  }

  function AppendPartial(c: Config, s: Sink, stream: Stream, p: Bytes): Sink {
    var line := Take(Line(s, stream) + p, Cap(c));
    var t := SetLine(s, stream, line);
    if |line| > c.maxFrame then SetFault(t, FrameFlood(stream)) else t
  }

  function WriteRecord(c: Config, s: Sink, r: Record): Sink {
    match c.codec.encode(r)
    case None => SetFault(s, NotEncodable)
    case Some(data) =>
      var line := data + [NEWLINE];
      if s.written + |line| > c.maxLog then SetFault(s, LogFlood)
      else if !c.codec.accepts(|s.log|, line) then SetFault(s, LogWriteFailed)
      else s.(log := s.log + [line], written := s.written + |line|)
  }

  function FirstKnown<T>(a: Option<T>, b: Option<T>): Option<T> {
    if a.None? then b else a
  }

  function MergeUsage(a: Usage, b: Usage): Usage {
    Usage(FirstKnown(a.input, b.input), FirstKnown(a.output, b.output), FirstKnown(a.total, b.total))
  }

  function Latest(known: string, told: string): string {
    if told != "" then told else known
  }

  function AppendSummary(c: Config, summary: Bytes, value: Bytes): Bytes {
    if |summary| >= MAX_SUMMARY then summary
    else summary + RedactBounded(c, value, MAX_SUMMARY - |summary|).0
  }

  function ApplyFrame(c: Config, s: Sink, f: Frame): Sink {
    var meta := Meta(Latest(s.meta.session, f.session), Latest(s.meta.model, f.model),
                     Latest(s.meta.effort, f.effort), MergeUsage(s.meta.usage, f.usage));
    var appended := if f.text != [] then AppendSummary(c, s.summary, f.text) else s.summary;
    var summary := if f.structured.Some? then AppendSummary(c, [], f.structured.value) else appended;
    var t := s.(meta := meta, summary := summary, terminal := s.terminal || f.terminal);
    WriteRecord(c, if f.error != "" then SetFault(t, ProviderError(f.error)) else t, Normalized(f))
  }

  function HandleLine(c: Config, s: Sink, line: Bytes): (Sink, Option<Fault>) {
    match c.codec.parse(line)
    case NoJson => (WriteRecord(c, s, Malformed(RedactBounded(c, line, c.maxFrame).0)), Some(NotJson))
    case Refused => (s, Some(BadFrame))
    case Good(f) => (ApplyFrame(c, s, f), None)
  }

  function FlushErr(c: Config, s: Sink, line: Bytes): Sink {
    var (message, cut) := RedactBounded(c, line, c.maxFrame);
    WriteRecord(c, if cut then SetFault(s, DiagnosticFlood) else s, Diagnostic(message))
  }

  function FlushOut(c: Config, s: Sink, line: Bytes, final: bool): Sink {
    var flooded := |line| > c.maxFrame;
    var t := if flooded then SetFault(s, FrameFlood(Stdout)) else s;
    var (u, fault) := HandleLine(c, t, if flooded then RedactBounded(c, line, c.maxFrame).0 else line);
    if fault.None? then u else SetFault(u, if final then Unterminated(fault.value) else fault.value)
  }

  function Flush(c: Config, s: Sink, stream: Stream, final: bool): Sink {
    var line := c.codec.trim(Line(s, stream));
    var t := SetLine(s, stream, []);
    if line == [] then t
    else if stream == Stderr then FlushErr(c, t, line)
    else FlushOut(c, t, line, final)
  }

  function Close(c: Config, s: Sink): Sink {
    Flush(c, Flush(c, s, Stdout, true), Stderr, true)
  }

  // ----- One stream, byte by byte -----

  function PutByte(c: Config, s: Sink, stream: Stream, b: Byte): Sink {
    if b == NEWLINE then Flush(c, AppendPartial(c, s, stream, []), stream, false)
    else AppendPartial(c, s, stream, [b])
  }

  /** The meaning of a stream: its bytes, one after the other. */
  function Feed(c: Config, s: Sink, stream: Stream, p: Bytes): Sink
    decreases |p|
  {
    if p == [] then s else PutByte(c, Feed(c, s, stream, p[..|p| - 1]), stream, p[|p| - 1])
  }

  lemma {:induction false} FeedSplit(c: Config, s: Sink, stream: Stream, p: Bytes, q: Bytes)
    ensures Feed(c, s, stream, p + q) == Feed(c, Feed(c, s, stream, p), stream, q)
    decreases |q|
  {
    if q == [] {
      assert p + q == p;
    } else {
      FeedSplit(c, s, stream, p, q[..|q| - 1]);
      assert (p + q)[..|p + q| - 1] == p + q[..|q| - 1];
    }
  }

  /** Cutting a partial line twice is cutting it once. */
  lemma AppendTwice(c: Config, s: Sink, stream: Stream, a: Bytes, b: Bytes)
    ensures AppendPartial(c, AppendPartial(c, s, stream, a), stream, b) == AppendPartial(c, s, stream, a + b)
  {
    var line := Line(s, stream);
    assert line + a + b == line + (a + b);
    assert Take(Take(line + a, Cap(c)) + b, Cap(c)) == Take(line + (a + b), Cap(c));
  }

  lemma {:induction false} FeedPartial(c: Config, s: Sink, stream: Stream, p: Bytes)
    requires NEWLINE !in p && p != []
    ensures Feed(c, s, stream, p) == AppendPartial(c, s, stream, p)
    decreases |p|
  {
    var init, last := p[..|p| - 1], p[|p| - 1];
    assert last in p && p == init + [last];
    if init == [] {
      assert p == [last];
      assert Feed(c, s, stream, init) == s;
    } else {
      assert NEWLINE !in init;
      FeedPartial(c, s, stream, init);
      AppendTwice(c, s, stream, init, [last]);
    }
  }

  /** A whole line, however it reached the buffer, is its text and then a flush. */
  lemma FeedLine(c: Config, s: Sink, stream: Stream, text: Bytes)
    requires NEWLINE !in text
    ensures Feed(c, s, stream, text + [NEWLINE])
         == Flush(c, AppendPartial(c, s, stream, text), stream, false)
  {
    var all := text + [NEWLINE];
    assert all[..|all| - 1] == text;
    if text != [] {
      FeedPartial(c, s, stream, text);
      AppendTwice(c, s, stream, text, []);
      assert text + [] == text;
    }
  }

  lemma FeedNextLine(c: Config, s: Sink, stream: Stream, p: Bytes, index: nat)
    requires index < |p| && p[index] == NEWLINE && NEWLINE !in p[..index]
    ensures Feed(c, s, stream, p)
         == Feed(c, Flush(c, AppendPartial(c, s, stream, p[..index]), stream, false), stream, p[index + 1..])
  {
    assert p == (p[..index] + [NEWLINE]) + p[index + 1..];
    FeedLine(c, s, stream, p[..index]);
    FeedSplit(c, s, stream, p[..index] + [NEWLINE], p[index + 1..]);
  }

  function FeedChunks(c: Config, s: Sink, stream: Stream, chunks: seq<Bytes>): Sink
    decreases |chunks|
  {
    if chunks == [] then s
    else Feed(c, FeedChunks(c, s, stream, chunks[..|chunks| - 1]), stream, chunks[|chunks| - 1])
  }

  function Flatten(chunks: seq<Bytes>): Bytes
    decreases |chunks|
  {
    if chunks == [] then [] else Flatten(chunks[..|chunks| - 1]) + chunks[|chunks| - 1]
  }

  /** However a stream is cut into chunks, the sink ends in the same state. */
  lemma {:induction false} ChunkingDoesNotMatter(c: Config, s: Sink, stream: Stream, chunks: seq<Bytes>)
    ensures FeedChunks(c, s, stream, chunks) == Feed(c, s, stream, Flatten(chunks))
    decreases |chunks|
  {
    if chunks != [] {
      var init := chunks[..|chunks| - 1];
      ChunkingDoesNotMatter(c, s, stream, init);
      FeedSplit(c, s, stream, Flatten(init), chunks[|chunks| - 1]);
    }
  }

  // ----- Bounds -----

  function LogSize(log: seq<Bytes>): nat
    decreases |log|
  {
    if log == [] then 0 else LogSize(log[..|log| - 1]) + |log[|log| - 1]|
  }

  /** Everything the sink keeps is bounded, and an overlong line was reported. */
  predicate Bounded(c: Config, s: Sink) {
    && s.written == LogSize(s.log) <= c.maxLog
    && |s.out| <= Cap(c) && |s.err| <= Cap(c)
    && |s.summary| <= MAX_SUMMARY
    && (|s.out| > c.maxFrame || |s.err| > c.maxFrame ==> s.fault.Some?)
  }

  /** The sink stays bounded and keeps a fault it has. */
  predicate Keeps(c: Config, s: Sink, t: Sink) {
    (Bounded(c, s) ==> Bounded(c, t)) && (s.fault.Some? ==> t.fault == s.fault)
  }

  lemma AppendKeeps(c: Config, s: Sink, stream: Stream, p: Bytes)
    ensures Keeps(c, s, AppendPartial(c, s, stream, p))
  {}

  lemma WriteRecordKeeps(c: Config, s: Sink, r: Record)
    ensures Keeps(c, s, WriteRecord(c, s, r))
  {}

  lemma SummaryBounded(c: Config, summary: Bytes, value: Bytes)
    requires |summary| <= MAX_SUMMARY
    ensures |AppendSummary(c, summary, value)| <= MAX_SUMMARY
  {}

  lemma ApplyFrameKeeps(c: Config, s: Sink, f: Frame)
    ensures Keeps(c, s, ApplyFrame(c, s, f))
  {
    if Bounded(c, s) {
      SummaryBounded(c, s.summary, f.text);
      SummaryBounded(c, [], if f.structured.Some? then f.structured.value else []);
    }
    var meta := Meta(Latest(s.meta.session, f.session), Latest(s.meta.model, f.model),
                     Latest(s.meta.effort, f.effort), MergeUsage(s.meta.usage, f.usage));
    var appended := if f.text != [] then AppendSummary(c, s.summary, f.text) else s.summary;
    var summary := if f.structured.Some? then AppendSummary(c, [], f.structured.value) else appended;
    var t := s.(meta := meta, summary := summary, terminal := s.terminal || f.terminal);
    WriteRecordKeeps(c, if f.error != "" then SetFault(t, ProviderError(f.error)) else t, Normalized(f));
  }

  lemma FlushKeeps(c: Config, s: Sink, stream: Stream, final: bool)
    ensures Keeps(c, s, Flush(c, s, stream, final))
  {
    var line := c.codec.trim(Line(s, stream));
    var t := SetLine(s, stream, []);
    if line != [] {
      if stream == Stderr {
        var (message, cut) := RedactBounded(c, line, c.maxFrame);
        WriteRecordKeeps(c, if cut then SetFault(t, DiagnosticFlood) else t, Diagnostic(message));
      } else {
        var flooded := |line| > c.maxFrame;
        var u := if flooded then SetFault(t, FrameFlood(Stdout)) else t;
        var text := if flooded then RedactBounded(c, line, c.maxFrame).0 else line;
        HandleLineKeeps(c, u, text);
      }
    }
  }

  lemma HandleLineKeeps(c: Config, s: Sink, line: Bytes)
    ensures Keeps(c, s, HandleLine(c, s, line).0)
  {
    match c.codec.parse(line)
    case NoJson => WriteRecordKeeps(c, s, Malformed(RedactBounded(c, line, c.maxFrame).0));
    case Refused =>
    case Good(f) => ApplyFrameKeeps(c, s, f);
  }

  datatype Op = Write(stream: Stream, p: Bytes) | Finish

  function Step(c: Config, s: Sink, op: Op): Sink {
    match op
    case Write(stream, p) => Feed(c, s, stream, p)
    case Finish => Close(c, s)
  }

  function Run(c: Config, s: Sink, ops: seq<Op>): Sink
    decreases |ops|
  {
    if ops == [] then s else Step(c, Run(c, s, ops[..|ops| - 1]), ops[|ops| - 1])
  }

  lemma {:induction false} FeedKeeps(c: Config, s: Sink, stream: Stream, p: Bytes)
    ensures Keeps(c, s, Feed(c, s, stream, p))
    decreases |p|
  {
    if p != [] {
      var t := Feed(c, s, stream, p[..|p| - 1]);
      FeedKeeps(c, s, stream, p[..|p| - 1]);
      AppendKeeps(c, t, stream, if p[|p| - 1] == NEWLINE then [] else [p[|p| - 1]]);
      FlushKeeps(c, AppendPartial(c, t, stream, []), stream, false);
    }
  }

  /** In every run, over both streams, all bounds hold and the first fault stays. */
  lemma {:induction false} RunKeeps(c: Config, s: Sink, ops: seq<Op>)
    ensures Keeps(c, s, Run(c, s, ops))
    decreases |ops|
  {
    if ops != [] {
      var t := Run(c, s, ops[..|ops| - 1]);
      RunKeeps(c, s, ops[..|ops| - 1]);
      match ops[|ops| - 1]
      case Write(stream, p) => FeedKeeps(c, t, stream, p);
      case Finish =>
        FlushKeeps(c, t, Stdout, true);
        FlushKeeps(c, Flush(c, t, Stdout, true), Stderr, true);
    }
  }

  const EMPTY_SINK := Sink([], [], 0, [], None, false, [], Meta("", "", "", Usage(None, None, None)))

  // ----- The sink as it works: line by line -----

  method IndexOfNewline(p: Bytes) returns (i: int)
    ensures -1 <= i < |p|
    ensures i < 0 ==> NEWLINE !in p
    ensures i >= 0 ==> p[i] == NEWLINE && NEWLINE !in p[..i]
  {
    for j := 0 to |p|
      invariant NEWLINE !in p[..j]
    {
      if p[j] == NEWLINE {
        return j;
      }
    }
    assert p[..|p|] == p;
    i := -1;
  }

  class StreamSink {
    var out: Bytes
    var err: Bytes
    var written: nat
    var log: seq<Bytes>
    var fault: Option<Fault>
    var terminal: bool
    var summary: Bytes
    var meta: Meta
    const config: Config

    ghost function Contents(): Sink
      reads this
    {
      Sink(out, err, written, log, fault, terminal, summary, meta)
    }

    constructor (config: Config)
      ensures Contents() == EMPTY_SINK && this.config == config && Bounded(config, Contents())
    {
      this.config := config;
      out, err, written, log, fault := [], [], 0, [], None;
      terminal, summary, meta := false, [], Meta("", "", "", Usage(None, None, None));
    }

    method KeepFault(f: Fault)
      modifies this`fault
      ensures Contents() == SetFault(old(Contents()), f)
    {
      if fault.None? {
        fault := Some(f);
      }
    }

    method Append(stream: Stream, p: Bytes)
      modifies this
      ensures Contents() == AppendPartial(config, old(Contents()), stream, p)
    {
      var line := (if stream == Stdout then out else err) + p;
      if |line| > Cap(config) {
        line := line[..Cap(config)];
      }
      if stream == Stdout {
        out := line;
      } else {
        err := line;
      }
      if |line| > config.maxFrame {
        KeepFault(FrameFlood(stream));
      }
    }

    method Log(r: Record)
      modifies this
      ensures Contents() == WriteRecord(config, old(Contents()), r)
    {
      var encoded := config.codec.encode(r);
      if encoded.None? {
        KeepFault(NotEncodable);
        return;
      }
      var data := encoded.value + [NEWLINE];
      if written + |data| > config.maxLog {
        KeepFault(LogFlood);
        return;
      }
      if !config.codec.accepts(|log|, data) {
        KeepFault(LogWriteFailed);
        return;
      }
      log := log + [data];
      written := written + |data|;
    }

    method AppendToSummary(value: Bytes)
      modifies this`summary
      ensures summary == AppendSummary(config, old(summary), value)
    {
      if |summary| >= MAX_SUMMARY {
        return;
      }
      var remaining := MAX_SUMMARY - |summary|;
      summary := summary + RedactBounded(config, value, remaining).0;
    }

    method HandleJsonLine(line: Bytes) returns (failure: Option<Fault>)
      modifies this
      ensures (Contents(), failure) == HandleLine(config, old(Contents()), line)
    {
      match config.codec.parse(line) {
        case NoJson =>
          Log(Malformed(RedactBounded(config, line, config.maxFrame).0));
          return Some(NotJson);
        case Refused => return Some(BadFrame);
        case Good(f) =>
          meta := Meta(Latest(meta.session, f.session), Latest(meta.model, f.model),
                       Latest(meta.effort, f.effort), MergeUsage(meta.usage, f.usage));
          if f.text != [] {
            AppendToSummary(f.text);
          }
          if f.structured.Some? {
            summary := [];
            AppendToSummary(f.structured.value);
          }
          if f.terminal {
            terminal := true;
          }
          if f.error != "" {
            KeepFault(ProviderError(f.error));
          }
          Log(Normalized(f));
          failure := None;
      }
    }

    method FlushLine(stream: Stream, final: bool)
      modifies this
      ensures Contents() == Flush(config, old(Contents()), stream, final)
    {
      var line := config.codec.trim(if stream == Stdout then out else err);
      if stream == Stdout {
        out := [];
      } else {
        err := [];
      }
      if line == [] {
        return;
      }
      if stream == Stderr {
        var (message, cut) := RedactBounded(config, line, config.maxFrame);
        if cut {
          KeepFault(DiagnosticFlood);
        }
        Log(Diagnostic(message));
        return;
      }
      if |line| > config.maxFrame {
        KeepFault(FrameFlood(Stdout));
        line := RedactBounded(config, line, config.maxFrame).0;
      }
      var failure := HandleJsonLine(line);
      if failure.Some? {
        KeepFault(if final then Unterminated(failure.value) else failure.value);
      }
    }

    method Write(stream: Stream, data: Bytes)
      modifies this
      ensures Contents() == Feed(config, old(Contents()), stream, data)
    {
      var p := data;
      while |p| > 0
        invariant Feed(config, Contents(), stream, p) == Feed(config, old(Contents()), stream, data)
        decreases |p|
      {
        var index := IndexOfNewline(p);
        if index < 0 {
          FeedPartial(config, Contents(), stream, p);
          Append(stream, p);
          return;
        }
        FeedNextLine(config, Contents(), stream, p, index);
        Append(stream, p[..index]);
        FlushLine(stream, false);
        p := p[index + 1..];
      }
    }

    /** However the stream is cut, the line by line sink ends where the whole stream takes it. */
    method WriteAll(stream: Stream, chunks: seq<Bytes>)
      modifies this
      ensures Contents() == Feed(config, old(Contents()), stream, Flatten(chunks))
    {
      for i := 0 to |chunks|
        invariant Contents() == FeedChunks(config, old(Contents()), stream, chunks[..i])
      {
        Write(stream, chunks[i]);
        assert chunks[..i + 1][..i] == chunks[..i];
      }
      assert chunks[..|chunks|] == chunks;
      ChunkingDoesNotMatter(config, old(Contents()), stream, chunks);
    }

    method Finish()
      modifies this
      ensures Contents() == Close(config, old(Contents()))
    {
      FlushLine(Stdout, true);
      FlushLine(Stderr, true);
    }

    /** Any run of the sink: everything proved of runs holds of what it leaves. */
    method PerformAll(ops: seq<Op>)
      modifies this
      ensures Contents() == Run(config, old(Contents()), ops)
    {
      for i := 0 to |ops|
        invariant Contents() == Run(config, old(Contents()), ops[..i])
      {
        assert ops[..i + 1][..i] == ops[..i];
        match ops[i] {
          case Write(stream, p) => Write(stream, p);
          case Finish => Finish();
        }
      }
      assert ops[..|ops|] == ops;
    }
  }

  // ----- The probe buffer -----

  /** What a capped buffer holds after a stream: a prefix, and whether it ran over. */
  predicate Holds(cap: int, buf: Bytes, overflow: bool, all: Bytes) {
    if cap <= 0 then buf == [] && !overflow
    else buf == Take(all, cap + REDACT_OVERLAP) && overflow == (|all| > cap)
  }

  class CappedBuffer {
    var buf: Bytes
    var overflow: bool
    const cap: int

    constructor (cap: int)
      ensures this.cap == cap && Holds(cap, buf, overflow, [])
    {
      this.cap := cap;
      buf, overflow := [], false;
    }

    /** For every stream, in whatever chunks it comes. */
    method Write(chunk: Bytes, ghost before: Bytes)
      requires Holds(cap, buf, overflow, before)
      modifies this
      ensures Holds(cap, buf, overflow, before + chunk)
    {
      if cap <= 0 {
        return;
      }
      var limit := cap + REDACT_OVERLAP;
      if |buf| >= limit {
        overflow := true;
        assert Take(before + chunk, limit) == Take(before, limit);
        return;
      }
      var p := chunk;
      if |p| > limit - |buf| {
        overflow := true;
        p := p[..limit - |buf|];
      }
      if |buf| + |p| > cap {
        overflow := true;
      }
      buf := buf + p;
      assert buf == Take(before + chunk, limit);
    }
  }
}
