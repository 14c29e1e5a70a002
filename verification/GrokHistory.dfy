/** What the stream sink holds, told from the lines that were flushed: the terminal flag, the
    metadata, the summary, the log and the first fault, over any run. */
module GrokHistory {
  import opened Common
  import opened GrokSink

  // ----- Framing: what happens on the streams -----

  datatype Event = Overlong(stream: Stream) | Flushed(stream: Stream, text: Bytes, final: bool)

  datatype Buffers = Buffers(out: Bytes, err: Bytes)

  const NO_BUFFERS := Buffers([], [])

  function Buffer(b: Buffers, stream: Stream): Bytes {
    if stream == Stdout then b.out else b.err
  }

  function SetBuffer(b: Buffers, stream: Stream, line: Bytes): Buffers {
    if stream == Stdout then b.(out := line) else b.(err := line)
  }

  /** A line that is blank after trimming does not count. */
  function LineEvent(c: Config, stream: Stream, line: Bytes, final: bool): seq<Event> {
    if c.codec.trim(line) == [] then [] else [Flushed(stream, c.codec.trim(line), final)]
  }

  function OverEvent(c: Config, stream: Stream, line: Bytes): seq<Event> {
    if |line| > c.maxFrame then [Overlong(stream)] else []
  }

  /** The events of one byte. */
  function ByteEvents(c: Config, b: Buffers, stream: Stream, x: Byte): seq<Event> {
    var line := Take(Buffer(b, stream) + (if x == NEWLINE then [] else [x]), Cap(c));
    OverEvent(c, stream, line) + if x == NEWLINE then LineEvent(c, stream, line, false) else []
  }

  function ByteBuffers(c: Config, b: Buffers, stream: Stream, x: Byte): Buffers {
    SetBuffer(b, stream, if x == NEWLINE then [] else Take(Buffer(b, stream) + [x], Cap(c)))
  }

  function Framed(c: Config, b: Buffers, stream: Stream, p: Bytes): (Buffers, seq<Event>)
    decreases |p|
  {
    if p == [] then (b, [])
    else
      var (d, es) := Framed(c, b, stream, p[..|p| - 1]);
      (ByteBuffers(c, d, stream, p[|p| - 1]), es + ByteEvents(c, d, stream, p[|p| - 1]))
  }

  function OpFramed(c: Config, b: Buffers, op: Op): (Buffers, seq<Event>) {
    match op
    case Write(stream, p) => Framed(c, b, stream, p)
    case Finish => (NO_BUFFERS, LineEvent(c, Stdout, b.out, true) + LineEvent(c, Stderr, b.err, true))
  }

  /** The buffers and all events of a run. */
  function History(c: Config, ops: seq<Op>): (Buffers, seq<Event>)
    decreases |ops|
  {
    if ops == [] then (NO_BUFFERS, [])
    else
      var (b, es) := History(c, ops[..|ops| - 1]);
      var (d, more) := OpFramed(c, b, ops[|ops| - 1]);
      (d, es + more)
  }

  // ----- What the events mean -----

  /** What is parsed of a flushed line. */
  function Text(c: Config, line: Bytes): Bytes {
    if |line| > c.maxFrame then RedactBounded(c, line, c.maxFrame).0 else line
  }

  /** The frame an event carries, if it is a line of the output that parses. */
  function FrameOf(c: Config, e: Event): seq<Frame> {
    if e.Flushed? && e.stream == Stdout && c.codec.parse(Text(c, e.text)).Good?
    then [c.codec.parse(Text(c, e.text)).frame] else []
  }

  function Frames(c: Config, es: seq<Event>): seq<Frame>
    decreases |es|
  {
    if es == [] then [] else Frames(c, es[..|es| - 1]) + FrameOf(c, es[|es| - 1])
  }

  /** `v` is the last text that is not empty, or empty if there is none. */
  predicate IsLastText(fs: seq<Frame>, field: Frame -> string, v: string) {
    if v == "" then forall f :: f in fs ==> field(f) == ""
    else exists i :: 0 <= i < |fs| && field(fs[i]) == v && forall j :: i < j < |fs| ==> field(fs[j]) == ""
  }

  /** `v` is the first known number, or unknown if there is none. */
  predicate IsFirstKnown(fs: seq<Frame>, field: Frame -> Option<int>, v: Option<int>) {
    if v.None? then forall f :: f in fs ==> field(f).None?
    else exists i :: 0 <= i < |fs| && field(fs[i]) == v && forall j :: 0 <= j < i ==> field(fs[j]).None?
  }

  /** The last structured output, if any, and the texts after it. */
  function Pieces(fs: seq<Frame>): seq<Bytes>
    decreases |fs|
  {
    if fs == [] then []
    else
      var before, f := Pieces(fs[..|fs| - 1]), fs[|fs| - 1];
      if f.structured.Some? then [f.structured.value] else if f.text != [] then before + [f.text] else before
  }

  function Redacted(c: Config, pieces: seq<Bytes>): Bytes
    decreases |pieces|
  {
    if pieces == [] then [] else Redacted(c, pieces[..|pieces| - 1]) + c.codec.redact(pieces[|pieces| - 1])
  }

  /** The record an event is logged as, if any: frames that parse but are refused are not logged. */
  function RecordOf(c: Config, e: Event): seq<Record> {
    if e.Overlong? then []
    else if e.stream == Stderr then [Diagnostic(RedactBounded(c, e.text, c.maxFrame).0)]
    else
      match c.codec.parse(Text(c, e.text))
      case NoJson => [Malformed(RedactBounded(c, Text(c, e.text), c.maxFrame).0)]
      case Refused => []
      case Good(f) => [Normalized(f)]
  }

  function Records(c: Config, es: seq<Event>): seq<Record>
    decreases |es|
  {
    if es == [] then [] else Records(c, es[..|es| - 1]) + RecordOf(c, es[|es| - 1])
  }

  /** Why a record does not get into a log, if it does not. */
  function WriteFault(c: Config, log: seq<Bytes>, r: Record): seq<Fault> {
    match c.codec.encode(r)
    case None => [NotEncodable]
    case Some(data) =>
      if LogSize(log) + |data| + 1 > c.maxLog then [LogFlood]
      else if !c.codec.accepts(|log|, data + [NEWLINE]) then [LogWriteFailed]
      else []
  }

  function Logged(c: Config, log: seq<Bytes>, r: Record): seq<Bytes> {
    if WriteFault(c, log, r) == [] then log + [c.codec.encode(r).value + [NEWLINE]] else log
  }

  /** The encoded records in order, leaving out exactly those that are rejected. */
  function LogOf(c: Config, rs: seq<Record>): seq<Bytes>
    decreases |rs|
  {
    if rs == [] then [] else Logged(c, LogOf(c, rs[..|rs| - 1]), rs[|rs| - 1])
  }

  function Wrapped(final: bool, f: Fault): Fault {
    if final then Unterminated(f) else f
  }

  function ErrorFault(f: Frame): seq<Fault> {
    if f.error != "" then [ProviderError(f.error)] else []
  }

  /** The faults of one event, in order, when the log is `log`. */
  function FaultsOf(c: Config, log: seq<Bytes>, e: Event): seq<Fault> {
    if e.Overlong? then [FrameFlood(e.stream)]
    else if e.stream == Stderr then
      (if RedactBounded(c, e.text, c.maxFrame).1 then [DiagnosticFlood] else []) + WriteFault(c, log, RecordOf(c, e)[0])
    else
      (if |e.text| > c.maxFrame then [FrameFlood(Stdout)] else [])
      + match c.codec.parse(Text(c, e.text))
        case NoJson => WriteFault(c, log, RecordOf(c, e)[0]) + [Wrapped(e.final, NotJson)]
        case Refused => [Wrapped(e.final, BadFrame)]
        case Good(f) => ErrorFault(f) + WriteFault(c, log, Normalized(f))
  }

  function Faults(c: Config, es: seq<Event>): seq<Fault>
    decreases |es|
  {
    if es == [] then []
    else
      var init := es[..|es| - 1];
      Faults(c, init) + FaultsOf(c, LogOf(c, Records(c, init)), es[|es| - 1])
  }

  function First(fs: seq<Fault>): Option<Fault> {
    if fs == [] then None else Some(fs[0])
  }

  // ----- The sink is what the events mean -----

  predicate TellsMeta(fs: seq<Frame>, m: Meta) {
    && IsLastText(fs, (f: Frame) => f.session, m.session) && IsLastText(fs, (f: Frame) => f.model, m.model)
    && IsLastText(fs, (f: Frame) => f.effort, m.effort)
    && IsFirstKnown(fs, (f: Frame) => f.usage.input, m.usage.input)
    && IsFirstKnown(fs, (f: Frame) => f.usage.output, m.usage.output)
    && IsFirstKnown(fs, (f: Frame) => f.usage.total, m.usage.total)
  }

  /** The terminal flag, metadata and summary that the frames give. */
  predicate TellsFrames(c: Config, s: Sink, fs: seq<Frame>) {
    && (s.terminal <==> exists f :: f in fs && f.terminal)
    && TellsMeta(fs, s.meta)
    && s.summary == Take(Redacted(c, Pieces(fs)), 8192)
  }

  /** The log and first fault that the events give. */
  predicate TellsLog(c: Config, s: Sink, es: seq<Event>) {
    s.log == LogOf(c, Records(c, es)) && s.written == LogSize(s.log) && s.fault == First(Faults(c, es))
  }

  predicate Tells(c: Config, s: Sink, es: seq<Event>) {
    TellsFrames(c, s, Frames(c, es)) && TellsLog(c, s, es)
  }

  // ----- One event -----

  lemma LastTextNext(fs: seq<Frame>, field: Frame -> string, v: string, f: Frame)
    requires IsLastText(fs, field, v)
    ensures IsLastText(fs + [f], field, if field(f) != "" then field(f) else v)
  {
    var next := fs + [f];
    if field(f) != "" {
      assert field(next[|fs|]) == field(f);
    } else if v != "" {
      var i :| 0 <= i < |fs| && field(fs[i]) == v && forall j :: i < j < |fs| ==> field(fs[j]) == "";
      assert field(next[i]) == v;
    }
  }

  lemma FirstKnownNext(fs: seq<Frame>, field: Frame -> Option<int>, v: Option<int>, f: Frame)
    requires IsFirstKnown(fs, field, v)
    ensures IsFirstKnown(fs + [f], field, if v.None? then field(f) else v)
  {
    var next := fs + [f];
    if v.Some? {
      var i :| 0 <= i < |fs| && field(fs[i]) == v && forall j :: 0 <= j < i ==> field(fs[j]).None?;
      assert field(next[i]) == v;
    } else if field(f).Some? {
      assert field(next[|fs|]) == field(f);
      assert forall j :: 0 <= j < |fs| ==> fs[j] in fs && next[j] == fs[j];
    }
  }

  function NextMeta(m: Meta, f: Frame): Meta {
    Meta(if f.session != "" then f.session else m.session, if f.model != "" then f.model else m.model,
         if f.effort != "" then f.effort else m.effort,
         Usage(if m.usage.input.None? then f.usage.input else m.usage.input,
               if m.usage.output.None? then f.usage.output else m.usage.output,
               if m.usage.total.None? then f.usage.total else m.usage.total))
  }

  lemma MetaNext(fs: seq<Frame>, m: Meta, f: Frame)
    requires TellsMeta(fs, m)
    ensures TellsMeta(fs + [f], NextMeta(m, f))
  {
    LastTextNext(fs, (g: Frame) => g.session, m.session, f);
    LastTextNext(fs, (g: Frame) => g.model, m.model, f);
    LastTextNext(fs, (g: Frame) => g.effort, m.effort, f);
    FirstKnownNext(fs, (g: Frame) => g.usage.input, m.usage.input, f);
    FirstKnownNext(fs, (g: Frame) => g.usage.output, m.usage.output, f);
    FirstKnownNext(fs, (g: Frame) => g.usage.total, m.usage.total, f);
  }

  lemma TakeTwice(a: Bytes, b: Bytes, n: nat)
    ensures Take(Take(a, n) + b, n) == Take(a + b, n)
  {}

  lemma AppendMeans(c: Config, summary: Bytes, value: Bytes)
    requires |summary| <= MAX_SUMMARY
    ensures AppendSummary(c, summary, value) == Take(summary + c.codec.redact(value), MAX_SUMMARY)
  {}

  function NextSummary(c: Config, summary: Bytes, f: Frame): Bytes {
    if f.structured.Some? then AppendSummary(c, [], f.structured.value)
    else if f.text != [] then AppendSummary(c, summary, f.text) else summary
  }

  lemma SummaryNext(c: Config, fs: seq<Frame>, summary: Bytes, f: Frame)
    requires summary == Take(Redacted(c, Pieces(fs)), MAX_SUMMARY)
    ensures NextSummary(c, summary, f) == Take(Redacted(c, Pieces(fs + [f])), MAX_SUMMARY)
  {
    assert (fs + [f])[..|fs|] == fs;
    if f.structured.Some? {
      var v := f.structured.value;
      AppendMeans(c, [], v);
      var one: seq<Bytes> := [v];
      assert one[..0] == [];
      assert Redacted(c, one) == Redacted(c, one[..0]) + c.codec.redact(v);
    } else if f.text != [] {
      AppendMeans(c, summary, f.text);
      TakeTwice(Redacted(c, Pieces(fs)), c.codec.redact(f.text), MAX_SUMMARY);
      assert (Pieces(fs) + [f.text])[..|Pieces(fs)|] == Pieces(fs);
    }
  }

  /** What a write leaves: the log, its size and the fault. */
  lemma WriteMeans(c: Config, s: Sink, r: Record)
    requires s.written == LogSize(s.log)
    ensures var t, w := WriteRecord(c, s, r), WriteFault(c, s.log, r);
      && t == s.(log := t.log, written := t.written, fault := t.fault) && t.written == LogSize(t.log)
      && t.log == Logged(c, s.log, r)
      && t.fault == (if s.fault.Some? then s.fault else First(w))
  {
    if c.codec.encode(r).Some? {
      var line := c.codec.encode(r).value + [NEWLINE];
      assert (s.log + [line])[..|s.log|] == s.log;
    }
  }

  /** What one event does to the sink. */
  function After(c: Config, s: Sink, e: Event): Sink {
    match e
    case Overlong(stream) => SetFault(s, FrameFlood(stream))
    case Flushed(stream, text, final) => if stream == Stderr then FlushErr(c, s, text) else FlushOut(c, s, text, final)
  }

  lemma FramesNext(c: Config, es: seq<Event>, e: Event)
    ensures Frames(c, es + [e]) == Frames(c, es) + FrameOf(c, e)
    ensures Records(c, es + [e]) == Records(c, es) + RecordOf(c, e)
    ensures Faults(c, es + [e]) == Faults(c, es) + FaultsOf(c, LogOf(c, Records(c, es)), e)
  {
    assert (es + [e])[..|es|] == es;
  }

  lemma LogNext(c: Config, rs: seq<Record>, r: Record)
    ensures LogOf(c, rs + [r]) == Logged(c, LogOf(c, rs), r)
  {
    assert (rs + [r])[..|rs|] == rs;
  }

  /** What a frame makes of the sink before it is logged. */
  function Told(c: Config, s: Sink, f: Frame): Sink {
    s.(meta := NextMeta(s.meta, f), terminal := s.terminal || f.terminal, summary := NextSummary(c, s.summary, f),
       fault := if s.fault.None? && f.error != "" then Some(ProviderError(f.error)) else s.fault)
  }

  lemma FrameIsTold(c: Config, s: Sink, f: Frame)
    ensures ApplyFrame(c, s, f) == WriteRecord(c, Told(c, s, f), Normalized(f))
  {}

  lemma FrameDoes(c: Config, s: Sink, f: Frame)
    requires s.written == LogSize(s.log)
    ensures var t, told, w := ApplyFrame(c, s, f), Told(c, s, f), WriteFault(c, s.log, Normalized(f));
      && t == told.(log := t.log, written := t.written, fault := t.fault) && t.written == LogSize(t.log)
      && t.log == Logged(c, s.log, Normalized(f))
      && t.fault == (if told.fault.Some? then told.fault else First(w))
  {
    FrameIsTold(c, s, f);
    WriteMeans(c, Told(c, s, f), Normalized(f));
  }

  lemma ErrDoes(c: Config, s: Sink, e: Event)
    requires s.written == LogSize(s.log) && e.Flushed? && e.stream == Stderr
    ensures var t, r := After(c, s, e), RecordOf(c, e)[0];
      && t == s.(log := t.log, written := t.written, fault := t.fault) && t.written == LogSize(t.log)
      && t.log == Logged(c, s.log, r)
      && t.fault == (if s.fault.Some? then s.fault else First(FaultsOf(c, s.log, e)))
  {
    var (message, cut) := RedactBounded(c, e.text, c.maxFrame);
    WriteMeans(c, if cut then SetFault(s, DiagnosticFlood) else s, Diagnostic(message));
  }

  /** The faults of a line of the output, without that of its length. */
  function LineFaults(c: Config, log: seq<Bytes>, text: Bytes, final: bool): seq<Fault> {
    match c.codec.parse(text)
    case NoJson => WriteFault(c, log, Malformed(RedactBounded(c, text, c.maxFrame).0)) + [Wrapped(final, NotJson)]
    case Refused => [Wrapped(final, BadFrame)]
    case Good(f) => ErrorFault(f) + WriteFault(c, log, Normalized(f))
  }

  /** The line handled, and its failure kept. */
  function Handled(c: Config, s: Sink, text: Bytes, final: bool): Sink {
    var (t, fault) := HandleLine(c, s, text);
    if fault.None? then t else SetFault(t, Wrapped(final, fault.value))
  }

  lemma FirstOfBoth(fs: seq<Fault>, gs: seq<Fault>)
    ensures First(fs + gs) == if fs != [] then First(fs) else First(gs)
  {}

  /** What a line that does not parse to a frame does. */
  lemma BadLineDoes(c: Config, s: Sink, text: Bytes, final: bool)
    requires s.written == LogSize(s.log) && !c.codec.parse(text).Good?
    ensures var t, r := Handled(c, s, text, final), Malformed(RedactBounded(c, text, c.maxFrame).0);
      && t == s.(log := t.log, written := t.written, fault := t.fault) && t.written == LogSize(t.log)
      && t.fault == (if s.fault.Some? then s.fault else First(LineFaults(c, s.log, text, final)))
      && t.log == (if c.codec.parse(text).NoJson? then Logged(c, s.log, r) else s.log)
  {
    if c.codec.parse(text).NoJson? {
      var r := Malformed(RedactBounded(c, text, c.maxFrame).0);
      WriteMeans(c, s, r);
      FirstOfBoth(WriteFault(c, s.log, r), [Wrapped(final, NotJson)]);
    }
  }

  lemma OutFaults(c: Config, log: seq<Bytes>, e: Event)
    requires e.Flushed? && e.stream == Stdout
    ensures FaultsOf(c, log, e)
         == (if |e.text| > c.maxFrame then [FrameFlood(Stdout)] else []) + LineFaults(c, log, Text(c, e.text), e.final)
  {}

  lemma OutHandled(c: Config, s: Sink, e: Event)
    requires e.Flushed? && e.stream == Stdout
    ensures After(c, s, e)
         == Handled(c, if |e.text| > c.maxFrame then SetFault(s, FrameFlood(Stdout)) else s, Text(c, e.text), e.final)
  {}

  /** The log after an event: its record is written, if it has one. */
  function NextLog(c: Config, log: seq<Bytes>, e: Event): seq<Bytes> {
    if RecordOf(c, e) == [] then log else Logged(c, log, RecordOf(c, e)[0])
  }

  lemma GoodHandled(c: Config, s: Sink, text: Bytes, final: bool)
    requires c.codec.parse(text).Good?
    ensures Handled(c, s, text, final) == ApplyFrame(c, s, c.codec.parse(text).frame)
  {}

  lemma GoodFaults(c: Config, log: seq<Bytes>, text: Bytes, final: bool)
    requires c.codec.parse(text).Good?
    ensures var f := c.codec.parse(text).frame;
      First(LineFaults(c, log, text, final))
      == if f.error != "" then Some(ProviderError(f.error)) else First(WriteFault(c, log, Normalized(f)))
  {
    var f := c.codec.parse(text).frame;
    FirstOfBoth(ErrorFault(f), WriteFault(c, log, Normalized(f)));
  }

  /** What a line that parses to a frame does. */
  lemma GoodLineDoes(c: Config, s: Sink, text: Bytes, final: bool)
    requires s.written == LogSize(s.log) && c.codec.parse(text).Good?
    ensures var t, f := Handled(c, s, text, final), c.codec.parse(text).frame;
      && t == Told(c, s, f).(log := t.log, written := t.written, fault := t.fault) && t.written == LogSize(t.log)
      && t.fault == (if s.fault.Some? then s.fault else First(LineFaults(c, s.log, text, final)))
      && t.log == Logged(c, s.log, Normalized(f))
  {
    GoodHandled(c, s, text, final);
    GoodFaults(c, s.log, text, final);
    FrameDoes(c, s, c.codec.parse(text).frame);
  }

  lemma NextLogOfLine(c: Config, log: seq<Bytes>, e: Event)
    requires e.Flushed? && e.stream == Stdout
    ensures NextLog(c, log, e) ==
      match c.codec.parse(Text(c, e.text))
      case NoJson => Logged(c, log, Malformed(RedactBounded(c, Text(c, e.text), c.maxFrame).0))
      case Refused => log
      case Good(f) => Logged(c, log, Normalized(f))
  {}

  /** The log after handling a line. */
  lemma LineLogs(c: Config, s: Sink, u: Sink, e: Event)
    requires s.written == LogSize(s.log) && e.Flushed? && e.stream == Stdout && u == s.(fault := u.fault)
    ensures var t := Handled(c, u, Text(c, e.text), e.final);
      && t.written == LogSize(t.log) && t.out == s.out && t.err == s.err && t.log == NextLog(c, s.log, e)
      && t.fault == (if u.fault.Some? then u.fault else First(LineFaults(c, s.log, Text(c, e.text), e.final)))
  {
    NextLogOfLine(c, s.log, e);
    var text := Text(c, e.text);
    if c.codec.parse(text).Good? {
      GoodLineDoes(c, u, text, e.final);
    } else {
      BadLineDoes(c, u, text, e.final);
    }
  }

  lemma OutLogs(c: Config, s: Sink, e: Event)
    requires s.written == LogSize(s.log) && e.Flushed? && e.stream == Stdout
    ensures var t := After(c, s, e);
      && t.written == LogSize(t.log) && t.out == s.out && t.err == s.err && t.log == NextLog(c, s.log, e)
      && t.fault == (if s.fault.Some? then s.fault else First(FaultsOf(c, s.log, e)))
  {
    var u := if |e.text| > c.maxFrame then SetFault(s, FrameFlood(Stdout)) else s;
    OutHandled(c, s, e);
    LineLogs(c, s, u, e);
    OutFaults(c, s.log, e);
    FirstOfBoth(if |e.text| > c.maxFrame then [FrameFlood(Stdout)] else [], LineFaults(c, s.log, Text(c, e.text), e.final));
  }

  lemma OutDoes(c: Config, s: Sink, e: Event)
    requires s.written == LogSize(s.log) && e.Flushed? && e.stream == Stdout
    ensures var t, parsed := After(c, s, e), c.codec.parse(Text(c, e.text));
      && (!parsed.Good? ==> t.terminal == s.terminal && t.meta == s.meta && t.summary == s.summary)
      && (parsed.Good? ==>
            && t.terminal == (s.terminal || parsed.frame.terminal) && t.meta == NextMeta(s.meta, parsed.frame)
            && t.summary == NextSummary(c, s.summary, parsed.frame))
  {
    var u := if |e.text| > c.maxFrame then SetFault(s, FrameFlood(Stdout)) else s;
    OutHandled(c, s, e);
    if c.codec.parse(Text(c, e.text)).Good? {
      GoodLineDoes(c, u, Text(c, e.text), e.final);
    } else {
      BadLineDoes(c, u, Text(c, e.text), e.final);
    }
  }

  lemma EventLogs(c: Config, s: Sink, e: Event)
    requires s.written == LogSize(s.log)
    ensures var t := After(c, s, e);
      && t.written == LogSize(t.log) && t.out == s.out && t.err == s.err && t.log == NextLog(c, s.log, e)
      && t.fault == (if s.fault.Some? then s.fault else First(FaultsOf(c, s.log, e)))
  {
    if e.Flushed? {
      if e.stream == Stderr {
        ErrDoes(c, s, e);
      } else {
        OutLogs(c, s, e);
      }
    }
  }

  lemma RecordsLogged(c: Config, rs: seq<Record>, e: Event)
    ensures LogOf(c, rs + RecordOf(c, e)) == NextLog(c, LogOf(c, rs), e)
  {
    if RecordOf(c, e) == [] {
      assert rs + RecordOf(c, e) == rs;
    } else {
      assert RecordOf(c, e) == [RecordOf(c, e)[0]];
      LogNext(c, rs, RecordOf(c, e)[0]);
    }
  }

  lemma LogAfter(c: Config, s: Sink, es: seq<Event>, e: Event)
    requires TellsLog(c, s, es)
    ensures TellsLog(c, After(c, s, e), es + [e])
  {
    FramesNext(c, es, e);
    FirstOfBoth(Faults(c, es), FaultsOf(c, s.log, e));
    EventLogs(c, s, e);
    RecordsLogged(c, Records(c, es), e);
  }

  lemma FramesAfter(c: Config, s: Sink, fs: seq<Frame>, e: Event)
    requires TellsFrames(c, s, fs) && s.written == LogSize(s.log)
    ensures TellsFrames(c, After(c, s, e), fs + FrameOf(c, e))
  {
    var t := After(c, s, e);
    if FrameOf(c, e) == [] {
      assert fs + FrameOf(c, e) == fs;
      if e.Flushed? {
        if e.stream == Stderr {
          ErrDoes(c, s, e);
        } else {
          OutDoes(c, s, e);
        }
      }
    } else {
      OutDoes(c, s, e);
      var f := c.codec.parse(Text(c, e.text)).frame;
      MetaNext(fs, s.meta, f);
      SummaryNext(c, fs, s.summary, f);
      assert f in fs + [f];
    }
  }

  lemma TellsNext(c: Config, s: Sink, es: seq<Event>, e: Event)
    requires Tells(c, s, es)
    ensures Tells(c, After(c, s, e), es + [e])
  {
    LogAfter(c, s, es, e);
    FramesAfter(c, s, Frames(c, es), e);
    FramesNext(c, es, e);
  }

  // ----- One byte, one operation, a run -----

  /** The sink has these buffers and tells these events. */
  predicate Holds(c: Config, s: Sink, b: Buffers, es: seq<Event>) {
    s.out == b.out && s.err == b.err && Tells(c, s, es)
  }

  lemma BuffersDoNotTell(c: Config, s: Sink, es: seq<Event>, stream: Stream, line: Bytes)
    requires Tells(c, s, es)
    ensures Tells(c, SetLine(s, stream, line), es)
  {}

  lemma FlushHolds(c: Config, s: Sink, b: Buffers, es: seq<Event>, stream: Stream, final: bool)
    requires Holds(c, s, b, es)
    ensures Holds(c, Flush(c, s, stream, final), SetBuffer(b, stream, []), es + LineEvent(c, stream, Buffer(b, stream), final))
  {
    var t := SetLine(s, stream, []);
    BuffersDoNotTell(c, s, es, stream, []);
    var line := c.codec.trim(Line(s, stream));
    if line == [] {
      assert es + [] == es;
    } else {
      var e := Flushed(stream, line, final);
      TellsNext(c, t, es, e);
      EventLogs(c, t, e);
    }
  }

  lemma AppendHolds(c: Config, s: Sink, b: Buffers, es: seq<Event>, stream: Stream, p: Bytes)
    requires Holds(c, s, b, es)
    ensures var line := Take(Buffer(b, stream) + p, Cap(c));
      Holds(c, AppendPartial(c, s, stream, p), SetBuffer(b, stream, line), es + OverEvent(c, stream, line))
  {
    var line := Take(Buffer(b, stream) + p, Cap(c));
    var t := SetLine(s, stream, line);
    BuffersDoNotTell(c, s, es, stream, line);
    if |line| > c.maxFrame {
      TellsNext(c, t, es, Overlong(stream));
    } else {
      assert es + [] == es;
    }
  }

  lemma Regroup(es: seq<Event>, fs: seq<Event>, gs: seq<Event>)
    ensures es + fs + gs == es + (fs + gs)
  {}

  lemma ByteHolds(c: Config, s: Sink, b: Buffers, es: seq<Event>, stream: Stream, x: Byte)
    requires Holds(c, s, b, es)
    ensures Holds(c, PutByte(c, s, stream, x), ByteBuffers(c, b, stream, x), es + ByteEvents(c, b, stream, x))
  {
    if x == NEWLINE {
      var line := Take(Buffer(b, stream) + [], Cap(c));
      AppendHolds(c, s, b, es, stream, []);
      FlushHolds(c, AppendPartial(c, s, stream, []), SetBuffer(b, stream, line), es + OverEvent(c, stream, line), stream, false);
      Regroup(es, OverEvent(c, stream, line), LineEvent(c, stream, line, false));
    } else {
      AppendHolds(c, s, b, es, stream, [x]);
      assert OverEvent(c, stream, Take(Buffer(b, stream) + [x], Cap(c))) == ByteEvents(c, b, stream, x);
    }
  }

  lemma {:induction false} FeedHolds(c: Config, s: Sink, b: Buffers, es: seq<Event>, stream: Stream, p: Bytes)
    requires Holds(c, s, b, es)
    ensures Holds(c, Feed(c, s, stream, p), Framed(c, b, stream, p).0, es + Framed(c, b, stream, p).1)
    decreases |p|
  {
    if p == [] {
      assert es + [] == es;
    } else {
      var init, x := p[..|p| - 1], p[|p| - 1];
      var (d, more) := Framed(c, b, stream, init);
      FeedHolds(c, s, b, es, stream, init);
      ByteHolds(c, Feed(c, s, stream, init), d, es + more, stream, x);
      Regroup(es, more, ByteEvents(c, d, stream, x));
    }
  }

  lemma CloseHolds(c: Config, s: Sink, b: Buffers, es: seq<Event>)
    requires Holds(c, s, b, es)
    ensures Holds(c, Close(c, s), NO_BUFFERS, es + OpFramed(c, b, Finish).1)
  {
    var outLine, errLine := LineEvent(c, Stdout, b.out, true), LineEvent(c, Stderr, b.err, true);
    FlushHolds(c, s, b, es, Stdout, true);
    FlushHolds(c, Flush(c, s, Stdout, true), SetBuffer(b, Stdout, []), es + outLine, Stderr, true);
    Regroup(es, outLine, errLine);
  }

  /** Over every run: the sink is what the flushed lines mean. The terminal flag is set exactly if
      some line of the output parsed to a terminal frame; session, model and effort are the last
      ones told, the usage numbers the first; the summary is the last structured output and the
      texts after it; the log holds the records of the lines in order without those rejected; and
      the fault is the first there was. */
  lemma {:induction false} RunTells(c: Config, ops: seq<Op>)
    ensures Holds(c, Run(c, EMPTY_SINK, ops), History(c, ops).0, History(c, ops).1)
    decreases |ops|
  {
    if ops == [] {
      assert Redacted(c, []) == [];
    } else {
      var init := ops[..|ops| - 1];
      var (b, es) := History(c, init);
      RunTells(c, init);
      match ops[|ops| - 1]
      case Write(stream, p) => FeedHolds(c, Run(c, EMPTY_SINK, init), b, es, stream, p);
      case Finish => CloseHolds(c, Run(c, EMPTY_SINK, init), b, es);
    }
  }

  // ----- The lines are those of the streams -----

  /** The complete lines of a stream. */
  function SplitLines(p: Bytes): seq<Bytes>
    decreases |p|
  {
    if p == [] then []
    else SplitLines(p[..|p| - 1]) + if p[|p| - 1] == NEWLINE then [Rest(p[..|p| - 1])] else []
  }

  /** What follows the last newline. */
  function Rest(p: Bytes): Bytes
    decreases |p|
  {
    if p == [] || p[|p| - 1] == NEWLINE then [] else Rest(p[..|p| - 1]) + [p[|p| - 1]]
  }

  function Unsplit(lines: seq<Bytes>): Bytes
    decreases |lines|
  {
    if lines == [] then [] else Unsplit(lines[..|lines| - 1]) + lines[|lines| - 1] + [NEWLINE]
  }

  /** Putting the newlines back gives the stream, and no line has one inside. */
  lemma {:induction false} SplitMeans(p: Bytes)
    ensures Unsplit(SplitLines(p)) + Rest(p) == p
    ensures NEWLINE !in Rest(p) && forall l :: l in SplitLines(p) ==> NEWLINE !in l
    decreases |p|
  {
    if p != [] {
      var init, x := p[..|p| - 1], p[|p| - 1];
      SplitMeans(init);
      assert p == init + [x];
      if x == NEWLINE {
        var lines := SplitLines(init);
        assert (lines + [Rest(init)])[..|lines|] == lines;
      } else {
        assert SplitLines(p) == SplitLines(init);
        assert Unsplit(SplitLines(init)) + (Rest(init) + [x]) == Unsplit(SplitLines(init)) + Rest(init) + [x];
      }
    }
  }

  /** What is flushed of complete lines: cut, trimmed, and without the blank ones. */
  function Kept(c: Config, lines: seq<Bytes>): seq<Bytes>
    decreases |lines|
  {
    if lines == [] then []
    else
      var line := c.codec.trim(Take(lines[|lines| - 1], Cap(c)));
      Kept(c, lines[..|lines| - 1]) + if line == [] then [] else [line]
  }

  function Texts(es: seq<Event>, stream: Stream): seq<Bytes>
    decreases |es|
  {
    if es == [] then []
    else
      var e := es[|es| - 1];
      Texts(es[..|es| - 1], stream) + if e.Flushed? && e.stream == stream then [e.text] else []
  }

  lemma {:induction false} TextsOfBoth(es: seq<Event>, fs: seq<Event>, stream: Stream)
    ensures Texts(es + fs, stream) == Texts(es, stream) + Texts(fs, stream)
    decreases |fs|
  {
    if fs == [] {
      assert es + fs == es;
    } else {
      TextsOfBoth(es, fs[..|fs| - 1], stream);
      assert (es + fs)[..|es + fs| - 1] == es + fs[..|fs| - 1];
    }
  }

  lemma TextsOfLine(c: Config, stream: Stream, line: Bytes, other: Stream)
    ensures Texts(OverEvent(c, stream, line), other) == []
    ensures Texts(LineEvent(c, stream, line, false), other)
         == if other == stream && c.codec.trim(line) != [] then [c.codec.trim(line)] else []
  {}

  lemma TextsOfByte(c: Config, b: Buffers, stream: Stream, x: Byte, other: Stream)
    ensures var line := c.codec.trim(Take(Buffer(b, stream), Cap(c)));
      Texts(ByteEvents(c, b, stream, x), other) == if x == NEWLINE && other == stream && line != [] then [line] else []
  {
    var full := Take(Buffer(b, stream) + (if x == NEWLINE then [] else [x]), Cap(c));
    TextsOfLine(c, stream, full, other);
    assert Buffer(b, stream) + [] == Buffer(b, stream);
    TextsOfBoth(OverEvent(c, stream, full), if x == NEWLINE then LineEvent(c, stream, full, false) else [], other);
  }

  lemma RestNext(p: Bytes, x: Byte, n: nat)
    ensures x != NEWLINE ==> Take(Take(Rest(p), n) + [x], n) == Take(Rest(p + [x]), n)
    ensures SplitLines(p + [x]) == SplitLines(p) + if x == NEWLINE then [Rest(p)] else []
  {
    assert (p + [x])[..|p|] == p;
    TakeTwice(Rest(p), [x], n);
  }

  lemma KeptNext(c: Config, lines: seq<Bytes>, l: Bytes)
    ensures Kept(c, lines + [l]) == Kept(c, lines) + if c.codec.trim(Take(l, Cap(c))) == [] then [] else [c.codec.trim(Take(l, Cap(c)))]
  {
    assert (lines + [l])[..|lines|] == lines;
  }

  lemma ByteRest(c: Config, b: Buffers, stream: Stream, p: Bytes, x: Byte)
    requires Buffer(b, stream) == Take(Rest(p), Cap(c))
    ensures Buffer(ByteBuffers(c, b, stream, x), stream) == Take(Rest(p + [x]), Cap(c))
  {
    RestNext(p, x, Cap(c));
  }

  lemma NewlineTexts(c: Config, b: Buffers, stream: Stream, p: Bytes)
    requires Buffer(b, stream) == Take(Rest(p), Cap(c))
    ensures Kept(c, SplitLines(p)) + Texts(ByteEvents(c, b, stream, NEWLINE), stream) == Kept(c, SplitLines(p) + [Rest(p)])
  {
    TextsOfByte(c, b, stream, NEWLINE, stream);
    TakeAgain(Rest(p), Cap(c));
    KeptNext(c, SplitLines(p), Rest(p));
  }

  lemma ByteLines(c: Config, b: Buffers, stream: Stream, p: Bytes, x: Byte)
    requires Buffer(b, stream) == Take(Rest(p), Cap(c))
    ensures Kept(c, SplitLines(p)) + Texts(ByteEvents(c, b, stream, x), stream) == Kept(c, SplitLines(p + [x]))
  {
    RestNext(p, x, Cap(c));
    if x == NEWLINE {
      NewlineTexts(c, b, stream, p);
    } else {
      TextsOfByte(c, b, stream, x, stream);
      assert SplitLines(p + [x]) == SplitLines(p);
    }
  }

  lemma TakeAgain(a: Bytes, n: nat)
    ensures Take(Take(a, n), n) == Take(a, n)
  {}

  lemma Chained(a: seq<Bytes>, b: seq<Bytes>, d: seq<Bytes>, ab: seq<Bytes>, abd: seq<Bytes>)
    requires a + b == ab && ab + d == abd
    ensures a + (b + d) == abd
  {}

  lemma SplitLast(q: Bytes, p: Bytes)
    requires p != []
    ensures q + p == q + p[..|p| - 1] + [p[|p| - 1]]
  {}

  /** Feeding `p` after `q` leaves the rest of the stream in the buffer and flushes its new lines. */
  lemma {:induction false} FramedLines(c: Config, b: Buffers, stream: Stream, q: Bytes, p: Bytes)
    requires Buffer(b, stream) == Take(Rest(q), Cap(c))
    ensures Buffer(Framed(c, b, stream, p).0, stream) == Take(Rest(q + p), Cap(c))
    ensures Kept(c, SplitLines(q)) + Texts(Framed(c, b, stream, p).1, stream) == Kept(c, SplitLines(q + p))
    decreases |p|
  {
    if p == [] {
      assert q + p == q;
      assert Kept(c, SplitLines(q)) + [] == Kept(c, SplitLines(q));
    } else {
      var init, x := p[..|p| - 1], p[|p| - 1];
      var (d, es) := Framed(c, b, stream, init);
      FramedLines(c, b, stream, q, init);
      SplitLast(q, p);
      ByteRest(c, d, stream, q + init, x);
      ByteLines(c, d, stream, q + init, x);
      TextsOfBoth(es, ByteEvents(c, d, stream, x), stream);
      Chained(Kept(c, SplitLines(q)), Texts(es, stream), Texts(ByteEvents(c, d, stream, x), stream),
              Kept(c, SplitLines(q + init)), Kept(c, SplitLines(q + p)));
    }
  }

  lemma {:induction false} OtherStreamWaits(c: Config, b: Buffers, stream: Stream, p: Bytes, other: Stream)
    requires other != stream
    ensures Buffer(Framed(c, b, stream, p).0, other) == Buffer(b, other) && Texts(Framed(c, b, stream, p).1, other) == []
    decreases |p|
  {
    if p != [] {
      var init, x := p[..|p| - 1], p[|p| - 1];
      var (d, es) := Framed(c, b, stream, init);
      OtherStreamWaits(c, b, stream, init, other);
      TextsOfByte(c, d, stream, x, other);
      TextsOfBoth(es, ByteEvents(c, d, stream, x), other);
    }
  }

  /** All that was written to a stream. */
  function StreamOf(ops: seq<Op>, stream: Stream): Bytes
    decreases |ops|
  {
    if ops == [] then []
    else
      var op := ops[|ops| - 1];
      StreamOf(ops[..|ops| - 1], stream) + if op.Write? && op.stream == stream then op.p else []
  }

  /** However the two streams are cut and interleaved: the lines flushed of each are the complete
      lines of what was written to it, and its rest waits in the buffer. */
  lemma {:induction false} LinesOfRun(c: Config, ops: seq<Op>, stream: Stream)
    requires forall i :: 0 <= i < |ops| ==> ops[i].Write?
    ensures Buffer(History(c, ops).0, stream) == Take(Rest(StreamOf(ops, stream)), Cap(c))
    ensures Texts(History(c, ops).1, stream) == Kept(c, SplitLines(StreamOf(ops, stream)))
    decreases |ops|
  {
    if ops != [] {
      var init, op := ops[..|ops| - 1], ops[|ops| - 1];
      LinesOfRun(c, init, stream);
      var (b, es) := History(c, init);
      TextsOfBoth(es, Framed(c, b, op.stream, op.p).1, stream);
      if op.stream == stream {
        FramedLines(c, b, stream, StreamOf(init, stream), op.p);
      } else {
        OtherStreamWaits(c, b, op.stream, op.p, stream);
        assert StreamOf(ops, stream) == StreamOf(init, stream);
      }
    }
  }

  // ----- Limits -----

  /** How much of a line is kept: the frame limit and an overlap of at most 4096 bytes, or as much again. */
  lemma CapMeans(c: Config)
    ensures c.maxFrame >= 4096 ==> Cap(c) == c.maxFrame + 4096
    ensures c.maxFrame < 4096 ==> Cap(c) == 2 * c.maxFrame
  {}

  lemma RedactBoundedMeans(c: Config, value: Bytes, limit: int)
    ensures limit <= 0 ==> RedactBounded(c, value, limit) == (c.codec.redact(value), false)
    ensures limit > 0 ==> RedactBounded(c, value, limit) == (Take(c.codec.redact(value), limit), |c.codec.redact(value)| > limit)
  {}
}
