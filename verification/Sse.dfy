/** Server-sent events read from a stream that arrives in arbitrary chunks. */
module Sse {
  import opened Wrappers

  /** A JSON document; its grammar is a parameter. */
  type Value = string
  type Json = string -> Option<Value>

  datatype Frame = Frame(kind: string, data: Value)

  // ---- text

  predicate White(c: char) {
    '\t' <= c <= '\r' || c == ' ' || c == '\U{0085}' || c == '\U{00A0}' || c == '\U{1680}'
    || '\U{2000}' <= c <= '\U{200A}' || c == '\U{2028}' || c == '\U{2029}' || c == '\U{202F}'
    || c == '\U{205F}' || c == '\U{3000}'
  }

  function Trim(s: string): string
    decreases |s|
  {
    if s == "" then s
    else if White(s[0]) then Trim(s[1..])
    else if White(s[|s| - 1]) then Trim(s[..|s| - 1])
    else s
  }

  /** Where a line ends: at the first line feed, or at the end of the text. */
  function LineEnd(s: string): (n: nat)
    ensures n <= |s| && '\n' !in s[..n]
    ensures n < |s| ==> s[n] == '\n'
  {
    if s == "" || s[0] == '\n' then 0 else 1 + LineEnd(s[1..])
  }

  /** `str::lines`: without line ends, also without a carriage return before them. */
  function Lines(s: string): seq<string> {
    if s == "" then [] else
    var n := LineEnd(s);
    if n == |s| then [s]
    else [if n > 0 && s[n - 1] == '\r' then s[..n - 1] else s[..n]] + Lines(s[n + 1..])
  }

  // ---- one frame

  datatype Fields = Fields(kind: Option<string>, data: Option<Value>)

  function ReadLine(f: Fields, line: string, json: Json): Fields {
    if "event: " <= line then f.(kind := Some(Trim(line[7..])))
    else if "data: " <= line then f.(data := json(Trim(line[6..])))
    else f
  }

  function ReadLines(f: Fields, lines: seq<string>, json: Json): Fields
    decreases |lines|
  {
    if lines == [] then f else ReadLines(ReadLine(f, lines[0], json), lines[1..], json)
  }

  function Parsed(raw: string, json: Json): Option<Frame> {
    var f := ReadLines(Fields(None, None), Lines(raw), json);
    if f.kind.Some? && f.data.Some? then Some(Frame(f.kind.value, f.data.value)) else None
  }

  function Emit(raw: string, json: Json): seq<Frame> {
    match Parsed(raw, json) case Some(f) => [f] case None => []
  }

  // ---- the whole stream at once

  const BLANK := "\n\n"

  predicate BlankAt(s: string, i: nat) {
    i + 2 <= |s| && s[i] == '\n' && s[i + 1] == '\n'
  }

  /** The first blank line: the least index of two line feeds. */
  function FindBlank(s: string): (r: Option<nat>)
    ensures r.Some? ==> BlankAt(s, r.value) && forall i :: 0 <= i < r.value ==> !BlankAt(s, i)
    ensures r.None? ==> forall i :: 0 <= i ==> !BlankAt(s, i)
  {
    if |s| < 2 then None
    else if BlankAt(s, 0) then Some(0)
    else
      assert forall i :: i > 0 ==> (BlankAt(s, i) <==> BlankAt(s[1..], i - 1));
      match FindBlank(s[1..]) case Some(i) => Some(i + 1) case None => None
  }

  datatype Split = Split(frames: seq<Frame>, rest: string)

  /** Everything that blank lines complete in `s`, and what is left after the last of them. */
  function Frames(s: string, json: Json): Split
    decreases |s|
  {
    var i := FindBlank(s);
    if i.None? then Split([], s) else
    var later := Frames(s[i.value + 2..], json);
    Split(Emit(s[..i.value], json) + later.frames, later.rest)
  }

  lemma FoundEarly(s: string, t: string)
    ensures FindBlank(s).Some? ==> FindBlank(s + t) == FindBlank(s)
  {
    var i, j := FindBlank(s), FindBlank(s + t);
    if i.Some? {
      assert BlankAt(s + t, i.value);
      assert forall k :: 0 <= k < i.value ==> (BlankAt(s + t, k) <==> BlankAt(s, k));
    }
  }

  /** Reading on from what was left is reading all of it. */
  lemma {:induction false} FramesContinue(s: string, t: string, json: Json)
    ensures var a := Frames(s, json);
            var b := Frames(a.rest + t, json);
            Frames(s + t, json) == Split(a.frames + b.frames, b.rest)
    decreases |s|
  {
    hide FindBlank, Emit;
    var i := FindBlank(s);
    if i.Some? {
      FoundEarly(s, t);
      assert (s + t)[..i.value] == s[..i.value] && (s + t)[i.value + 2..] == s[i.value + 2..] + t;
      FramesContinue(s[i.value + 2..], t, json);
    }
  }

  function Concat(chunks: seq<string>): string {
    if chunks == [] then "" else Concat(chunks[..|chunks| - 1]) + chunks[|chunks| - 1]
  }

  /** What a reader has after some chunks, taking them one at a time. */
  function Fed(chunks: seq<string>, json: Json): Split {
    if chunks == [] then Split([], "") else
    var before := Fed(chunks[..|chunks| - 1], json);
    var now := Frames(before.rest + chunks[|chunks| - 1], json);
    Split(before.frames + now.frames, now.rest)
  }

  /** However the stream is cut into chunks, the same frames come out, and the same text is left. */
  lemma {:induction false} ChunksDoNotMatter(chunks: seq<string>, json: Json)
    ensures Fed(chunks, json) == Frames(Concat(chunks), json)
  {
    if chunks != [] {
      var n := |chunks| - 1;
      ChunksDoNotMatter(chunks[..n], json);
      FramesContinue(Concat(chunks[..n]), chunks[n], json);
    }
  }

  // ---- from the server's events to the reader's

  /** What the server writes: events, and comments that keep the connection open. */
  datatype Sent = Event(kind: string, data: string) | Keepalive

  function Written(e: Sent): string {
    match e
    case Event(kind, data) => "event: " + kind + "\n" + "data: " + data + BLANK
    case Keepalive => ":keepalive" + BLANK
  }

  function Stream(es: seq<Sent>): string {
    if es == [] then "" else Written(es[0]) + Stream(es[1..])
  }

  /** An event fits on its two lines; names and compact JSON do. */
  ghost predicate Sound(e: Sent) {
    e.Event? ==> '\n' !in e.kind && '\n' !in e.data && '\r' !in e.kind && '\r' !in e.data
  }

  /** An event is one frame if its data is JSON; a keepalive is none. */
  function Received(e: Sent, json: Json): seq<Frame> {
    match e
    case Event(kind, data) =>
      (match json(Trim(data)) case Some(v) => [Frame(Trim(kind), v)] case None => [])
    case Keepalive => []
  }

  lemma {:induction false} LineEnds(s: string, t: string)
    requires '\n' !in s
    ensures LineEnd(s) == |s| && LineEnd(s + "\n" + t) == |s|
  {
    if s == "" {
      assert s + "\n" + t == "\n" + t;
    } else {
      assert s[0] in s;
      LineEnds(s[1..], t);
      assert (s + "\n" + t)[1..] == s[1..] + "\n" + t;
    }
  }

  lemma TwoLines(a: string, b: string)
    requires '\n' !in a && '\n' !in b && '\r' !in a && b != ""
    ensures Lines(a + "\n" + b) == [a, b]
  {
    LineEnds(a, b);
    LineEnds(b, "");
    var all := a + "\n" + b;
    assert all[..|a|] == a && all[|a| + 1..] == b;
    if |a| > 0 { assert all[|a| - 1] == a[|a| - 1] && a[|a| - 1] in a; }
  }

  /** Whatever is written ends at its first blank line and reads back as what was sent. */
  lemma ReadsWritten(e: Sent, json: Json, rest: string)
    requires Sound(e)
    ensures var n := |Written(e)| - 2;
            FindBlank(Written(e) + rest) == Some(n)
            && (Written(e) + rest)[n + 2..] == rest
            && Emit((Written(e) + rest)[..n], json) == Received(e, json)
  {
    hide Emit, FindBlank, Frames;
    match e {
      case Event(kind, data) =>
        var a, b := "event: " + kind, "data: " + data;
        var raw := a + "\n" + b;
        BlankAfter(a, b, rest);
        EmitsOne(a, b, e, json);
        assert Written(e) == raw + BLANK;
        assert Written(e) + rest == raw + (BLANK + rest);
      case Keepalive =>
        KeepaliveEnds(rest);
        EmitsNone(json);
        assert Written(e) + rest == ":keepalive" + (BLANK + rest);
    }
  }

  lemma KeepaliveEnds(rest: string)
    ensures FindBlank(":keepalive" + (BLANK + rest)) == Some(10)
    ensures (":keepalive" + (BLANK + rest))[..10] == ":keepalive" && (":keepalive" + (BLANK + rest))[12..] == rest
  {
    hide FindBlank;
    var all := ":keepalive" + (BLANK + rest);
    assert forall i :: 0 <= i < 10 ==> all[i] == ":keepalive"[i] != '\n';
    assert BlankAt(all, 10);
  }

  lemma EmitsNone(json: Json)
    ensures Emit(":keepalive", json) == []
  {
    hide Lines, ReadLine;
    OneLine(":keepalive");
    OtherField(":keepalive", json);
    ReadsOne(Fields(None, None), ":keepalive", json);
  }

  lemma OneLine(s: string)
    requires s != "" && '\n' !in s
    ensures Lines(s) == [s]
  {
    LineEnds(s, "");
  }

  lemma OtherField(line: string, json: Json)
    requires line != "" && line[0] == ':'
    ensures forall f :: ReadLine(f, line, json) == f
  {
    assert "event: "[0] == 'e' && "data: "[0] == 'd';
  }

  lemma ReadsOne(f: Fields, line: string, json: Json)
    ensures ReadLines(f, [line], json) == ReadLine(f, line, json)
  {
    hide ReadLine;
    assert [line][1..] == [];
  }

  lemma BlankAfter(a: string, b: string, rest: string)
    requires '\n' !in a && '\n' !in b && b != ""
    ensures var raw := a + "\n" + b;
            FindBlank(raw + (BLANK + rest)) == Some(|raw|)
            && (raw + (BLANK + rest))[..|raw|] == raw && (raw + (BLANK + rest))[|raw| + 2..] == rest
  {
    hide FindBlank;
    var raw := a + "\n" + b;
    NoBlankInside(a, b, BLANK + rest);
    assert BlankAt(raw + (BLANK + rest), |raw|);
  }

  lemma EmitsOne(a: string, b: string, e: Sent, json: Json)
    requires Sound(e) && e.Event? && a == "event: " + e.kind && b == "data: " + e.data
    ensures Emit(a + "\n" + b, json) == Received(e, json)
  {
    hide Lines, ReadLines, Trim;
    assert a[7..] == e.kind && b[6..] == e.data && "event: " <= a && "data: " <= b;
    TwoLines(a, b);
    FieldsOf(a, b, json);
  }

  lemma NoBlankInside(a: string, b: string, t: string)
    requires '\n' !in a && '\n' !in b && b != ""
    ensures forall i :: 0 <= i < |a + "\n" + b| ==> !BlankAt(a + "\n" + b + t, i)
  {
    var all := a + "\n" + b + t;
    forall i | 0 <= i < |a + "\n" + b| ensures !BlankAt(all, i) {
      if i < |a| { assert all[i] == a[i] && a[i] in a; }
      else if i == |a| { assert all[i + 1] == b[0] && b[0] in b; }
      else { assert all[i] == b[i - |a| - 1] && b[i - |a| - 1] in b; }
    }
  }

  lemma FieldsOf(a: string, b: string, json: Json)
    requires "event: " <= a && "data: " <= b
    ensures ReadLines(Fields(None, None), [a, b], json) == Fields(Some(Trim(a[7..])), json(Trim(b[6..])))
  {
    hide Trim;
    assert "event: "[0] == 'e' && b[0] == "data: "[0] == 'd';
    assert !("event: " <= b);
    assert ReadLine(Fields(None, None), a, json) == Fields(Some(Trim(a[7..])), None);
    var first := Fields(Some(Trim(a[7..])), None);
    assert [a, b][1..] == [b] && [b][1..] == [];
    assert ReadLines(Fields(None, None), [a, b], json) == ReadLines(first, [b], json);
    assert ReadLines(first, [b], json) == ReadLine(first, b, json);
    assert ReadLine(Fields(Some(Trim(a[7..])), None), b, json) == Fields(Some(Trim(a[7..])), json(Trim(b[6..])));
  }

  function AllReceived(es: seq<Sent>, json: Json): seq<Frame> {
    if es == [] then [] else Received(es[0], json) + AllReceived(es[1..], json)
  }

  lemma {:induction false} StreamFrames(es: seq<Sent>, json: Json)
    requires forall i :: 0 <= i < |es| ==> Sound(es[i])
    ensures Frames(Stream(es), json) == Split(AllReceived(es, json), "")
  {
    hide FindBlank, Emit, Written;
    if es == [] {
      NoFrames(json);
    } else {
      ReadsWritten(es[0], json, Stream(es[1..]));
      StreamFrames(es[1..], json);
    }
  }

  lemma NoFrames(json: Json)
    ensures Frames("", json) == Split([], "")
  {}

  /** Every event the server writes is delivered once and in order, among any keepalives and under any chunking. */
  lemma EveryEventDelivered(es: seq<Sent>, chunks: seq<string>, json: Json)
    requires forall i :: 0 <= i < |es| ==> Sound(es[i])
    requires Concat(chunks) == Stream(es)
    ensures Fed(chunks, json) == Split(AllReceived(es, json), "")
  {
    ChunksDoNotMatter(chunks, json);
    StreamFrames(es, json);
  }

  /** Trimming takes white space off both ends and nothing else. */
  lemma {:induction false} TrimIs(s: string) returns (a: nat, b: nat)
    ensures a <= b <= |s| && Trim(s) == s[a..b] && (a < b ==> !White(s[a]) && !White(s[b - 1]))
    ensures forall i :: 0 <= i < a || b <= i < |s| ==> White(s[i])
    decreases |s|
  {
    hide White;
    a, b := 0, |s|;
    if s != "" && White(s[0]) {
      a, b := TrimIs(s[1..]);
      a, b := a + 1, b + 1;
    } else if s != "" && White(s[|s| - 1]) {
      a, b := TrimIs(s[..|s| - 1]);
    }
  }

  /** The events among what is written, with their data read. */
  function FramesOf(es: seq<Sent>, json: Json): seq<Frame> {
    if es == [] then []
    else (if es[0].Event? && json(es[0].data).Some? then [Frame(es[0].kind, json(es[0].data).value)] else [])
         + FramesOf(es[1..], json)
  }

  /** If names and data have no white space at their ends, the reader's frames are the events themselves. */
  lemma EventsDelivered(es: seq<Sent>, chunks: seq<string>, json: Json)
    requires forall i :: 0 <= i < |es| ==> Sound(es[i]) && Bare(es[i])
    requires Concat(chunks) == Stream(es)
    ensures Fed(chunks, json) == Split(FramesOf(es, json), "")
  {
    EveryEventDelivered(es, chunks, json);
    BareFrames(es, json);
  }

  ghost predicate Bare(e: Sent) {
    e.Event? ==> Tight(e.kind) && Tight(e.data)
  }

  ghost predicate Tight(s: string) {
    s == "" || (!White(s[0]) && !White(s[|s| - 1]))
  }

  lemma {:induction false} BareFrames(es: seq<Sent>, json: Json)
    requires forall i :: 0 <= i < |es| ==> Bare(es[i])
    ensures AllReceived(es, json) == FramesOf(es, json)
  {
    hide White;
    if es != [] { BareFrames(es[1..], json); }
  }

  // ---- the reader

  method ReadFrame(raw: string, json: Json) returns (frame: Option<Frame>)
    ensures frame == Parsed(raw, json)
  {
    var kind: Option<string>, data: Option<Value> := None, None;
    var lines := Lines(raw);
    ghost var end := ReadLines(Fields(None, None), lines, json);
    assert lines[0..] == lines;
    for i := 0 to |lines|
      invariant ReadLines(Fields(kind, data), lines[i..], json) == end
    {
      assert lines[i..][1..] == lines[i + 1..];
      if "event: " <= lines[i] {
        kind := Some(Trim(lines[i][7..]));
      } else if "data: " <= lines[i] {
        data := json(Trim(lines[i][6..]));
      }
    }
    if kind.None? || data.None? { return None; }
    return Some(Frame(kind.value, data.value));
  }

  lemma FramesUnfold(s: string, json: Json)
    ensures Frames(s, json) ==
      match FindBlank(s)
      case None => Split([], s)
      case Some(i) => Split(Emit(s[..i], json) + Frames(s[i + 2..], json).frames, Frames(s[i + 2..], json).rest)
  {
    hide FindBlank, Emit;
  }

  class EventStream {
    const json: Json
    var buf: string

    constructor (json: Json)
      ensures this.json == json && buf == ""
    {
      this.json, buf := json, "";
    }

    /** Takes the first frame out of the buffer. */
    method NextFrame(idx: nat) returns (events: seq<Frame>)
      requires FindBlank(buf) == Some(idx)
      modifies this
      ensures |buf| < |old(buf)|
      ensures Frames(old(buf), json) == Split(events + Frames(buf, json).frames, Frames(buf, json).rest)
    {
      hide FindBlank, Parsed, Frames;
      FramesUnfold(buf, json);
      var raw := buf[..idx];
      buf := buf[idx + 2..];
      var frame := ReadFrame(raw, json);
      return if frame.Some? then [frame.value] else [];
    }

    /** One chunk: the buffer is drained frame by frame. */
    method OnChunk(chunk: string) returns (events: seq<Frame>)
      modifies this
      ensures Split(events, buf) == Frames(old(buf) + chunk, json)
    {
      hide FindBlank, Frames;
      buf := buf + chunk;
      events := [];
      var idx := FindBlank(buf);
      while idx.Some?
        invariant idx == FindBlank(buf)
        invariant Split(events + Frames(buf, json).frames, Frames(buf, json).rest) == Frames(old(buf) + chunk, json)
        decreases |buf|
      {
        ghost var before := events;
        var next := NextFrame(idx.value);
        events := events + next;
        assert before + (next + Frames(buf, json).frames) == events + Frames(buf, json).frames;
        idx := FindBlank(buf);
      }
      FramesUnfold(buf, json);
    }
  }
}
