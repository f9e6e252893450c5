/** RTSP on the wire: what a strict reader sees in printed messages, and what the parser makes of the messages that
    clients write, which end their lines as they like. */
module RtspWire {
  import opened Wrappers
  import opened Rtsp
  import opened RtspRoundTrip

  // ---- printed messages, line by line

  /** A text cut at its line ends; an empty rest after the last of them is no line. */
  function SplitLines(s: string): seq<string> {
    if s == "" then []
    else if "\r\n" <= s then [""] + SplitLines(s[2..])
    else
      var rest := SplitLines(s[1..]);
      if rest == [] then [s] else [[s[0]] + rest[0]] + rest[1..]
  }

  lemma {:induction false} LineFirst(line: string, s: string)
    requires '\r' !in line
    ensures SplitLines(line + ("\r\n" + s)) == [line] + SplitLines(s)
  {
    var all := line + ("\r\n" + s);
    if line == "" {
      assert all == "\r\n" + s && all[2..] == s;
    } else {
      assert line[0] in line && all[0] == line[0] && all[1..] == line[1..] + ("\r\n" + s);
      LineFirst(line[1..], s);
      assert [line[0]] + line[1..] == line;
    }
  }

  lemma NoReturn(cls: Class, s: string)
    requires All(cls, s) && !cls('\r')
    ensures '\r' !in s
  {}

  function StartLine(p: RtspPacket): string {
    match p.kind
    case Request =>
      p.cmd + " "
      + (match p.target
         case TargetUri => p.protocol + "://" + p.ip + ":" + Digits(p.port)
         case TargetStream => "streamid=" + p.streamType + p.streamParams)
      + " RTSP/1.0"
    case Response => "RTSP/1.0 " + Digits(p.statusCode) + " " + p.msg
  }

  /** `key`, the separator and the value. */
  function Joined(es: seq<(string, string)>, sep: string): seq<string> {
    seq(|es|, i requires 0 <= i < |es| => es[i].0 + sep + es[i].1)
  }

  lemma OptionLine(opts: seq<(string, string)>, tail: string)
    requires opts != []
    ensures OptionLines(opts, tail)
         == (opts[0].0 + ": " + opts[0].1) + ("\r\n" + OptionLines(opts[1..], tail))
  {
    var rest := OptionLines(opts[1..], tail);
    hide OptionLines;
    OptionLinesFirst(opts, tail);
    Regroup(opts[0].0, ": ", opts[0].1 + ("\r\n" + rest));
    Regroup(opts[0].0 + ": ", opts[0].1, "\r\n" + rest);
  }

  lemma OptionLinesFirst(opts: seq<(string, string)>, tail: string)
    requires opts != []
    ensures OptionLines(opts, tail) == opts[0].0 + (": " + (opts[0].1 + ("\r\n" + OptionLines(opts[1..], tail))))
  {}

  lemma PayloadLine(pays: seq<(string, string)>)
    requires pays != [] && pays[0].0 != ""
    ensures PayloadsText(pays) == (pays[0].0 + "=" + pays[0].1) + ("\r\n" + PayloadsText(pays[1..]))
  {
    var rest := PayloadsText(pays[1..]);
    hide PayloadsText;
    PayloadsFirst(pays);
    Regroup(pays[0].0 + "=", pays[0].1, "\r\n" + rest);
  }

  lemma PayloadsFirst(pays: seq<(string, string)>)
    requires pays != [] && pays[0].0 != ""
    ensures PayloadsText(pays) == (pays[0].0 + "=") + (pays[0].1 + ("\r\n" + PayloadsText(pays[1..])))
  {}

  lemma NothingPrinted(tail: string)
    ensures OptionLines([], tail) == tail && PayloadsText([]) == ""
  {}

  lemma JoinedFirst(es: seq<(string, string)>, sep: string)
    requires es != []
    ensures Joined(es, sep) == [es[0].0 + sep + es[0].1] + Joined(es[1..], sep)
  {}

  lemma StartIsFirst(p: RtspPacket, tail: string)
    ensures FirstLineText(p, tail) == StartLine(p) + tail
  {
    hide Digits;
    if p.kind == Request && p.target == TargetUri {
      var t := p.protocol + ("://" + (p.ip + (":" + (Digits(p.port) + (" RTSP/1.0" + tail)))));
      assert t == p.protocol + "://" + p.ip + ":" + Digits(p.port) + " RTSP/1.0" + tail;
    } else if p.kind == Request {
      var t := "streamid=" + (p.streamType + (p.streamParams + (" RTSP/1.0" + tail)));
      assert t == "streamid=" + p.streamType + p.streamParams + " RTSP/1.0" + tail;
    }
  }

  lemma StartHasNoReturn(p: RtspPacket)
    requires FirstLineFormed(p)
    ensures '\r' !in StartLine(p)
  {
    hide Digits;
    match p.kind {
      case Request =>
        NoReturn(Letter, p.cmd);
        match p.target {
          case TargetUri =>
            NoReturn(Letter, p.protocol);
            NoReturn(DigitDot, p.ip);
            NoReturn(Digit, Digits(p.port));
          case TargetStream =>
            NoReturn(Letter, p.streamType);
            NoReturn(DigitSlash, p.streamParams);
        }
      case Response =>
        NoReturn(Digit, Digits(p.statusCode));
        NoReturn(LetterSpace, p.msg);
    }
  }

  lemma EntryHasNoReturn(cls: Class, e: (string, string), sep: string)
    requires Entry(cls, e) && !cls('\r') && '\r' !in sep
    ensures '\r' !in e.0 + sep + e.1
  {
    NoReturn(KeyChar, e.0);
    NoReturn(cls, e.1);
  }

  lemma {:induction false} OptionsSplit(opts: seq<(string, string)>, tail: string)
    requires Entries(OptChar, opts)
    ensures SplitLines(OptionLines(opts, tail)) == Joined(opts, ": ") + SplitLines(tail)
    decreases |opts|
  {
    hide SplitLines, Joined, OptionLines;
    NothingJoined(": ");
    NothingPrinted(tail);
    if opts != [] {
      var e, rest := opts[0], OptionLines(opts[1..], tail);
      var line := e.0 + ": " + e.1;
      EntryHasNoReturn(OptChar, e, ": ");
      LineFirst(line, rest);
      OptionsSplit(opts[1..], tail);
      OptionLine(opts, tail);
      JoinedFirst(opts, ": ");
    }
  }

  lemma {:induction false} PayloadsSplit(pays: seq<(string, string)>)
    requires Entries(PayChar, pays)
    ensures SplitLines(PayloadsText(pays)) == Joined(pays, "=")
    decreases |pays|
  {
    NothingSplit();
    hide SplitLines, Joined, PayloadsText;
    NothingJoined("=");
    NothingPrinted("");
    if pays != [] {
      var e, rest := pays[0], PayloadsText(pays[1..]);
      var line := e.0 + "=" + e.1;
      EntryHasNoReturn(PayChar, e, "=");
      LineFirst(line, rest);
      PayloadsSplit(pays[1..]);
      PayloadLine(pays);
      JoinedFirst(pays, "=");
    }
  }

  lemma NothingJoined(sep: string)
    ensures Joined([], sep) == []
  {}

  lemma NothingSplit()
    ensures SplitLines("") == []
  {}

  /** A well-formed packet is printed as its start line, the sequence number, one line for each option, an empty one,
      and one line for each payload. */
  lemma PrintedLines(p: RtspPacket)
    requires WellFormed(p)
    ensures SplitLines(Text(p)) == [StartLine(p), "CSeq: " + Digits(p.seqNumber)] + Joined(p.options, ": ") + [""]
                                   + Joined(p.payloads, "=")
  {
    hide SplitLines, Digits, StartLine, FirstLineText, OptionsText, PayloadsText, OptionLines, FirstLineFormed;
    var pays := PayloadsText(p.payloads);
    var lines := OptionLines(p.options, CRLF + pays);
    var number := "CSeq: " + Digits(p.seqNumber);
    LinesMoved(p.options, CRLF + pays);
    StartIsFirst(p, CRLF + (number + (CRLF + lines)));
    assert number + (CRLF + lines) == "CSeq: " + (Digits(p.seqNumber) + (CRLF + lines));
    assert Text(p) == StartLine(p) + (CRLF + (number + (CRLF + lines)));
    StartHasNoReturn(p);
    NoReturn(Digit, Digits(p.seqNumber));
    LineFirst(StartLine(p), number + (CRLF + lines));
    LineFirst(number, lines);
    OptionsSplit(p.options, CRLF + pays);
    LineFirst("", pays);
    assert "" + (CRLF + pays) == CRLF + pays;
    PayloadsSplit(p.payloads);
  }

  // ---- what clients write

  /** Blanks and tabs. */
  predicate IsGap(s: string) { forall i :: 0 <= i < |s| ==> s[i] in " \t" }

  predicate IsEnd(eol: string) { eol == "\n" || eol == "\r\n" }

  /** A line of a client: blanks may follow the separator, and the line may end either way. */
  datatype Line = Line(key: string, gap: string, val: string, eol: string) {
    function Entry(): (string, string) { (key, val) }
  }

  ghost predicate Proper(cls: Class, ls: seq<Line>) {
    forall i :: 0 <= i < |ls| ==> Entry(cls, ls[i].Entry()) && IsGap(ls[i].gap) && IsEnd(ls[i].eol)
  }

  function LinesText(sep: string, ls: seq<Line>, tail: string): string {
    if ls == [] then tail
    else ls[0].key + (sep + (ls[0].gap + (ls[0].val + (ls[0].eol + LinesText(sep, ls[1..], tail)))))
  }

  /** What a map holds after the assignments, in their order. */
  function Assigned(opts: seq<(string, string)>, ls: seq<Line>): seq<(string, string)>
    decreases |ls|
  {
    if ls == [] then opts else Assigned(Assign(opts, ls[0].key, ls[0].val), ls[1..])
  }

  function Entered(ls: seq<Line>): seq<(string, string)> {
    seq(|ls|, i requires 0 <= i < |ls| => ls[i].Entry())
  }

  /** No key stands here, so that no payload line begins. */
  predicate NoKey(s: string) { Clean(s) && (s == "" || !KeyChar(s[0]) || '=' !in s) }

  lemma EndTakes(eol: string, s: string)
    requires IsEnd(eol) && Clean(s)
    ensures EndLine(eol + s).Match? && EndLine(eol + s).rest == s
  {
    if eol == "\n" {
      LiteralMisses("\r", "\n" + s);
      LiteralTakes("\n", s);
      NothingSkipped(s);
    } else {
      EndLineTakes(s);
    }
  }

  lemma GapSkipped(gap: string, s: string)
    requires IsGap(gap) && Clean(s)
    ensures SkipBlank(gap + s) == s
  {
    TakesAll(Blank, gap, s);
    assert (gap + s)[|gap|..] == s;
  }

  /** The number that leads a token is taken; one that does not fit is read as zero. */
  lemma NumberTaken(n: nat, rest: string, max: nat)
    requires rest == "" || rest[0] < '0' || rest[0] > '9'
    ensures ToNumber(Digits(n) + rest, max) == if n <= max then n else 0
  {
    TakesAll(Digit, Digits(n), rest);
    DigitsRead(n);
  }

  /** Numbers are decimal. */
  lemma KnownNumbers()
    ensures Digits(0) == "0" && Digits(7) == "7" && Digits(48010) == "48010"
  {
    assert Digits(48) == "48" && Digits(480) == "480" && Digits(4801) == "4801";
  }

  /** The characters of option values and of payloads. */
  lemma KnownClasses(c: char)
    ensures var word := 'a' <= c <= 'z' || 'A' <= c <= 'Z' || '0' <= c <= '9' || c == '-' || c == '_';
      && (KeyChar(c) <==> word)
      && (OptChar(c) <==> word || c == '.' || c == '/' || c == ';' || c == '=' || c == ',' || c == ' ' || c == ':')
      && (PayChar(c) <==> word || c == '.' || c == '/' || c == '[' || c == ']' || c == '\\' || c == ':'
                          || c == ' ' || c == '=')
  {}

  lemma EndIsClean(eol: string, s: string)
    requires IsEnd(eol)
    ensures Clean(eol + s) && AtEnd(eol + s)
  {}

  lemma LineRead(sep: char, cls: Class, l: Line, tail: string)
    requires Entry(cls, l.Entry()) && IsGap(l.gap) && IsEnd(l.eol) && Clean(tail)
    requires !KeyChar(sep) && !Blank(sep) && !cls('\r') && !cls('\n')
    ensures KeyValue(sep, cls, l.key + ([sep] + (l.gap + (l.val + (l.eol + tail))))) == Pair(l.key, l.val, tail)
  {
    hide TakeWhile, SkipBlank, Token, Literal, EndLine;
    var s := l.eol + tail;
    EndIsClean(l.eol, tail);
    TokenTakes(KeyChar, l.key, [sep] + (l.gap + (l.val + s)));
    NothingSkipped([sep] + (l.gap + (l.val + s)));
    ValueClean(cls, l, s);
    GapSkipped(l.gap, l.val + s);
    LiteralTakes([sep], l.gap + (l.val + s));
    EndTakes(l.eol, tail);
    NothingSkipped(s);
    if l.val == "" {
      assert l.val + s == s;
      NoneTaken(cls, s);
      NothingMatched(s);
    } else {
      TokenTakes(cls, l.val, s);
    }
  }

  lemma ValueClean(cls: Class, l: Line, s: string)
    requires Entry(cls, l.Entry()) && Clean(s)
    ensures Clean(l.val + s)
  {
    if l.val == "" { assert l.val + s == s; }
  }

  lemma LinesTextClean(sep: string, cls: Class, ls: seq<Line>, tail: string)
    requires Proper(cls, ls) && Clean(tail)
    ensures Clean(LinesText(sep, ls, tail))
  {}

  lemma {:induction false} ClientOptions(pkt: RtspPacket, ls: seq<Line>, tail: string)
    requires Proper(OptChar, ls) && Clean(tail) && (tail == "" || AtEnd(tail))
    ensures Options(pkt, LinesText(":", ls, tail)) == Step(true, pkt.(options := Assigned(pkt.options, ls)), tail)
    decreases |ls|
  {
    hide TakeWhile, SkipBlank, Token, Literal, KeyValue, Assign;
    if ls == [] {
      NoPairAtEnd(':', OptChar, tail);
    } else {
      var rest := LinesText(":", ls[1..], tail);
      LinesTextClean(":", OptChar, ls[1..], tail);
      LineRead(':', OptChar, ls[0], rest);
      ClientOptions(pkt.(options := Assign(pkt.options, ls[0].key, ls[0].val)), ls[1..], tail);
    }
  }

  lemma NoKeyNoPair(s: string)
    requires NoKey(s)
    ensures KeyValue('=', PayChar, s).NoPair?
  {
    hide EndLine;
    if s != "" && KeyChar(s[0]) {
      var eq := Token(KeyChar, s).rest;
      assert forall c <- eq :: c in s;
    }
  }

  lemma EnteredFirst(es: seq<(string, string)>, ls: seq<Line>)
    requires ls != []
    ensures es + [ls[0].Entry()] + Entered(ls[1..]) == es + Entered(ls)
  {}

  lemma {:induction false} ClientPayloads(pkt: RtspPacket, ls: seq<Line>, rubbish: string)
    requires Proper(PayChar, ls) && NoKey(rubbish)
    ensures Payloads(pkt, LinesText("=", ls, rubbish))
         == Step(true, pkt.(payloads := pkt.payloads + Entered(ls)), rubbish)
    decreases |ls|
  {
    hide TakeWhile, SkipBlank, Token, Literal, KeyValue, NoKey;
    if ls == [] {
      NoKeyNoPair(rubbish);
      assert pkt.payloads + Entered(ls) == pkt.payloads;
    } else {
      var rest := LinesText("=", ls[1..], rubbish);
      NoKeyClean(rubbish);
      LinesTextClean("=", PayChar, ls[1..], rubbish);
      LineRead('=', PayChar, ls[0], rest);
      var next := pkt.(payloads := pkt.payloads + [ls[0].Entry()]);
      EnteredFirst(pkt.payloads, ls);
      ClientPayloads(next, ls[1..], rubbish);
    }
  }

  lemma ClientNumber(pkt: RtspPacket, gap: string, n: SeqNumber, eol: string, tail: string)
    requires Clean(tail) && n >= 0 && IsGap(gap) && IsEnd(eol)
    ensures CSeq(pkt, "CSeq:" + (gap + (Digits(n) + (eol + tail)))) == Step(true, pkt.(seqNumber := n), tail)
  {
    hide TakeWhile, SkipBlank, Token, Literal, Digits, ToNumber, Value, EndLine;
    var s := Digits(n) + (eol + tail);
    LiteralTakes("CSeq:", gap + s);
    GapSkipped(gap, s);
    EndIsClean(eol, tail);
    TokenTakes(DigitDot, Digits(n), eol + tail);
    NothingSkipped(eol + tail);
    NumberRead(n, 0x7fff_ffff);
    EndTakes(eol, tail);
  }

  /** A client's message: the start line of `p`, a number, options in any order, the empty line, payloads, and
      whatever else was in the buffer. */
  datatype Message = Message(p: RtspPacket, eol: string, gap: string, number: nat, numberEol: string,
                             options: seq<Line>, blank: string, payloads: seq<Line>, rubbish: string)
  {
    ghost predicate Valid() {
      && FirstLineFormed(p) && IsEnd(eol) && IsGap(gap) && number <= 0x7fff_ffff && IsEnd(numberEol)
      && Proper(OptChar, options) && Proper(PayChar, payloads) && NoKey(rubbish)
      && IsEnd(blank)
    }

    function Body(): string { LinesText("=", payloads, rubbish) }

    function Head(): string {
      "CSeq:" + (gap + (Digits(number) + (numberEol + LinesText(":", options, blank + Body()))))
    }

    function Written(): string { FirstLineText(p, eol + Head()) }
  }

  /** Every such message is read: the same start line and number, for every option the value that was written last,
      and all payloads in their order; the rubbish is ignored. */
  lemma ClientMessageRead(m: Message)
    requires m.Valid()
    ensures var q := Parse(m.Written());
            && q.Some? && SameFirstLine(m.p, q.value) && q.value.seqNumber == m.number
            && q.value.options == Assigned([], m.options) && q.value.payloads == Entered(m.payloads)
  {
    hide TakeWhile, SkipBlank, Token, Literal, Digits, ToNumber, Value, FirstLine, EndLine, CSeq, Options, Payloads;
    hide KeyValue, FirstLineText, FirstLineFormed, LinesText, Assigned, Proper, NoKey;
    EndIsClean(m.eol, m.Head());
    FirstLineRead(m.p, m.eol + m.Head());
    var first := FirstLine(EMPTY, SkipBlank(m.Written()));
    EndTakes(m.eol, m.Head());
    NoKeyClean(m.rubbish);
    LinesTextClean("=", PayChar, m.payloads, m.rubbish);
    EndIsClean(m.blank, m.Body());
    LinesTextClean(":", OptChar, m.options, m.blank + m.Body());
    ClientNumber(first.pkt, m.gap, m.number, m.numberEol, LinesText(":", m.options, m.blank + m.Body()));
    var numbered := first.pkt.(seqNumber := m.number);
    ClientOptions(numbered, m.options, m.blank + m.Body());
    EndTakes(m.blank, m.Body());
    var mapped := numbered.(options := Assigned([], m.options));
    ClientPayloads(mapped, m.payloads, m.rubbish);
    assert mapped.payloads + Entered(m.payloads) == Entered(m.payloads);
    RubbishEaten(m.rubbish);
  }

  lemma NoKeyClean(s: string)
    requires NoKey(s)
    ensures Clean(s)
  {}

  /** Any text is one token of any characters. */
  lemma RubbishEaten(s: string)
    ensures Opt(Token(AnyChar, s), s) == ""
  {
    hide SkipBlank;
    var t := TakeWhile(AnyChar, s);
    assert |t| == |s|;
    assert s[|t|..] == "";
    SkipsNothing();
  }

  lemma SkipsNothing()
    ensures SkipBlank("") == ""
  {}

  /** The map holds, for each key, what was written last under it. */
  lemma {:induction false} AssignedLast(opts: seq<(string, string)>, ls: seq<Line>, key: string, val: string)
    requires Sorted(opts)
    ensures Sorted(Assigned(opts, ls))
    ensures (key, val) in Assigned(opts, ls) <==>
              (exists i :: 0 <= i < |ls| && ls[i].Entry() == (key, val)
                 && forall j :: i < j < |ls| ==> ls[j].key != key)
              || ((key, val) in opts && forall j :: 0 <= j < |ls| ==> ls[j].key != key)
    decreases |ls|
  {
    hide Assign, Sorted;
    if ls != [] {
      var l, rest := ls[0], ls[1..];
      AssignKeeps(opts, l.key, l.val);
      AssignedLast(Assign(opts, l.key, l.val), rest, key, val);
      assert forall j :: 0 <= j < |rest| ==> rest[j] == ls[j + 1];
      LastMoves(ls, key, val);
    }
  }

  ghost predicate LastAt(ls: seq<Line>, key: string, val: string, i: int) {
    0 <= i < |ls| && ls[i].Entry() == (key, val) && forall j :: i < j < |ls| ==> ls[j].key != key
  }

  lemma LastMoves(ls: seq<Line>, key: string, val: string)
    requires ls != []
    ensures (exists i :: LastAt(ls, key, val, i)) <==>
              (exists i :: LastAt(ls[1..], key, val, i))
              || (ls[0].Entry() == (key, val) && forall j :: 0 <= j < |ls[1..]| ==> ls[1..][j].key != key)
  {
    var rest := ls[1..];
    assert forall j :: 0 <= j < |rest| ==> rest[j] == ls[j + 1];
    assert forall i :: i >= 0 ==> (LastAt(rest, key, val, i) <==> LastAt(ls, key, val, i + 1));
    if i :| LastAt(ls, key, val, i) {
      if i > 0 { assert LastAt(rest, key, val, i - 1); }
    }
    if ls[0].Entry() == (key, val) && forall j :: 0 <= j < |rest| ==> rest[j].key != key {
      assert forall j :: 0 < j < |ls| ==> ls[j] == rest[j - 1];
      assert LastAt(ls, key, val, 0);
    }
  }
}
