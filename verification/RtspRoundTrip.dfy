/** What the parser makes of printed packets, and the printer of parsed ones. */
module RtspRoundTrip {
  import opened Wrappers
  import opened Rtsp

  // ---- well-formed packets

  ghost predicate Word(cls: Class, s: string) { s != "" && All(cls, s) }

  ghost predicate Entry(cls: Class, e: (string, string)) {
    Word(KeyChar, e.0) && All(cls, e.1) && Clean(e.1)
  }

  ghost predicate Entries(cls: Class, es: seq<(string, string)>) {
    forall i :: 0 <= i < |es| ==> Entry(cls, es[i])
  }

  /** Keys strictly increasing, as in every `std::map`. */
  ghost predicate Sorted(es: seq<(string, string)>) {
    forall i, j :: 0 <= i < j < |es| ==> Less(es[i].0, es[j].0)
  }

  ghost predicate FirstLineFormed(p: RtspPacket) {
    match p.kind
    case Request =>
      Word(Letter, p.cmd)
      && (match p.target
          case TargetUri => Word(Letter, p.protocol) && All(DigitDot, p.ip)
          case TargetStream => Word(Letter, p.streamType) && Word(DigitSlash, p.streamParams))
    case Response => Word(LetterSpace, p.msg) && Clean(p.msg)
  }

  ghost predicate WellFormed(p: RtspPacket) {
    FirstLineFormed(p) && p.seqNumber >= 0
    && Entries(OptChar, p.options) && Sorted(p.options)
    && Entries(PayChar, p.payloads)
  }

  /** The same message: equal in every field that a packet of this kind uses. */
  ghost predicate SameFirstLine(p: RtspPacket, q: RtspPacket) {
    p.kind == q.kind
    && (match p.kind
        case Request =>
          p.cmd == q.cmd && p.target == q.target
          && (match p.target
              case TargetUri => p.protocol == q.protocol && p.ip == q.ip && p.port == q.port
              case TargetStream => p.streamType == q.streamType && p.streamParams == q.streamParams)
        case Response => p.statusCode == q.statusCode && p.msg == q.msg)
  }

  ghost predicate Same(p: RtspPacket, q: RtspPacket) {
    SameFirstLine(p, q) && p.seqNumber == q.seqNumber && p.options == q.options && p.payloads == q.payloads
  }

  /** A line ends here. */
  predicate AtEnd(s: string) { s != "" && (s[0] == '\r' || s[0] == '\n') }

  // ---- terminals on printed text

  lemma {:induction false} TakesAll(cls: Class, t: string, s: string)
    requires All(cls, t)
    requires s == "" || !cls(s[0])
    ensures TakeWhile(cls, t + s) == t
  {
    if t == "" {
      assert t + s == s;
    } else {
      TakesAll(cls, t[1..], s);
      assert (t + s)[1..] == t[1..] + s;
    }
  }

  lemma TokenTakes(cls: Class, t: string, s: string)
    requires Word(cls, t)
    requires s == "" || !cls(s[0])
    ensures Token(cls, t + s) == Match(t, SkipBlank(s))
  {
    TakesAll(cls, t, s);
    assert (t + s)[|t|..] == s;
  }

  lemma NothingSkipped(s: string)
    requires Clean(s)
    ensures SkipBlank(s) == s && SkipBlank(" " + s) == s
  {
    TakesAll(Blank, "", s);
    assert "" + s == s;
    TakesAll(Blank, " ", s);
  }

  lemma LiteralTakes(lit: string, s: string)
    ensures Literal(lit, lit + s).Match? && Literal(lit, lit + s).rest == SkipBlank(s)
  {
    assert (lit + s)[|lit|..] == s;
  }

  lemma LiteralMisses(lit: string, s: string)
    requires lit != "" && s != "" && lit[0] != s[0]
    ensures Literal(lit, s).NoMatch?
  {}

  lemma NoneTaken(cls: Class, s: string)
    requires s != "" && !cls(s[0])
    ensures Token(cls, s).NoMatch? && TakeWhile(cls, s) == ""
  {}

  lemma NothingMatched(s: string)
    requires Clean(s)
    ensures Literal("", s) == Match("", s)
  {
    hide SkipBlank;
    NothingSkipped(s);
    assert s[|""|..] == s;
  }

  lemma EndLineTakes(s: string)
    requires Clean(s)
    ensures EndLine(CRLF + s).Match? && EndLine(CRLF + s).rest == s
  {
    assert CRLF + s == "\r" + ("\n" + s);
    LiteralTakes("\r", "\n" + s);
    NothingSkipped("\n" + s);
    LiteralTakes("\n", s);
    NothingSkipped(s);
  }

  lemma {:induction false} DigitsRead(n: nat)
    ensures Value(Digits(n)) == n
  {
    if n < 10 {
      assert Digits(n)[..0] == "";
    } else {
      DigitsRead(n / 10);
      assert Digits(n)[..|Digits(n)| - 1] == Digits(n / 10);
    }
  }

  lemma NumberRead(n: nat, max: nat)
    requires n <= max
    ensures ToNumber(Digits(n), max) == n
  {
    TakesAll(Digit, Digits(n), "");
    assert Digits(n) + "" == Digits(n);
    DigitsRead(n);
  }

  // ---- lines

  lemma PairRead(sep: char, cls: Class, e: (string, string), body: string, tail: string)
    requires Entry(cls, e) && !KeyChar(sep) && !cls('\r') && !Blank(sep)
    requires SkipBlank(body) == e.1 + (CRLF + tail)
    requires Clean(tail)
    ensures KeyValue(sep, cls, e.0 + ([sep] + body)) == Pair(e.0, e.1, tail)
  {
    hide TakeWhile, SkipBlank, Token, Literal, EndLine;
    TokenTakes(KeyChar, e.0, [sep] + body);
    NothingSkipped([sep] + body);
    LiteralTakes([sep], body);
    EndLineTakes(tail);
    var s := CRLF + tail;
    NothingSkipped(s);
    if e.1 == "" {
      assert e.1 + s == s;
      NoneTaken(cls, s);
      NothingMatched(s);
    } else {
      TokenTakes(cls, e.1, s);
    }
  }

  lemma NoPairAtEnd(sep: char, cls: Class, s: string)
    requires s == "" || AtEnd(s)
    ensures KeyValue(sep, cls, s).NoPair?
  {
    hide SkipBlank, Literal, EndLine;
  }

  /** The option lines after the line end that precedes them. */
  function OptionLines(opts: seq<(string, string)>, tail: string): string {
    if opts == [] then tail
    else opts[0].0 + (": " + (opts[0].1 + (CRLF + OptionLines(opts[1..], tail))))
  }

  lemma {:induction false} LinesMoved(opts: seq<(string, string)>, tail: string)
    ensures OptionsText(opts, CRLF + tail) == CRLF + OptionLines(opts, tail)
  {
    if opts != [] { LinesMoved(opts[1..], tail); }
  }

  lemma LinesClean(opts: seq<(string, string)>, tail: string)
    requires Entries(OptChar, opts) && Clean(tail)
    ensures Clean(OptionLines(opts, tail))
  {}

  // ---- the sorted map

  lemma {:induction false} LessOrders(a: string, b: string)
    ensures !(Less(a, b) && Less(b, a))
    ensures a != b <==> Less(a, b) || Less(b, a)
  {
    if a != "" && b != "" && a[0] == b[0] {
      LessOrders(a[1..], b[1..]);
      assert a == [a[0]] + a[1..] && b == [b[0]] + b[1..];
    }
  }

  lemma {:induction false} LessChains(a: string, b: string, c: string)
    requires Less(a, b) && Less(b, c)
    ensures Less(a, c)
  {
    if a != "" && a[0] == b[0] && b[0] == c[0] { LessChains(a[1..], b[1..], c[1..]); }
  }

  /** A key above all others is put last. */
  lemma {:induction false} AssignLast(opts: seq<(string, string)>, e: (string, string))
    requires forall i :: 0 <= i < |opts| ==> Less(opts[i].0, e.0)
    ensures Assign(opts, e.0, e.1) == opts + [e]
  {
    if opts != [] {
      LessOrders(opts[0].0, e.0);
      AssignLast(opts[1..], e);
    }
  }

  /** Assigning keeps a map a map: sorted, with every entry either new or there before. */
  lemma {:induction false} AssignKeeps(opts: seq<(string, string)>, key: string, val: string)
    requires Sorted(opts)
    ensures Sorted(Assign(opts, key, val))
    ensures forall e :: e in Assign(opts, key, val) <==> e == (key, val) || (e in opts && e.0 != key)
  {
    if opts != [] {
      var rest := opts[1..];
      assert opts == [opts[0]] + rest;
      LessOrders(key, opts[0].0);
      forall i | 0 <= i < |rest|
        ensures Less(opts[0].0, rest[i].0) && rest[i].0 != opts[0].0
        ensures Less(key, opts[0].0) ==> Less(key, rest[i].0)
      {
        assert rest[i] == opts[i + 1];
        LessOrders(opts[0].0, rest[i].0);
        if Less(key, opts[0].0) { LessChains(key, opts[0].0, rest[i].0); }
      }
      AssignKeeps(rest, key, val);
    }
  }

  // ---- reading back what was printed

  lemma {:induction false} OptionsRead(pkt: RtspPacket, opts: seq<(string, string)>, tail: string)
    requires Entries(OptChar, opts) && Sorted(pkt.options + opts)
    requires AtEnd(tail)
    ensures Options(pkt, OptionLines(opts, tail)) == Step(true, pkt.(options := pkt.options + opts), tail)
    decreases |opts|
  {
    hide TakeWhile, SkipBlank, Token, Literal, Digits, ToNumber, Value, KeyValue, OptionsText, Assign, Less;
    if opts == [] {
      NoPairAtEnd(':', OptChar, tail);
      assert pkt.options + opts == pkt.options;
    } else {
      var e, rest := opts[0], OptionLines(opts[1..], tail);
      LinesClean(opts[1..], tail);
      NothingSkipped(e.1 + (CRLF + rest));
      assert ": " + (e.1 + (CRLF + rest)) == ":" + (" " + (e.1 + (CRLF + rest)));
      PairRead(':', OptChar, e, " " + (e.1 + (CRLF + rest)), rest);
      forall i | 0 <= i < |pkt.options| ensures Less(pkt.options[i].0, e.0) {
        assert (pkt.options + opts)[i] == pkt.options[i] && (pkt.options + opts)[|pkt.options|] == e;
      }
      AssignLast(pkt.options, e);
      var next := pkt.(options := pkt.options + [e]);
      assert next.options + opts[1..] == pkt.options + opts;
      OptionsRead(next, opts[1..], tail);
    }
  }

  lemma PayloadsClean(pays: seq<(string, string)>)
    requires Entries(PayChar, pays)
    ensures Clean(PayloadsText(pays))
  {}

  lemma {:induction false} PayloadsRead(pkt: RtspPacket, pays: seq<(string, string)>)
    requires Entries(PayChar, pays)
    ensures Payloads(pkt, PayloadsText(pays)) == Step(true, pkt.(payloads := pkt.payloads + pays), "")
    decreases |pays|
  {
    hide TakeWhile, SkipBlank, Token, Literal, Digits, ToNumber, Value, KeyValue;
    if pays == [] {
      NoPairAtEnd('=', PayChar, "");
      assert pkt.payloads + pays == pkt.payloads;
    } else {
      var e, rest := pays[0], PayloadsText(pays[1..]);
      PayloadsClean(pays[1..]);
      NothingSkipped(e.1 + (CRLF + rest));
      assert (e.0 + "=") + (e.1 + (CRLF + rest)) == e.0 + ("=" + (e.1 + (CRLF + rest)));
      PairRead('=', PayChar, e, e.1 + (CRLF + rest), rest);
      var next := pkt.(payloads := pkt.payloads + [e]);
      assert next.payloads + pays[1..] == pkt.payloads + pays;
      PayloadsRead(next, pays[1..]);
    }
  }

  lemma VersionRead(s: string)
    requires s != "" && !DigitDot(s[0])
    ensures FullProtocol("RTSP/1.0" + s) == Match("1.0", SkipBlank(s))
  {
    hide TakeWhile, SkipBlank, Token, Literal, Digits, ToNumber, Value;
    assert "RTSP/1.0" + s == "RTSP" + ("/" + ("1.0" + s));
    TokenTakes(Letter, "RTSP", "/" + ("1.0" + s));
    NothingSkipped("/" + ("1.0" + s));
    LiteralTakes("/", "1.0" + s);
    NothingSkipped("1.0" + s);
    TokenTakes(DigitDot, "1.0", s);
  }

  lemma UriRead(pkt: RtspPacket, p: RtspPacket, tail: string)
    requires Word(Letter, p.protocol) && All(DigitDot, p.ip)
    requires tail != "" && tail[0] == ' '
    ensures Uri(pkt.(ip := ""), p.protocol + ("://" + (p.ip + (":" + (Digits(p.port) + tail)))))
         == Step(true, pkt.(protocol := p.protocol, ip := p.ip, port := p.port, target := TargetUri), SkipBlank(tail))
  {
    hide TakeWhile, SkipBlank, Token, Literal, Digits, ToNumber, Value;
    var s4 := Digits(p.port) + tail;
    var s3 := ":" + s4;
    var s2 := p.ip + s3;
    TokenTakes(Letter, p.protocol, "://" + s2);
    NothingSkipped("://" + s2);
    LiteralTakes("://", s2);
    NothingSkipped(s2);
    NothingSkipped(s3);
    if p.ip == "" {
      assert s2 == s3;
      TakesAll(DigitDot, "", s3);
      assert "" + s3 == s3;
    } else {
      TokenTakes(DigitDot, p.ip, s3);
    }
    LiteralTakes(":", s4);
    NothingSkipped(s4);
    TokenTakes(Digit, Digits(p.port), tail);
    NumberRead(p.port, 65535);
  }

  lemma StreamRead(pkt: RtspPacket, p: RtspPacket, tail: string)
    requires Word(Letter, p.streamType) && Word(DigitSlash, p.streamParams)
    requires tail != "" && tail[0] == ' '
    ensures var s := "streamid=" + (p.streamType + (p.streamParams + tail));
            Target(pkt, s) == Step(true,
              pkt.(protocol := "streamid", streamType := p.streamType,
                   streamParams := p.streamParams, target := TargetStream),
              SkipBlank(tail))
  {
    hide SkipBlank, Token, Literal, Digits, ToNumber, Value, TakeWhile;
    var s2 := p.streamParams + tail;
    var s1 := p.streamType + s2;
    assert "streamid=" + s1 == "streamid" + ("=" + s1);
    TokenTakes(Letter, "streamid", "=" + s1);
    NothingSkipped("=" + s1);
    LiteralMisses("://", "=" + s1);
    TakesAll(Letter, "streamid", "=" + s1);
    assert ("streamid" + ("=" + s1))[|"streamid"|..] == "=" + s1;
    LiteralTakes("=", s1);
    NothingSkipped(s1);
    TokenTakes(Letter, p.streamType, s2);
    NothingSkipped(s2);
    TokenTakes(DigitSlash, p.streamParams, tail);
  }

  lemma RequestOf(cmd: string, target: string, q: RtspPacket, tail: string)
    requires Word(Letter, cmd) && Clean(target) && AtEnd(tail)
    requires Target(EMPTY.(cmd := cmd), target) == Step(true, q, "RTSP/1.0" + tail)
    ensures RtspRequest(EMPTY, cmd + (" " + target)) == Step(true, q.(kind := Request), tail)
  {
    hide TakeWhile, SkipBlank, Token, Literal, Digits, ToNumber, Value, Target, FullProtocol;
    TokenTakes(Letter, cmd, " " + target);
    NothingSkipped(target);
    VersionRead(tail);
    NothingSkipped(tail);
  }

  lemma RequestRead(p: RtspPacket, tail: string)
    requires p.kind == Request && FirstLineFormed(p)
    requires AtEnd(tail)
    ensures var r := RtspRequest(EMPTY, FirstLineText(p, tail));
            r.ok && r.rest == tail && SameFirstLine(p, r.pkt) && r.pkt.options == [] && r.pkt.payloads == []
  {
    hide TakeWhile, SkipBlank, Token, Literal, Digits, ToNumber, Value, Uri, Stream, FullProtocol, RtspRequest;
    var end := " RTSP/1.0" + tail;
    assert end == " " + ("RTSP/1.0" + tail);
    NothingSkipped("RTSP/1.0" + tail);
    var pkt := EMPTY.(cmd := p.cmd);
    if p.target == TargetUri {
      UriRead(pkt, p, end);
      assert pkt.(ip := "") == pkt;
      var target := p.protocol + ("://" + (p.ip + (":" + (Digits(p.port) + end))));
      RequestOf(p.cmd, target, Target(pkt, target).pkt, tail);
    } else {
      StreamRead(pkt, p, end);
      var target := "streamid=" + (p.streamType + (p.streamParams + end));
      RequestOf(p.cmd, target, Target(pkt, target).pkt, tail);
    }
  }

  /** A status line is first tried as a request, which fails after `RTSP /`. */
  lemma StatusIsNoRequest(s: string)
    ensures !RtspRequest(EMPTY, "RTSP/1.0" + s).ok
    ensures RtspRequest(EMPTY, "RTSP/1.0" + s).pkt == EMPTY.(cmd := "RTSP")
  {
    hide TakeWhile, SkipBlank, Token, Literal, Digits, ToNumber, Value;
    var s1 := "/1.0" + s;
    assert "RTSP/1.0" + s == "RTSP" + s1;
    TokenTakes(Letter, "RTSP", s1);
    NothingSkipped(s1);
    assert s1 == "/" + ("1.0" + s);
    LiteralTakes("/", "1.0" + s);
    NothingSkipped("1.0" + s);
  }

  lemma ResponseRead(p: RtspPacket, tail: string)
    requires p.kind == Response && FirstLineFormed(p)
    requires AtEnd(tail)
    ensures var r := FirstLine(EMPTY, FirstLineText(p, tail));
            r.ok && r.rest == tail && SameFirstLine(p, r.pkt) && r.pkt.options == [] && r.pkt.payloads == []
  {
    hide TakeWhile, SkipBlank, Token, Literal, Digits, ToNumber, Value, FullProtocol, RtspRequest;
    var s2 := p.msg + tail;
    var s1 := Digits(p.statusCode) + (" " + s2);
    assert "RTSP/1.0 " + s1 == "RTSP/1.0" + (" " + s1);
    StatusIsNoRequest(" " + s1);
    VersionRead(" " + s1);
    NothingSkipped(s1);
    TokenTakes(Digit, Digits(p.statusCode), " " + s2);
    NothingSkipped(s2);
    NumberRead(p.statusCode, 65535);
    TokenTakes(LetterSpace, p.msg, tail);
    NothingSkipped(tail);
  }

  lemma CSeqRead(pkt: RtspPacket, n: SeqNumber, tail: string)
    requires Clean(tail) && n >= 0
    ensures CSeq(pkt, "CSeq: " + (Digits(n) + (CRLF + tail))) == Step(true, pkt.(seqNumber := n), tail)
  {
    hide TakeWhile, SkipBlank, Token, Literal, Digits, ToNumber, Value, EndLine;
    var s := Digits(n) + (CRLF + tail);
    assert "CSeq: " + s == "CSeq:" + (" " + s);
    LiteralTakes("CSeq:", " " + s);
    NothingSkipped(s);
    TokenTakes(DigitDot, Digits(n), CRLF + tail);
    NothingSkipped(CRLF + tail);
    NumberRead(n, 0x7fff_ffff);
    EndLineTakes(tail);
  }

  lemma FirstLineRead(p: RtspPacket, tail: string)
    requires FirstLineFormed(p)
    requires AtEnd(tail)
    ensures var r := FirstLine(EMPTY, SkipBlank(FirstLineText(p, tail)));
            r.ok && r.rest == tail && SameFirstLine(p, r.pkt) && r.pkt.options == [] && r.pkt.payloads == []
  {
    hide TakeWhile, SkipBlank, Token, Literal, Digits, ToNumber, Value, RtspRequest, RtspResponse;
    NothingSkipped(FirstLineText(p, tail));
    if p.kind == Request { RequestRead(p, tail); } else { ResponseRead(p, tail); }
  }

  /** Every well-formed packet is read back. */
  lemma RoundTrip(p: RtspPacket)
    requires WellFormed(p)
    ensures Parse(Text(p)).Some? && Same(p, Parse(Text(p)).value)
  {
    hide TakeWhile, SkipBlank, Token, Literal, Digits, ToNumber, Value, FirstLine, EndLine, CSeq, Options, Payloads;
    hide KeyValue, PayloadsText, OptionsText, FirstLineText, OptionLines, FirstLineFormed;
    var pays := PayloadsText(p.payloads);
    PayloadsClean(p.payloads);
    var lines := OptionLines(p.options, CRLF + pays);
    LinesMoved(p.options, CRLF + pays);
    LinesClean(p.options, CRLF + pays);
    var cseq := "CSeq: " + (Number(p.seqNumber) + (CRLF + lines));
    FirstLineRead(p, CRLF + cseq);
    var first := FirstLine(EMPTY, SkipBlank(Text(p)));
    EndLineTakes(cseq);
    CSeqRead(first.pkt, p.seqNumber, lines);
    var numbered := first.pkt.(seqNumber := p.seqNumber);
    assert numbered.options + p.options == p.options;
    OptionsRead(numbered, p.options, CRLF + pays);
    EndLineTakes(pays);
    PayloadsRead(numbered.(options := p.options), p.payloads);
    assert numbered.payloads + p.payloads == p.payloads;
  }

  // ---- printing what was parsed

  lemma PairFormed(sep: char, cls: Class, s: string)
    requires KeyValue(sep, cls, s).Pair?
    ensures Entry(cls, (KeyValue(sep, cls, s).key, KeyValue(sep, cls, s).val))
  {
    hide TakeWhile, SkipBlank, Token;
    var eq := Literal([sep], Token(KeyChar, s).rest);
    if Token(cls, eq.rest).NoMatch? {
      NothingMatched(eq.rest);
    }
  }

  lemma {:induction false} OptionsFormed(pkt: RtspPacket, s: string)
    requires Entries(OptChar, pkt.options) && Sorted(pkt.options)
    ensures var q := Options(pkt, s).pkt;
            Entries(OptChar, q.options) && Sorted(q.options) && q == pkt.(options := q.options)
    decreases |s|
  {
    hide KeyValue, Less, Assign;
    var p := KeyValue(':', OptChar, s);
    if p.Pair? {
      PairFormed(':', OptChar, s);
      AssignKeeps(pkt.options, p.key, p.val);
      var opts := Assign(pkt.options, p.key, p.val);
      forall i | 0 <= i < |opts| ensures Entry(OptChar, opts[i]) {
        assert opts[i] in opts;
      }
      OptionsFormed(pkt.(options := opts), p.rest);
    }
  }

  lemma {:induction false} PayloadsFormed(pkt: RtspPacket, s: string)
    requires Entries(PayChar, pkt.payloads)
    ensures var q := Payloads(pkt, s).pkt;
            Entries(PayChar, q.payloads) && q == pkt.(payloads := q.payloads)
    decreases |s|
  {
    hide KeyValue;
    var p := KeyValue('=', PayChar, s);
    if p.Pair? {
      PairFormed('=', PayChar, s);
      PayloadsFormed(pkt.(payloads := pkt.payloads + [(p.key, p.val)]), p.rest);
    }
  }

  /** A request for the bare target `/`: it leaves the URI empty and still counts as one. */
  ghost predicate BareTarget(p: RtspPacket) {
    p.kind == Request && p.target == TargetUri && p.protocol == ""
  }

  lemma TargetFormed(pkt: RtspPacket, s: string)
    requires pkt.protocol == "" && pkt.ip == "" && pkt.target == TargetUri
    requires Target(pkt, s).ok
    ensures var q := Target(pkt, s).pkt;
            q == pkt.(protocol := q.protocol, ip := q.ip, port := q.port, target := q.target,
                      streamType := q.streamType, streamParams := q.streamParams)
            && (match q.target
                case TargetUri => q.protocol == "" || (Word(Letter, q.protocol) && All(DigitDot, q.ip))
                case TargetStream => Word(Letter, q.streamType) && Word(DigitSlash, q.streamParams))
  {
    hide SkipBlank, ToNumber;
    if !Uri(pkt, s).ok && !Stream(Uri(pkt, s).pkt, s).ok {
      LiteralMissesBefore(s);
    }
  }

  /** A text that starts with `/` starts no URI and no stream. */
  lemma LiteralMissesBefore(s: string)
    requires Literal("/", s).Match?
    ensures Token(Letter, s).NoMatch? && TakeWhile(Letter, s) == ""
  {}

  /** Even an abandoned target touches no option and no payload. */
  lemma TargetKeepsMaps(pkt: RtspPacket, s: string)
    ensures Target(pkt, s).pkt.options == pkt.options && Target(pkt, s).pkt.payloads == pkt.payloads
  {
    hide TakeWhile, SkipBlank, Token, Literal, ToNumber;
  }

  lemma FirstLineShape(s: string)
    requires FirstLine(EMPTY, s).ok
    ensures var q := FirstLine(EMPTY, s).pkt;
            q.options == [] && q.payloads == []
            && (FirstLineFormed(q) || (BareTarget(q) && Word(Letter, q.cmd)))
  {
    hide TakeWhile, SkipBlank, Literal, FullProtocol, Target, ToNumber;
    var cmd := Token(Letter, s);
    if cmd.Match? { TargetKeepsMaps(EMPTY.(cmd := cmd.token), cmd.rest); }
    if RtspRequest(EMPTY, s).ok {
      TargetFormed(EMPTY.(cmd := cmd.token), cmd.rest);
    }
  }

  /** Every parsed packet is well formed, except that its target may be `/`. */
  lemma ParsedShape(text: string)
    ensures Parse(text).Some? ==>
              var q := Parse(text).value;
              (WellFormed(q) || (BareTarget(q) && Word(Letter, q.cmd)))
              && q.seqNumber >= 0 && Entries(OptChar, q.options) && Sorted(q.options) && Entries(PayChar, q.payloads)
  {
    hide TakeWhile, SkipBlank, Token, Literal, FirstLine, EndLine, Options, Payloads, ToNumber;
    if Parse(text).Some? {
      var first := FirstLine(EMPTY, SkipBlank(text));
      FirstLineShape(SkipBlank(text));
      var cseq := CSeq(first.pkt, EndLine(first.rest).rest);
      OptionsFormed(cseq.pkt, cseq.rest);
      var options := Options(cseq.pkt, cseq.rest);
      PayloadsFormed(options.pkt, Opt(EndLine(options.rest), options.rest));
    }
  }

  /** What is printed for the target `/` is not a message. */
  lemma BareTargetLost(p: RtspPacket)
    requires BareTarget(p) && Word(Letter, p.cmd)
    ensures Parse(Text(p)).None?
  {
    hide TakeWhile, SkipBlank, Token, Literal, Digits, OptionsText, PayloadsText;
    var end := CRLF + ("CSeq: " + (Number(p.seqNumber) +
      OptionsText(p.options, CRLF + (CRLF + PayloadsText(p.payloads)))));
    var colon := "://" + (p.ip + (":" + (Digits(p.port) + (" RTSP/1.0" + end))));
    assert p.protocol + colon == colon;
    assert Text(p) == p.cmd + (" " + colon);
    NothingSkipped(Text(p));
    TokenTakes(Letter, p.cmd, " " + colon);
    NothingSkipped(colon);
    NoneTaken(Letter, colon);
    LiteralMisses("/", colon);
  }

  /** But it is read: any command with the target `/`, under any sequence number. */
  lemma BareTargetRead(cmd: string, n: SeqNumber)
    requires Word(Letter, cmd) && n >= 0
    ensures var text := cmd + (" / RTSP/1.0" + (CRLF + ("CSeq: " + (Digits(n) + CRLF))));
            Parse(text) == Some(EMPTY.(kind := Request, cmd := cmd, seqNumber := n)) && BareTarget(Parse(text).value)
  {
    hide TakeWhile, SkipBlank, Token, Literal, Digits, ToNumber, Value, Target, EndLine, CSeq, KeyValue, RtspRequest;
    var cseq := "CSeq: " + (Digits(n) + CRLF);
    assert CRLF + "" == CRLF;
    var tail := CRLF + cseq;
    var pkt := EMPTY.(cmd := cmd);
    SlashRead(pkt, "RTSP/1.0" + tail);
    assert " / RTSP/1.0" + tail == " " + ("/ " + ("RTSP/1.0" + tail));
    RequestOf(cmd, "/ " + ("RTSP/1.0" + tail), pkt, tail);
    NothingSkipped(cmd + (" / RTSP/1.0" + tail));
    EndLineTakes(cseq);
    CSeqRead(pkt.(kind := Request), n, "");
    NoPairAtEnd(':', OptChar, "");
    NoPairAtEnd('=', PayChar, "");
  }

  lemma SlashRead(pkt: RtspPacket, s: string)
    requires Clean(s)
    ensures Target(pkt, "/ " + s) == Step(true, pkt, s)
  {
    hide TakeWhile, SkipBlank, Token, Literal;
    assert "/ " + s == "/" + (" " + s);
    LiteralTakes("/", " " + s);
    NothingSkipped(s);
    NoneTaken(Letter, "/ " + s);
  }

  /** The parser is the printer's inverse on exactly the well-formed packets. */
  lemma RoundTripExactly(p: RtspPacket)
    ensures (Parse(Text(p)).Some? && Same(p, Parse(Text(p)).value)) <==> WellFormed(p)
  {
    hide Parse, Text, Less, KeyChar, OptChar, PayChar, Letter, Digit, DigitDot, DigitSlash, LetterSpace;
    if WellFormed(p) {
      RoundTrip(p);
    } else if Parse(Text(p)).Some? && Same(p, Parse(Text(p)).value) {
      ParsedShape(Text(p));
      BareTargetLost(p);
    }
  }

  lemma SamePrints(p: RtspPacket, q: RtspPacket)
    requires Same(p, q)
    ensures Text(p) == Text(q)
  {
    hide Digits, OptionsText, PayloadsText;
  }

  /** Printing a parsed message loses nothing, and printing it again gives the same text,
      exactly when its target was not `/`; otherwise what is printed cannot be parsed. */
  lemma ParsedIsStable(text: string)
    ensures Parse(text).Some? ==>
              var p := Parse(text).value;
              (p.kind == Response || p.target == TargetStream || p.protocol != "") <==> Parse(Text(p)).Some?
    ensures Parse(text).Some? ==>
              var p := Parse(text).value;
              Parse(Text(p)).Some? ==> Same(p, Parse(Text(p)).value) && Text(Parse(Text(p)).value) == Text(p)
  {
    hide Parse, Text, Same, WellFormed, Less, KeyChar, OptChar, PayChar, Letter;
    if Parse(text).Some? {
      var p := Parse(text).value;
      ParsedShape(text);
      if BareTarget(p) {
        EmptyIsNoWord(p);
        BareTargetLost(p);
      } else {
        RoundTrip(p);
        SamePrints(p, Parse(Text(p)).value);
      }
    }
  }

  lemma EmptyIsNoWord(p: RtspPacket)
    requires BareTarget(p)
    ensures !WellFormed(p)
  {}
}
