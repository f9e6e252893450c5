/**
 RTSP messages (RFC 2326, sections 6 and 7): the printer, and the parser as the
 parsing expression grammar it is written in.  Rules work on the text still to be
 read.  Semantic actions assign fields of the packet as soon as their rule
 matches, also on alternatives that are abandoned later, so every rule takes the
 packet in and hands it on even when it fails.
 */
module Rtsp {
  import opened Wrappers

  datatype PacketType = Request | Response
  datatype TargetType = TargetUri | TargetStream

  type Port = n: int | 0 <= n <= 65535
  type SeqNumber = n: int | -0x8000_0000 <= n <= 0x7fff_ffff

  datatype RtspPacket = RtspPacket(
    kind: PacketType, seqNumber: SeqNumber,
    cmd: string, target: TargetType,
    protocol: string, ip: string, port: Port,
    streamType: string, streamParams: string,
    statusCode: Port, msg: string,
    options: seq<(string, string)>,   // std::map, in iteration order
    payloads: seq<(string, string)>)

  const EMPTY := RtspPacket(Request, 0, "", TargetUri, "", "", 0, "", "", 0, "", [], [])

  // ---- character classes

  type Class = char -> bool

  predicate Letter(c: char) { 'a' <= c <= 'z' || 'A' <= c <= 'Z' }
  predicate Digit(c: char) { '0' <= c <= '9' }
  predicate DigitDot(c: char) { Digit(c) || c == '.' }
  predicate DigitSlash(c: char) { Digit(c) || c == '/' }
  predicate LetterSpace(c: char) { Letter(c) || c == ' ' }
  predicate KeyChar(c: char) { Letter(c) || Digit(c) || c == '-' || c == '_' }
  predicate OptChar(c: char) { KeyChar(c) || c in "./;=, :" }
  predicate PayChar(c: char) { KeyChar(c) || c in "./[]\\: =" }
  predicate AnyChar(c: char) { true }
  predicate Blank(c: char) { c == ' ' || c == '\t' }

  predicate All(cls: Class, s: string) {
    forall i :: 0 <= i < |s| ==> cls(s[i])
  }

  // ---- numbers

  function Digits(n: nat): (s: string)
    ensures s != "" && All(Digit, s)
  {
    if n < 10 then [n as char + '0'] else Digits(n / 10) + [(n % 10) as char + '0']
  }

  /** An `int` on an output stream. */
  function Number(n: int): string {
    if n < 0 then "-" + Digits(-n) else Digits(n)
  }

  function Value(s: string): nat
    requires All(Digit, s)
  {
    if s == "" then 0 else 10 * Value(s[..|s| - 1]) + (s[|s| - 1] - '0') as nat
  }

  /** `token_to_number`: the leading digits; zero when there are none or they do not fit. */
  function ToNumber(s: string, max: nat): (n: nat)
    ensures n <= max
  {
    var d := TakeWhile(Digit, s);
    if Value(d) <= max then Value(d) else 0
  }

  // ---- terminals

  function TakeWhile(cls: Class, s: string): (t: string)
    ensures |t| <= |s| && s[..|t|] == t && All(cls, t)
    ensures |t| < |s| ==> !cls(s[|t|])
  {
    if s != "" && cls(s[0]) then [s[0]] + TakeWhile(cls, s[1..]) else ""
  }

  predicate Clean(s: string) { s == "" || !Blank(s[0]) }

  /** `%whitespace`, skipped at the start and after every literal and token. */
  function SkipBlank(s: string): (r: string)
    ensures |r| <= |s|
    ensures Clean(r)
  {
    s[|TakeWhile(Blank, s)|..]
  }

  datatype Scan = NoMatch | Match(token: string, rest: string)

  function Literal(lit: string, s: string): (r: Scan)
    ensures r.Match? ==> |r.rest| + |lit| <= |s| && Clean(r.rest)
  {
    if lit <= s then
      var rest := SkipBlank(s[|lit|..]);
      Match(s[..|s| - |rest|], rest)
    else NoMatch
  }

  /** `< [cls]+ >` */
  function Token(cls: Class, s: string): (r: Scan)
    ensures r.Match? ==> |r.rest| < |s| && r.token != "" && All(cls, r.token) && r.token[0] == s[0]
    ensures r.Match? ==> Clean(r.rest)
  {
    var t := TakeWhile(cls, s);
    if t == "" then NoMatch else Match(t, SkipBlank(s[|t|..]))
  }

  // ---- rules

  datatype Step = Step(ok: bool, pkt: RtspPacket, rest: string)

  function Opt(m: Scan, s: string): string {
    if m.Match? then m.rest else s
  }

  function EndLine(s: string): (r: Scan)
    ensures r.Match? ==> |r.rest| < |s|
  {
    Literal("\n", Opt(Literal("\r", s), s))
  }

  function Uri(pkt: RtspPacket, s: string): Step {
    var m := Token(Letter, s);
    if m.NoMatch? then Step(false, pkt, s) else
    var pkt := pkt.(protocol := m.token);
    var sep := Literal("://", m.rest);
    if sep.NoMatch? then Step(false, pkt, s) else
    var ip := Token(DigitDot, sep.rest);
    var pkt := if ip.Match? then pkt.(ip := ip.token) else pkt;
    var colon := Literal(":", Opt(ip, sep.rest));
    if colon.NoMatch? then Step(false, pkt, s) else
    var port := Token(Digit, colon.rest);
    if port.NoMatch? then Step(false, pkt, s) else
    Step(true, pkt.(port := ToNumber(port.token, 65535), target := TargetUri), port.rest)
  }

  function Stream(pkt: RtspPacket, s: string): Step {
    var name := TakeWhile(Letter, s);
    if name == "" then Step(false, pkt, s) else
    var eq := Literal("=", s[|name|..]);
    if eq.NoMatch? then Step(false, pkt, s) else
    var kind := Token(Letter, eq.rest);
    if kind.NoMatch? then Step(false, pkt, s) else
    var pkt := pkt.(streamType := kind.token);
    var params := Token(DigitSlash, kind.rest);
    if params.NoMatch? then Step(false, pkt, s) else
    Step(true, pkt.(streamParams := params.token, target := TargetStream), params.rest)
  }

  function Target(pkt: RtspPacket, s: string): Step {
    var uri := Uri(pkt, s);
    if uri.ok then uri else
    var stream := Stream(uri.pkt, s);
    if stream.ok then stream else
    var slash := Literal("/", s);
    Step(slash.Match?, stream.pkt, Opt(slash, s))
  }

  function FullProtocol(s: string): Scan {
    var name := Token(Letter, s);
    if name.NoMatch? then NoMatch else
    var slash := Literal("/", name.rest);
    if slash.NoMatch? then NoMatch else Token(DigitDot, slash.rest)
  }

  function RtspRequest(pkt: RtspPacket, s: string): Step {
    var cmd := Token(Letter, s);
    if cmd.NoMatch? then Step(false, pkt, s) else
    var target := Target(pkt.(cmd := cmd.token), cmd.rest);
    if !target.ok then target.(rest := s) else
    var version := FullProtocol(target.rest);
    if version.NoMatch? then target.(ok := false, rest := s) else
    Step(true, target.pkt.(kind := Request), version.rest)
  }

  function RtspResponse(pkt: RtspPacket, s: string): Step {
    var version := FullProtocol(s);
    if version.NoMatch? then Step(false, pkt, s) else
    var code := Token(Digit, version.rest);
    if code.NoMatch? then Step(false, pkt, s) else
    var pkt := pkt.(statusCode := ToNumber(code.token, 65535));
    var msg := Token(LetterSpace, code.rest);
    if msg.NoMatch? then Step(false, pkt, s) else
    Step(true, pkt.(msg := msg.token, kind := Response), msg.rest)
  }

  function FirstLine(pkt: RtspPacket, s: string): Step {
    var request := RtspRequest(pkt, s);
    if request.ok then request else RtspResponse(request.pkt, s)
  }

  function CSeq(pkt: RtspPacket, s: string): Step {
    var name := Literal("CSeq:", s);
    if name.NoMatch? then Step(false, pkt, s) else
    var number := Token(DigitDot, name.rest);
    if number.NoMatch? then Step(false, pkt, s) else
    Step(true, pkt.(seqNumber := ToNumber(number.token, 0x7fff_ffff)), Opt(EndLine(number.rest), number.rest))
  }

  /** A token, or the empty literal. */
  function TokenOrEmpty(cls: Class, s: string): (r: Scan)
    ensures r.Match? && |r.rest| <= |s|
  {
    hide TakeWhile, SkipBlank;
    var token := Token(cls, s);
    if token.Match? then token else Literal("", s)
  }

  /** `key sep value ENDLINE?`, where the value may be empty: the shape of both OPTION and PAYLOAD. */
  datatype Pair = NoPair | Pair(key: string, val: string, rest: string)

  function KeyValue(sep: char, cls: Class, s: string): (r: Pair)
    ensures r.Pair? ==> |r.rest| < |s|
  {
    hide TakeWhile, SkipBlank;
    var key := Token(KeyChar, s);
    if key.NoMatch? then NoPair else
    var eq := Literal([sep], key.rest);
    if eq.NoMatch? then NoPair else
    var val := TokenOrEmpty(cls, eq.rest);
    Pair(key.token, val.token, Opt(EndLine(val.rest), val.rest))
  }

  /** Lexicographic order of keys, as `std::map` keeps them. */
  predicate Less(a: string, b: string) {
    b != "" && (a == "" || a[0] < b[0] || (a[0] == b[0] && Less(a[1..], b[1..])))
  }

  /** `options[key] = val` */
  function Assign(opts: seq<(string, string)>, key: string, val: string): seq<(string, string)> {
    if opts == [] then [(key, val)]
    else if opts[0].0 == key then [(key, val)] + opts[1..]
    else if Less(key, opts[0].0) then [(key, val)] + opts
    else [opts[0]] + Assign(opts[1..], key, val)
  }

  function Options(pkt: RtspPacket, s: string): Step
    decreases |s|
  {
    var p := KeyValue(':', OptChar, s);
    if p.NoPair? then Step(true, pkt, s)
    else Options(pkt.(options := Assign(pkt.options, p.key, p.val)), p.rest)
  }

  function Payloads(pkt: RtspPacket, s: string): Step
    decreases |s|
  {
    var p := KeyValue('=', PayChar, s);
    if p.NoPair? then Step(true, pkt, s)
    else Payloads(pkt.(payloads := pkt.payloads + [(p.key, p.val)]), p.rest)
  }

  /** The whole message; the trailing rubbish rule swallows whatever is left. */
  function Parse(text: string): Option<RtspPacket> {
    var first := FirstLine(EMPTY, SkipBlank(text));
    if !first.ok then None else
    var eol := EndLine(first.rest);
    if eol.NoMatch? then None else
    var cseq := CSeq(first.pkt, eol.rest);
    if !cseq.ok then None else
    var options := Options(cseq.pkt, cseq.rest);
    var payloads := Payloads(options.pkt, Opt(EndLine(options.rest), options.rest));
    var rubbish := Token(AnyChar, payloads.rest);
    if Opt(rubbish, payloads.rest) == "" then Some(payloads.pkt) else None
  }

  // ---- printing

  const CRLF := "\r\n"

  function OptionsText(opts: seq<(string, string)>, tail: string): string {
    if opts == [] then tail
    else CRLF + (opts[0].0 + (": " + (opts[0].1 + OptionsText(opts[1..], tail))))
  }

  function PayloadsText(pays: seq<(string, string)>): string {
    if pays == [] then ""
    else (if pays[0].0 == "" then "" else pays[0].0 + "=") + (pays[0].1 + (CRLF + PayloadsText(pays[1..])))
  }

  function FirstLineText(p: RtspPacket, tail: string): string {
    if p.kind == Request then
      p.cmd + (" " + (
        (if p.target == TargetUri then p.protocol + ("://" + (p.ip + (":" + (Digits(p.port) + (" RTSP/1.0" + tail)))))
         else "streamid=" + (p.streamType + (p.streamParams + (" RTSP/1.0" + tail))))))
    else "RTSP/1.0 " + (Digits(p.statusCode) + (" " + (p.msg + tail)))
  }

  function Text(p: RtspPacket): string {
    FirstLineText(p, CRLF + ("CSeq: " + (Number(p.seqNumber)
      + OptionsText(p.options, CRLF + (CRLF + PayloadsText(p.payloads))))))
  }

  lemma Regroup(a: string, b: string, c: string)
    ensures (a + b) + c == a + (b + c)
  {}

  lemma Regroup4(a: string, b: string, c: string, d: string, e: string, tail: string)
    ensures a + b + c + d + e + tail == a + (b + (c + (d + (e + tail))))
  {
    Regroup(a + b + c + d, e, tail);
    Regroup(a + b + c, d, e + tail);
    Regroup(a + b, c, d + (e + tail));
    Regroup(a, b, c + (d + (e + tail)));
  }

  /** The request or status line, and that it is what `FirstLineText` puts before `tail`. */
  method WriteFirstLine(p: RtspPacket, ghost tail: string) returns (stream: string)
    ensures stream + tail == FirstLineText(p, tail)
  {
    if p.kind == Request {
      stream := p.cmd + " ";
      if p.target == TargetUri {
        stream := stream + p.protocol + "://" + p.ip + ":" + Digits(p.port);
        Regroup4(p.cmd + " " + p.protocol, "://", p.ip, ":", Digits(p.port), " RTSP/1.0" + tail);
        Regroup(p.cmd + " ", p.protocol, "://" + (p.ip + (":" + (Digits(p.port) + (" RTSP/1.0" + tail)))));
        Regroup(p.cmd, " ", p.protocol + ("://" + (p.ip + (":" + (Digits(p.port) + (" RTSP/1.0" + tail))))));
      } else {
        stream := stream + "streamid=" + p.streamType + p.streamParams;
        Regroup4(p.cmd, " ", "streamid=", p.streamType, p.streamParams, " RTSP/1.0" + tail);
      }
      Regroup(stream, " RTSP/1.0", tail);
      stream := stream + " RTSP/1.0";
    } else {
      stream := "RTSP/1.0 " + Digits(p.statusCode) + " " + p.msg;
      Regroup4("", "RTSP/1.0 ", Digits(p.statusCode), " ", p.msg, tail);
      assert "" + "RTSP/1.0 " == "RTSP/1.0 ";
    }
  }

  /** `to_string`: writes the packet to a stream. */
  method ToString(p: RtspPacket) returns (stream: string)
    ensures stream == Text(p)
  {
    ghost var pays := PayloadsText(p.payloads);
    ghost var end := CRLF + (CRLF + pays);
    ghost var opts := OptionsText(p.options, end);
    stream := WriteFirstLine(p, CRLF + ("CSeq: " + (Number(p.seqNumber) + opts)));
    Regroup4(stream, CRLF, "CSeq: ", Number(p.seqNumber), "", opts);
    stream := stream + CRLF + "CSeq: " + Number(p.seqNumber);
    assert stream + "" == stream && "" + opts == opts;
    assert stream + opts == Text(p);
    assert p.options[0..] == p.options;
    for i := 0 to |p.options|
      invariant stream + OptionsText(p.options[i..], end) == Text(p)
    {
      Regroup4(stream, CRLF, p.options[i].0, ": ", p.options[i].1, OptionsText(p.options[i + 1..], end));
      assert p.options[i..][1..] == p.options[i + 1..];
      stream := stream + CRLF + p.options[i].0 + ": " + p.options[i].1;
    }
    Regroup4(stream, CRLF, CRLF, "", "", pays);
    stream := stream + CRLF + CRLF;
    assert stream + "" + "" == stream && "" + ("" + pays) == pays;
    assert p.payloads[0..] == p.payloads;
    for i := 0 to |p.payloads|
      invariant stream + PayloadsText(p.payloads[i..]) == Text(p)
    {
      ghost var rest := PayloadsText(p.payloads[i + 1..]);
      assert p.payloads[i..][1..] == p.payloads[i + 1..];
      if p.payloads[i].0 == "" {
        Regroup4(stream, p.payloads[i].1, CRLF, "", "", rest);
        assert "" + ("" + rest) == rest;
        assert "" + (p.payloads[i].1 + (CRLF + rest)) == p.payloads[i].1 + (CRLF + rest);
        stream := stream + p.payloads[i].1 + CRLF;
        assert stream + "" + "" == stream;
      } else {
        ghost var key, val := p.payloads[i].0, p.payloads[i].1;
        Regroup4(stream, key, "=", val, CRLF, rest);
        Regroup(key, "=", val + (CRLF + rest));
        stream := stream + p.payloads[i].0 + "=" + p.payloads[i].1 + CRLF;
      }
    }
  }
}
