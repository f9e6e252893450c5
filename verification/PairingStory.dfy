/** What must have happened before a certificate is paired, told in requests and PIN entries alone. */
module PairingStory {
  import opened Wrappers
  import opened Pairing
  import opened PairingRuns
  import opened PairingLaws

  ghost predicate From(r: Request, k: Key) {
    r.uniqueId == Some(k.clientId) && r.ip == k.ip
  }

  /** The request made this promise. */
  ghost predicate Makes(c: Crypto, r: Request, ask: Ask) {
    From(r, ask.key) && r.salt == Some(ask.salt)
    && r.clientCert.Some? && c.unhex(r.clientCert.value) == ask.cert
  }

  // ---- every line of the history has its event

  ghost predicate CausedBy(c: Crypto, st: State, e: Event, x: Effect) {
    match x
    case Asked(ask) => e.PairRequest? && Makes(c, e.request, ask)
    case Resolved(ask, pin) => e.PinEntered? && e.pin == pin && e.secret in st.pending && st.pending[e.secret] == ask
    case Wrote1(_, _, _) => e.Continuation?
    case Wrote2(k, secret, challenge) =>
      e.PairRequest? && From(e.request, k) && e.request.clientChallenge.Some?
      && secret == e.random.serverSecret && challenge == e.random.serverChallenge
    case Wrote3(k, response, _) =>
      e.PairRequest? && From(e.request, k) && e.request.serverChallengeResp == Some(response)
    case Paired(k, _, secret) => e.PairRequest? && From(e.request, k) && e.request.clientPairingSecret == Some(secret)
    case Removed(k) => e.PairRequest? && From(e.request, k)
  }

  /** What a step writes down; only a pairing writes two lines. */
  ghost predicate Written(c: Crypto, st: State, e: Event, log: seq<Effect>) {
    && st.log <= log && |log| <= |st.log| + 2
    && (forall j :: |st.log| <= j < |log| ==> CausedBy(c, st, e, log[j]))
    && (|log| == |st.log| + 2 ==> log[|st.log|].Paired?)
  }

  lemma OneWritten(c: Crypto, st: State, e: Event, x: Effect)
    requires CausedBy(c, st, e, x)
    ensures Written(c, st, e, st.log + [x])
  {
    hide CausedBy;
  }

  lemma PhaseWritten(c: Crypto, st: State, e: Event, entry: PairCache, k: Key)
    requires e.PairRequest? && From(e.request, k)
    ensures var r := e.request;
            && (r.clientChallenge.Some? ==>
                  Written(c, st, e, Phase2(c, st, entry, k, r.clientChallenge.value, e.random).0.log))
            && (r.serverChallengeResp.Some? && entry.serverSecret.Some? ==>
                  Written(c, st, e, Phase3(c, st, entry, k, r.serverChallengeResp.value).0.log))
            && (r.clientPairingSecret.Some? && entry.serverChallenge.Some? && entry.clientHash.Some? ==>
                  Written(c, st, e, Phase4(c, st, entry, k, r.clientPairingSecret.value).0.log))
  {
    hide Crypto.Verdict, Crypto.ChallengeAnswer;
  }

  lemma FirstWritten(c: Crypto, st: State, e: Event, ask: Ask)
    requires e.PairRequest? && Makes(c, e.request, ask)
    ensures Written(c, st, e, Phase1(st, ask, e.random).0.log)
  {
    OneWritten(c, st, e, Asked(ask));
    OneWritten(c, st, e, Removed(ask.key));
  }

  lemma StepWritten(c: Crypto, st: State, e: Event)
    ensures Written(c, st, e, Step(c, st, e).log)
  {
    hide Written, Phase1, Phase2, Phase3, Phase4, Crypto.AesKey;
    NothingWritten(c, st, e);
    match e {
      case PairRequest(r, random) =>
        if r.uniqueId.Some? {
          var k := Key(r.uniqueId.value, r.ip);
          if r.salt.Some? && r.clientCert.Some? {
            FirstWritten(c, st, e, Ask(st.asks, k, c.unhex(r.clientCert.value), r.salt.value));
          } else if k in st.cache {
            PhaseWritten(c, st, e, st.cache[k], k);
          }
        }
      case PinEntered(secret, pin) =>
        if secret in st.pending { OneWritten(c, st, e, Resolved(st.pending[secret], pin)); }
      case Continuation(i) =>
        if i < |st.resolved| {
          OneWritten(c, st, e, Wrote1(st.resolved[i].0.key, st.resolved[i].0, st.resolved[i].1));
        }
    }
  }

  lemma NothingWritten(c: Crypto, st: State, e: Event)
    ensures Written(c, st, e, st.log)
  {}

  lemma {:induction false} LogsGrow(c: Crypto, es: seq<Event>, a: nat, b: nat)
    requires a <= b <= |es|
    ensures Run(c, es[..a]).log <= Run(c, es[..b]).log
    decreases b
  {
    hide Step, CausedBy;
    if a < b {
      LogsGrow(c, es, a, b - 1);
      assert es[..b][..b - 1] == es[..b - 1];
      StepWritten(c, Run(c, es[..b - 1]), es[b - 1]);
    }
  }

  /** Line `j` was written by event `n`. */
  ghost predicate WrittenAt(c: Crypto, es: seq<Event>, j: nat, n: nat) {
    n < |es| && |Run(c, es[..n]).log| <= j < |Run(c, es[..n + 1]).log|
  }

  lemma {:induction false} EventOf(c: Crypto, es: seq<Event>, j: nat) returns (n: nat)
    requires j < |Run(c, es).log|
    ensures n < |es| && WrittenAt(c, es, j, n) && CausedBy(c, Run(c, es[..n]), es[n], Run(c, es).log[j])
    decreases |es|
  {
    hide Step, CausedBy;
    var last := |es| - 1;
    assert es[..|es|] == es;
    if j < |Run(c, es[..last]).log| {
      n := EventOf(c, es[..last], j);
      assert es[..last][..n] == es[..n] && es[..last][..n + 1] == es[..n + 1];
      LogsGrow(c, es, last, |es|);
    } else {
      n := last;
      StepWritten(c, Run(c, es[..last]), es[last]);
    }
  }

  /** Lines are written in the order of the events, and two by one event only for a pairing. */
  lemma InEventOrder(c: Crypto, es: seq<Event>, p: nat, q: nat, a: nat, b: nat)
    requires p < q < |Run(c, es).log| && WrittenAt(c, es, p, a) && WrittenAt(c, es, q, b)
    requires !Run(c, es).log[p].Paired?
    ensures a < b
  {
    hide Step, CausedBy;
    if b < a {
      LogsGrow(c, es, b + 1, a);
    } else if a == b {
      assert es[..a + 1][..a] == es[..a];
      StepWritten(c, Run(c, es[..a]), es[a]);
      assert es[..|es|] == es;
      LogsGrow(c, es, a + 1, |es|);
    }
  }

  // ---- the request that shows a secret

  ghost predicate Shows(c: Crypto, e: Event, ask: Ask, secret: string) {
    e.PairRequest? && e.random.pinSecret == secret && Makes(c, e.request, ask)
  }

  lemma StepShows(c: Crypto, st: State, e: Event, s: string)
    requires s in Step(c, st, e).pending
    ensures (s in st.pending && st.pending[s] == Step(c, st, e).pending[s]) || Shows(c, e, Step(c, st, e).pending[s], s)
  {
    hide Crypto.Verdict, Crypto.AesKey, Crypto.ChallengeAnswer;
  }

  lemma {:induction false} PendingShown(c: Crypto, es: seq<Event>, s: string) returns (n: nat)
    requires s in Run(c, es).pending
    ensures n < |es| && Shows(c, es[n], Run(c, es).pending[s], s)
    decreases |es|
  {
    hide Step, Shows;
    var before := Run(c, es[..|es| - 1]);
    StepShows(c, before, es[|es| - 1], s);
    if s in before.pending && before.pending[s] == Run(c, es).pending[s] {
      n := PendingShown(c, es[..|es| - 1], s);
    } else {
      n := |es| - 1;
    }
  }

  // ---- where the writes of an attempt stand in the log

  lemma {:induction false} Positions(log: seq<Effect>, k: Key) returns (ps: seq<nat>)
    ensures |ps| == |History(log, k)|
    ensures forall x :: 0 <= x < |ps| ==> ps[x] < |log| && log[ps[x]] == History(log, k)[x]
    ensures forall x, y :: 0 <= x < y < |ps| ==> ps[x] < ps[y]
    decreases |log|
  {
    ps := [];
    if log != [] {
      var n := |log| - 1;
      ps := Positions(log[..n], k);
      if Touches(log[n], k) { ps := ps + [n]; }
    }
  }

  // ---- the story

  /** Six events in this order: a request with this certificate and a salt; the PIN entered under the secret that it
      showed; the continuation; the request that drew the server's challenge; the client's response; and its secret.
      Response and secret fit the PIN, the salt, the challenge and the certificate. */
  ghost predicate Story(c: Crypto, es: seq<Event>, n: seq<nat>, k: Key, cert: Bytes) {
    && |n| == 6 && n[0] < n[1] < n[2] < n[3] < n[4] < n[5] < |es|
    && es[n[0]].PairRequest? && es[n[1]].PinEntered? && es[n[2]].Continuation?
    && es[n[3]].PairRequest? && es[n[4]].PairRequest? && es[n[5]].PairRequest?
    && (var asked, answered, ended := es[n[0]].request, es[n[4]].request, es[n[5]].request;
        && From(asked, k) && From(es[n[3]].request, k) && From(answered, k) && From(ended, k)
        && asked.salt.Some? && asked.clientCert.Some? && c.unhex(asked.clientCert.value) == cert
        && es[n[1]].secret == es[n[0]].random.pinSecret
        && es[n[3]].request.clientChallenge.Some?
        && answered.serverChallengeResp.Some? && ended.clientPairingSecret.Some?
        && c.certParses(cert)
        && (var own := c.unhex(ended.clientPairingSecret.value);
            && |own| >= 256
            && c.decrypt(c.unhex(answered.serverChallengeResp.value),
                         Resized(c.hash(c.unhex(asked.salt.value) + es[n[1]].pin), 16))
               == c.hash(es[n[3]].random.serverChallenge + c.certSignature(cert) + own[..16])
            && c.verify(own[..16], if |own| < 272 then own[16..] else own[16..272], cert)))
  }

  /** Event `n` wrote `x`, as its own request or PIN entry says. */
  ghost predicate Caused(c: Crypto, es: seq<Event>, n: nat, x: Effect) {
    n < |es| && CausedBy(c, Run(c, es[..n]), es[n], x)
  }

  /** Line `j` of the log and the event that wrote it. */
  ghost predicate Line(c: Crypto, es: seq<Event>, j: nat, n: nat) {
    j < |Run(c, es).log| && WrittenAt(c, es, j, n) && Caused(c, es, n, Run(c, es).log[j])
  }

  lemma LineOf(c: Crypto, es: seq<Event>, j: nat) returns (n: nat)
    requires j < |Run(c, es).log|
    ensures Line(c, es, j, n) && Caused(c, es, n, Run(c, es).log[j])
  {
    n := EventOf(c, es, j);
  }

  lemma LinesInOrder(c: Crypto, es: seq<Event>, p: nat, q: nat, a: nat, b: nat)
    requires p < q && Line(c, es, p, a) && Line(c, es, q, b) && !Run(c, es).log[p].Paired?
    ensures a < b
  {
    hide Run, WrittenAt, CausedBy;
    InEventOrder(c, es, p, q, a, b);
  }

  /** The writes of an attempt stand in this order, each before the pairing, and are in the history. */
  lemma AttemptPositions(c: Crypto, log: seq<Effect>, i: nat, m: nat) returns (p: nat, q: nat, r: nat)
    requires Crowns(c, log, i, m)
    ensures m <= p < q < r < i
    ensures var w := History(log[m..i], log[i].key);
            |w| == 3 && log[p] == w[0] == log[m] && log[q] == w[1] && log[r] == w[2]
  {
    hide History, InOrder, Genuine;
    var ps := Positions(log[m..i], log[i].key);
    p, q, r := m + ps[0], m + ps[1], m + ps[2];
  }

  lemma PairingHasStory(c: Crypto, es: seq<Event>, i: nat, m: nat) returns (n: seq<nat>)
    requires Crowns(c, Run(c, es).log, i, m)
    ensures Story(c, es, n, Run(c, es).log[i].key, Run(c, es).log[i].cert)
  {
    var log, e := Run(c, es).log, Run(c, es).log[i];
    var w := History(log[m..i], e.key);
    hide Run, History, InOrder, Genuine, Story, Line, Caused;
    assert Attempt(c, w, e.key, e.cert, e.secret) && w[0] == log[m];
    var p, q, r := AttemptPositions(c, log, i, m);
    var j := ResolvedBefore(log, m);
    var n1 := LineOf(c, es, j);
    var n2 := LineOf(c, es, p);
    var n3 := LineOf(c, es, q);
    var n4 := LineOf(c, es, r);
    var n5 := LineOf(c, es, i);
    LinesInOrder(c, es, j, p, n1, n2);
    LinesInOrder(c, es, p, q, n2, n3);
    LinesInOrder(c, es, q, r, n3, n4);
    LinesInOrder(c, es, r, i, n4, n5);
    var n0 := AskShown(c, es, j, n1);
    n := [n0, n1, n2, n3, n4, n5];
    assert e == Paired(e.key, e.cert, e.secret);
    Told(c, es, n, w, e.key, e.cert, e.secret);
  }

  /** The request whose PIN was entered, some time before. */
  lemma AskShown(c: Crypto, es: seq<Event>, j: nat, n: nat) returns (n0: nat)
    requires Line(c, es, j, n) && Run(c, es).log[j].Resolved?
    ensures n0 < n < |es| && es[n].PinEntered? && Shows(c, es[n0], Run(c, es).log[j].ask, es[n].secret)
  {
    hide Run, WrittenAt, Shows;
    n0 := PendingShown(c, es[..n], es[n].secret);
    assert es[..n][n0] == es[n0];
  }

  /** The causes of an attempt's lines tell its story. */
  lemma Told(c: Crypto, es: seq<Event>, n: seq<nat>, w: seq<Effect>, k: Key, cert: Bytes, secret: Bytes)
    requires |n| == 6 && n[0] < n[1] < n[2] < n[3] < n[4] < n[5] < |es|
    requires |w| == 3 && w[0].Wrote1? && Attempt(c, w, k, cert, secret)
    requires Caused(c, es, n[1], Resolved(w[0].ask, w[0].pin)) && es[n[1]].PinEntered?
    requires Shows(c, es[n[0]], w[0].ask, es[n[1]].secret)
    requires Caused(c, es, n[2], w[0]) && Caused(c, es, n[3], w[1]) && Caused(c, es, n[4], w[2])
    requires Caused(c, es, n[5], Paired(k, cert, secret))
    ensures Story(c, es, n, k, cert)
  {
    hide Run;
  }

  lemma ResolvedBefore(log: seq<Effect>, m: nat) returns (j: nat)
    requires m < |log| && log[m].Wrote1? && InOrder(log, log[m].ask, log[m].pin, m)
    ensures j < m && log[j] == Resolved(log[m].ask, log[m].pin)
  {
    var l: int, j': int :| 0 <= l < j' < m && j' < |log| && log[l] == Asked(log[m].ask)
                           && log[j'] == Resolved(log[m].ask, log[m].pin);
    j := j';
  }

  lemma {:induction false} CertLogged(log: seq<Effect>, cert: Bytes) returns (i: nat)
    requires cert in Certs(log)
    ensures i < |log| && log[i].Paired? && log[i].cert == cert
    decreases |log|
  {
    var last := log[|log| - 1];
    if last.Paired? && last.cert == cert { i := |log| - 1; } else { i := CertLogged(log[..|log| - 1], cert); }
  }

  /** Over every interleaving, each certificate that is paired has its story. */
  lemma PairedHasStory(c: Crypto, es: seq<Event>, cert: Bytes) returns (k: Key, n: seq<nat>)
    requires cert in Run(c, es).paired
    ensures Story(c, es, n, k, cert)
  {
    hide Run, Story, Crowns;
    PairedAreLogged(c, es);
    var i := CertLogged(Run(c, es).log, cert);
    k := Run(c, es).log[i].key;
    PairedOnlyInOrder(c, es, i);
    var m: nat :| Crowns(c, Run(c, es).log, i, m);
    n := PairingHasStory(c, es, i, m);
  }
}
