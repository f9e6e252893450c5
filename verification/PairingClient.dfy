/** An honest client among others: it gets paired whatever the others do meanwhile. */
module PairingClient {
  import opened Wrappers
  import opened Pairing
  import opened PairingRuns
  import opened PairingLaws

  function After(c: Crypto, st: State, es: seq<Event>): State
    decreases |es|
  {
    if es == [] then st else After(c, Step(c, st, es[0]), es[1..])
  }

  /** Events of other clients only. */
  ghost predicate Foreign(c: Crypto, st: State, es: seq<Event>, k: Key)
    decreases |es|
  {
    es != [] ==> !Concerns(st, es[0], k) && Foreign(c, Step(c, st, es[0]), es[1..], k)
  }

  /** Events of other clients that leave the request pending under `secret` alone. */
  ghost predicate Aside(c: Crypto, st: State, es: seq<Event>, k: Key, secret: string)
    decreases |es|
  {
    es != [] ==>
      (!Concerns(st, es[0], k) && (secret in st.pending ==> !Drops(st, es[0], secret))
      && Aside(c, Step(c, st, es[0]), es[1..], k, secret))
  }

  lemma {:induction false} ForeignKeeps(c: Crypto, st: State, es: seq<Event>, k: Key)
    requires Foreign(c, st, es, k)
    ensures var st' := After(c, st, es);
            (k in st'.cache <==> k in st.cache) && (k in st.cache ==> st'.cache[k] == st.cache[k])
            && (forall r <- st.resolved :: r.0.key == k ==> r in st'.resolved)
    decreases |es|
  {
    hide Step, Concerns;
    if es != [] {
      OthersUndisturbed(c, st, es[0], k);
      ResolvedStay(c, st, es[0], k);
      ForeignKeeps(c, Step(c, st, es[0]), es[1..], k);
    }
  }

  lemma ResolvedStay(c: Crypto, st: State, e: Event, k: Key)
    requires !Concerns(st, e, k)
    ensures forall r <- st.resolved :: r.0.key == k ==> r in Step(c, st, e).resolved
  {
    hide Crypto.Verdict, Crypto.AesKey, WithAsk;
    if e.Continuation? && e.index < |st.resolved| {
      var i := e.index;
      var rest := st.resolved[..i] + st.resolved[i + 1..];
      forall a | 0 <= a < |st.resolved| && a != i ensures st.resolved[a] in rest {
        assert rest[if a < i then a else a - 1] == st.resolved[a];
      }
    }
  }

  lemma {:induction false} AsideKeeps(c: Crypto, st: State, es: seq<Event>, k: Key, secret: string)
    requires Aside(c, st, es, k, secret) && Valid(c, st) && PromisesKept(st)
      && PairingEnds(st.log) && secret in st.pending
    ensures var st' := After(c, st, es);
            secret in st'.pending && st'.pending[secret] == st.pending[secret] && (k in st'.cache <==> k in st.cache)
    decreases |es|
  {
    hide Step, Concerns, Valid, PromisesKept, PairingEnds, Drops;
    if es != [] {
      OthersUndisturbed(c, st, es[0], k);
      PendingDropped(c, st, es[0], secret);
      StepKeeps(c, st, es[0]);
      StepPromises(c, st, es[0]) by { ValidSourced(c, st); }
      AsideKeeps(c, Step(c, st, es[0]), es[1..], k, secret);
    }
  }

  lemma ValidSourced(c: Crypto, st: State)
    requires Valid(c, st)
    ensures Sourced(st.log)
  {}

  // ---- the client

  /** What the client and its user send, and what the server draws. */
  datatype Client = Client(
    key: Key, pin: Bytes, salt: Bytes, certHex: Bytes, challenge: Bytes, response: Bytes, secret: Bytes,
    shown: Random, drawn: Random)
  {
    function Blank(): Request { Request(Some(key.clientId), key.ip, None, None, None, None, None) }

    function Phase1(): Event { PairRequest(Blank().(salt := Some(salt), clientCert := Some(certHex)), shown) }
    function Phase2(): Event { PairRequest(Blank().(clientChallenge := Some(challenge)), drawn) }
    function Phase3(): Event { PairRequest(Blank().(serverChallengeResp := Some(response)), drawn) }
    function Phase4(): Event { PairRequest(Blank().(clientPairingSecret := Some(secret)), drawn) }

    /** It knows the PIN, holds the private key of its certificate, and answers the server's challenge;
        decryption with the key of its PIN undoes encryption. */
    ghost predicate Honest(c: Crypto) {
      var (cert, aes) := (c.unhex(certHex), c.AesKey(pin, salt));
      (forall text :: c.decrypt(c.encrypt(text, aes), aes) == text)
      && exists own: Bytes, signature: Bytes ::
           |own| == 16 && |signature| == 256
           && c.certParses(cert) && c.verify(own, signature, cert)
           && c.unhex(response) == c.encrypt(c.hash(drawn.serverChallenge + c.certSignature(cert) + own), aes)
           && c.unhex(secret) == own + signature
    }
  }

  lemma HonestVerdict(c: Crypto, x: Client)
    requires x.Honest(c)
    ensures c.certParses(c.unhex(x.certHex))
    ensures c.Verdict(x.drawn.serverChallenge, c.decrypt(c.unhex(x.response), c.AesKey(x.pin, x.salt)),
      x.secret, c.unhex(x.certHex))
  {
    hide Crypto.AesKey;
    var (cert, aes) := (c.unhex(x.certHex), c.AesKey(x.pin, x.salt));
    var own: Bytes, signature: Bytes :|
      |own| == 16 && |signature| == 256
      && c.certParses(cert) && c.verify(own, signature, cert)
      && c.unhex(x.response) == c.encrypt(c.hash(x.drawn.serverChallenge + c.certSignature(cert) + own), aes)
      && c.unhex(x.secret) == own + signature;
    var all := own + signature;
    assert all[..16] == own && all[16..272] == signature && all[16..] == signature;
  }

  /** A first phase that finds an old entry clears it, so that the next one starts afresh. */
  lemma RetryClears(c: Crypto, st: State, x: Client)
    requires x.key in st.cache
    ensures x.key !in Step(c, st, x.Phase1()).cache && Step(c, st, x.Phase1()).paired == st.paired
  {}

  /** The request waits for its PIN while others come and go; once the PIN is entered its continuation waits to run. */
  lemma PinAccepted(c: Crypto, st: State, x: Client, a: seq<Event>, b: seq<Event>)
    requires Valid(c, st) && PromisesKept(st) && PairingEnds(st.log) && x.key !in st.cache
    requires var st1 := Step(c, st, x.Phase1());
             Aside(c, st1, a, x.key, x.shown.pinSecret)
             && Foreign(c, Step(c, After(c, st1, a), PinEntered(x.shown.pinSecret, x.pin)), b, x.key)
    ensures var st1 := Step(c, st, x.Phase1());
            var st2 := After(c, Step(c, After(c, st1, a), PinEntered(x.shown.pinSecret, x.pin)), b);
            (Ask(st.asks, x.key, c.unhex(x.certHex), x.salt), x.pin) in st2.resolved && x.key !in st2.cache
  {
    hide Valid, PromisesKept, PairingEnds, Aside, Foreign;
    var ask := Ask(st.asks, x.key, c.unhex(x.certHex), x.salt);
    var st1 := Step(c, st, x.Phase1());
    assert x.shown.pinSecret in st1.pending && st1.pending[x.shown.pinSecret] == ask && x.key !in st1.cache;
    StepKeeps(c, st, x.Phase1());
    ValidSourced(c, st);
    StepPromises(c, st, x.Phase1());
    AsideKeeps(c, st1, a, x.key, x.shown.pinSecret);
    var pinned := Step(c, After(c, st1, a), PinEntered(x.shown.pinSecret, x.pin));
    assert pinned.resolved[|pinned.resolved| - 1] == (ask, x.pin);
    ForeignKeeps(c, pinned, b, x.key);
  }

  /** From there the continuation and the later phases pair the client, again whatever others do in between. */
  lemma LaterPhases(c: Crypto, st: State, x: Client, ask: Ask, i: nat, d: seq<Event>, f: seq<Event>, g: seq<Event>)
    requires i < |st.resolved| && st.resolved[i] == (ask, x.pin)
    requires ask.key == x.key && ask.cert == c.unhex(x.certHex) && ask.salt == x.salt && x.Honest(c)
    requires var st1 := Step(c, st, Continuation(i));
             var st2 := After(c, st1, d);
             var st3 := After(c, Step(c, st2, x.Phase2()), f);
             Foreign(c, st1, d, x.key) && Foreign(c, Step(c, st2, x.Phase2()), f, x.key)
             && Foreign(c, Step(c, st3, x.Phase3()), g, x.key)
    ensures var st2 := After(c, Step(c, st, Continuation(i)), d);
            var st3 := After(c, Step(c, st2, x.Phase2()), f);
            var st4 := After(c, Step(c, st3, x.Phase3()), g);
            Step(c, st4, x.Phase4()).paired == st4.paired + [c.unhex(x.certHex)]
            && x.key !in Step(c, st4, x.Phase4()).cache
  {
    hide Crypto.Verdict, Crypto.AesKey, Foreign, Concerns, Client.Honest;
    HonestVerdict(c, x);
    var k, cert, aes := x.key, c.unhex(x.certHex), c.AesKey(x.pin, x.salt);
    var st1 := Step(c, st, Continuation(i));
    assert st1.cache[k] == PairCache(cert, aes, None, None, None, GetServerCert);
    ForeignKeeps(c, st1, d, k);
    var st2 := After(c, st1, d);
    var two := Step(c, st2, x.Phase2());
    assert two.cache[k]
      == PairCache(cert, aes, Some(x.drawn.serverSecret), Some(x.drawn.serverChallenge), None, ClientChallenge);
    ForeignKeeps(c, two, f, k);
    var st3 := After(c, two, f);
    var three := Step(c, st3, x.Phase3());
    assert three.cache[k] == PairCache(cert, aes, Some(x.drawn.serverSecret), Some(x.drawn.serverChallenge),
                                       Some(c.decrypt(c.unhex(x.response), aes)), ServerChallengeResp);
    ForeignKeeps(c, three, g, k);
  }

  /** The server proves itself too: its first answer, decrypted with the key of the PIN, is a hash over the client's
      own nonce, followed by its challenge; its second one reveals what the hash was made of, signed. */
  lemma ServerProvesItself(c: Crypto, st: State, x: Client, ask: Ask, i: nat, d: seq<Event>, f: seq<Event>,
                             nonce: Bytes)
    requires i < |st.resolved| && st.resolved[i] == (ask, x.pin)
    requires ask.key == x.key && ask.salt == x.salt
    requires var aes := Resized(c.hash(c.unhex(x.salt) + x.pin), 16);
             && (forall text :: c.decrypt(c.encrypt(text, aes), aes) == text)
             && (forall text :: c.unhex(c.hex(text)) == text)
             && c.decrypt(c.unhex(x.challenge), aes) == nonce
    requires var st1 := Step(c, st, Continuation(i));
             Foreign(c, st1, d, x.key) && Foreign(c, Step(c, After(c, st1, d), x.Phase2()), f, x.key)
    ensures var aes := Resized(c.hash(c.unhex(x.salt) + x.pin), 16);
            var own, st2 := x.drawn.serverSecret, After(c, Step(c, st, Continuation(i)), d);
            var st3 := After(c, Step(c, st2, x.Phase2()), f);
            var first := Pair(c, st2, x.Phase2().request, x.drawn).1;
            var second := Pair(c, st3, x.Phase3().request, x.drawn).1;
            && first.Accepted? && second.Accepted?
            && c.decrypt(c.unhex(first.answer), aes)
               == c.hash(nonce + c.serverSignature + own) + x.drawn.serverChallenge
            && c.unhex(second.answer) == own + c.sign(own)
  {
    hide Crypto.Verdict, Foreign, Concerns;
    var k, aes := x.key, c.AesKey(x.pin, x.salt);
    var st1 := Step(c, st, Continuation(i));
    assert st1.cache[k] == PairCache(ask.cert, aes, None, None, None, GetServerCert);
    ForeignKeeps(c, st1, d, k);
    var two := Step(c, After(c, st1, d), x.Phase2());
    assert two.cache[k] == PairCache(ask.cert, aes, Some(x.drawn.serverSecret), Some(x.drawn.serverChallenge), None,
                                     ClientChallenge);
    ForeignKeeps(c, two, f, k);
  }

  // ---- the whole attempt

  /** Where the attempt starts: an old entry is cleared by a first try. */
  function Start(c: Crypto, st: State, x: Client): State {
    if x.key in st.cache then Step(c, st, x.Phase1()) else st
  }

  /** After the request, the events `a`, the PIN and the events `b`. */
  function Pinned(c: Crypto, st: State, x: Client, a: seq<Event>, b: seq<Event>): State {
    After(c, Step(c, After(c, Step(c, st, x.Phase1()), a), PinEntered(x.shown.pinSecret, x.pin)), b)
  }

  /** After the continuation at `i`, phases 2 and 3, and the events `d`, `f` and `g` that follow each. */
  function Answered(c: Crypto, st: State, x: Client, i: nat, d: seq<Event>, f: seq<Event>, g: seq<Event>): State {
    After(c, Step(c, After(c, Step(c, After(c, Step(c, st, Continuation(i)), d), x.Phase2()), f), x.Phase3()), g)
  }

  ghost predicate OthersUntilPin(c: Crypto, st: State, x: Client, a: seq<Event>, b: seq<Event>) {
    var st1 := Step(c, st, x.Phase1());
    Aside(c, st1, a, x.key, x.shown.pinSecret)
    && Foreign(c, Step(c, After(c, st1, a), PinEntered(x.shown.pinSecret, x.pin)), b, x.key)
  }

  ghost predicate OthersAfterPin(c: Crypto, st: State, x: Client, i: nat, d: seq<Event>, f: seq<Event>, g: seq<Event>) {
    var st1 := Step(c, st, Continuation(i));
    var st2 := After(c, st1, d);
    var st3 := After(c, Step(c, st2, x.Phase2()), f);
    Foreign(c, st1, d, x.key) && Foreign(c, Step(c, st2, x.Phase2()), f, x.key)
    && Foreign(c, Step(c, st3, x.Phase3()), g, x.key)
  }

  /** From every reachable state, and with any events of other clients between its steps that
      leave its request pending, an honest client
      whose user enters the right PIN gets paired: its continuation waits to run, and run at any time it leads
      through the later phases to one more certificate, the client's. */
  lemma HonestClientIsPaired(c: Crypto, es: seq<Event>, x: Client, a: seq<Event>, b: seq<Event>,
                             i: nat, d: seq<Event>, f: seq<Event>, g: seq<Event>)
    requires x.Honest(c) && OthersUntilPin(c, Start(c, Run(c, es), x), x, a, b)
    ensures var st := Start(c, Run(c, es), x);
            var (ask, pinned) := (Ask(st.asks, x.key, c.unhex(x.certHex), x.salt), Pinned(c, st, x, a, b));
            (ask, x.pin) in pinned.resolved
            && (i < |pinned.resolved| && pinned.resolved[i] == (ask, x.pin)
                && OthersAfterPin(c, pinned, x, i, d, f, g) ==>
                  (var last := Answered(c, pinned, x, i, d, f, g);
                  Step(c, last, x.Phase4()).paired == last.paired + [c.unhex(x.certHex)]
                  && x.key !in Step(c, last, x.Phase4()).cache))
  {
    hide Step, Valid, PromisesKept, PairingEnds, Aside, Foreign, Client.Honest, After;
    var st0 := Run(c, es);
    var st := Start(c, st0, x);
    RunsValid(c, es);
    RunPromises(c, es);
    if x.key in st0.cache {
      RetryClears(c, st0, x);
      StepKeeps(c, st0, x.Phase1());
      ValidSourced(c, st0);
      StepPromises(c, st0, x.Phase1());
    }
    PinAccepted(c, st, x, a, b);
    var (ask, pinned) := (Ask(st.asks, x.key, c.unhex(x.certHex), x.salt), Pinned(c, st, x, a, b));
    if i < |pinned.resolved| && pinned.resolved[i] == (ask, x.pin) && OthersAfterPin(c, pinned, x, i, d, f, g) {
      LaterPhases(c, pinned, x, ask, i, d, f, g);
    }
  }
}
