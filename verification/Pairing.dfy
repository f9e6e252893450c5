/**
 The four-phase pairing protocol: each HTTP request is one step, a PIN entry resolves the promise
 of a pending first phase, and the continuation of that promise runs at any later time.
 Cryptography is a parameter.
 */
module Pairing {
  import opened Wrappers

  type Bytes = seq<char>

  datatype Crypto = Crypto(
    unhex: Bytes -> Bytes,
    hex: Bytes -> Bytes,
    hash: Bytes -> Bytes,
    encrypt: (Bytes, Bytes) -> Bytes,            // plain text, key
    decrypt: (Bytes, Bytes) -> Bytes,            // cipher text, key
    certParses: Bytes -> bool,
    certSignature: Bytes -> Bytes,
    verify: (Bytes, Bytes, Bytes) -> bool,       // message, signature, certificate
    sign: Bytes -> Bytes,                        // with the server's private key
    serverSignature: Bytes)
  {
    /** `gen_aes_key` */
    function AesKey(pin: Bytes, salt: Bytes): Bytes {
      Resized(hash(unhex(salt) + pin), 16)
    }

    /** `send_server_challenge`: proof of the PIN, and a challenge in return. */
    function ChallengeAnswer(aesKey: Bytes, clientChallenge: Bytes, secret: Bytes, challenge: Bytes): Bytes {
      var nonce := decrypt(unhex(clientChallenge), aesKey);
      hex(encrypt(hash(nonce + serverSignature + secret) + challenge, aesKey))
    }

    /** `get_client_hash`: what the server's proof was made of, signed. */
    function PairingSecret(secret: Bytes): Bytes {
      hex(secret + sign(secret))
    }

    /** `client_pair`: the verdict of the last phase. */
    predicate Verdict(serverChallenge: Bytes, clientHash: Bytes, pairingSecret: Bytes, cert: Bytes) {
      var secret := unhex(pairingSecret);
      |secret| >= 256
      && (var signature := if |secret| < 272 then secret[16..] else secret[16..272];
          hash(serverChallenge + certSignature(cert) + secret[..16]) == clientHash
          && verify(secret[..16], signature, cert))
    }
  }

  /** `resize`: cut, or filled up with zero bytes. */
  function Resized(b: Bytes, n: nat): (r: Bytes)
    ensures |r| == n && (if |b| >= n then r == b[..n] else r[..|b|] == b)
    ensures forall i :: |b| <= i < n ==> r[i] == 0 as char
    decreases n - |b|
  {
    if |b| >= n then b[..n] else Resized(b + [0 as char], n)
  }

  datatype Phase = GetServerCert | ClientChallenge | ServerChallengeResp | ClientPairingSecret

  datatype PairCache = PairCache(
    clientCert: Bytes, aesKey: Bytes,
    serverSecret: Option<Bytes>, serverChallenge: Option<Bytes>, clientHash: Option<Bytes>,
    lastPhase: Phase)

  datatype Key = Key(clientId: string, ip: string)

  /** A first phase that waits for its PIN; `id` tells its promise from all others. */
  datatype Ask = Ask(id: nat, key: Key, cert: Bytes, salt: Bytes)

  datatype Effect =
    | Asked(ask: Ask)
    | Resolved(ask: Ask, pin: Bytes)
    | Wrote1(key: Key, ask: Ask, pin: Bytes)
    | Wrote2(key: Key, secret: Bytes, challenge: Bytes)
    | Wrote3(key: Key, response: Bytes, hash: Bytes)
    | Removed(key: Key)
    | Paired(key: Key, cert: Bytes, secret: Bytes)

  datatype State = State(
    cache: map<Key, PairCache>,
    pending: map<string, Ask>,               // by the secret shown to the user
    resolved: seq<(Ask, Bytes)>,             // promises with a PIN whose continuation has not run
    paired: seq<Bytes>,                      // certificates of paired clients
    asks: nat,                               // promises made so far
    log: seq<Effect>)                        // history
  {
    function Write(k: Key, entry: PairCache, e: Effect): State {
      this.(cache := cache[k := entry], log := log + [e])
    }

    function Remove(k: Key): State {
      this.(cache := cache - {k}, log := log + [Removed(k)])
    }
  }

  datatype Request = Request(
    uniqueId: Option<string>, ip: string,
    salt: Option<Bytes>, clientCert: Option<Bytes>,
    clientChallenge: Option<Bytes>, serverChallengeResp: Option<Bytes>, clientPairingSecret: Option<Bytes>)

  /** What the random generator delivers during one step. */
  datatype Random = Random(pinSecret: string, serverSecret: Bytes, serverChallenge: Bytes)

  datatype Reply = Accepted(answer: Bytes) | Rejected | Awaiting | NoReply

  datatype Event =
    | PairRequest(request: Request, random: Random)
    | PinEntered(secret: string, pin: Bytes)
    | Continuation(index: nat)

  /** The other requests of the same address are dropped, and the new one is added. */
  function WithAsk(pending: map<string, Ask>, ask: Ask, secret: string): map<string, Ask> {
    (map s | s in pending && pending[s].key.ip != ask.key.ip :: pending[s])[secret := ask]
  }

  function Phase1(st: State, ask: Ask, random: Random): (State, Reply) {
    if ask.key in st.cache then (st.Remove(ask.key), Rejected)
    else (st.(pending := WithAsk(st.pending, ask, random.pinSecret),
      asks := st.asks + 1, log := st.log + [Asked(ask)]), Awaiting)
  }

  /** The continuation of the promise of phase 1. */
  function Continue(c: Crypto, st: State, i: nat): State {
    if i >= |st.resolved| then st else
    var (ask, pin) := st.resolved[i];
    var aes := c.AesKey(pin, ask.salt);
    st.(resolved := st.resolved[..i] + st.resolved[i + 1..])
      .Write(ask.key, PairCache(ask.cert, aes, None, None, None, GetServerCert), Wrote1(ask.key, ask, pin))
  }

  function Phase2(c: Crypto, st: State, entry: PairCache, k: Key, challenge: Bytes, random: Random): (State, Reply) {
    if entry.lastPhase != GetServerCert then (st.Remove(k), Rejected) else
    var next := entry.(lastPhase := ClientChallenge,
                       serverSecret := Some(random.serverSecret), serverChallenge := Some(random.serverChallenge));
    (st.Write(k, next, Wrote2(k, random.serverSecret, random.serverChallenge)),
     Accepted(c.ChallengeAnswer(entry.aesKey, challenge, random.serverSecret, random.serverChallenge)))
  }

  function Phase3(c: Crypto, st: State, entry: PairCache, k: Key, challenge: Bytes): (State, Reply)
    requires entry.serverSecret.Some?
  {
    if entry.lastPhase != ClientChallenge then (st.Remove(k), Rejected) else
    var hash := c.decrypt(c.unhex(challenge), entry.aesKey);
    (st.Write(k, entry.(lastPhase := ServerChallengeResp, clientHash := Some(hash)),
     Wrote3(k, challenge, hash)), Accepted(c.PairingSecret(entry.serverSecret.value)))
  }

  function Phase4(c: Crypto, st: State, entry: PairCache, k: Key, secret: Bytes): (State, Reply)
    requires entry.serverChallenge.Some? && entry.clientHash.Some?
  {
    if entry.lastPhase == ServerChallengeResp && c.certParses(entry.clientCert)
       && c.Verdict(entry.serverChallenge.value, entry.clientHash.value, secret, entry.clientCert) then
      (st.(paired := st.paired + [entry.clientCert],
          log := st.log + [Paired(k, entry.clientCert, secret)]).Remove(k), Accepted(""))
    else (st.Remove(k), Rejected)
  }

  /** `pair` */
  function Pair(c: Crypto, st: State, r: Request, random: Random): (State, Reply) {
    if r.uniqueId.None? then (st, Rejected) else
    var k := Key(r.uniqueId.value, r.ip);
    if r.salt.Some? && r.clientCert.Some? then
      Phase1(st, Ask(st.asks, k, c.unhex(r.clientCert.value), r.salt.value), random)
    else if k !in st.cache then (st, Rejected)
    else
      var entry := st.cache[k];
      if r.clientChallenge.Some? then Phase2(c, st, entry, k, r.clientChallenge.value, random)
      else if r.serverChallengeResp.Some? && entry.serverSecret.Some? then
        Phase3(c, st, entry, k, r.serverChallengeResp.value)
      else if r.clientPairingSecret.Some? && entry.serverChallenge.Some? && entry.clientHash.Some? then
        Phase4(c, st, entry, k, r.clientPairingSecret.value)
      else (st, NoReply)
  }

  function EnterPin(st: State, secret: string, pin: Bytes): State {
    if secret !in st.pending then st else
    var ask := st.pending[secret];
    st.(pending := st.pending - {secret}, resolved := st.resolved + [(ask, pin)], log := st.log + [Resolved(ask, pin)])
  }

  function Step(c: Crypto, st: State, e: Event): State {
    match e
    case PairRequest(r, random) => Pair(c, st, r, random).0
    case PinEntered(secret, pin) => EnterPin(st, secret, pin)
    case Continuation(i) => Continue(c, st, i)
  }

  const INITIAL := State(map[], map[], [], [], 0, [])

  function Run(c: Crypto, es: seq<Event>): State
    decreases |es|
  {
    if es == [] then INITIAL else Step(c, Run(c, es[..|es| - 1]), es[|es| - 1])
  }

  // ---- what the history says about a key

  predicate Touches(e: Effect, k: Key) {
    (e.Wrote1? || e.Wrote2? || e.Wrote3? || e.Removed?) && e.key == k
  }

  /** The writes and removals of the cache entry of `k`, in order. */
  function History(log: seq<Effect>, k: Key): (h: seq<Effect>)
  {
    if log == [] then []
    else
      var last := log[|log| - 1];
      History(log[..|log| - 1], k) + (if Touches(last, k) then [last] else [])
  }

  lemma HistoryGrows(log: seq<Effect>, e: Effect, k: Key)
    ensures History(log + [e], k) == History(log, k) + (if Touches(e, k) then [e] else [])
  {
    assert (log + [e])[..|log|] == log;
  }

  /** How many phases an entry has been through. */
  function Phases(p: Phase): nat {
    match p case GetServerCert => 1 case ClientChallenge => 2
    case ServerChallengeResp => 3 case ClientPairingSecret => 4
  }

  /** The writes `w` made this entry: its certificate, key and answers come from one request,
      one PIN and one response. */
  ghost predicate Made(c: Crypto, w: seq<Effect>, k: Key, entry: PairCache) {
    && 1 <= |w| <= 3 && |w| == Phases(entry.lastPhase)
    && w[0].Wrote1? && w[0].key == k && w[0].ask.key == k
    && entry.clientCert == w[0].ask.cert && entry.aesKey == c.AesKey(w[0].pin, w[0].ask.salt)
    && (if |w| == 1 then entry.serverSecret == None && entry.serverChallenge == None
        else w[1].Wrote2? && w[1].key == k
             && entry.serverSecret == Some(w[1].secret) && entry.serverChallenge == Some(w[1].challenge))
    && (if |w| < 3 then entry.clientHash == None
        else w[2].Wrote3? && w[2].key == k && entry.clientHash == Some(w[2].hash)
             && w[2].hash == c.decrypt(c.unhex(w[2].response), entry.aesKey))
  }

  /** The history of a cached key ends with the writes that made its entry. */
  ghost predicate Explained(c: Crypto, log: seq<Effect>, k: Key, entry: PairCache) {
    var (h, n) := (History(log, k), Phases(entry.lastPhase));
    n <= |h| && Made(c, h[|h| - n..], k, entry)
  }

  /** The history of `k` ends with phases 1 to 3 of one attempt, which the last secret completes. */
  ghost predicate Earned(c: Crypto, h: seq<Effect>, k: Key, cert: Bytes, secret: Bytes) {
    |h| >= 3
    && (var w := h[|h| - 3..];
        Attempt(c, w, k, cert, secret))
  }

  /** One attempt: a request, its PIN, and answers computed from them. */
  ghost predicate Attempt(c: Crypto, w: seq<Effect>, k: Key, cert: Bytes, secret: Bytes) {
    && |w| == 3 && w[0].Wrote1? && w[1].Wrote2? && w[2].Wrote3?
    && w[0].key == w[1].key == w[2].key == k && w[0].ask.key == k && w[0].ask.cert == cert
    && c.certParses(cert)
    && Genuine(c, w[0].ask.salt, w[0].pin, w[1].challenge, w[2].response, secret, cert)
  }

  /** The client's response, decrypted with the key of the PIN and the salt, is the hash of the server's challenge,
      the signature of its own certificate and the first 16 bytes of its secret, which its certificate verifies
      with the bytes that follow; the secret has 256 bytes at least. */
  ghost predicate Genuine(c: Crypto, salt: Bytes, pin: Bytes, challenge: Bytes, response: Bytes, secret: Bytes,
      cert: Bytes)
  {
    var own := c.unhex(secret);
    && |own| >= 256
    && c.decrypt(c.unhex(response), Resized(c.hash(c.unhex(salt) + pin), 16))
       == c.hash(challenge + c.certSignature(cert) + own[..16])
    && c.verify(own[..16], if |own| < 272 then own[16..] else own[16..272], cert)
  }

  ghost predicate Before(log: seq<Effect>, e: Effect, m: nat) {
    exists j :: 0 <= j < m && j < |log| && log[j] == e
  }

  /** A first write comes after its PIN, and the PIN after its request. */
  ghost predicate Sourced(log: seq<Effect>) {
    && (forall m :: 0 <= m < |log| && log[m].Wrote1? ==> Before(log, Resolved(log[m].ask, log[m].pin), m))
    && (forall m :: 0 <= m < |log| && log[m].Resolved? ==> Before(log, Asked(log[m].ask), m))
  }

  ghost predicate Ordered(c: Crypto, log: seq<Effect>) {
    forall i :: 0 <= i < |log| && log[i].Paired? ==>
      Earned(c, History(log[..i], log[i].key), log[i].key, log[i].cert, log[i].secret)
  }

  ghost predicate Valid(c: Crypto, st: State) {
    && (forall k <- st.cache :: Explained(c, st.log, k, st.cache[k]))
    && (forall s <- st.pending :: Asked(st.pending[s]) in st.log)
    && (forall r <- st.resolved :: Resolved(r.0, r.1) in st.log)
    && Sourced(st.log) && Ordered(c, st.log)
  }
}
