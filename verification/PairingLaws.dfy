/** Who gets paired, how often, and what each request may do, over every run. */
module PairingLaws {
  import opened Wrappers
  import opened Pairing
  import opened PairingRuns

  // ---- where a history starts in the log

  lemma {:induction false} HistoryStart(log: seq<Effect>, k: Key, n: nat) returns (m: nat)
    requires 1 <= n <= |History(log, k)|
    ensures var h := History(log, k);
            m < |log| && log[m] == h[|h| - n] && History(log[m..], k) == h[|h| - n..]
    decreases |log|
  {
    var (init, last) := (log[..|log| - 1], log[|log| - 1]);
    assert log == init + [last];
    if Touches(last, k) && n == 1 {
      m := |log| - 1;
      assert log[m..] == [] + [last];
      HistoryGrows([], last, k);
    } else {
      m := HistoryStart(init, k, if Touches(last, k) then n - 1 else n);
      assert log[m..] == init[m..] + [last];
      HistoryGrows(init[m..], last, k);
    }
  }

  /** The pairing at `i` crowns the attempt whose first write is at `m`: request, PIN and first write came in
      this order, and from the first write on nothing else wrote or removed the entry. */
  ghost predicate Crowns(c: Crypto, log: seq<Effect>, i: nat, m: nat) {
    m < i < |log| && log[i].Paired? && log[m].Wrote1?
    && Attempt(c, History(log[m..i], log[i].key), log[i].key, log[i].cert, log[i].secret)
    && History(log[m..i], log[i].key)[0] == log[m]
    && InOrder(log, log[m].ask, log[m].pin, m)
  }

  ghost predicate InOrder(log: seq<Effect>, ask: Ask, pin: Bytes, m: nat) {
    exists l, j :: 0 <= l < j < m && j < |log| && log[l] == Asked(ask) && log[j] == Resolved(ask, pin)
  }

  lemma SourcedInOrder(log: seq<Effect>, m: nat)
    requires Sourced(log) && m < |log| && log[m].Wrote1?
    ensures InOrder(log, log[m].ask, log[m].pin, m)
  {
    var (ask, pin) := (log[m].ask, log[m].pin);
    assert Before(log, Resolved(ask, pin), m);
    var j :| 0 <= j < m && j < |log| && log[j] == Resolved(ask, pin);
    assert Before(log, Asked(log[j].ask), j);
    var l :| 0 <= l < j && l < |log| && log[l] == Asked(ask);
  }

  /** Nobody is paired under a key unless a request with this very certificate was answered with a PIN, the phases
      1 to 3 followed with nothing between, and the client's answers, decrypted with the key of
      that PIN, got a good verdict. */
  lemma PairedOnlyInOrder(c: Crypto, es: seq<Event>, i: nat)
    requires i < |Run(c, es).log| && Run(c, es).log[i].Paired?
    ensures exists m :: Crowns(c, Run(c, es).log, i, m)
  {
    hide Run, History, Explained, Attempt, InOrder;
    RunsValid(c, es);
    var log := Run(c, es).log;
    var (e, before) := (log[i], log[..i]);
    var h := History(before, e.key);
    assert Earned(c, h, e.key, e.cert, e.secret);
    var m := HistoryStart(before, e.key, 3);
    assert before[m..] == log[m..i];
    assert h[|h| - 3..][0] == h[|h| - 3];
    AttemptStarts(c, h[|h| - 3..], e.key, e.cert, e.secret);
    SourcedInOrder(log, m);
    assert Crowns(c, log, i, m);
  }

  lemma AttemptStarts(c: Crypto, w: seq<Effect>, k: Key, cert: Bytes, secret: Bytes)
    requires Attempt(c, w, k, cert, secret)
    ensures |w| == 3 && w[0].Wrote1?
  {}

  // ---- what one request does

  /** What one request adds to the log. */
  datatype Added = Nothing | One(e: Effect) | Pairing(k: Key, cert: Bytes, secret: Bytes)

  function Grown(log: seq<Effect>, a: Added): seq<Effect> {
    match a
    case Nothing => log
    case One(e) => log + [e]
    case Pairing(k, cert, secret) => log + [Paired(k, cert, secret)] + [Removed(k)]
  }

  /** A request resolves no promise and runs no continuation; only the first phase makes one. */
  ghost predicate Adds(st: State, st': State, a: Added, secret: string) {
    && st'.log == Grown(st.log, a) && st'.resolved == st.resolved
    && st'.paired == (if a.Pairing? then st.paired + [a.cert] else st.paired)
    && (a.One? ==> !a.e.Paired? && !a.e.Resolved? && !a.e.Wrote1?)
    && (if a.One? && a.e.Asked? then
          a.e.ask.id == st.asks && st'.asks == st.asks + 1
          && st'.pending == WithAsk(st.pending, a.e.ask, secret) && st'.cache == st.cache
        else st'.asks == st.asks && st'.pending == st.pending)
  }

  lemma Phase4Adds(c: Crypto, st: State, entry: PairCache, k: Key, secret: Bytes, shown: string) returns (a: Added)
    requires entry.serverChallenge.Some? && entry.clientHash.Some?
    ensures Adds(st, Phase4(c, st, entry, k, secret).0, a, shown)
  {
    hide Crypto.Verdict;
    a := if Phase4(c, st, entry, k, secret).1.Accepted?
      then Pairing(k, entry.clientCert, secret) else One(Removed(k));
  }

  lemma Phase3Adds(c: Crypto, st: State, entry: PairCache, k: Key, challenge: Bytes, shown: string) returns (a: Added)
    requires entry.serverSecret.Some?
    ensures Adds(st, Phase3(c, st, entry, k, challenge).0, a, shown)
  {
    a := One(if entry.lastPhase != ClientChallenge then Removed(k)
             else Wrote3(k, challenge, c.decrypt(c.unhex(challenge), entry.aesKey)));
  }

  lemma Phase2Adds(c: Crypto, st: State, entry: PairCache, k: Key, challenge: Bytes, random: Random) returns (a: Added)
    ensures Adds(st, Phase2(c, st, entry, k, challenge, random).0, a, random.pinSecret)
  {
    a := One(if entry.lastPhase != GetServerCert then Removed(k)
      else Wrote2(k, random.serverSecret, random.serverChallenge));
  }

  lemma Phase1Adds(st: State, ask: Ask, random: Random) returns (a: Added)
    requires ask.id == st.asks
    ensures Adds(st, Phase1(st, ask, random).0, a, random.pinSecret)
  {
    hide WithAsk;
    a := One(if ask.key in st.cache then Removed(ask.key) else Asked(ask));
  }

  lemma PairAdds(c: Crypto, st: State, r: Request, random: Random) returns (a: Added)
    ensures Adds(st, Pair(c, st, r, random).0, a, random.pinSecret)
  {
    hide Adds, Phase1, Phase2, Phase3, Phase4;
    a := Nothing;
    NothingAdded(st, random.pinSecret);
    if r.uniqueId.Some? {
      var k := Key(r.uniqueId.value, r.ip);
      if r.salt.Some? && r.clientCert.Some? {
        a := Phase1Adds(st, Ask(st.asks, k, c.unhex(r.clientCert.value), r.salt.value), random);
      } else if k in st.cache {
        var entry := st.cache[k];
        if r.clientChallenge.Some? {
          a := Phase2Adds(c, st, entry, k, r.clientChallenge.value, random);
        } else if r.serverChallengeResp.Some? && entry.serverSecret.Some? {
          a := Phase3Adds(c, st, entry, k, r.serverChallengeResp.value, random.pinSecret);
        } else if r.clientPairingSecret.Some? && entry.serverChallenge.Some? && entry.clientHash.Some? {
          a := Phase4Adds(c, st, entry, k, r.clientPairingSecret.value, random.pinSecret);
        }
      }
    }
  }

  lemma NothingAdded(st: State, secret: string)
    ensures Adds(st, st, Nothing, secret)
  {}

  /** Certificates that the log says were paired. */
  function Certs(log: seq<Effect>): seq<Bytes> {
    if log == [] then []
    else
      var last := log[|log| - 1];
      Certs(log[..|log| - 1]) + (if last.Paired? then [last.cert] else [])
  }

  lemma CertsGrow(log: seq<Effect>, e: Effect)
    ensures Certs(log + [e]) == Certs(log) + (if e.Paired? then [e.cert] else [])
  {
    assert (log + [e])[..|log|] == log;
  }

  lemma StepLogsPaired(c: Crypto, st: State, e: Event)
    requires st.paired == Certs(st.log)
    ensures Step(c, st, e).paired == Certs(Step(c, st, e).log)
  {
    hide Certs, Pair, Crypto.AesKey;
    match e {
      case PairRequest(r, random) =>
        var a := PairAdds(c, st, r, random);
        match a {
          case Nothing =>
          case One(x) => CertsGrow(st.log, x);
          case Pairing(k, cert, secret) =>
            CertsGrow(st.log, Paired(k, cert, secret));
            CertsGrow(st.log + [Paired(k, cert, secret)], Removed(k));
        }
      case PinEntered(secret, pin) =>
        if secret in st.pending { CertsGrow(st.log, Resolved(st.pending[secret], pin)); }
      case Continuation(i) =>
        if i < |st.resolved| { CertsGrow(st.log, Wrote1(st.resolved[i].0.key, st.resolved[i].0, st.resolved[i].1)); }
    }
  }

  lemma {:induction false} PairedAreLogged(c: Crypto, es: seq<Event>)
    ensures Run(c, es).paired == Certs(Run(c, es).log)
    decreases |es|
  {
    hide Step;
    if es != [] {
      PairedAreLogged(c, es[..|es| - 1]);
      StepLogsPaired(c, Run(c, es[..|es| - 1]), es[|es| - 1]);
    }
  }

  /** The fields of an entry are those its last phase calls for. */
  lemma FieldsFollowPhase(c: Crypto, es: seq<Event>, k: Key)
    requires k in Run(c, es).cache
    ensures var entry := Run(c, es).cache[k];
            (entry.serverSecret.Some? <==> entry.lastPhase != GetServerCert)
            && (entry.serverChallenge.Some? <==> entry.lastPhase != GetServerCert)
            && (entry.clientHash.Some? <==> entry.lastPhase == ServerChallengeResp)
            && entry.lastPhase != ClientPairingSecret
  {
    hide Run;
    RunsValid(c, es);
    EntryFields(c, Run(c, es), k);
  }

  lemma EntryFields(c: Crypto, st: State, k: Key)
    requires Valid(c, st) && k in st.cache
    ensures var entry := st.cache[k];
            (entry.serverSecret.Some? <==> entry.lastPhase != GetServerCert)
            && (entry.serverChallenge.Some? <==> entry.lastPhase != GetServerCert)
            && (entry.clientHash.Some? <==> entry.lastPhase == ServerChallengeResp)
            && entry.lastPhase != ClientPairingSecret
  {
    hide Sourced, Ordered, History, Crypto.AesKey;
  }

  ghost predicate Concerns(st: State, e: Event, k: Key) {
    match e
    case PairRequest(r, _) => r.uniqueId == Some(k.clientId) && r.ip == k.ip
    case PinEntered(_, _) => false
    case Continuation(i) => i < |st.resolved| && st.resolved[i].0.key == k
  }

  /** The cache is as it was but for the entry of `k`. */
  ghost predicate OnlyEntry(st: State, st': State, k: Key) {
    forall x :: x != k ==> (x in st'.cache <==> x in st.cache) && (x in st.cache ==> st'.cache[x] == st.cache[x])
  }

  lemma PhasesOnlyEntry(c: Crypto, st: State, entry: PairCache, k: Key, text: Bytes, random: Random)
    ensures OnlyEntry(st, Phase2(c, st, entry, k, text, random).0, k)
    ensures entry.serverSecret.Some? ==> OnlyEntry(st, Phase3(c, st, entry, k, text).0, k)
    ensures entry.serverChallenge.Some? && entry.clientHash.Some? ==> OnlyEntry(st, Phase4(c, st, entry, k, text).0, k)
  {
    hide Crypto.Verdict, Crypto.ChallengeAnswer;
  }

  lemma PairOnlyEntry(c: Crypto, st: State, r: Request, random: Random)
    requires r.uniqueId.Some?
    ensures OnlyEntry(st, Pair(c, st, r, random).0, Key(r.uniqueId.value, r.ip))
  {
    hide Phase2, Phase3, Phase4, WithAsk;
    var k := Key(r.uniqueId.value, r.ip);
    if k in st.cache {
      if r.clientChallenge.Some? { PhasesOnlyEntry(c, st, st.cache[k], k, r.clientChallenge.value, random); }
      if r.serverChallengeResp.Some? { PhasesOnlyEntry(c, st, st.cache[k], k, r.serverChallengeResp.value, random); }
      if r.clientPairingSecret.Some? { PhasesOnlyEntry(c, st, st.cache[k], k, r.clientPairingSecret.value, random); }
    }
  }

  /** Clients do not disturb one another's entries. */
  lemma OthersUndisturbed(c: Crypto, st: State, e: Event, k: Key)
    requires !Concerns(st, e, k)
    ensures var st' := Step(c, st, e);
            (k in st'.cache <==> k in st.cache) && (k in st.cache ==> st'.cache[k] == st.cache[k])
  {
    if e.PairRequest? && e.request.uniqueId.Some? { PairOnlyEntry(c, st, e.request, e.random); }
    if e.PairRequest? && e.request.uniqueId.None? { OtherAnswers(c, st, e.request, e.random); }
    hide Pair, Crypto.AesKey;
  }

  /** The pending requests that an event drops: the one whose PIN is entered, and those of the same
      address as a new first phase, or under the same secret. */
  ghost predicate Drops(st: State, e: Event, s: string)
    requires s in st.pending
  {
    match e
    case PairRequest(r, random) =>
      r.uniqueId.Some? && r.salt.Some? && r.clientCert.Some? && Key(r.uniqueId.value, r.ip) !in st.cache
      && (r.ip == st.pending[s].key.ip || random.pinSecret == s)
    case PinEntered(secret, _) => secret == s
    case Continuation(_) => false
  }

  lemma PendingDropped(c: Crypto, st: State, e: Event, s: string)
    requires PromisesKept(st) && s in st.pending
    ensures var st' := Step(c, st, e);
            (s in st'.pending && st'.pending[s] == st.pending[s]) <==> !Drops(st, e, s)
  {
    hide Crypto.Verdict, Crypto.AesKey, ResolvedIds, WrittenIds, OnceEach;
  }

  /** The phase that a request asks for, given the phase its key has reached; 0 for none. */
  function AskedFor(r: Request, phase: Phase): nat {
    if r.clientChallenge.Some? then 2
    else if r.serverChallengeResp.Some? && phase != GetServerCert then 3
    else if r.clientPairingSecret.Some? && phase == ServerChallengeResp then 4
    else 0
  }

  /** A phase is accepted in its turn, and the last one if the client's hash and signature are right; phase 2 is
      answered with the proof of the PIN and the server's challenge, phase 3 with the signed secret of that proof. */
  ghost predicate Answers(c: Crypto, entry: PairCache, asked: nat, r: Request, random: Random, reply: Reply) {
    match asked
    case 2 =>
      reply == if entry.lastPhase != GetServerCert || r.clientChallenge.None? then Rejected else
        var nonce := c.decrypt(c.unhex(r.clientChallenge.value), entry.aesKey);
        var proof := c.hash(nonce + c.serverSignature + random.serverSecret);
        Accepted(c.hex(c.encrypt(proof + random.serverChallenge, entry.aesKey)))
    case 3 =>
      reply == if entry.lastPhase != ClientChallenge || entry.serverSecret.None? then Rejected else
        Accepted(c.hex(entry.serverSecret.value + c.sign(entry.serverSecret.value)))
    case 4 =>
      reply == if Convincing(c, entry, r) then Accepted("") else Rejected
    case _ => reply == NoReply
  }

  ghost predicate Convincing(c: Crypto, entry: PairCache, r: Request) {
    entry.serverChallenge.Some? && entry.clientHash.Some? && r.clientPairingSecret.Some?
    && (var (own, cert) := (c.unhex(r.clientPairingSecret.value), entry.clientCert);
        && c.certParses(cert) && |own| >= 256
        && entry.clientHash.value == c.hash(entry.serverChallenge.value + c.certSignature(cert) + own[..16])
        && c.verify(own[..16], if |own| < 272 then own[16..] else own[16..272], cert))
  }

  lemma Phase2Answers(c: Crypto, st: State, entry: PairCache, k: Key, r: Request, random: Random)
    requires r.clientChallenge.Some?
    ensures var (st', reply) := Phase2(c, st, entry, k, r.clientChallenge.value, random);
            Answers(c, entry, 2, r, random, reply) && st'.paired == st.paired
            && (reply == Rejected ==> k !in st'.cache)
            && (reply.Accepted? ==> k in st'.cache && st'.cache[k].lastPhase == ClientChallenge)
  {}

  lemma Phase3Answers(c: Crypto, st: State, entry: PairCache, k: Key, r: Request, random: Random)
    requires entry.serverSecret.Some? && r.serverChallengeResp.Some?
    ensures var (st', reply) := Phase3(c, st, entry, k, r.serverChallengeResp.value);
            Answers(c, entry, 3, r, random, reply) && st'.paired == st.paired
            && (reply == Rejected ==> k !in st'.cache)
            && (reply.Accepted? ==> k in st'.cache && st'.cache[k].lastPhase == ServerChallengeResp)
  {}

  lemma Phase4Answers(c: Crypto, st: State, entry: PairCache, k: Key, r: Request, random: Random)
    requires entry.serverChallenge.Some? && entry.clientHash.Some? && entry.lastPhase == ServerChallengeResp
    requires r.clientPairingSecret.Some?
    ensures var (st', reply) := Phase4(c, st, entry, k, r.clientPairingSecret.value);
            k !in st'.cache && Answers(c, entry, 4, r, random, reply)
            && st'.paired == if reply.Accepted? then st.paired + [entry.clientCert] else st.paired
  {}

  /** What a request of a later phase meets, by the phase its key has reached.  A repeated phase ends the
      pairing; phase 3 or 4 sent too early is left without an answer and changes nothing. */
  lemma AnswersByPhase(c: Crypto, st: State, r: Request, random: Random)
    requires Valid(c, st) && r.uniqueId.Some? && (r.salt.None? || r.clientCert.None?)
    requires Key(r.uniqueId.value, r.ip) in st.cache
    ensures var k := Key(r.uniqueId.value, r.ip);
            var (st', reply) := Pair(c, st, r, random);
            var entry := st.cache[k];
            var asked := AskedFor(r, entry.lastPhase);
            && Answers(c, entry, asked, r, random, reply)
            && (reply == NoReply ==> st' == st)
            && (reply == Rejected ==> k !in st'.cache)
            && (reply.Accepted? && asked != 4 ==>
                  (k in st'.cache && st'.cache[k].lastPhase ==
                    if asked == 2 then ClientChallenge else ServerChallengeResp))
            && (asked == 4 ==> k !in st'.cache)
            && st'.paired == if asked == 4 && reply.Accepted? then st.paired + [entry.clientCert] else st.paired
  {
    var k := Key(r.uniqueId.value, r.ip);
    EntryFields(c, st, k);
    hide Valid, Crypto.Verdict, Phase2, Phase3, Phase4, Convincing;
    var entry := st.cache[k];
    match AskedFor(r, entry.lastPhase) {
      case 2 => Phase2Answers(c, st, entry, k, r, random);
      case 3 => Phase3Answers(c, st, entry, k, r, random);
      case 4 => Phase4Answers(c, st, entry, k, r, random);
      case _ =>
    }
  }

  /** Nobody is answered who gives no id, or who starts later than at the first phase; a first phase waits for
      its PIN. */
  lemma OtherAnswers(c: Crypto, st: State, r: Request, random: Random)
    ensures r.uniqueId.None? ==> Pair(c, st, r, random) == (st, Rejected)
    ensures r.uniqueId.Some? ==>
              var (k, first) := (Key(r.uniqueId.value, r.ip), r.salt.Some? && r.clientCert.Some?);
              && (!first && k !in st.cache ==> Pair(c, st, r, random) == (st, Rejected))
              && (first ==> Pair(c, st, r, random).1 == if k in st.cache then Rejected else Awaiting)
  {
    hide WithAsk;
  }

  // ---- one PIN entry, one pairing

  /** The promises that have got their PIN. */
  function ResolvedIds(log: seq<Effect>): set<nat> {
    if log == [] then {} else
    var last := log[|log| - 1];
    ResolvedIds(log[..|log| - 1]) + (if last.Resolved? then {last.ask.id} else {})
  }

  /** The promises whose continuation has written an entry. */
  function WrittenIds(log: seq<Effect>): set<nat> {
    if log == [] then {} else
    var last := log[|log| - 1];
    WrittenIds(log[..|log| - 1]) + (if last.Wrote1? then {last.ask.id} else {})
  }

  lemma IdsGrow(log: seq<Effect>, e: Effect)
    ensures ResolvedIds(log + [e]) == ResolvedIds(log) + (if e.Resolved? then {e.ask.id} else {})
    ensures WrittenIds(log + [e]) == WrittenIds(log) + (if e.Wrote1? then {e.ask.id} else {})
  {
    assert (log + [e])[..|log|] == log;
  }

  /** No promise is resolved twice, and none writes twice. */
  ghost predicate OnceEach(log: seq<Effect>) {
    forall i :: 0 <= i < |log| ==>
      (log[i].Resolved? ==> log[i].ask.id !in ResolvedIds(log[..i]))
      && (log[i].Wrote1? ==> log[i].ask.id !in WrittenIds(log[..i]))
  }

  ghost predicate PromisesKept(st: State) {
    && OnceEach(st.log)
    && (forall n <- ResolvedIds(st.log) :: n < st.asks)
    && (forall s <- st.pending :: st.pending[s].id < st.asks && st.pending[s].id !in ResolvedIds(st.log))
    && (forall s, t :: s in st.pending && t in st.pending && st.pending[s].id == st.pending[t].id ==> s == t)
    && (forall a :: 0 <= a < |st.resolved| ==>
          st.resolved[a].0.id in ResolvedIds(st.log) && st.resolved[a].0.id !in WrittenIds(st.log))
    && (forall a, b :: 0 <= a < b < |st.resolved| ==> st.resolved[a].0.id != st.resolved[b].0.id)
  }

  lemma OnceGrows(log: seq<Effect>, e: Effect)
    requires OnceEach(log)
    requires e.Resolved? ==> e.ask.id !in ResolvedIds(log)
    requires e.Wrote1? ==> e.ask.id !in WrittenIds(log)
    ensures OnceEach(log + [e])
  {
    hide ResolvedIds, WrittenIds;
    var all := log + [e];
    assert all[..|log|] == log;
    assert forall i :: 0 <= i < |log| ==> all[i] == log[i] && all[..i] == log[..i];
  }

  /** Effects that concern no promise. */
  lemma PlainEffect(st: State, st': State, e: Effect)
    requires PromisesKept(st) && st'.log == st.log + [e] && !e.Resolved? && !e.Wrote1?
    requires st'.asks == st.asks && st'.pending == st.pending && st'.resolved == st.resolved
    ensures PromisesKept(st')
  {
    hide ResolvedIds, WrittenIds, OnceEach;
    IdsGrow(st.log, e);
    OnceGrows(st.log, e);
  }

  lemma AskKept(st: State, st': State, ask: Ask, secret: string)
    requires PromisesKept(st) && ask.id == st.asks
    requires st'.pending == WithAsk(st.pending, ask, secret) && st'.asks == st.asks + 1
    requires st'.log == st.log + [Asked(ask)] && st'.resolved == st.resolved
    ensures PromisesKept(st')
  {
    hide ResolvedIds, WrittenIds, OnceEach;
    IdsGrow(st.log, Asked(ask));
    OnceGrows(st.log, Asked(ask));
  }

  lemma PinKept(st: State, secret: string, pin: Bytes)
    requires PromisesKept(st)
    requires forall n <- WrittenIds(st.log) :: n in ResolvedIds(st.log)
    ensures PromisesKept(EnterPin(st, secret, pin))
    ensures forall n <- WrittenIds(EnterPin(st, secret, pin).log) :: n in ResolvedIds(EnterPin(st, secret, pin).log)
  {
    hide ResolvedIds, WrittenIds, OnceEach;
    if secret in st.pending {
      var e := Resolved(st.pending[secret], pin);
      IdsGrow(st.log, e);
      OnceGrows(st.log, e);
    }
  }

  lemma ContinuationKept(c: Crypto, st: State, i: nat)
    requires PromisesKept(st)
    ensures PromisesKept(Continue(c, st, i))
  {
    hide ResolvedIds, WrittenIds, OnceEach, Crypto.AesKey;
    if i < |st.resolved| {
      var (ask, pin) := st.resolved[i];
      var e := Wrote1(ask.key, ask, pin);
      IdsGrow(st.log, e);
      OnceGrows(st.log, e);
      var rest := st.resolved[..i] + st.resolved[i + 1..];
      assert forall a :: 0 <= a < |rest| ==> rest[a] == st.resolved[if a < i then a else a + 1];
    }
  }

  /** Every pairing removes its entry at once. */
  ghost predicate PairingEnds(log: seq<Effect>) {
    forall i :: 0 <= i < |log| && log[i].Paired? ==> i + 1 < |log| && log[i + 1] == Removed(log[i].key)
  }

  lemma {:induction false} WrittenWereResolved(log: seq<Effect>)
    requires Sourced(log)
    ensures forall n <- WrittenIds(log) :: n in ResolvedIds(log)
  {
    forall n | n in WrittenIds(log) ensures n in ResolvedIds(log) {
      var m := WrittenAt(log, n);
      assert Before(log, Resolved(log[m].ask, log[m].pin), m);
      var j :| 0 <= j < m && j < |log| && log[j] == Resolved(log[m].ask, log[m].pin);
      ResolvedAt(log, j);
    }
  }

  lemma {:induction false} WrittenAt(log: seq<Effect>, n: nat) returns (m: nat)
    requires n in WrittenIds(log)
    ensures m < |log| && log[m].Wrote1? && log[m].ask.id == n
    decreases |log|
  {
    var last := log[|log| - 1];
    if last.Wrote1? && last.ask.id == n { m := |log| - 1; } else { m := WrittenAt(log[..|log| - 1], n); }
  }

  lemma {:induction false} ResolvedAt(log: seq<Effect>, j: nat)
    requires j < |log| && log[j].Resolved?
    ensures log[j].ask.id in ResolvedIds(log)
    decreases |log|
  {
    if j < |log| - 1 { ResolvedAt(log[..|log| - 1], j); }
  }

  lemma {:induction false} WroteAt(log: seq<Effect>, j: nat)
    requires j < |log| && log[j].Wrote1?
    ensures log[j].ask.id in WrittenIds(log)
    decreases |log|
  {
    if j < |log| - 1 { WroteAt(log[..|log| - 1], j); }
  }

  lemma EndsGrow(log: seq<Effect>, a: Added)
    requires PairingEnds(log) && (a.One? ==> !a.e.Paired?)
    ensures PairingEnds(Grown(log, a))
  {}

  lemma RequestPromises(c: Crypto, st: State, r: Request, random: Random)
    requires PromisesKept(st) && PairingEnds(st.log)
    ensures PromisesKept(Pair(c, st, r, random).0) && PairingEnds(Pair(c, st, r, random).0.log)
  {
    hide PromisesKept, PairingEnds, Pair, WithAsk;
    var st' := Pair(c, st, r, random).0;
    var a := PairAdds(c, st, r, random);
    EndsGrow(st.log, a);
    match a {
      case Nothing => SamePromises(st, st');
      case One(e) =>
        if e.Asked? { AskKept(st, st', e.ask, random.pinSecret); } else { PlainEffect(st, st', e); }
      case Pairing(k, cert, secret) =>
        var mid := st.(log := st.log + [Paired(k, cert, secret)]);
        PlainEffect(st, mid, Paired(k, cert, secret));
        PlainEffect(mid, st', Removed(k));
    }
  }

  lemma StepPromises(c: Crypto, st: State, e: Event)
    requires Sourced(st.log) && PromisesKept(st) && PairingEnds(st.log)
    ensures PromisesKept(Step(c, st, e)) && PairingEnds(Step(c, st, e).log)
  {
    hide PromisesKept, ResolvedIds, WrittenIds, Pair, Crypto.AesKey, Sourced;
    match e {
      case PairRequest(r, random) => RequestPromises(c, st, r, random);
      case PinEntered(secret, pin) =>
        WrittenWereResolved(st.log);
        PinKept(st, secret, pin);
        if secret in st.pending { EndsGrow(st.log, One(Resolved(st.pending[secret], pin))); }
      case Continuation(i) =>
        ContinuationKept(c, st, i);
        if i < |st.resolved| {
          EndsGrow(st.log, One(Wrote1(st.resolved[i].0.key, st.resolved[i].0, st.resolved[i].1)));
        }
    }
  }

  lemma SamePromises(st: State, st': State)
    requires PromisesKept(st) && st'.log == st.log && st'.asks == st.asks
      && st'.pending == st.pending && st'.resolved == st.resolved
    ensures PromisesKept(st')
  {
    hide ResolvedIds, WrittenIds, OnceEach;
  }

  lemma {:induction false} RunPromises(c: Crypto, es: seq<Event>)
    ensures PromisesKept(Run(c, es)) && PairingEnds(Run(c, es).log)
    decreases |es|
  {
    hide Step, PromisesKept, PairingEnds, Sourced, Ordered, Explained;
    if es == [] {
      NoPromises();
    } else {
      RunPromises(c, es[..|es| - 1]);
      RunsValid(c, es[..|es| - 1]);
      StepPromises(c, Run(c, es[..|es| - 1]), es[|es| - 1]);
    }
  }

  lemma NoPromises()
    ensures PromisesKept(INITIAL) && PairingEnds(INITIAL.log)
  {}

  /** A promise gets at most one PIN, and one PIN entry leads to at most one pairing. */
  lemma OnePairingPerPin(c: Crypto, es: seq<Event>)
    ensures var log := Run(c, es).log;
            (forall i, j :: 0 <= i < j < |log| && log[i].Resolved? && log[j].Resolved? ==>
              log[i].ask.id != log[j].ask.id)
            && (forall i: nat, j: nat, m: nat, n: nat ::
              i < j && Crowns(c, log, i, m) && Crowns(c, log, j, n) ==> log[m].ask.id != log[n].ask.id)
  {
    hide Run, PromisesKept, PairingEnds, OnceEach, History, Attempt, InOrder;
    var log := Run(c, es).log;
    RunPromises(c, es);
    assert OnceEach(log) by { assert PromisesKept(Run(c, es)); KeptOnce(Run(c, es)); }
    forall i, j | 0 <= i < j < |log| && log[i].Resolved? && log[j].Resolved? ensures log[i].ask.id != log[j].ask.id {
      OnceApart(log, i, j);
    }
    forall i: nat, j: nat, m: nat, n: nat | i < j && Crowns(c, log, i, m) && Crowns(c, log, j, n)
      ensures log[m].ask.id != log[n].ask.id
    {
      CrownsApart(c, log, i, j, m, n);
    }
  }

  lemma KeptOnce(st: State)
    requires PromisesKept(st)
    ensures OnceEach(st.log)
  {}

  lemma OnceApart(log: seq<Effect>, i: nat, j: nat)
    requires OnceEach(log) && i < j < |log|
    ensures log[i].Resolved? && log[j].Resolved? ==> log[i].ask.id != log[j].ask.id
    ensures log[i].Wrote1? && log[j].Wrote1? ==> log[i].ask.id != log[j].ask.id
  {
    if log[i].Resolved? { ResolvedAt(log[..j], i); }
    if log[i].Wrote1? { WroteAt(log[..j], i); }
  }

  /** Between two pairings the entry was removed, so they crown different attempts. */
  lemma CrownsApart(c: Crypto, log: seq<Effect>, i: nat, j: nat, m: nat, n: nat)
    requires OnceEach(log) && PairingEnds(log) && i < j && Crowns(c, log, i, m) && Crowns(c, log, j, n)
    ensures log[m].ask.id != log[n].ask.id
  {
    hide OnceEach, History, InOrder;
    if m == n {
      var k := log[i].key;
      assert log[i + 1] == Removed(k) && log[j].Paired?;
      HistorySplits(log[m..i], log[i..j], k);
      assert log[m..j] == log[m..i] + log[i..j];
      HistoryHolds(log[i..j], 1, k);
    } else {
      OnceApart(log, if m < n then m else n, if m < n then n else m);
    }
  }

  lemma {:induction false} HistorySplits(a: seq<Effect>, b: seq<Effect>, k: Key)
    ensures History(a + b, k) == History(a, k) + History(b, k)
    decreases |b|
  {
    if b == [] {
      assert a + b == a;
    } else {
      var init := b[..|b| - 1];
      HistorySplits(a, init, k);
      assert a + b == (a + init) + [b[|b| - 1]] && b == init + [b[|b| - 1]];
      HistoryGrows(a + init, b[|b| - 1], k);
      HistoryGrows(init, b[|b| - 1], k);
    }
  }

  lemma {:induction false} HistoryHolds(log: seq<Effect>, i: nat, k: Key)
    requires i < |log| && Touches(log[i], k)
    ensures |History(log, k)| > 0
    decreases |log|
  {
    if i < |log| - 1 { HistoryHolds(log[..|log| - 1], i, k); }
  }
}
