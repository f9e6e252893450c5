/** The pairing handlers over the shared state they update. */
module PairingServer {
  import opened Wrappers
  import opened Pairing

  class Server {
    const crypto: Crypto
    var pairingCache: map<Key, PairCache>
    var pairingAtom: map<string, Ask>
    var resolved: seq<(Ask, Bytes)>
    var paired: seq<Bytes>
    /** Promises made so far; their number tells one from another. */
    var asks: nat
    ghost var log: seq<Effect>

    ghost function Now(): State
      reads this
    {
      State(pairingCache, pairingAtom, resolved, paired, asks, log)
    }

    constructor (crypto: Crypto)
      ensures this.crypto == crypto && Now() == INITIAL
    {
      this.crypto := crypto;
      pairingCache, pairingAtom, resolved, paired, asks, log := map[], map[], [], [], 0, [];
    }

    method RemovePairSession(k: Key)
      modifies this`pairingCache, this`log
      ensures Now() == old(Now()).Remove(k)
    {
      pairingCache := pairingCache - {k};
      log := log + [Removed(k)];
    }

    method StoreEntry(k: Key, entry: PairCache, ghost e: Effect)
      modifies this`pairingCache, this`log
      ensures Now() == old(Now()).Write(k, entry, e)
    {
      pairingCache := pairingCache[k := entry];
      log := log + [e];
    }

    /** The pair-signal handler: it drops dangling requests of the same client, one by one. */
    method OnPairSignal(ask: Ask, secret: string)
      modifies this`pairingAtom, this`log
      ensures pairingAtom == WithAsk(old(pairingAtom), ask, secret) && log == old(log) + [Asked(ask)]
    {
      var transient := pairingAtom;
      var todo := pairingAtom.Keys;
      while todo != {}
        invariant todo <= pairingAtom.Keys && transient.Keys <= pairingAtom.Keys && todo <= transient.Keys
        invariant forall s <- transient :: transient[s] == pairingAtom[s]
        invariant forall s <- pairingAtom.Keys - todo :: s in transient <==> pairingAtom[s].key.ip != ask.key.ip
      {
        var s :| s in todo;
        if pairingAtom[s].key.ip == ask.key.ip { transient := transient - {s}; }
        todo := todo - {s};
      }
      assert transient[secret := ask] == WithAsk(pairingAtom, ask, secret);
      pairingAtom := transient[secret := ask];
      log := log + [Asked(ask)];
    }

    method PairPhase1(ask: Ask, random: Random) returns (reply: Reply)
      modifies this
      ensures (Now(), reply) == Phase1(old(Now()), ask, random)
    {
      if ask.key in pairingCache {
        RemovePairSession(ask.key);
        return Rejected;
      }
      asks := asks + 1;
      OnPairSignal(ask, random.pinSecret);
      return Awaiting;
    }

    /** The continuation that phase 1 has left on the PIN's promise. */
    method OnPinResolved(i: nat)
      modifies this
      ensures Now() == Continue(crypto, old(Now()), i)
    {
      if i >= |resolved| { return; }
      var (ask, pin) := resolved[i];
      var aes := crypto.AesKey(pin, ask.salt);
      resolved := resolved[..i] + resolved[i + 1..];
      StoreEntry(ask.key, PairCache(ask.cert, aes, None, None, None, GetServerCert), Wrote1(ask.key, ask, pin));
    }

    /** Phases 2 and 3 work on a copy of the cached entry and store it when they succeed. */
    method PairPhase2(copy: PairCache, k: Key, challenge: Bytes, random: Random) returns (reply: Reply)
      modifies this
      ensures reply.Accepted? <==> copy.lastPhase == GetServerCert
      ensures reply.Accepted? || reply == Rejected
      ensures reply.Accepted? ==> (Now(), reply) == Phase2(crypto, old(Now()), copy, k, challenge, random)
      ensures reply == Rejected ==> Now() == old(Now())
    {
      if copy.lastPhase != GetServerCert { return Rejected; }
      var clientCache := copy.(lastPhase := ClientChallenge);
      clientCache := clientCache.(serverSecret := Some(random.serverSecret));
      clientCache := clientCache.(serverChallenge := Some(random.serverChallenge));
      StoreEntry(k, clientCache, Wrote2(k, random.serverSecret, random.serverChallenge));
      return Accepted(crypto.ChallengeAnswer(copy.aesKey, challenge, random.serverSecret, random.serverChallenge));
    }

    method PairPhase3(copy: PairCache, k: Key, challenge: Bytes) returns (reply: Reply)
      requires copy.serverSecret.Some?
      modifies this
      ensures reply.Accepted? <==> copy.lastPhase == ClientChallenge
      ensures reply.Accepted? || reply == Rejected
      ensures reply.Accepted? ==> (Now(), reply) == Phase3(crypto, old(Now()), copy, k, challenge)
      ensures reply == Rejected ==> Now() == old(Now())
    {
      if copy.lastPhase != ClientChallenge { return Rejected; }
      var clientCache := copy.(lastPhase := ServerChallengeResp);
      var hash := crypto.decrypt(crypto.unhex(challenge), clientCache.aesKey);
      clientCache := clientCache.(clientHash := Some(hash));
      StoreEntry(k, clientCache, Wrote3(k, challenge, hash));
      return Accepted(crypto.PairingSecret(clientCache.serverSecret.value));
    }

    method PairPhase4(copy: PairCache, secret: Bytes) returns (reply: Reply)
      requires copy.serverChallenge.Some? && copy.clientHash.Some?
      ensures reply == Accepted("") || reply == Rejected
      ensures reply.Accepted? <==>
                (copy.lastPhase == ServerChallengeResp && crypto.certParses(copy.clientCert)
                && crypto.Verdict(copy.serverChallenge.value, copy.clientHash.value, secret, copy.clientCert))
    {
      if copy.lastPhase != ServerChallengeResp { return Rejected; }
      if !crypto.certParses(copy.clientCert) { return Rejected; }
      var ok := crypto.Verdict(copy.serverChallenge.value, copy.clientHash.value, secret, copy.clientCert);
      return if ok then Accepted("") else Rejected;
    }

    method OnPair(r: Request, random: Random) returns (reply: Reply)
      modifies this
      ensures (Now(), reply) == Pair(crypto, old(Now()), r, random)
    {
      if r.uniqueId.None? { return Rejected; }
      var k := Key(r.uniqueId.value, r.ip);
      if r.salt.Some? && r.clientCert.Some? {
        reply := PairPhase1(Ask(asks, k, crypto.unhex(r.clientCert.value), r.salt.value), random);
        return;
      }
      if k !in pairingCache { return Rejected; }
      var copy := pairingCache[k];
      if r.clientChallenge.Some? {
        reply := PairPhase2(copy, k, r.clientChallenge.value, random);
        if !reply.Accepted? { RemovePairSession(k); }
        return;
      }
      if r.serverChallengeResp.Some? && copy.serverSecret.Some? {
        reply := PairPhase3(copy, k, r.serverChallengeResp.value);
        if !reply.Accepted? { RemovePairSession(k); }
        return;
      }
      if r.clientPairingSecret.Some? && copy.serverChallenge.Some? && copy.clientHash.Some? {
        reply := PairPhase4(copy, r.clientPairingSecret.value);
        if reply.Accepted? {
          paired := paired + [copy.clientCert];
          log := log + [Paired(k, copy.clientCert, r.clientPairingSecret.value)];
        }
        RemovePairSession(k);
        return;
      }
      return NoReply;
    }

    /** The PIN form. */
    method OnPin(secret: string, pin: Bytes) returns (ok: bool)
      modifies this
      ensures ok <==> secret in old(pairingAtom)
      ensures Now() == EnterPin(old(Now()), secret, pin)
    {
      if secret !in pairingAtom { return false; }
      var ask := pairingAtom[secret];
      resolved := resolved + [(ask, pin)];
      log := log + [Resolved(ask, pin)];
      pairingAtom := pairingAtom - {secret};
      return true;
    }
  }
}
