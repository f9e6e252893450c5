/** The invariant of every run: the log is sound and in order, and the cache entries are what it explains. */
module PairingRuns {
  import opened Wrappers
  import opened Pairing

  lemma Extended(c: Crypto, log: seq<Effect>, e: Effect)
    requires Sourced(log) && Ordered(c, log)
    requires e.Wrote1? ==> Resolved(e.ask, e.pin) in log
    requires e.Resolved? ==> Asked(e.ask) in log
    requires e.Paired? ==> Earned(c, History(log, e.key), e.key, e.cert, e.secret)
    ensures Sourced(log + [e]) && Ordered(c, log + [e])
  {
    SourcedGrows(log, e);
    hide Earned, History;
    var all := log + [e];
    assert forall i :: 0 <= i < |log| ==> all[i] == log[i] && all[..i] == log[..i];
    assert all[..|log|] == log;
  }

  lemma SourcedGrows(log: seq<Effect>, e: Effect)
    requires Sourced(log)
    requires e.Wrote1? ==> Resolved(e.ask, e.pin) in log
    requires e.Resolved? ==> Asked(e.ask) in log
    ensures Sourced(log + [e])
  {
    var all := log + [e];
    forall x, m | 0 <= m <= |log| && Before(log, x, m) ensures Before(all, x, m) {
      var j :| 0 <= j < m && j < |log| && log[j] == x;
      assert all[j] == x;
    }
    forall x | x in log ensures Before(log, x, |log|) {
      var j :| 0 <= j < |log| && log[j] == x;
    }
    assert forall i :: 0 <= i < |log| ==> all[i] == log[i];
  }

  lemma Unmoved(c: Crypto, log: seq<Effect>, k: Key, entry: PairCache, e: Effect)
    requires Explained(c, log, k, entry) && !Touches(e, k)
    ensures Explained(c, log + [e], k, entry)
  {
    hide History, Made;
    HistoryGrows(log, e, k);
    assert History(log, k) + [] == History(log, k);
  }

  /** All entries but that of `k` are explained as before. */
  lemma OthersUnmoved(c: Crypto, st: State, st': State, k: Key, e: Effect)
    requires forall x <- st.cache :: Explained(c, st.log, x, st.cache[x])
    requires st'.log == st.log + [e] && (forall x :: Touches(e, x) ==> x == k)
    ensures forall x <- st.cache :: x != k || !Touches(e, k) ==> Explained(c, st'.log, x, st.cache[x])
  {
    hide Explained;
    forall x | x in st.cache && (x != k || !Touches(e, k)) ensures Explained(c, st'.log, x, st.cache[x]) {
      Unmoved(c, st.log, x, st.cache[x], e);
    }
  }

  lemma RemoveKeeps(c: Crypto, st: State, k: Key)
    requires Valid(c, st)
    ensures Valid(c, st.Remove(k))
  {
    hide Explained, Sourced, Ordered, Earned;
    Extended(c, st.log, Removed(k));
    OthersUnmoved(c, st, st.Remove(k), k, Removed(k));
  }

  lemma WriteKeeps(c: Crypto, st: State, k: Key, entry: PairCache, e: Effect)
    requires Valid(c, st) && (e.Wrote1? || e.Wrote2? || e.Wrote3?) && e.key == k
    requires Sourced(st.log + [e]) && Ordered(c, st.log + [e])
    requires Explained(c, st.log + [e], k, entry)
    ensures Valid(c, st.Write(k, entry, e))
  {
    hide Explained, Sourced, Ordered, Earned;
    OthersUnmoved(c, st, st.Write(k, entry, e), k, e);
  }

  lemma NoteKeeps(c: Crypto, st: State, e: Effect)
    requires Valid(c, st) && (e.Asked? || e.Resolved? || e.Paired?)
    requires Sourced(st.log + [e]) && Ordered(c, st.log + [e])
    ensures Valid(c, st.(log := st.log + [e]))
  {
    hide Explained, Sourced, Ordered, Earned;
    forall x | x in st.cache ensures Explained(c, st.log + [e], x, st.cache[x]) {
      Unmoved(c, st.log, x, st.cache[x], e);
    }
  }

  lemma ContinueKeeps(c: Crypto, st: State, i: nat)
    requires Valid(c, st)
    ensures Valid(c, Continue(c, st, i))
  {
    hide Sourced, Ordered, Earned, History, Crypto.AesKey;
    if i < |st.resolved| {
      var (ask, pin) := st.resolved[i];
      var e := Wrote1(ask.key, ask, pin);
      assert st.resolved[i] in st.resolved;
      Extended(c, st.log, e);
      HistoryGrows(st.log, e, ask.key);
      var h := History(st.log + [e], ask.key);
      assert h[|h| - 1..] == [e];
      var entry := PairCache(ask.cert, c.AesKey(pin, ask.salt), None, None, None, GetServerCert);
      assert Explained(c, st.log + [e], ask.key, entry);
      WriteKeeps(c, st.(resolved := st.resolved[..i] + st.resolved[i + 1..]), ask.key, entry, e);
    }
  }

  /** A phase adds its write to those that made the entry. */
  lemma NextWrite(c: Crypto, st: State, k: Key, next: PairCache, e: Effect)
    requires Valid(c, st) && k in st.cache && Touches(e, k)
    requires Phases(next.lastPhase) == Phases(st.cache[k].lastPhase) + 1
    requires forall w :: Made(c, w, k, st.cache[k]) ==> Made(c, w + [e], k, next)
    ensures Explained(c, st.log + [e], k, next)
  {
    hide History, Made, Sourced, Ordered;
    var n := Phases(st.cache[k].lastPhase);
    HistoryGrows(st.log, e, k);
    var (h, g) := (History(st.log, k), History(st.log + [e], k));
    assert g[|g| - n - 1..] == h[|h| - n..] + [e];
  }

  lemma Phase2Keeps(c: Crypto, st: State, k: Key, challenge: Bytes, random: Random)
    requires Valid(c, st) && k in st.cache
    ensures Valid(c, Phase2(c, st, st.cache[k], k, challenge, random).0)
  {
    hide Sourced, Ordered, Earned, History, Explained, Crypto.AesKey;
    var entry := st.cache[k];
    if entry.lastPhase == GetServerCert {
      var e := Wrote2(k, random.serverSecret, random.serverChallenge);
      var next := entry.(lastPhase := ClientChallenge, serverSecret := Some(random.serverSecret),
                         serverChallenge := Some(random.serverChallenge));
      Extended(c, st.log, e);
      NextWrite(c, st, k, next, e);
      WriteKeeps(c, st, k, next, e);
    } else {
      RemoveKeeps(c, st, k);
    }
  }

  lemma Phase3Keeps(c: Crypto, st: State, k: Key, challenge: Bytes)
    requires Valid(c, st) && k in st.cache && st.cache[k].serverSecret.Some?
    ensures Valid(c, Phase3(c, st, st.cache[k], k, challenge).0)
  {
    hide Sourced, Ordered, Earned, History, Explained, Crypto.AesKey;
    var entry := st.cache[k];
    if entry.lastPhase == ClientChallenge {
      var hash := c.decrypt(c.unhex(challenge), entry.aesKey);
      var e := Wrote3(k, challenge, hash);
      var next := entry.(lastPhase := ServerChallengeResp, clientHash := Some(hash));
      Extended(c, st.log, e);
      NextWrite(c, st, k, next, e);
      WriteKeeps(c, st, k, next, e);
    } else {
      RemoveKeeps(c, st, k);
    }
  }

  /** What the last phase checks, in the terms of the attempt that led to it. */
  lemma VerdictIsGenuine(c: Crypto, salt: Bytes, pin: Bytes, challenge: Bytes, response: Bytes, secret: Bytes,
      cert: Bytes)
    ensures c.Verdict(challenge, c.decrypt(c.unhex(response), c.AesKey(pin, salt)), secret, cert)
            <==> Genuine(c, salt, pin, challenge, response, secret, cert)
  {}

  lemma MadeEarns(c: Crypto, h: seq<Effect>, k: Key, entry: PairCache, secret: Bytes)
    requires |h| >= 3 && Made(c, h[|h| - 3..], k, entry) && entry.lastPhase == ServerChallengeResp
    requires c.certParses(entry.clientCert)
    requires c.Verdict(entry.serverChallenge.value, entry.clientHash.value, secret, entry.clientCert)
    ensures Earned(c, h, k, entry.clientCert, secret)
  {
    hide Crypto.Verdict, Crypto.AesKey, Genuine;
    var w := h[|h| - 3..];
    VerdictIsGenuine(c, w[0].ask.salt, w[0].pin, w[1].challenge, w[2].response, secret, entry.clientCert);
  }

  lemma Phase4Keeps(c: Crypto, st: State, k: Key, secret: Bytes)
    requires Valid(c, st) && k in st.cache && st.cache[k].serverChallenge.Some? && st.cache[k].clientHash.Some?
    ensures Valid(c, Phase4(c, st, st.cache[k], k, secret).0)
  {
    hide Sourced, Ordered, History, Crypto.Verdict, Crypto.AesKey, Earned, Made;
    var entry := st.cache[k];
    if entry.lastPhase == ServerChallengeResp && c.certParses(entry.clientCert)
       && c.Verdict(entry.serverChallenge.value, entry.clientHash.value, secret, entry.clientCert) {
      var e := Paired(k, entry.clientCert, secret);
      MadeEarns(c, History(st.log, k), k, entry, secret);
      Extended(c, st.log, e);
      NoteKeeps(c, st, e);
      var noted := st.(paired := st.paired + [entry.clientCert], log := st.log + [e]);
      assert Valid(c, noted) by { hide Explained; }
      RemoveKeeps(c, noted, k);
    } else {
      RemoveKeeps(c, st, k);
    }
  }

  lemma PairKeeps(c: Crypto, st: State, r: Request, random: Random)
    requires Valid(c, st)
    ensures Valid(c, Pair(c, st, r, random).0)
  {
    hide Sourced, Ordered, Earned, Explained, Phase2, Phase3, Phase4;
    if r.uniqueId.Some? {
      var k := Key(r.uniqueId.value, r.ip);
      if r.salt.Some? && r.clientCert.Some? {
        var ask := Ask(st.asks, k, c.unhex(r.clientCert.value), r.salt.value);
        if k in st.cache {
          RemoveKeeps(c, st, k);
        } else {
          Extended(c, st.log, Asked(ask));
          NoteKeeps(c, st, Asked(ask));
        }
      } else if k in st.cache {
        var entry := st.cache[k];
        if r.clientChallenge.Some? {
          Phase2Keeps(c, st, k, r.clientChallenge.value, random);
        } else if r.serverChallengeResp.Some? && entry.serverSecret.Some? {
          Phase3Keeps(c, st, k, r.serverChallengeResp.value);
        } else if r.clientPairingSecret.Some? && entry.serverChallenge.Some? && entry.clientHash.Some? {
          Phase4Keeps(c, st, k, r.clientPairingSecret.value);
        }
      }
    }
  }

  lemma StepKeeps(c: Crypto, st: State, e: Event)
    requires Valid(c, st)
    ensures Valid(c, Step(c, st, e))
  {
    hide Sourced, Ordered, Earned, Explained, Pair, Continue;
    match e {
      case PairRequest(r, random) => PairKeeps(c, st, r, random);
      case PinEntered(secret, pin) =>
        if secret in st.pending {
          var e := Resolved(st.pending[secret], pin);
          Extended(c, st.log, e);
          NoteKeeps(c, st, e);
        }
      case Continuation(i) => ContinueKeeps(c, st, i);
    }
  }

  /** In every run, however requests, PINs and continuations of all clients interleave. */
  lemma {:induction false} RunsValid(c: Crypto, es: seq<Event>)
    ensures Valid(c, Run(c, es))
    decreases |es|
  {
    hide Step, Explained, Sourced, Ordered;
    if es == [] {
      Begins(c);
    } else {
      RunsValid(c, es[..|es| - 1]);
      StepKeeps(c, Run(c, es[..|es| - 1]), es[|es| - 1]);
    }
  }

  lemma Begins(c: Crypto)
    ensures Valid(c, INITIAL)
  {}
}
