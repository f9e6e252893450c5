/** Device conservation over whole runs. */
module LobbyRouting {
  import opened Wrappers
  import opened Lobbies
  import opened LobbyRuns
  import opened LobbyDevices
  import opened LobbyConservation

  /** What the outside world promises: new ids are new, and only a session in no lobby joins one. */
  ghost predicate Enabled(st: State, e: Event) {
    match e
    case CreateLobby(lobby) =>
      FreshLobby(st, e) && Lob(lobby.id) !in st.queues && Lob(lobby.id) !in st.plugged
    case StartSession(s) => s !in st.sessions
    case JoinLobby(l, s) => st.LobbyOf(s) == None
    case AddJoypad(s, n, d) => forall t :: !Owns(st, t, d)
    case _ => true
  }

  /** No joypad is taken from a container while it still waits in that container's queue; and a
      session with joypads is out of its lobby before it is forgotten. */
  ghost predicate Clean(st: State, e: Event) {
    match e
    case JoinLobby(l, s) => JoinOutcome(st, l, s) == Joined ==> NoneWaits(st, Sess(s), s)
    case LeaveLobby(l, s) => CleanLeave(st, l, s)
    case StreamOver(s) => st.LobbyOf(s).Some? ==> CleanLeave(st, st.LobbyOf(s).value, s)
    case StopStream(s, forgetFirst) =>
      st.LobbyOf(s).Some? && s in st.sessions ==>
        if forgetFirst then Devices(st.sessions[s]) == {} else CleanLeave(st, st.LobbyOf(s).value, s)
    case RemoveJoypad(s, n) =>
      s in st.sessions && HasNumber(st.sessions[s], n) ==> !Pending(st, st.Home(s), PadAt(st.sessions[s], n))
    case _ => true
  }

  // ---- events that only add

  lemma CreatePlaces(st: State, lobby: Lobby)
    requires Listing(st) && OneLobby(st) && FreshLobby(st, CreateLobby(lobby))
    ensures var st' := Step(st, CreateLobby(lobby));
            Listing(st') && OneLobby(st')
            && (forall m :: st'.Listed(m) <==> st.Listed(m) || m == lobby.id)
            && (forall s, m :: In(st', s, m) <==> In(st, s, m))
            && (forall s :: !In(st', s, lobby.id))
  {
    hide Find;
    var st' := Step(st, CreateLobby(lobby));
    CreateKeepsOccupied(st, lobby);
    forall m ensures st'.Listed(m) <==> st.Listed(m) || m == lobby.id {
      FindAppended(st.lobbies, lobby, m);
    }
    forall s, m ensures In(st', s, m) <==> In(st, s, m) {
      assert m != lobby.id ==> st'.Connected(m) == st.Connected(m);
      assert st.Listed(m) ==> Find(st.lobbies, m).value in st.lobbies;
    }
  }

  lemma CreateConserves(st: State, lobby: Lobby)
    requires Shape(st) && Conserved(st) && Enabled(st, CreateLobby(lobby))
    ensures Shape(Step(st, CreateLobby(lobby))) && Conserved(Step(st, CreateLobby(lobby)))
  {
    hide State.Home, Devices, Apart, Find, FirstWith, In, Listing, OneLobby;
    var st' := Step(st, CreateLobby(lobby));
    CreatePlaces(st, lobby);
    assert forall s, d :: Owns(st', s, d) <==> Owns(st, s, d);
    forall s ensures st'.Home(s) == st.Home(s) && st'.Home(s) != Lob(lobby.id) {
      SameHome(st, st', s);
      HomeIs(st', s);
    }
    SameRight(st, st', lobby);
  }

  lemma SameRight(st: State, st': State, lobby: Lobby)
    requires Conserved(st) && Lob(lobby.id) !in st.queues && Lob(lobby.id) !in st.plugged
    requires st' == Step(st, CreateLobby(lobby)) && forall m :: st'.Listed(m) <==> st.Listed(m) || m == lobby.id
    requires forall s :: st'.Home(s) == st.Home(s) && st'.Home(s) != Lob(lobby.id)
    ensures Conserved(st')
  {
    hide State.Home, Find, Devices, State.Listed;
    forall c | Live(st', c) ensures Right(st', c) {
      assert forall s, d :: Owns(st', s, d) <==> Owns(st, s, d);
      assert forall d :: Belongs(st', c, d) <==> Belongs(st, c, d);
      if c != Lob(lobby.id) {
        assert Right(st, c);
        assert forall d :: Holds(st', c, d) <==> Holds(st, c, d);
      }
    }
  }

  lemma FindAppended(lobbies: seq<Lobby>, lobby: Lobby, m: string)
    ensures Find(lobbies + [lobby], m).Some? <==> Find(lobbies, m).Some? || m == lobby.id
  {
    var all := lobbies + [lobby];
    if m == lobby.id { assert all[|lobbies|].id == m; }
    assert forall k :: 0 <= k < |lobbies| ==> all[k] == lobbies[k];
    if Find(lobbies, m).None? && m != lobby.id {
      assert forall k :: 0 <= k < |all| ==> all[k].id != m;
    }
  }

  /** Nothing has changed but the joypads and queues of session `s`. */
  lemma SameHomes(st: State, st': State)
    requires st'.lobbies == st.lobbies && st'.connected == st.connected && st'.joined == st.joined
    ensures forall s :: st'.Home(s) == st.Home(s)
    ensures forall s, m :: In(st', s, m) <==> In(st, s, m)
    ensures Listing(st) ==> Listing(st')
    ensures OneLobby(st) ==> OneLobby(st')
  {
    hide Find, FirstWith;
  }

  lemma StartOwners(st: State, s: nat)
    requires Shape(st) && s !in st.sessions
    ensures var st' := Step(st, StartSession(s));
            Shape(st') && (forall t, d :: Owns(st', t, d) <==> Owns(st, t, d))
            && (forall t :: st'.Home(t) == st.Home(t))
            && (forall c :: c != Sess(s) ==> (Live(st', c) <==> Live(st, c)))
  {
    var st' := Step(st, StartSession(s));
    SameHomes(st, st');
    hide State.Home, Listing, OneLobby, FirstWith, Find;
    assert forall t, d :: Owns(st', t, d) <==> Owns(st, t, d);
  }

  lemma StartConserves(st: State, s: nat)
    requires Shape(st) && Conserved(st) && s !in st.sessions
    ensures Shape(Step(st, StartSession(s))) && Conserved(Step(st, StartSession(s)))
  {
    hide Shape, Owns, Live, State.Home;
    var st' := Step(st, StartSession(s));
    StartOwners(st, s);
    NobodyHome(st, s);
    forall c | Live(st', c) ensures Right(st', c) {
      assert forall d :: Belongs(st', c, d) <==> Belongs(st, c, d);
      if c != Sess(s) {
        assert Right(st, c);
        assert forall d :: Holds(st', c, d) <==> Holds(st, c, d);
      }
    }
  }

  lemma NobodyHome(st: State, s: nat)
    requires Shape(st) && s !in st.sessions
    ensures forall d :: !Belongs(st, Sess(s), d)
  {
    forall t | t in st.sessions ensures st.Home(t) != Sess(s) { HomeIs(st, t); }
  }

  lemma DrainConserves(st: State, c: Id)
    requires Shape(st) && Conserved(st)
    ensures Shape(Step(st, Drain(c))) && Conserved(Step(st, Drain(c)))
  {
    hide State.Home, Listing, OneLobby, Devices, Drained;
    var st' := Step(st, Drain(c));
    SameHomes(st, st');
    assert forall t, d :: Owns(st', t, d) <==> Owns(st, t, d);
    forall x, d ensures Holds(st', x, d) <==> Holds(st, x, d) {
      if x != c {
        assert st'.Queue(x) == st.Queue(x) && st'.Plugged(x) == st.Plugged(x);
      } else {
        assert st'.Queue(c) == [] && st'.Plugged(c) == Drained(c, st.Queue(c), st.Plugged(c));
      }
    }
    forall x | Live(st', x) ensures Right(st', x) {
      assert Live(st, x) && Right(st, x);
      assert forall d :: Belongs(st', x, d) <==> Belongs(st, x, d);
    }
  }

  // ---- joypads

  lemma AddOwners(st: State, s: nat, n: nat, d: Device)
    requires Shape(st) && forall t :: !Owns(st, t, d)
    requires s in st.sessions && !HasNumber(st.sessions[s], n)
    ensures var st' := Step(st, AddJoypad(s, n, d));
            Shape(st')
            && (forall t :: st'.Home(t) == st.Home(t))
            && (forall c :: Live(st', c) <==> Live(st, c))
            && (forall t, x :: Owns(st', t, x) <==> Owns(st, t, x) || (t == s && x == d))
  {
    hide Listing, OneLobby, FirstWith;
    var st' := Step(st, AddJoypad(s, n, d));
    SameHomes(st, st');
    hide State.Home;
    var pads := st.sessions[s];
    assert Devices(pads + [Joypad(n, d)]) == Devices(pads) + {d};
    forall p | p in pads ensures p.number != n && p.device != d {
      assert !Owns(st, s, d);
    }
    assert Apart(pads + [Joypad(n, d)]);
    forall t, x ensures Owns(st', t, x) <==> Owns(st, t, x) || (t == s && x == d) {}
    assert PadsApart(st');
  }

  lemma AddConserves(st: State, s: nat, n: nat, d: Device)
    requires Shape(st) && Conserved(st) && forall t :: !Owns(st, t, d)
    requires s in st.sessions && !HasNumber(st.sessions[s], n)
    ensures Shape(Step(st, AddJoypad(s, n, d))) && Conserved(Step(st, AddJoypad(s, n, d)))
  {
    hide Listing, OneLobby, FirstWith, Apart, Devices, HasNumber, Conserved, State.Home;
    var st' := Step(st, AddJoypad(s, n, d));
    AddOwners(st, s, n, d);
    HomeIs(st, s);
    PlugQueues(st, s, d);
    SameDevices(Plug(st, s, d), st');
    hide Plug, Live, Owns, State.Plugged, Pending, Shape;
    AddedRight(st, st', s, d);
  }

  lemma AddedRight(st: State, st': State, s: nat, d: Device)
    requires Conserved(st) && forall t :: !Owns(st, t, d)
    requires forall c :: Live(st', c) <==> Live(st, c)
    requires forall t :: st'.Home(t) == st.Home(t)
    requires forall t, x :: Owns(st', t, x) <==> Owns(st, t, x) || (t == s && x == d)
    requires forall c, x :: Live(st, c) ==> (Holds(st', c, x) <==> Holds(st, c, x) || (c == st.Home(s) && x == d))
    ensures Conserved(st')
  {
    hide State.Home, Owns, Holds, Live;
    forall c | Live(st', c) ensures Right(st', c) {
      assert Right(st, c);
      forall x ensures Holds(st', c, x) <==> Belongs(st', c, x) {
        assert Holds(st, c, x) <==> Belongs(st, c, x);
        if x == d {
          assert Owns(st', s, d);
          assert !Belongs(st, c, d);
        } else {
          assert forall t :: Owns(st', t, x) <==> Owns(st, t, x);
        }
      }
    }
  }

  lemma PlugQueues(st: State, s: nat, d: Device)
    requires st.Home(s).Sess? ==> st.Home(s) == Sess(s) && Sess(s) in st.queues
    ensures var st' := Plug(st, s, d);
            st'.plugged == st.plugged
            && forall c, x :: Pending(st', c, x) <==> Pending(st, c, x) || (c == st.Home(s) && x == d)
  {
    hide FirstWith;
  }

  lemma UnplugSets(st: State, s: nat, d: Device)
    requires st.Home(s).Sess? ==> st.Home(s) == Sess(s)
    ensures var st' := Unplug(st, Sess(s), d);
            st'.queues == st.queues
            && forall c ::
              st'.Plugged(c) == if c == Sess(s) || c == st.Home(s) then st.Plugged(c) - {d} else st.Plugged(c)
  {
    hide FirstWith;
  }

  lemma PadErased(pads: seq<Joypad>, n: nat)
    requires Apart(pads) && HasNumber(pads, n)
    ensures Devices(Erase(pads, n)) == Devices(pads) - {PadAt(pads, n)}
    ensures PadAt(pads, n) in Devices(pads) && Apart(Erase(pads, n))
  {
    var d, rest := PadAt(pads, n), Erase(pads, n);
    assert Joypad(n, d) in pads;
    forall x ensures x in Devices(rest) <==> x in Devices(pads) && x != d {
      if x in Devices(pads) && x != d {
        var p :| p in pads && p.device == x;
        assert p in rest;
      }
    }
  }

  lemma RemoveOwners(st: State, s: nat, n: nat)
    requires Shape(st) && s in st.sessions && HasNumber(st.sessions[s], n)
    ensures var st', d := Step(st, RemoveJoypad(s, n)), PadAt(st.sessions[s], n);
            Shape(st') && Owns(st, s, d)
            && (forall c, x :: Belongs(st', c, x) <==> Belongs(st, c, x) && x != d)
            && (forall c :: Live(st', c) <==> Live(st, c))
  {
    hide Listing, OneLobby, FirstWith, Devices, Apart, HasNumber, PadAt, Erase;
    var st', d := Step(st, RemoveJoypad(s, n)), PadAt(st.sessions[s], n);
    PadErased(st.sessions[s], n);
    SameHomes(st, st');
    hide State.Home;
    assert Owns(st, s, d);
    forall t, x ensures Owns(st', t, x) <==> Owns(st, t, x) && x != d {
      if t != s {
        assert t in st.sessions ==> st'.sessions[t] == st.sessions[t];
        assert x == d && Owns(st, t, x) ==> Owns(st, t, d);
      } else {
        assert st'.sessions[s] == Erase(st.sessions[s], n);
      }
    }
    assert Shape(st');
  }

  /** What is taken from a container is gone from it unless it still waits in the queue. */
  lemma RemoveHolds(st: State, s: nat, n: nat)
    requires Shape(st) && Conserved(st) && s in st.sessions && HasNumber(st.sessions[s], n)
    ensures var st', d := Step(st, RemoveJoypad(s, n)), PadAt(st.sessions[s], n);
            forall c, x :: Live(st, c) ==> (Holds(st', c, x) <==>
              Holds(st, c, x) && !(x == d && !(c == st.Home(s) && Pending(st, c, d))))
  {
    hide Listing, OneLobby, FirstWith, Devices, Apart, HasNumber, PadAt, Erase;
    hide State.Home, Belongs, Unplug, Live, State.Plugged, State.Queue;
    var st', d := Step(st, RemoveJoypad(s, n)), PadAt(st.sessions[s], n);
    RemoveOwners(st, s, n);
    HomeIs(st, s);
    BelongsHome(st, s);
    UnplugSets(st, s, d);
    var st1 := Unplug(st, Sess(s), d);
    SameDevices(st1, st');
    SameQueues(st, st1);
    forall c, x | Live(st, c)
      ensures Holds(st', c, x) <==> Holds(st, c, x) && !(x == d && !(c == st.Home(s) && Pending(st, c, d)))
    {
      assert Right(st, c);
      assert Holds(st, c, x) <==> Belongs(st, c, x);
    }
  }

  lemma SameDevices(st: State, st': State)
    requires st'.queues == st.queues && st'.plugged == st.plugged
    ensures forall c, x :: (Pending(st', c, x) <==> Pending(st, c, x))
    ensures forall c :: st'.Plugged(c) == st.Plugged(c)
  {}

  lemma SameQueues(st: State, st': State)
    requires st'.queues == st.queues
    ensures forall c, x :: (Pending(st', c, x) <==> Pending(st, c, x))
  {}

  lemma RemoveConserves(st: State, s: nat, n: nat)
    requires Shape(st) && Conserved(st) && s in st.sessions && HasNumber(st.sessions[s], n)
    ensures Conserved(Step(st, RemoveJoypad(s, n))) <==> !Pending(st, st.Home(s), PadAt(st.sessions[s], n))
  {
    hide Shape, FirstWith, Devices, HasNumber, PadAt, Erase, State.Home, Belongs, Unplug, Step, Live;
    var st', d := Step(st, RemoveJoypad(s, n)), PadAt(st.sessions[s], n);
    RemoveOwners(st, s, n);
    RemoveHolds(st, s, n);
    HomeLives(st, s);
    var home := st.Home(s);
    forall c, x | Live(st, c)
      ensures (Holds(st', c, x) <==> Belongs(st', c, x)) <==> !(c == home && x == d && Pending(st, c, d))
    {
      assert Right(st, c);
      assert Holds(st, c, x) <==> Belongs(st, c, x);
    }
    if Pending(st, home, d) {
      assert !(Holds(st', home, d) <==> Belongs(st', home, d));
    } else {
      forall c | Live(st', c) ensures Right(st', c) {}
    }
  }

  // ---- sessions that end

  lemma OverConserves(st: State, s: nat)
    requires Shape(st) && Conserved(st)
    ensures Shape(SessionOver(st, s))
    ensures Conserved(SessionOver(st, s)) <==> Clean(st, StreamOver(s))
  {
    hide Leave, Shape, CleanLeave, FirstWith;
    if st.LobbyOf(s).Some? { LeaveConserves(st, st.LobbyOf(s).value, s); }
  }

  /** After it has left, a session is at home with itself. */
  lemma OverHome(st: State, s: nat)
    requires Shape(st) && s in st.sessions
    ensures Shape(SessionOver(st, s)) && SessionOver(st, s).Home(s) == Sess(s)
    ensures SessionOver(st, s).sessions == st.sessions
  {
    hide FirstWith, Find, In, Leave;
    HomeIs(st, s);
    if st.LobbyOf(s).Some? {
      var l := st.LobbyOf(s).value;
      assert In(st, s, l) by { assert st.Home(s) == Lob(l); }
      InListed(st, s, l);
      LeaveMoves(st, l, s);
      LeaveShape(st, l, s);
      HomesAfter(st, Leave(st, l, s), l, s);
    }
  }

  lemma InListed(st: State, s: nat, l: string)
    requires In(st, s, l)
    ensures st.Listed(l) && s in st.Connected(l)
  {}

  lemma StopStreamConserves(st: State, s: nat, forgetFirst: bool)
    requires Shape(st) && Conserved(st)
    ensures Shape(Step(st, StopStream(s, forgetFirst)))
    ensures Conserved(Step(st, StopStream(s, forgetFirst))) <==> Clean(st, StopStream(s, forgetFirst))
  {
    hide Shape, Leave, Forget, FirstWith, CleanLeave, Devices, Right;
    if forgetFirst {
      ForgottenStays(st, s);
      ForgetHomes(st, s);
      ForgetConserves(st, s);
    } else {
      var st1 := SessionOver(st, s);
      OverConserves(st, s);
      ForgetHomes(st1, s);
      if s in st.sessions {
        OverHome(st, s);
        if st.LobbyOf(s).Some? {
          var l := st.LobbyOf(s).value;
          LeaveElsewhere(st, l, s);
          ForgottenElsewhere(st1, l, s);
        } else {
          ForgetConserves(st, s);
        }
      } else {
        OverIdle(st, s);
        ForgetConserves(st, s);
      }
    }
  }

  lemma OverIdle(st: State, s: nat)
    requires s !in st.sessions
    ensures SessionOver(st, s) == st
  {
    if st.LobbyOf(s).Some? { LeaveIdle(st, st.LobbyOf(s).value, s); }
  }

  lemma ForgottenStays(st: State, s: nat)
    ensures SessionOver(Forget(st, s), s) == Forget(st, s)
  {
    OverIdle(Forget(st, s), s);
  }

  /** Forgetting a session that is in no lobby neither spoils nor mends lobby `l`. */
  lemma ForgottenElsewhere(st: State, l: string, s: nat)
    requires Shape(st) && s in st.sessions && st.Home(s) == Sess(s) && ConservedOff(st, Lob(l))
    ensures Conserved(Forget(st, s)) <==> Conserved(st)
  {
    hide Shape, Forget, Holds, Belongs, State.Home, Devices;
    var st' := Forget(st, s);
    ForgetHomes(st, s);
    BelongsHome(st, s);
    ForgetLives(st, s);
    forall c | Live(st', c) ensures Right(st', c) <==> Right(st, c) {
      forall d ensures (Holds(st', c, d) <==> Belongs(st', c, d)) <==> (Holds(st, c, d) <==> Belongs(st, c, d)) {}
    }
  }

  lemma ForgetLives(st: State, s: nat)
    ensures forall c :: Live(Forget(st, s), c) <==> Live(st, c) && c != Sess(s)
  {}

  // ---- runs

  lemma StepConserves(st: State, e: Event)
    requires Shape(st) && Conserved(st) && Enabled(st, e)
    ensures Shape(Step(st, e))
    ensures Conserved(Step(st, e)) <==> Clean(st, e)
  {
    hide Shape, Conserved, Leave, Stop, Join, Forget, SessionOver;
    hide NoneWaits, CleanLeave, FirstWith, Find, HasNumber, PadAt, Erase, Drained, Plug, Unplug;
    match e {
      case CreateLobby(lobby) => CreateConserves(st, lobby);
      case StartSession(s) => StartConserves(st, s);
      case JoinLobby(l, s) => JoinStep(st, l, s);
      case LeaveLobby(l, s) => LeaveConserves(st, l, s);
      case StopLobby(l) => StopConserves(st, l);
      case StreamOver(s) => OverConserves(st, s);
      case StopStream(s, forgetFirst) => StopStreamConserves(st, s, forgetFirst);
      case AddJoypad(s, n, d) => if s in st.sessions && !HasNumber(st.sessions[s], n) { AddConserves(st, s, n, d); }
      case RemoveJoypad(s, n) =>
        if s in st.sessions && HasNumber(st.sessions[s], n) {
          RemoveOwners(st, s, n);
          RemoveConserves(st, s, n);
        }
      case Drain(c) => DrainConserves(st, c);
    }
  }

  lemma JoinStep(st: State, l: string, s: nat)
    requires Shape(st) && Conserved(st) && st.LobbyOf(s) == None
    ensures Shape(Join(st, l, s))
    ensures Conserved(Join(st, l, s)) <==> Clean(st, JoinLobby(l, s))
  {
    hide Shape, Conserved, NoneWaits, FirstWith, Find, TakePads;
    if JoinOutcome(st, l, s) == Joined {
      JoinMoves(st, l, s);
      JoinConserves(st, l, s);
    }
  }

  ghost predicate Legal(es: seq<Event>) {
    forall k {:trigger es[k]} :: 0 <= k < |es| ==> Enabled(Run(INITIAL, es[..k]), es[k])
  }

  /** Every event so far was clean. */
  ghost predicate AllClean(es: seq<Event>) {
    forall k {:trigger es[k]} :: 0 <= k < |es| ==> Clean(Run(INITIAL, es[..k]), es[k])
  }

  ghost predicate AlwaysConserved(es: seq<Event>) {
    forall k :: 0 <= k <= |es| ==> Conserved(Run(INITIAL, es[..k]))
  }

  /** Over every run: all containers always hold what belongs there if and only if every event was clean. */
  lemma {:induction false} DevicesConserved(es: seq<Event>)
    requires Legal(es)
    ensures AlwaysConserved(es) <==> AllClean(es)
    ensures AllClean(es) ==> Shape(Run(INITIAL, es))
    decreases |es|
  {
    hide Shape, Conserved, Clean, Enabled, Step, Legal, AllClean, AlwaysConserved;
    if es == [] {
      Begins();
    } else {
      var n := |es| - 1;
      LastEvent(es);
      DevicesConserved(es[..n]);
      if AllClean(es[..n]) {
        ConservedLast(es[..n]);
        StepConserves(Run(INITIAL, es[..n]), es[n]);
      }
    }
  }

  lemma ConservedLast(es: seq<Event>)
    requires AlwaysConserved(es)
    ensures Conserved(Run(INITIAL, es))
  {
    hide Conserved, Run;
    assert es[..|es|] == es;
  }

  lemma LastEvent(es: seq<Event>)
    requires es != []
    ensures var init, e := es[..|es| - 1], es[|es| - 1];
            (Legal(es) <==> Legal(init) && Enabled(Run(INITIAL, init), e))
            && (AllClean(es) <==> AllClean(init) && Clean(Run(INITIAL, init), e))
            && (AlwaysConserved(es) <==> AlwaysConserved(init) && Conserved(Run(INITIAL, es)))
  {
    hide Run, Conserved, Clean, Enabled;
    var n := |es| - 1;
    var init := es[..n];
    assert forall k :: 0 <= k <= n ==> init[..k] == es[..k];
    assert forall k :: 0 <= k < n ==> init[k] == es[k];
    assert es[..|es|] == es && init[..n] == init;
  }

  lemma Begins()
    ensures Shape(INITIAL) && Conserved(INITIAL) && AlwaysConserved([]) && AllClean([])
  {
    var none: seq<Event> := [];
    assert none[..0] == none;
  }

  /** Where things are conserved and queues drained, a joypad of a running session is plugged into
      one live container: its lobby's if it is in one, and otherwise its own. */
  lemma PluggedOnce(st: State, s: nat, d: Device, c: Id)
    requires Shape(st) && Conserved(st) && Owns(st, s, d)
    requires Live(st, c) && st.Queue(c) == []
    ensures d in st.Plugged(c) <==> c == st.Home(s)
    ensures st.Home(s) == (if st.LobbyOf(s).Some? then Lob(st.LobbyOf(s).value) else Sess(s))
    ensures Live(st, st.Home(s))
  {
    hide Shape, FirstWith;
    assert Right(st, c);
    BelongsHome(st, s);
    HomeLives(st, s);
    assert Holds(st, c, d) <==> Belongs(st, c, d);
  }

  /** A session that joins before its container has taken up the joypad gets it in both places. */
  lemma JoinBeforeDrain()
    ensures var plugged := Step(Step(Step(INITIAL, StartSession(1)),
              CreateLobby(Lobby("a", true, false))), AddJoypad(1, 0, 7));
            var st := Step(Step(Step(plugged, JoinLobby("a", 1)), Drain(Sess(1))), Drain(Lob("a")));
            7 in st.Plugged(Sess(1)) && 7 in st.Plugged(Lob("a"))
  {
    hide Join, Drained;
    var st2 := Step(Step(INITIAL, StartSession(1)), CreateLobby(Lobby("a", true, false)));
    assert st2.LobbyOf(1) == None;
    var st3 := Step(st2, AddJoypad(1, 0, 7));
    assert st3.sessions[1] == [Joypad(0, 7)] && st3.Queue(Sess(1)) == [PlugEvent(Sess(1), 7)];
    PendingJoin(st3);
  }

  lemma PendingJoin(st: State)
    requires st.lobbies == [Lobby("a", true, false)] && st.connected == map["a" := []]
    requires 1 in st.sessions && st.sessions[1] == [Joypad(0, 7)] && st.Queue(Sess(1)) == [PlugEvent(Sess(1), 7)]
    requires Sess(1) in st.queues && Lob("a") in st.queues
    ensures var st' := Step(Step(Join(st, "a", 1), Drain(Sess(1))), Drain(Lob("a")));
            7 in st'.Plugged(Sess(1)) && 7 in st'.Plugged(Lob("a"))
  {
    hide Drained;
    var st1 := st.(connected := st.connected["a" := st.Connected("a") + [1]], joined := st.joined + {"a"});
    assert st.Listed("a");
    assert st1.LobbyOf(1) == Some("a");
    var st2 := Unplug(Plug(st1, 1, 7), Sess(1), 7).Push(Lob("a"), PlugEvent(Sess(1), 7));
    assert TakePads(st1, 1, "a", [Joypad(0, 7)]) == st2 by {
      assert [Joypad(0, 7)][1..] == [];
    }
    assert PlugEvent(Sess(1), 7) in st2.Queue(Sess(1)) && PlugEvent(Lob("a"), 7) in st2.Queue(Lob("a"));
  }
}
