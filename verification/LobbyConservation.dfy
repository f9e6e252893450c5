/** Which events keep every joypad in the one container it belongs to, exactly. */
module LobbyConservation {
  import opened Wrappers
  import opened Lobbies
  import opened LobbyRuns
  import opened LobbyDevices

  /** A leave is clean unless the lobby lives on while a joypad still waits in its queue. */
  ghost predicate CleanLeave(st: State, l: string, s: nat) {
    st.Listed(l) && s in st.sessions && s in st.Connected(l) && !StopsAfter(st, l, s) ==> NoneWaits(st, Lob(l), s)
  }

  lemma LeaveAtLobby(st: State, l: string, s: nat)
    requires Shape(st) && st.Listed(l) && s in st.sessions && Right(st, Lob(l))
    ensures Right(Leave(st, l, s), Lob(l)) <==> (s in st.Connected(l) ==> NoneWaits(st, Lob(l), s))
  {
    hide State.Home, In, Shape, Leave, Belongs, Pending;
    var st' := Leave(st, l, s);
    var ds := Devices(st.sessions[s]);
    LeaveMoves(st, l, s);
    LeaveShape(st, l, s);
    BelongsAfter(st, st', l, s);
    BelongsHome(st, s);
    MemberHome(st, l, s);
    forall d ensures (Holds(st', Lob(l), d) <==> Belongs(st', Lob(l), d))
                       <==> !(s in st.Connected(l) && d in ds && Pending(st, Lob(l), d)) {
      assert Holds(st, Lob(l), d) <==> Belongs(st, Lob(l), d);
      assert Pending(st', Lob(l), d) <==> Pending(st, Lob(l), d) || (Lob(l) == HomeWithout(st, l, s) && d in ds);
    }
  }

  lemma MemberHome(st: State, l: string, s: nat)
    requires Shape(st) && st.Listed(l)
    ensures st.Home(s) == Lob(l) <==> s in st.Connected(l)
  {
    HomeIs(st, s);
    assert In(st, s, l) <==> s in st.Connected(l);
  }

  lemma LeaveConserves(st: State, l: string, s: nat)
    requires Shape(st) && Conserved(st)
    ensures Shape(Leave(st, l, s))
    ensures Conserved(Leave(st, l, s)) <==> CleanLeave(st, l, s)
  {
    hide Shape, Leave, Right, StopsAfter, NoneWaits;
    LeaveShape(st, l, s);
    if st.Listed(l) && s in st.sessions {
      LeaveElsewhere(st, l, s);
      LeaveMembers(st, l, s);
      assert Live(st, Lob(l));
      LeaveAtLobby(st, l, s);
    } else {
      LeaveIdle(st, l, s);
    }
  }

  // ---- stopping a lobby

  lemma {:induction false} LeaveAllElsewhere(st: State, l: string, ss: seq<nat>)
    requires Shape(st) && ConservedOff(st, Lob(l))
    ensures Shape(LeaveAll(st, l, ss)) && ConservedOff(LeaveAll(st, l, ss), Lob(l))
    decreases |ss|
  {
    hide Shape, Leave, ConservedOff;
    if ss != [] {
      LeaveShape(st, l, ss[0]);
      if st.Listed(l) && ss[0] in st.sessions {
        LeaveElsewhere(st, l, ss[0]);
      } else {
        LeaveIdle(st, l, ss[0]);
      }
      LeaveAllElsewhere(Leave(st, l, ss[0]), l, ss[1..]);
    }
  }

  /** A lobby without running sessions can be unlisted. */
  lemma UnlistConserves(st: State, l: string)
    requires Shape(st) && ConservedOff(st, Lob(l))
    requires forall s <- st.sessions :: s !in st.Connected(l)
    ensures var st' := st.(lobbies := Unlisted(st.lobbies, l));
            Shape(st') && Conserved(st')
  {
    hide State.Home, Devices, Apart, Find, FirstWith;
    var st' := st.(lobbies := Unlisted(st.lobbies, l));
    UnlistedKeepsDistinct(st.lobbies, l);
    forall m ensures st'.Listed(m) <==> st.Listed(m) && m != l { StillListed(st.lobbies, l, m); }
    forall s, m ensures In(st', s, m) <==> In(st, s, m) && m != l {
      assert st'.Connected(m) == st.Connected(m);
    }
    assert forall s, d :: Owns(st', s, d) <==> Owns(st, s, d);
    assert Shape(st');
    forall s | s in st.sessions ensures st'.Home(s) == st.Home(s) {
      SameHome(st, st', s);
    }
    forall c | Live(st', c) ensures Right(st', c) {
      StaysRight(st, st', c);
    }
  }

  lemma StaysRight(st: State, st': State, c: Id)
    requires Right(st, c)
    requires st'.queues == st.queues && st'.plugged == st.plugged && st'.sessions == st.sessions
    requires forall s <- st.sessions :: st'.Home(s) == st.Home(s)
    ensures Right(st', c)
  {
    hide State.Home;
    assert forall d :: Holds(st', c, d) <==> Holds(st, c, d);
    assert forall s, d :: Owns(st', s, d) <==> Owns(st, s, d);
  }

  /** Stopping a lobby always puts every joypad back where it belongs. */
  lemma StopConserves(st: State, l: string)
    requires Shape(st) && Conserved(st)
    ensures Shape(Stop(st, l)) && Conserved(Stop(st, l))
  {
    hide Shape, Right, LeaveAll;
    if st.Listed(l) {
      var left := LeaveAll(st, l, st.Connected(l));
      LeaveAllElsewhere(st, l, st.Connected(l));
      LeaveAllChanges(st, l, st.Connected(l));
      UnlistConserves(left, l);
    }
  }

  // ---- joining a lobby

  lemma JoinMoves(st: State, l: string, s: nat)
    requires Shape(st) && JoinOutcome(st, l, s) == Joined && st.LobbyOf(s) == None
    ensures var st' := Join(st, l, s);
            Routed(st, st', Lob(l), {Lob(l), Sess(s)}, Devices(st.sessions[s]))
            && st'.sessions == st.sessions && st'.lobbies == st.lobbies
            && (forall t, m :: In(st', t, m) <==> In(st, t, m) || (t == s && m == l))
            && Shape(st')
  {
    hide FirstWith, Find, TakePads, Routed, Apart, Devices;
    var st1 := st.(connected := st.connected[l := st.Connected(l) + [s]], joined := st.joined + {l});
    forall t, m ensures In(st1, t, m) <==> In(st, t, m) || (t == s && m == l) {
      assert m != l ==> st1.Connected(m) == st.Connected(m);
    }
    HomeIs(st, s);
    HomeIs(st1, s);
    assert In(st1, s, l);
    TakeMoves(st1, s, l, st.sessions[s]);
    var st' := Join(st, l, s);
    MovedPlaces(st1, st', Lob(l), {Lob(l), Sess(s)}, Devices(st.sessions[s]));
    RoutedAlike(st1, st', st, st', Lob(l), {Lob(l), Sess(s)}, Devices(st.sessions[s]));
    forall t, m ensures In(st', t, m) <==> In(st1, t, m) {}
    assert forall t, d :: Owns(st', t, d) <==> Owns(st, t, d);
  }

  lemma JoinHomes(st: State, l: string, s: nat)
    requires Shape(st) && JoinOutcome(st, l, s) == Joined && st.LobbyOf(s) == None
    ensures var st' := Join(st, l, s);
            forall c, d :: Belongs(st', c, d) <==>
              if d in Devices(st.sessions[s]) then c == Lob(l) else Belongs(st, c, d)
  {
    hide FirstWith, Find, Join, Routed, Apart, Devices, State.Home, In;
    var st' := Join(st, l, s);
    JoinMoves(st, l, s);
    HomeIs(st', s);
    assert In(st', s, l);
    forall t | t != s ensures st'.Home(t) == st.Home(t) { SameHome(st, st', t); }
    forall c, d
      ensures Belongs(st', c, d) <==> if d in Devices(st.sessions[s]) then c == Lob(l) else Belongs(st, c, d)
    {
      if d in Devices(st.sessions[s]) { assert Owns(st', s, d); }
      assert forall t :: Owns(st', t, d) <==> Owns(st, t, d);
    }
  }

  lemma JoinConserves(st: State, l: string, s: nat)
    requires Shape(st) && Conserved(st) && JoinOutcome(st, l, s) == Joined && st.LobbyOf(s) == None
    ensures Conserved(Join(st, l, s)) <==> NoneWaits(st, Sess(s), s)
  {
    hide Join, Pending, Belongs, Shape, Find;
    var st' := Join(st, l, s);
    var ds := Devices(st.sessions[s]);
    JoinMoves(st, l, s);
    JoinHomes(st, l, s);
    BelongsHome(st, s);
    forall c, d | Live(st, c)
      ensures (Holds(st', c, d) <==> Belongs(st', c, d)) <==> !(c == Sess(s) && d in ds && Pending(st, c, d))
    {
      assert Right(st, c);
      assert Holds(st, c, d) <==> Belongs(st, c, d);
      assert Pending(st', c, d) <==> Pending(st, c, d) || (c == Lob(l) && d in ds);
      assert d in st'.Plugged(c) <==> d in st.Plugged(c) && !(c in {Lob(l), Sess(s)} && d in ds);
    }
    assert Live(st, Sess(s)) && Live(st', Sess(s));
    assert forall c :: Live(st', c) <==> Live(st, c);
    if NoneWaits(st, Sess(s), s) {
      forall c | Live(st', c) ensures Right(st', c) {
        forall d ensures Holds(st', c, d) <==> Belongs(st', c, d) {}
      }
    } else {
      var d :| d in ds && Pending(st, Sess(s), d);
      assert !(Holds(st', Sess(s), d) <==> Belongs(st', Sess(s), d));
    }
  }

  // ---- the end of a session

  lemma ForgetHomes(st: State, s: nat)
    requires Shape(st)
    ensures var st' := Forget(st, s);
            Shape(st')
            && (forall t :: st'.Home(t) == st.Home(t))
            && (forall c, d :: Belongs(st', c, d) <==>
                Belongs(st, c, d) && !(s in st.sessions && d in Devices(st.sessions[s])))
            && (forall c, d :: c != Sess(s) ==> (Holds(st', c, d) <==> Holds(st, c, d)))
  {
    hide FirstWith, Find, Devices, Apart;
    var st' := Forget(st, s);
    forall t, m ensures In(st', t, m) <==> In(st, t, m) {}
    assert forall t, d :: Owns(st', t, d) <==> Owns(st, t, d) && t != s;
    assert forall t :: st'.Home(t) == st.Home(t);
    forall c, d
      ensures Belongs(st', c, d) <==> Belongs(st, c, d) && !(s in st.sessions && d in Devices(st.sessions[s]))
    {
      assert Owns(st, s, d) <==> s in st.sessions && d in Devices(st.sessions[s]);
      if t :| Owns(st, t, d) && st.Home(t) == c && t != s { assert Owns(st', t, d); }
      if t :| Owns(st', t, d) && st'.Home(t) == c { assert Owns(st, t, d); }
    }
  }

  lemma ForgetConserves(st: State, s: nat)
    requires Shape(st) && ConservedOff(st, Sess(s))
    ensures Conserved(Forget(st, s)) <==> (s in st.sessions && st.Home(s) != Sess(s) ==> Devices(st.sessions[s]) == {})
  {
    hide Holds, Belongs, Shape;
    var st' := Forget(st, s);
    ForgetHomes(st, s);
    assert forall c :: Live(st', c) <==> Live(st, c) && c != Sess(s);
    if s in st.sessions {
      BelongsHome(st, s);
    }
    if s in st.sessions && st.Home(s) != Sess(s) && Devices(st.sessions[s]) != {} {
      var d :| d in Devices(st.sessions[s]);
      HomeLives(st, s);
      var c := st.Home(s);
      assert Right(st, c);
      assert Holds(st, c, d) && !Belongs(st', c, d);
    } else {
      forall c | Live(st', c) ensures Right(st', c) {
        assert Right(st, c);
        forall d ensures Holds(st', c, d) <==> Belongs(st', c, d) {
          assert Holds(st, c, d) <==> Belongs(st, c, d);
        }
      }
    }
  }

  lemma HomeLives(st: State, s: nat)
    requires Shape(st) && s in st.sessions
    ensures Live(st, st.Home(s))
  {
    HomeIs(st, s);
    if st.Home(s).Lob? { assert In(st, s, st.Home(s).lobby); }
  }
}
