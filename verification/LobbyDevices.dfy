/** Every joypad in exactly one container: when the routing keeps to that, and when it does not. */
module LobbyDevices {
  import opened Wrappers
  import opened Lobbies
  import opened LobbyRuns

  ghost predicate Pending(st: State, c: Id, d: Device) { PlugEvent(c, d) in st.Queue(c) }

  /** In the container, or about to be once its queue is drained. */
  ghost predicate Holds(st: State, c: Id, d: Device) { d in st.Plugged(c) || Pending(st, c, d) }

  function Devices(pads: seq<Joypad>): set<Device> { set p <- pads :: p.device }

  ghost predicate Owns(st: State, s: nat, d: Device) { s in st.sessions && d in Devices(st.sessions[s]) }

  ghost predicate Live(st: State, c: Id) {
    match c case Sess(s) => s in st.sessions case Lob(l) => st.Listed(l)
  }

  ghost predicate Belongs(st: State, c: Id, d: Device) { exists s :: Owns(st, s, d) && st.Home(s) == c }

  ghost predicate Right(st: State, c: Id) { forall d :: Holds(st, c, d) <==> Belongs(st, c, d) }

  /** Every container holds the joypads of the sessions at home there, and no others. */
  ghost predicate Conserved(st: State) { forall c :: Live(st, c) ==> Right(st, c) }

  ghost predicate ConservedOff(st: State, x: Id) { forall c :: Live(st, c) && c != x ==> Right(st, c) }

  // ---- the shape of reachable states

  ghost predicate In(st: State, s: nat, l: string) { st.Listed(l) && s in st.Connected(l) }

  ghost predicate OneLobby(st: State) {
    forall s, l, m :: In(st, s, l) && In(st, s, m) ==> l == m
  }

  ghost predicate Queued(st: State) { forall s <- st.sessions :: Sess(s) in st.queues }

  ghost predicate Apart(pads: seq<Joypad>) {
    forall p, q :: p in pads && q in pads && (p.number == q.number || p.device == q.device) ==> p == q
  }

  ghost predicate PadsApart(st: State) {
    && (forall s, t, d :: Owns(st, s, d) && Owns(st, t, d) ==> s == t)
    && (forall s <- st.sessions :: Apart(st.sessions[s]))
  }

  ghost predicate Shape(st: State) {
    Listing(st) && OneLobby(st) && Queued(st) && PadsApart(st)
  }

  lemma HomeIs(st: State, s: nat)
    requires Listing(st) && OneLobby(st)
    ensures forall l :: st.Home(s) == Lob(l) <==> In(st, s, l)
    ensures st.Home(s).Sess? ==> st.Home(s) == Sess(s)
  {
    forall l | In(st, s, l) ensures st.Home(s) == Lob(l) {
      var lobby := Find(st.lobbies, l).value;
      assert lobby in st.lobbies && lobby.id in st.connected;
      assert st.LobbyOf(s).Some? && In(st, s, st.LobbyOf(s).value);
    }
  }

  // ---- moving joypads

  /** The devices `ds` have been queued for one container and taken out of others. */
  ghost predicate Routed(st: State, st': State, into: Id, from: set<Id>, ds: set<Device>) {
    && (forall c <- st.queues :: c in st'.queues)
    && (forall c, d :: Pending(st', c, d) <==> Pending(st, c, d) || (c == into && d in ds))
    && (forall c :: st'.Plugged(c) == if c in from then st.Plugged(c) - ds else st.Plugged(c))
  }

  ghost predicate Moved(st: State, st': State, into: Id, from: set<Id>, ds: set<Device>) {
    SamePlaces(st, st') && Routed(st, st', into, from, ds)
  }

  /** Routing is a matter of queues and containers only. */
  lemma RoutedAlike(a: State, b: State, a': State, b': State, into: Id, from: set<Id>, ds: set<Device>)
    requires Routed(a, b, into, from, ds)
    requires a'.queues == a.queues && a'.plugged == a.plugged && b'.queues == b.queues && b'.plugged == b.plugged
    ensures Routed(a', b', into, from, ds)
  {
    assert forall c, d :: (Pending(a', c, d) <==> Pending(a, c, d)) && (Pending(b', c, d) <==> Pending(b, c, d));
    assert forall c :: a'.Plugged(c) == a.Plugged(c) && b'.Plugged(c) == b.Plugged(c);
    hide Pending, State.Plugged;
  }

  lemma MovedOn(st: State, st1: State, st2: State, into: Id, from: set<Id>, d: Device, ds: set<Device>)
    requires Moved(st, st1, into, from, {d}) && Moved(st1, st2, into, from, ds)
    ensures Moved(st, st2, into, from, {d} + ds)
  {
    hide Pending, State.Plugged;
  }

  lemma MovedNone(st: State, into: Id, from: set<Id>)
    ensures Moved(st, st, into, from, {})
  {}

  lemma DevicesSplit(pads: seq<Joypad>)
    requires pads != []
    ensures Devices(pads) == {pads[0].device} + Devices(pads[1..])
  {
    assert pads == [pads[0]] + pads[1..];
  }

  lemma PlugRoutes(st: State, s: nat, d: Device)
    requires st.Home(s).Sess? ==> Sess(s) in st.queues && st.Home(s) == Sess(s)
    ensures Moved(st, Plug(st, s, d), st.Home(s), {}, {d})
  {
    hide FirstWith;
  }

  /** Devices are gone from some containers, and nothing else has changed. */
  ghost predicate Taken(st: State, st': State, from: set<Id>, d: Device) {
    SamePlaces(st, st') && st'.queues == st.queues
    && forall c :: st'.Plugged(c) == if c in from then st.Plugged(c) - {d} else st.Plugged(c)
  }

  lemma UnplugTakes(st: State, c: Id, d: Device)
    ensures Taken(st, Unplug(st, c, d),
      if c.Sess? && st.LobbyOf(c.session).Some? then {Lob(st.LobbyOf(c.session).value), c} else {c}, d)
  {
    hide FirstWith;
  }

  lemma MovedThenTaken(st: State, st1: State, st2: State, into: Id, from: set<Id>, d: Device)
    requires Moved(st, st1, into, {}, {d}) && Taken(st1, st2, from, d)
    ensures Moved(st, st2, into, from, {d})
  {
    hide State.Plugged;
    assert forall c, x :: Pending(st2, c, x) <==> Pending(st1, c, x);
  }

  /** An event for another container waits in a queue for nothing. */
  lemma StrayEvent(st: State, l: string, s: nat, d: Device, into: Id, from: set<Id>)
    ensures Moved(st, st.Push(Lob(l), PlugEvent(Sess(s), d)), into, from, {})
  {}

  lemma ReturnsOne(st: State, s: nat, l: string, d: Device)
    requires st.Home(s).Sess? ==> Sess(s) in st.queues && st.Home(s) == Sess(s)
    ensures Moved(st, Unplug(Plug(st, s, d), Lob(l), d), st.Home(s), {Lob(l)}, {d})
  {
    hide Plug, Unplug, Moved, Taken, FirstWith;
    PlugRoutes(st, s, d);
    UnplugTakes(Plug(st, s, d), Lob(l), d);
    MovedThenTaken(st, Plug(st, s, d), Unplug(Plug(st, s, d), Lob(l), d), st.Home(s), {Lob(l)}, d);
  }

  lemma TakesOne(st: State, s: nat, l: string, d: Device)
    requires st.LobbyOf(s) == Some(l)
    ensures Moved(st, Unplug(Plug(st, s, d), Sess(s), d).Push(Lob(l), PlugEvent(Sess(s), d)),
      Lob(l), {Lob(l), Sess(s)}, {d})
  {
    hide Plug, Unplug, Moved, Taken, FirstWith, State.Push;
    var st1 := Plug(st, s, d);
    var st2 := Unplug(st1, Sess(s), d);
    PlugRoutes(st, s, d);
    UnplugTakes(st1, Sess(s), d);
    MovedThenTaken(st, st1, st2, Lob(l), {Lob(l), Sess(s)}, d);
    StrayEvent(st2, l, s, d, Lob(l), {Lob(l), Sess(s)});
    MovedOn(st, st2, st2.Push(Lob(l), PlugEvent(Sess(s), d)), Lob(l), {Lob(l), Sess(s)}, d, {});
    assert {d} + {} == {d};
  }

  lemma {:induction false} ReturnMoves(st: State, s: nat, l: string, pads: seq<Joypad>)
    requires st.Home(s).Sess? ==> Sess(s) in st.queues && st.Home(s) == Sess(s)
    ensures Moved(st, ReturnPads(st, s, l, pads), st.Home(s), {Lob(l)}, Devices(pads))
    decreases |pads|
  {
    hide Moved, FirstWith, Plug, Unplug;
    if pads == [] {
      assert Devices(pads) == {};
      MovedNone(st, st.Home(s), {Lob(l)});
    } else {
      var d := pads[0].device;
      var st1 := Unplug(Plug(st, s, d), Lob(l), d);
      ReturnsOne(st, s, l, d);
      MovedPlaces(st, st1, st.Home(s), {Lob(l)}, {d});
      ReturnMoves(st1, s, l, pads[1..]);
      MovedOn(st, st1, ReturnPads(st, s, l, pads), st.Home(s), {Lob(l)}, d, Devices(pads[1..]));
      DevicesSplit(pads);
    }
  }

  lemma MovedPlaces(st: State, st': State, into: Id, from: set<Id>, ds: set<Device>)
    requires Moved(st, st', into, from, ds)
    ensures SamePlaces(st, st') && forall c <- st.queues :: c in st'.queues
  {}

  lemma {:induction false} TakeMoves(st: State, s: nat, l: string, pads: seq<Joypad>)
    requires st.LobbyOf(s) == Some(l)
    ensures Moved(st, TakePads(st, s, l, pads), Lob(l), {Lob(l), Sess(s)}, Devices(pads))
    decreases |pads|
  {
    hide Moved, FirstWith, Plug, Unplug, State.Push;
    if pads == [] {
      assert Devices(pads) == {};
      MovedNone(st, Lob(l), {Lob(l), Sess(s)});
    } else {
      var d := pads[0].device;
      var st1 := Unplug(Plug(st, s, d), Sess(s), d).Push(Lob(l), PlugEvent(Sess(s), d));
      TakesOne(st, s, l, d);
      MovedPlaces(st, st1, Lob(l), {Lob(l), Sess(s)}, {d});
      TakeMoves(st1, s, l, pads[1..]);
      MovedOn(st, st1, TakePads(st, s, l, pads), Lob(l), {Lob(l), Sess(s)}, d, Devices(pads[1..]));
      DevicesSplit(pads);
    }
  }

  // ---- one session leaving one lobby

  /** Where a session is once it is out of lobby `l`. */
  ghost function HomeWithout(st: State, l: string, s: nat): Id {
    if st.Home(s) == Lob(l) then Sess(s) else st.Home(s)
  }

  /** Session `s` is out of lobby `l`; its joypads are queued for where it is now. */
  ghost predicate Left(st: State, st': State, l: string, s: nat)
    requires s in st.sessions
  {
    && st'.sessions == st.sessions
    && (forall t, m :: In(st', t, m) <==> In(st, t, m) && !(t == s && m == l))
    && (forall m :: st'.Listed(m) ==> st.Listed(m))
    && Routed(st, st', HomeWithout(st, l, s), {Lob(l)}, Devices(st.sessions[s]))
  }

  lemma DepartMoves(st: State, l: string, s: nat)
    requires Shape(st) && st.Listed(l) && s in st.sessions
    ensures Routed(st, Depart(st, l, s), HomeWithout(st, l, s), {Lob(l)}, Devices(st.sessions[s]))
  {
    hide Routed, FirstWith, Find, Plug, Unplug, ReturnPads;
    var st1 := st.(connected := st.connected[l := Without(st.Connected(l), s)]);
    forall t, m ensures In(st1, t, m) <==> In(st, t, m) && !(t == s && m == l) {
      assert m != l ==> st1.Connected(m) == st.Connected(m);
    }
    HomeIs(st, s);
    HomeIs(st1, s);
    ReturnMoves(st1, s, l, st.sessions[s]);
    var left := Depart(st, l, s);
    RoutedAlike(st1, left, st, left, HomeWithout(st, l, s), {Lob(l)}, Devices(st.sessions[s]));
  }

  lemma StillListed(lobbies: seq<Lobby>, l: string, m: string)
    ensures Find(Unlisted(lobbies, l), m).Some? <==> Find(lobbies, m).Some? && m != l
  {
    UnlistedIsGone(lobbies, l);
    var r := Unlisted(lobbies, l);
    if Find(lobbies, m).Some? && m != l {
      assert Find(lobbies, m).value in r;
    }
    assert Find(r, m).Some? ==> Find(r, m).value in lobbies;
  }

  lemma LeaveMembers(st: State, l: string, s: nat)
    requires st.Listed(l) && s in st.sessions
    ensures var st' := Leave(st, l, s);
            (forall t, m :: In(st', t, m) <==> In(st, t, m) && !(t == s && m == l))
            && (forall m :: st'.Listed(m) <==> st.Listed(m) && !(m == l && StopsAfter(st, l, s)))
  {
    hide Leave, Find;
    LeaveChanges(st, l, s);
    var st' := Leave(st, l, s);
    forall m ensures st'.Listed(m) <==> st.Listed(m) && !(m == l && StopsAfter(st, l, s)) {
      StillListed(st.lobbies, l, m);
    }
    if StopsAfter(st, l, s) {
      assert forall t :: t in st.Connected(l) ==> t == s by {
        assert forall t :: t in Without(st.Connected(l), s) <==> t in st.Connected(l) && t != s;
      }
    }
  }

  lemma LeaveMoves(st: State, l: string, s: nat)
    requires Shape(st) && st.Listed(l) && s in st.sessions
    ensures Left(st, Leave(st, l, s), l, s)
  {
    hide FirstWith, ReturnPads, Find, Leave, In, Routed, Depart;
    DepartMoves(st, l, s);
    LeaveChanges(st, l, s);
    LeaveMembers(st, l, s);
    LeaveIsDepart(st, l, s);
    RoutedAlike(st, Depart(st, l, s), st, Leave(st, l, s), HomeWithout(st, l, s), {Lob(l)}, Devices(st.sessions[s]));
  }

  /** Leaving is departing, and then perhaps unlisting the lobby. */
  lemma LeaveIsDepart(st: State, l: string, s: nat)
    requires st.Listed(l) && s in st.sessions
    ensures var st' := Leave(st, l, s);
            st'.queues == Depart(st, l, s).queues && st'.plugged == Depart(st, l, s).plugged
  {
    hide Depart, Leave, StopsAfter;
    LeaveUnfolds(st, l, s);
  }

  // ---- conservation, step by step

  lemma HomesAfter(st: State, st': State, l: string, s: nat)
    requires Shape(st) && s in st.sessions && Left(st, st', l, s) && Shape(st')
    ensures forall t :: st'.Home(t) == if t == s then HomeWithout(st, l, s) else st.Home(t)
  {
    hide State.Home, Routed, In;
    forall t ensures st'.Home(t) == if t == s then HomeWithout(st, l, s) else st.Home(t) {
      HomeIs(st, t);
      HomeIs(st', t);
      SameHome(st, st', t);
    }
  }

  lemma SameHome(st: State, st': State, t: nat)
    requires Listing(st) && OneLobby(st) && Listing(st') && OneLobby(st')
    ensures (forall m :: In(st', t, m) <==> In(st, t, m)) ==> st'.Home(t) == st.Home(t)
  {
    HomeIs(st, t);
    HomeIs(st', t);
    if st.Home(t).Lob? { assert In(st, t, st.Home(t).lobby); }
    if st'.Home(t).Lob? { assert In(st', t, st'.Home(t).lobby); }
  }

  lemma LeaveShape(st: State, l: string, s: nat)
    requires Shape(st)
    ensures Shape(Leave(st, l, s))
  {
    hide Leave, In, Apart, Devices;
    LeaveKeepsOccupied(st, l, s);
    if st.Listed(l) && s in st.sessions {
      LeaveMoves(st, l, s);
      var st' := Leave(st, l, s);
      assert OneLobby(st');
      assert Queued(st');
      assert forall t, d :: Owns(st', t, d) <==> Owns(st, t, d);
      assert PadsApart(st');
    } else {
      LeaveIdle(st, l, s);
    }
  }

  /** No joypad of the session is still waiting in the queue of the container it leaves. */
  ghost predicate NoneWaits(st: State, c: Id, s: nat)
    requires s in st.sessions
  {
    forall d <- Devices(st.sessions[s]) :: !Pending(st, c, d)
  }

  lemma BelongsAfter(st: State, st': State, l: string, s: nat)
    requires Shape(st) && s in st.sessions && Left(st, st', l, s) && Shape(st')
    ensures forall c, d :: Belongs(st', c, d) <==>
              if d in Devices(st.sessions[s]) then c == HomeWithout(st, l, s) else Belongs(st, c, d)
  {
    hide State.Home, Routed, In, HomeWithout, Listing, OneLobby, Queued, Apart;
    HomesAfter(st, st', l, s);
    forall c, d ensures Belongs(st', c, d) <==>
              if d in Devices(st.sessions[s]) then c == HomeWithout(st, l, s) else Belongs(st, c, d) {
      if d in Devices(st.sessions[s]) {
        assert Owns(st', s, d);
      }
      assert forall t :: Owns(st', t, d) <==> Owns(st, t, d);
    }
  }

  lemma LeaveElsewhere(st: State, l: string, s: nat)
    requires Shape(st) && st.Listed(l) && s in st.sessions && ConservedOff(st, Lob(l))
    ensures ConservedOff(Leave(st, l, s), Lob(l))
  {
    hide State.Home, In, Shape, Leave, Belongs, Pending;
    var st' := Leave(st, l, s);
    LeaveMoves(st, l, s);
    LeaveShape(st, l, s);
    BelongsAfter(st, st', l, s);
    BelongsHome(st, s);
    forall c | Live(st', c) && c != Lob(l) ensures Right(st', c) {
      assert Live(st, c) && Right(st, c);
      forall d ensures Holds(st', c, d) <==> Belongs(st', c, d) {
        assert Holds(st, c, d) <==> Belongs(st, c, d);
        assert Holds(st', c, d) <==> Holds(st, c, d) || (c == HomeWithout(st, l, s) && d in Devices(st.sessions[s]));
      }
    }
  }

  lemma BelongsHome(st: State, s: nat)
    requires Shape(st) && s in st.sessions
    ensures forall c, d :: d in Devices(st.sessions[s]) ==> (Belongs(st, c, d) <==> c == st.Home(s))
  {
    forall c, d | d in Devices(st.sessions[s]) ensures Belongs(st, c, d) <==> c == st.Home(s) {
      assert Owns(st, s, d);
    }
  }
}
