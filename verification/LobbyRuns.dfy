/** The stop cascade, and who is in a lobby over whole runs. */
module LobbyRuns {
  import opened Wrappers
  import opened Lobbies

  // ---- what one leave changes

  lemma {:induction false} UnlistedTwice(lobbies: seq<Lobby>, l: string)
    ensures Unlisted(Unlisted(lobbies, l), l) == Unlisted(lobbies, l)
  {
    if lobbies != [] { UnlistedTwice(lobbies[1..], l); }
  }

  lemma UnlistedIsGone(lobbies: seq<Lobby>, l: string)
    ensures Find(Unlisted(lobbies, l), l).None?
  {
    var r := Unlisted(lobbies, l);
    forall k | 0 <= k < |r| ensures r[k].id != l {
      assert r[k] in r;
    }
  }

  /** Only lobby `l` has changed: who is connected to it, and whether it is listed. */
  ghost predicate OnlyLobby(st: State, st': State, l: string) {
    && st'.sessions == st.sessions && st'.joined == st.joined
    && (forall m :: m != l ==> st'.Connected(m) == st.Connected(m) && (m in st'.connected <==> m in st.connected))
    && (l in st.connected ==> l in st'.connected)
    && (st'.lobbies == st.lobbies || st'.lobbies == Unlisted(st.lobbies, l))
  }

  lemma StopEmpty(st: State, l: string)
    requires st.Listed(l) && st.Connected(l) == []
    ensures Stop(st, l) == st.(lobbies := Unlisted(st.lobbies, l))
  {}

  /** Departing changes one lobby's list and moves devices. */
  lemma DepartChanges(st: State, l: string, s: nat)
    requires s in st.sessions
    ensures var left := Depart(st, l, s);
            left.connected == st.connected[l := Without(st.Connected(l), s)]
            && left.lobbies == st.lobbies && left.sessions == st.sessions && left.joined == st.joined
  {
    hide ReturnPads, Without;
  }

  lemma LeaveUnfolds(st: State, l: string, s: nat)
    requires st.Listed(l) && s in st.sessions
    ensures var left := Depart(st, l, s);
            Leave(st, l, s) == if StopsAfter(st, l, s) then left.(lobbies := Unlisted(left.lobbies, l)) else left
  {
    hide Depart, Without, Find;
    DepartChanges(st, l, s);
    var left := Depart(st, l, s);
    if StopsAfter(st, l, s) {
      assert left.Listed(l) && left.Connected(l) == [];
      StopEmpty(left, l);
    }
  }

  lemma LeaveChanges(st: State, l: string, s: nat)
    ensures var st' := Leave(st, l, s);
            OnlyLobby(st, st', l)
            && st'.Connected(l) == (
              if st.Listed(l) && s in st.sessions then Without(st.Connected(l), s) else st.Connected(l))
            && st'.lobbies == (if st.Listed(l) && s in st.sessions && StopsAfter(st, l, s)
                               then Unlisted(st.lobbies, l) else st.lobbies)
  {
    hide Depart, Without, Find, StopsAfter, Unlisted, Leave;
    if st.Listed(l) && s in st.sessions {
      DepartChanges(st, l, s);
      LeaveUnfolds(st, l, s);
    } else {
      LeaveIdle(st, l, s);
    }
  }

  lemma LeaveIdle(st: State, l: string, s: nat)
    requires !st.Listed(l) || s !in st.sessions
    ensures Leave(st, l, s) == st
  {}

  lemma {:induction false} LeaveAllChanges(st: State, l: string, ss: seq<nat>)
    requires st.Listed(l) || st.Connected(l) == []
    ensures var st' := LeaveAll(st, l, ss);
            OnlyLobby(st, st', l)
            && (st'.Listed(l) || st'.Connected(l) == [])
            && (forall s :: s in st'.Connected(l) ==> s in st.Connected(l) && (s in ss ==> s !in st.sessions))
    decreases |ss|
  {
    hide Leave, Without, Find, Unlisted;
    if ss != [] {
      var st1 := Leave(st, l, ss[0]);
      LeaveChanges(st, l, ss[0]);
      UnlistedIsGone(st.lobbies, l);
      LeaveAllChanges(st1, l, ss[1..]);
      UnlistedTwice(st.lobbies, l);
      assert ss == [ss[0]] + ss[1..];
    }
  }

  /** Stopping a lobby comes to an end with the lobby gone, its running members out,
      and every other lobby as it was; stopping it again changes nothing. */
  lemma StopCascade(st: State, l: string)
    requires st.Listed(l)
    ensures var st' := Stop(st, l);
            st'.lobbies == Unlisted(st.lobbies, l) && !st'.Listed(l)
            && (forall s :: s in st'.Connected(l) ==> s in st.Connected(l) && s !in st.sessions)
            && OnlyLobby(st, st', l)
            && Stop(st', l) == st'
  {
    LeaveAllChanges(st, l, st.Connected(l));
    UnlistedTwice(st.lobbies, l);
    UnlistedIsGone(st.lobbies, l);
  }

  // ---- runs

  function Run(st: State, es: seq<Event>): State
    decreases |es|
  {
    if es == [] then st else Step(Run(st, es[..|es| - 1]), es[|es| - 1])
  }

  const INITIAL := State([], map[], {}, map[], map[], map[])

  /** Lobby ids are drawn afresh. */
  ghost predicate FreshLobby(st: State, e: Event) {
    e.CreateLobby? ==> e.lobby.id !in st.connected && e.lobby.id !in st.joined
  }

  ghost predicate FreshIds(es: seq<Event>) {
    forall k {:trigger es[k]} :: 0 <= k < |es| ==> FreshLobby(Run(INITIAL, es[..k]), es[k])
  }

  /** Listed lobbies have distinct ids and a list of sessions. */
  ghost predicate Listing(st: State) {
    && Distinct(st.lobbies)
    && (forall l <- st.lobbies :: l.id in st.connected)
    && (forall m <- st.joined :: m in st.connected)
  }

  ghost predicate Occupied(st: State) {
    forall l <- st.lobbies ::
      (!l.multiUser ==> |st.Connected(l.id)| <= 1)
      && (l.stopWhenEveryoneLeaves && l.id in st.joined ==> st.Connected(l.id) != [])
  }

  ghost predicate Distinct(lobbies: seq<Lobby>) {
    forall i, j :: 0 <= i < j < |lobbies| ==> lobbies[i].id != lobbies[j].id
  }

  lemma DistinctFirst(l: Lobby, rest: seq<Lobby>)
    requires Distinct(rest) && forall m <- rest :: m.id != l.id
    ensures Distinct([l] + rest)
  {
    forall j | 0 < j < |rest| + 1 ensures ([l] + rest)[j].id != l.id {
      assert ([l] + rest)[j] == rest[j - 1] && rest[j - 1] in rest;
    }
  }

  lemma {:induction false} UnlistedKeepsDistinct(lobbies: seq<Lobby>, l: string)
    requires Distinct(lobbies)
    ensures Distinct(Unlisted(lobbies, l))
  {
    if lobbies != [] {
      var rest := lobbies[1..];
      UnlistedKeepsDistinct(rest, l);
      forall m | m in Unlisted(rest, l) ensures m.id != lobbies[0].id {
        var i :| 0 <= i < |rest| && rest[i] == m;
        assert rest[i] == lobbies[i + 1];
      }
      DistinctFirst(lobbies[0], Unlisted(rest, l));
    }
  }

  lemma FindListed(lobbies: seq<Lobby>, l: Lobby)
    requires Distinct(lobbies) && l in lobbies
    ensures Find(lobbies, l.id) == Some(l)
  {
    var r := Find(lobbies, l.id);
    var i :| 0 <= i < |lobbies| && lobbies[i] == l;
    assert r.Some?;
    var j :| 0 <= j < |lobbies| && lobbies[j] == r.value;
  }

  lemma LeaveKeepsOccupied(st: State, l: string, s: nat)
    requires Listing(st)
    ensures Listing(Leave(st, l, s)) && (Occupied(st) ==> Occupied(Leave(st, l, s)))
  {
    hide Leave, Without, Unlisted, Find;
    var st' := Leave(st, l, s);
    LeaveChanges(st, l, s);
    UnlistedKeepsDistinct(st.lobbies, l);
    forall m | m in st'.lobbies
      ensures Occupied(st) && !m.multiUser ==> |st'.Connected(m.id)| <= 1
      ensures Occupied(st) && m.stopWhenEveryoneLeaves && m.id in st'.joined ==> st'.Connected(m.id) != []
    {
      FindListed(st.lobbies, m);
    }
  }

  lemma StopKeepsOccupied(st: State, l: string)
    requires Listing(st)
    ensures Listing(Stop(st, l)) && (Occupied(st) ==> Occupied(Stop(st, l)))
  {
    hide LeaveAll, Without, Unlisted, Find;
    if st.Listed(l) {
      hide Stop;
      StopCascade(st, l);
      UnlistedKeepsDistinct(st.lobbies, l);
    }
  }

  lemma JoinKeepsOccupied(st: State, l: string, s: nat)
    requires Listing(st)
    ensures Listing(Join(st, l, s)) && (Occupied(st) ==> Occupied(Join(st, l, s)))
  {
    hide TakePads, Find;
    if JoinOutcome(st, l, s) == Joined {
      var st1 := st.(connected := st.connected[l := st.Connected(l) + [s]], joined := st.joined + {l});
      forall m | m in st.lobbies && m.id == l ensures Find(st.lobbies, l) == Some(m) {
        FindListed(st.lobbies, m);
      }
    }
  }

  lemma StepKeepsOccupied(st: State, e: Event)
    requires Listing(st) && FreshLobby(st, e)
    ensures Listing(Step(st, e)) && (Occupied(st) ==> Occupied(Step(st, e)))
  {
    hide Leave, Stop, Join, SessionOver, Find, FirstWith, Drained, Listing;
    hide Occupied, Plug, Unplug, HasNumber, Erase, PadAt;
    match e {
      case JoinLobby(l, s) => JoinKeepsOccupied(st, l, s);
      case LeaveLobby(l, s) => LeaveKeepsOccupied(st, l, s);
      case StopLobby(l) => StopKeepsOccupied(st, l);
      case StreamOver(s) => OverKeepsOccupied(st, s);
      case StopStream(s, forgetFirst) =>
        OverKeepsOccupied(st, s);
        SameOccupied(st, Forget(st, s));
        OverKeepsOccupied(Forget(st, s), s);
        SameOccupied(SessionOver(st, s), Forget(SessionOver(st, s), s));
      case CreateLobby(lobby) => CreateKeepsOccupied(st, lobby);
      case _ =>
        OthersKeepPlaces(st, e);
        SameOccupied(st, Step(st, e));
    }
  }

  lemma SameOccupied(st: State, st': State)
    requires st'.lobbies == st.lobbies && st'.connected == st.connected && st'.joined == st.joined
    ensures (Listing(st) ==> Listing(st')) && (Occupied(st) ==> Occupied(st'))
  {}

  lemma OthersKeepPlaces(st: State, e: Event)
    requires e.StartSession? || e.AddJoypad? || e.RemoveJoypad? || e.Drain?
    ensures var st' := Step(st, e);
            st'.lobbies == st.lobbies && st'.connected == st.connected && st'.joined == st.joined
  {
    hide Plug, Unplug, Drained, HasNumber, Erase, PadAt;
  }

  lemma CreateKeepsOccupied(st: State, lobby: Lobby)
    requires Listing(st) && FreshLobby(st, CreateLobby(lobby))
    ensures Listing(Step(st, CreateLobby(lobby))) && (Occupied(st) ==> Occupied(Step(st, CreateLobby(lobby))))
  {}

  lemma OverKeepsOccupied(st: State, s: nat)
    requires Listing(st)
    ensures Listing(SessionOver(st, s)) && (Occupied(st) ==> Occupied(SessionOver(st, s)))
  {
    hide Leave, FirstWith;
    if st.LobbyOf(s).Some? { LeaveKeepsOccupied(st, st.LobbyOf(s).value, s); }
  }

  /** Over every run, whatever joins and in whichever order handlers fire: a lobby for one has
      at most one session, and one that stops with its last session is never listed empty. */
  lemma {:induction false} LobbiesStayOccupied(es: seq<Event>)
    requires FreshIds(es)
    ensures Listing(Run(INITIAL, es)) && Occupied(Run(INITIAL, es))
    decreases |es|
  {
    if es != [] {
      var n := |es| - 1;
      forall k | 0 <= k < n ensures es[..n][..k] == es[..k] && es[..n][k] == es[k] {}
      LobbiesStayOccupied(es[..n]);
      StepKeepsOccupied(Run(INITIAL, es[..n]), es[n]);
    }
  }
}
