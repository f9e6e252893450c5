/** What each event brings about, as the users of sessions and lobbies see it. */
module LobbyOutcomes {
  import opened Wrappers
  import opened Lobbies
  import opened LobbyRuns
  import opened LobbyDevices
  import opened LobbyPresence

  /** Sessions, joypads and lobby lists are as they were, but for the list of `l`. */
  ghost predicate OthersSame(st: State, st': State, l: string) {
    st'.sessions == st.sessions && forall m :: m != l ==> st'.Connected(m) == st.Connected(m)
  }

  /** A running session gets into a lobby that is shared or empty, at the end of its list; otherwise nothing changes,
      and the refusal names its cause. */
  lemma JoinOutcomes(st: State, lobby: Lobby, s: nat)
    requires Listing(st) && lobby in st.lobbies
    ensures var (l, st', outcome) := (lobby.id, Step(st, JoinLobby(lobby.id, s)), JoinOutcome(st, lobby.id, s));
            if s in st.sessions && (lobby.multiUser || st.Connected(l) == []) then
              && outcome == Joined && In(st', s, l)
              && st'.Connected(l) == st.Connected(l) + [s] && st'.lobbies == st.lobbies && OthersSame(st, st', l)
            else
              st' == st && outcome == (if s in st.sessions then Full else NotFound)
  {
    hide TakePads, Find;
    FindListed(st.lobbies, lobby);
  }

  lemma JoinUnknown(st: State, l: string, s: nat)
    requires forall lobby <- st.lobbies :: lobby.id != l
    ensures Step(st, JoinLobby(l, s)) == st && JoinOutcome(st, l, s) == NotFound
    ensures Step(st, LeaveLobby(l, s)) == st && Step(st, StopLobby(l)) == st
  {
    hide TakePads;
  }

  /** A running session that leaves is off the list and all others stay; the lobby ends exactly when it is to stop
      with its last session and nobody else is on its list. */
  lemma LeaveOutcomes(st: State, lobby: Lobby, s: nat)
    requires Listing(st) && lobby in st.lobbies
    ensures var (l, st') := (lobby.id, Step(st, LeaveLobby(lobby.id, s)));
            if s !in st.sessions then st' == st else
            && (forall t :: t in st'.Connected(l) <==> t in st.Connected(l) && t != s) && OthersSame(st, st', l)
            && (if lobby.stopWhenEveryoneLeaves && forall t <- st.Connected(l) :: t == s
                then forall m :: m in st'.lobbies <==> m in st.lobbies && m != lobby
                else st'.lobbies == st.lobbies)
  {
    hide Leave, Find, Unlisted;
    var l := lobby.id;
    FindListed(st.lobbies, lobby);
    LeaveChanges(st, l, s);
    if s !in st.sessions { LeaveIdle(st, l, s); }
    EmptyWithout(st.Connected(l), s);
    UnlistedOnly(st.lobbies, lobby);
  }

  lemma EmptyWithout(ss: seq<nat>, s: nat)
    ensures Without(ss, s) == [] <==> forall t <- ss :: t == s
  {
    if Without(ss, s) != [] { assert Without(ss, s)[0] in Without(ss, s); }
  }

  lemma UnlistedOnly(lobbies: seq<Lobby>, lobby: Lobby)
    requires Distinct(lobbies) && lobby in lobbies
    ensures forall m :: m in Unlisted(lobbies, lobby.id) <==> m in lobbies && m != lobby
  {
    forall m | m in lobbies && m.id == lobby.id ensures m == lobby {
      FindListed(lobbies, m);
      FindListed(lobbies, lobby);
    }
  }

  /** A stopped lobby is gone and every other one stays, with its members. */
  lemma StopOutcomes(st: State, lobby: Lobby)
    requires Listing(st) && lobby in st.lobbies
    ensures var st' := Step(st, StopLobby(lobby.id));
            && (forall m :: m in st'.lobbies <==> m in st.lobbies && m != lobby)
            && (forall s <- st.sessions :: s !in st'.Connected(lobby.id)) && OthersSame(st, st', lobby.id)
  {
    hide Stop, Find, Unlisted;
    FindListed(st.lobbies, lobby);
    StopCascade(st, lobby.id);
    UnlistedOnly(st.lobbies, lobby);
  }

  /** The end of a stream is a leave of the lobby that its session is in, if any; a stopped session is no longer
      running, and all others are. */
  lemma OverOutcomes(st: State, s: nat, l: string)
    requires Listing(st) && OneLobby(st)
    ensures In(st, s, l) ==> Step(st, StreamOver(s)) == Step(st, LeaveLobby(l, s))
    ensures (forall m :: !In(st, s, m)) ==> Step(st, StreamOver(s)) == st
    ensures forall first ::
      var st' := Step(st, StopStream(s, first));
      s !in st'.sessions && Sess(s) !in st'.queues
      && forall t <- st.sessions :: t != s ==> t in st'.sessions && st'.sessions[t] == st.sessions[t]
  {
    hide Leave, Find, FirstWith;
    HomeIs(st, s);
    OverMembers(st, s);
    OverMembers(Forget(st, s), s);
    NotRunning(Forget(st, s), s);
  }

  lemma NotRunning(st: State, s: nat)
    requires s !in st.sessions
    ensures SessionOver(st, s) == st
  {
    hide FirstWith, Find;
    if st.LobbyOf(s).Some? { LeaveIdle(st, st.LobbyOf(s).value, s); }
  }

  /** A new session runs without joypads, a new lobby is listed without members. */
  lemma NewOutcomes(st: State, s: nat, lobby: Lobby)
    ensures var st' := Step(st, StartSession(s));
            st'.sessions == st.sessions[s := []] && st'.lobbies == st.lobbies && st'.connected == st.connected
    ensures var st' := Step(st, CreateLobby(lobby));
            && lobby in st'.lobbies && st'.Connected(lobby.id) == [] && OthersSame(st, st', lobby.id)
            && forall m <- st.lobbies :: m in st'.lobbies
  {}

  /** A joypad is added under a free number and removed by its number. */
  lemma JoypadOutcomes(st: State, s: nat, number: nat, d: Device)
    requires s in st.sessions
    ensures var st' := Step(st, AddJoypad(s, number, d));
            st'.sessions == if exists p <- st.sessions[s] :: p.number == number then st.sessions
                            else st.sessions[s := st.sessions[s] + [Joypad(number, d)]]
    ensures var st' := Step(st, RemoveJoypad(s, number));
            && st'.sessions.Keys == st.sessions.Keys
            && (forall p :: p in st'.sessions[s] <==> p in st.sessions[s] && p.number != number)
            && forall t <- st.sessions :: t != s ==> st'.sessions[t] == st.sessions[t]
  {
    hide Plug, Unplug;
  }

  /** A container that works off its queue has the devices that were addressed to it, and an empty queue. */
  lemma DrainOutcomes(st: State, c: Id)
    ensures var st' := Step(st, Drain(c));
            && st'.Queue(c) == []
            && (forall d :: d in st'.Plugged(c) <==> d in st.Plugged(c) || PlugEvent(c, d) in st.Queue(c))
            && (forall x :: x != c ==> st'.Queue(x) == st.Queue(x) && st'.Plugged(x) == st.Plugged(x))
            && SamePlaces(st, st')
  {
    hide Drained;
  }
}
