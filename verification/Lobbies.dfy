/**
 Lobbies and the routing of virtual joypads between containers.  Events are fired
 synchronously, so a handler may run inside another: stopping a lobby makes its
 sessions leave, and the last one to leave may stop the lobby.
 */
module Lobbies {
  import opened Wrappers

  /** A container belongs to a Moonlight session or to a lobby; their ids never clash. */
  datatype Id = Sess(session: nat) | Lob(lobby: string)
  type Device = nat
  datatype PlugEvent = PlugEvent(target: Id, device: Device)
  datatype Lobby = Lobby(id: string, multiUser: bool, stopWhenEveryoneLeaves: bool)
  datatype Joypad = Joypad(number: nat, device: Device)

  datatype State = State(
    lobbies: seq<Lobby>,                  // listed, in order of creation
    connected: map<string, seq<nat>>,     // the list each lobby object shares with its copies
    joined: set<string>,                  // history: lobbies that somebody has ever joined
    sessions: map<nat, seq<Joypad>>,      // running sessions and their joypads
    queues: map<Id, seq<PlugEvent>>,      // devices waiting for a container
    plugged: map<Id, set<Device>>)        // devices present in a container
  {
    function Connected(l: string): seq<nat> {
      if l in connected then connected[l] else []
    }

    function Queue(c: Id): seq<PlugEvent> {
      if c in queues then queues[c] else []
    }

    function Plugged(c: Id): set<Device> {
      if c in plugged then plugged[c] else {}
    }

    function Push(c: Id, e: PlugEvent): State {
      this.(queues := queues[c := Queue(c) + [e]])
    }

    /** What the container's own handler does on an unplug event. */
    function Remove(c: Id, d: Device): State {
      this.(plugged := plugged[c := Plugged(c) - {d}])
    }

    /** The first listed lobby that a session is connected to. */
    function LobbyOf(s: nat): Option<string> {
      FirstWith(lobbies, connected, s)
    }

    /** Where the joypads of a session should be. */
    function Home(s: nat): Id {
      match LobbyOf(s) case Some(l) => Lob(l) case None => Sess(s)
    }

    predicate Listed(l: string) { Find(lobbies, l).Some? }
  }

  /** `get_lobby_by_id` */
  function Find(lobbies: seq<Lobby>, id: string): (r: Option<Lobby>)
    ensures r.Some? ==> r.value in lobbies && r.value.id == id
    ensures r.None? <==> forall k :: 0 <= k < |lobbies| ==> lobbies[k].id != id
  {
    if lobbies == [] then None
    else if lobbies[0].id == id then Some(lobbies[0])
    else Find(lobbies[1..], id)
  }

  /** `get_lobby_by_connected_session` */
  function FirstWith(lobbies: seq<Lobby>, connected: map<string, seq<nat>>, s: nat): (r: Option<string>)
    ensures r.Some? ==> Find(lobbies, r.value).Some? && r.value in connected && s in connected[r.value]
    ensures r.None? ==> forall l <- lobbies :: l.id in connected ==> s !in connected[l.id]
  {
    if lobbies == [] then None
    else if lobbies[0].id in connected && s in connected[lobbies[0].id] then Some(lobbies[0].id)
    else FirstWith(lobbies[1..], connected, s)
  }

  function Without(ss: seq<nat>, s: nat): (r: seq<nat>)
    ensures forall x :: x in r <==> x in ss && x != s
    ensures |r| <= |ss|
  {
    if ss == [] then []
    else if ss[0] == s then Without(ss[1..], s)
    else [ss[0]] + Without(ss[1..], s)
  }

  function Unlisted(lobbies: seq<Lobby>, id: string): (r: seq<Lobby>)
    ensures forall l :: l in r <==> l in lobbies && l.id != id
  {
    if lobbies == [] then []
    else if lobbies[0].id == id then Unlisted(lobbies[1..], id)
    else [lobbies[0]] + Unlisted(lobbies[1..], id)
  }

  // ---- plugging and unplugging

  /** Nothing but devices has moved. */
  ghost predicate SamePlaces(st: State, st': State) {
    st'.lobbies == st.lobbies && st'.connected == st.connected && st'.sessions == st.sessions && st'.joined == st.joined
  }

  /** Both handlers of a plug event for a session: its lobby's, or else its own queue. */
  function Plug(st: State, s: nat, d: Device): (r: State)
    ensures SamePlaces(st, r)
  {
    match st.LobbyOf(s)
    case Some(l) => st.Push(Lob(l), PlugEvent(Lob(l), d))
    case None => if Sess(s) in st.queues then st.Push(Sess(s), PlugEvent(Sess(s), d)) else st
  }

  /** An unplug event; for a session in a lobby it is fired again for the lobby. */
  function Unplug(st: State, c: Id, d: Device): (r: State)
    ensures SamePlaces(st, r)
  {
    var st1 := st.Remove(c, d);
    if c.Sess? && st.LobbyOf(c.session).Some? then st1.Remove(Lob(st.LobbyOf(c.session).value), d) else st1
  }

  function TakePads(st: State, s: nat, l: string, pads: seq<Joypad>): (r: State)
    ensures SamePlaces(st, r)
    decreases |pads|
  {
    hide Plug, Unplug;
    if pads == [] then st else
    var d := pads[0].device;
    TakePads(Unplug(Plug(st, s, d), Sess(s), d).Push(Lob(l), PlugEvent(Sess(s), d)), s, l, pads[1..])
  }

  function ReturnPads(st: State, s: nat, l: string, pads: seq<Joypad>): (r: State)
    ensures SamePlaces(st, r)
    decreases |pads|
  {
    hide Plug, Unplug;
    if pads == [] then st else
    var d := pads[0].device;
    ReturnPads(Unplug(Plug(st, s, d), Lob(l), d), s, l, pads[1..])
  }

  // ---- lobbies

  datatype Outcome = Joined | NotFound | Full

  function JoinOutcome(st: State, l: string, s: nat): Outcome {
    var lobby := Find(st.lobbies, l);
    if lobby.None? || s !in st.sessions then NotFound
    else if !lobby.value.multiUser && |st.Connected(l)| >= 1 then Full
    else Joined
  }

  function Join(st: State, l: string, s: nat): State {
    if JoinOutcome(st, l, s) != Joined then st else
    var st := st.(connected := st.connected[l := st.Connected(l) + [s]], joined := st.joined + {l});
    TakePads(st, s, l, st.sessions[s])
  }

  /** `leave_lobby` up to the point where it may stop the lobby. */
  function Depart(st: State, l: string, s: nat): State
    requires s in st.sessions
  {
    var st := st.(connected := st.connected[l := Without(st.Connected(l), s)]);
    ReturnPads(st, s, l, st.sessions[s])
  }

  predicate StopsAfter(st: State, l: string, s: nat)
    requires st.Listed(l)
  {
    Find(st.lobbies, l).value.stopWhenEveryoneLeaves && Without(st.Connected(l), s) == []
  }

  function Leave(st: State, l: string, s: nat): State
    decreases 1, 0
  {
    if !st.Listed(l) || s !in st.sessions then st else
    var left := Depart(st, l, s);
    if StopsAfter(st, l, s) then Stop(left, l) else left
  }

  function LeaveAll(st: State, l: string, ss: seq<nat>): State
    decreases if ss == [] then 0 else 2, |ss|
  {
    if ss == [] then st else LeaveAll(Leave(st, l, ss[0]), l, ss[1..])
  }

  function Stop(st: State, l: string): State
    decreases if st.Connected(l) == [] then 0 else 2, |st.Connected(l)| + 1
  {
    if !st.Listed(l) then st else
    var left := LeaveAll(st, l, st.Connected(l));
    left.(lobbies := Unlisted(left.lobbies, l))
  }

  /** A stream that pauses, stops, or asks for the start screen takes its session out of its lobby. */
  function SessionOver(st: State, s: nat): State {
    match st.LobbyOf(s) case Some(l) => Leave(st, l, s) case None => st
  }

  function Forget(st: State, s: nat): State {
    st.(sessions := st.sessions - {s}, queues := st.queues - {Sess(s)})
  }

  // ---- events from outside

  datatype Event =
    | CreateLobby(lobby: Lobby)
    | StartSession(s: nat)
    | JoinLobby(l: string, s: nat)
    | LeaveLobby(l: string, s: nat)
    | StopLobby(l: string)
    | StreamOver(s: nat)                         // paused, or the start-screen combo
    | StopStream(s: nat, forgetFirst: bool)      // the order of the two handlers
    | AddJoypad(s: nat, number: nat, device: Device)
    | RemoveJoypad(s: nat, number: nat)
    | Drain(c: Id)

  function HasNumber(pads: seq<Joypad>, number: nat): bool {
    exists p <- pads :: p.number == number
  }

  function PadAt(pads: seq<Joypad>, number: nat): (d: Device)
    requires HasNumber(pads, number)
    ensures Joypad(number, d) in pads
  {
    if pads[0].number == number then pads[0].device else PadAt(pads[1..], number)
  }

  function Erase(pads: seq<Joypad>, number: nat): (r: seq<Joypad>)
    ensures forall p :: p in r <==> p in pads && p.number != number
  {
    if pads == [] then []
    else if pads[0].number == number then Erase(pads[1..], number)
    else [pads[0]] + Erase(pads[1..], number)
  }

  function Drained(c: Id, queue: seq<PlugEvent>, devices: set<Device>): (r: set<Device>)
    ensures forall d :: d in r <==> d in devices || PlugEvent(c, d) in queue
  {
    if queue == [] then devices
    else Drained(c, queue[1..], if queue[0].target == c then devices + {queue[0].device} else devices)
  }

  function Step(st: State, e: Event): State {
    match e
    case CreateLobby(lobby) =>
      st.(lobbies := st.lobbies + [lobby], connected := st.connected[lobby.id := []],
          queues := st.queues[Lob(lobby.id) := []])
    case StartSession(s) =>
      st.(sessions := st.sessions[s := []], queues := st.queues[Sess(s) := []], plugged := st.plugged[Sess(s) := {}])
    case JoinLobby(l, s) => Join(st, l, s)
    case LeaveLobby(l, s) => Leave(st, l, s)
    case StopLobby(l) => Stop(st, l)
    case StreamOver(s) => SessionOver(st, s)
    case StopStream(s, forgetFirst) =>
      if forgetFirst then SessionOver(Forget(st, s), s) else Forget(SessionOver(st, s), s)
    case AddJoypad(s, number, d) =>
      if s !in st.sessions || HasNumber(st.sessions[s], number) then st else
      var plugged := Plug(st, s, d);
      plugged.(sessions := st.sessions[s := st.sessions[s] + [Joypad(number, d)]])
    case RemoveJoypad(s, number) =>
      if s !in st.sessions || !HasNumber(st.sessions[s], number) then st else
      var unplugged := Unplug(st, Sess(s), PadAt(st.sessions[s], number));
      unplugged.(sessions := st.sessions[s := Erase(st.sessions[s], number)])
    case Drain(c) =>
      st.(queues := if c in st.queues then st.queues[c := []] else st.queues,
          plugged := st.plugged[c := Drained(c, st.Queue(c), st.Plugged(c))])
  }
}
