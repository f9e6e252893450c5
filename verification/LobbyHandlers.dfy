/** The event handlers themselves, over the shared state they update. */
module LobbyHandlers {
  import opened Wrappers
  import opened Lobbies

  class AppState {
    var lobbies: seq<Lobby>
    var connected: map<string, seq<nat>>
    ghost var joined: set<string>
    var sessions: map<nat, seq<Joypad>>
    var queues: map<Id, seq<PlugEvent>>
    var plugged: map<Id, set<Device>>

    ghost function Now(): State
      reads this
    {
      State(lobbies, connected, joined, sessions, queues, plugged)
    }

    constructor ()
      ensures Now() == State([], map[], {}, map[], map[], map[])
    {
      lobbies, connected, joined, sessions, queues, plugged := [], map[], {}, map[], map[], map[];
    }

    method LobbyById(id: string) returns (r: Option<Lobby>)
      ensures r == Find(lobbies, id)
    {
      for i := 0 to |lobbies|
        invariant Find(lobbies, id) == Find(lobbies[i..], id)
      {
        if lobbies[i].id == id { return Some(lobbies[i]); }
        assert lobbies[i..][1..] == lobbies[i + 1..];
      }
      return None;
    }

    method LobbyByConnectedSession(s: nat) returns (r: Option<string>)
      ensures r == Now().LobbyOf(s)
    {
      for i := 0 to |lobbies|
        invariant FirstWith(lobbies, connected, s) == FirstWith(lobbies[i..], connected, s)
      {
        var id := lobbies[i].id;
        if id in connected && s in connected[id] { return Some(id); }
        assert lobbies[i..][1..] == lobbies[i + 1..];
      }
      return None;
    }

    method Push(c: Id, e: PlugEvent)
      modifies this`queues
      ensures Now() == old(Now()).Push(c, e)
    {
      queues := queues[c := (if c in queues then queues[c] else []) + [e]];
    }

    /** The container's own handler. */
    method RemoveDevice(c: Id, d: Device)
      modifies this`plugged
      ensures Now() == old(Now()).Remove(c, d)
    {
      plugged := plugged[c := (if c in plugged then plugged[c] else {}) - {d}];
    }

    method FirePlug(s: nat, d: Device)
      modifies this`queues
      ensures Now() == Plug(old(Now()), s, d)
    {
      var lobby := LobbyByConnectedSession(s);
      if lobby.Some? {
        Push(Lob(lobby.value), PlugEvent(Lob(lobby.value), d));
      } else if Sess(s) in queues {
        Push(Sess(s), PlugEvent(Sess(s), d));
      }
    }

    method FireUnplug(c: Id, d: Device)
      modifies this`plugged
      ensures Now() == Unplug(old(Now()), c, d)
      decreases if c.Sess? then 1 else 0
    {
      RemoveDevice(c, d);
      if c.Sess? {
        var lobby := LobbyByConnectedSession(c.session);
        if lobby.Some? { FireUnplug(Lob(lobby.value), d); }
      }
    }

    method OnJoinLobby(l: string, s: nat) returns (outcome: Outcome)
      modifies this
      ensures outcome == JoinOutcome(old(Now()), l, s)
      ensures Now() == Join(old(Now()), l, s)
    {
      hide Find, FirstWith, Plug, Unplug;
      var lobby := LobbyById(l);
      if lobby.None? || s !in sessions { return NotFound; }
      var members := if l in connected then connected[l] else [];
      if !lobby.value.multiUser && |members| >= 1 { return Full; }
      connected := connected[l := members + [s]];
      joined := joined + {l};
      var pads := sessions[s];
      ghost var end := TakePads(Now(), s, l, pads);
      assert pads[0..] == pads;
      for i := 0 to |pads|
        invariant TakePads(Now(), s, l, pads[i..]) == end
      {
        assert pads[i..][1..] == pads[i + 1..];
        FirePlug(s, pads[i].device);
        FireUnplug(Sess(s), pads[i].device);
        Push(Lob(l), PlugEvent(Sess(s), pads[i].device));
      }
      return Joined;
    }

    /** `leave_lobby`, with the copies of the lobby and of the session that the handler has loaded. */
    method LeaveLobby(lobby: Lobby, s: nat)
      requires s in sessions && Find(lobbies, lobby.id) == Some(lobby)
      modifies this
      ensures Now() == Leave(old(Now()), lobby.id, s)
      decreases 1, 0
    {
      hide FirstWith, Plug, Unplug, Without;
      var l := lobby.id;
      ghost var start := Now();
      var members := FilterOut(if l in connected then connected[l] else [], s);
      connected := connected[l := members];
      var pads := sessions[s];
      ghost var left := ReturnPads(Now(), s, l, pads);
      assert pads[0..] == pads;
      for i := 0 to |pads|
        invariant ReturnPads(Now(), s, l, pads[i..]) == left
        invariant lobbies == start.lobbies && connected == start.connected[l := members]
      {
        assert pads[i..][1..] == pads[i + 1..];
        FirePlug(s, pads[i].device);
        FireUnplug(Lob(l), pads[i].device);
      }
      if lobby.stopWhenEveryoneLeaves && |connected[l]| == 0 {
        OnStopLobby(l);
      }
    }

    method OnLeaveLobby(l: string, s: nat)
      modifies this
      ensures Now() == Leave(old(Now()), l, s)
      decreases 1, 1
    {
      var lobby := LobbyById(l);
      if lobby.Some? && s in sessions {
        LeaveLobby(lobby.value, s);
      }
    }

    method OnStopLobby(l: string)
      modifies this
      ensures Now() == Stop(old(Now()), l)
      decreases (if Now().Connected(l) == [] then 0 else 2), |Now().Connected(l)| + 1
    {
      var lobby := LobbyById(l);
      if lobby.None? { return; }
      var members := if l in connected then connected[l] else [];
      ghost var left := LeaveAll(Now(), l, members);
      assert members[0..] == members;
      for i := 0 to |members|
        invariant LeaveAll(Now(), l, members[i..]) == left
      {
        assert members[i..][1..] == members[i + 1..];
        OnLeaveLobby(l, members[i]);
      }
      RemoveListing(l);
    }

    method RemoveListing(l: string)
      modifies this`lobbies
      ensures lobbies == Unlisted(old(lobbies), l)
    {
      var kept := [];
      for i := 0 to |lobbies|
        invariant kept + Unlisted(lobbies[i..], l) == Unlisted(lobbies, l)
      {
        assert lobbies[i..][1..] == lobbies[i + 1..];
        if lobbies[i].id != l { kept := kept + [lobbies[i]]; }
      }
      lobbies := kept;
    }

    method OnSessionOver(s: nat)
      modifies this
      ensures Now() == SessionOver(old(Now()), s)
    {
      var lobby := LobbyByConnectedSession(s);
      if lobby.Some? { OnLeaveLobby(lobby.value, s); }
    }

    /** Both handlers of the event, in either order. */
    method OnStopStream(s: nat, forgetFirst: bool)
      modifies this
      ensures Now() == Step(old(Now()), StopStream(s, forgetFirst))
    {
      if !forgetFirst { OnSessionOver(s); }
      sessions := sessions - {s};
      queues := queues - {Sess(s)};
      if forgetFirst { OnSessionOver(s); }
    }

    method OnStreamSession(s: nat)
      modifies this
      ensures Now() == Step(old(Now()), StartSession(s))
    {
      sessions, queues, plugged := sessions[s := []], queues[Sess(s) := []], plugged[Sess(s) := {}];
    }

    method OnCreateLobby(lobby: Lobby)
      modifies this
      ensures Now() == Step(old(Now()), CreateLobby(lobby))
    {
      lobbies := lobbies + [lobby];
      connected, queues := connected[lobby.id := []], queues[Lob(lobby.id) := []];
    }

    method CreateNewJoypad(s: nat, number: nat, d: Device)
      modifies this
      ensures Now() == Step(old(Now()), AddJoypad(s, number, d))
    {
      if s in sessions && !HasNumber(sessions[s], number) {
        FirePlug(s, d);
        sessions := sessions[s := sessions[s] + [Joypad(number, d)]];
      }
    }

    method RemoveJoypadOf(s: nat, number: nat)
      modifies this
      ensures Now() == Step(old(Now()), RemoveJoypad(s, number))
    {
      if s in sessions && HasNumber(sessions[s], number) {
        FireUnplug(Sess(s), PadAt(sessions[s], number));
        sessions := sessions[s := Erase(sessions[s], number)];
      }
    }

    /** The container's loop over its queue: it takes up the devices addressed to it. */
    method DrainQueue(c: Id)
      modifies this`queues, this`plugged
      ensures Now() == Step(old(Now()), Drain(c))
    {
      hide Drained;
      var devices := if c in plugged then plugged[c] else {};
      ghost var queue := Now().Queue(c);
      ghost var all := Drained(c, queue, devices);
      while c in queues && queues[c] != []
        invariant Drained(c, Now().Queue(c), devices) == all && plugged == old(plugged)
        invariant queues == if c in old(queues) then old(queues)[c := Now().Queue(c)] else old(queues)
        decreases |Now().Queue(c)|
      {
        var e := queues[c][0];
        DrainedNext(c, queues[c], devices);
        queues := queues[c := queues[c][1..]];
        if e.target == c { devices := devices + {e.device}; }
      }
      DrainedNothing(c, devices);
      assert Now().Queue(c) == [] && devices == all && queue == old(Now()).Queue(c);
      assert all == Drained(c, old(Now()).Queue(c), old(Now()).Plugged(c));
      plugged := plugged[c := devices];
    }
  }

  lemma DrainedNext(c: Id, queue: seq<PlugEvent>, devices: set<Device>)
    requires queue != []
    ensures Drained(c, queue, devices)
         == Drained(c, queue[1..], if queue[0].target == c then devices + {queue[0].device} else devices)
  {}

  lemma DrainedNothing(c: Id, devices: set<Device>)
    ensures Drained(c, [], devices) == devices
  {}

  method FilterOut(ss: seq<nat>, s: nat) returns (r: seq<nat>)
    ensures r == Without(ss, s)
  {
    r := [];
    for i := 0 to |ss|
      invariant r + Without(ss[i..], s) == Without(ss, s)
    {
      assert ss[i..][1..] == ss[i + 1..];
      if ss[i] != s { r := r + [ss[i]]; }
    }
  }
}
