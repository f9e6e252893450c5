/** Launch events: what clients are told about a starting session, from Wolf's events and the runner's progress. */
module Progress {
  import opened Wrappers

  type Percent = p: int | 0 <= p <= 255

  datatype LaunchState =
    | Connecting | Launching | ContainerStarted | Stopped | Paused | Resumed | Starting | Running | Failed

  datatype LaunchEvent = LaunchEvent(client: string, app: Option<string>, state: LaunchState, percent: Option<Percent>)

  /** The fields of a Wolf event that matter here. */
  datatype Data = Data(clientId: Option<string>, sessionId: Option<string>,
    appId: Option<string>, containerId: Option<string>)

  datatype RunnerUpdate = Percentage(p: Percent) | Failure

  function CoarsePercent(s: LaunchState): Option<Percent> {
    match s
    case Connecting => Some(1)
    case Launching => Some(3)
    case ContainerStarted => Some(5)
    case Stopped => Some(0)
    case _ => None
  }

  /** What the leaf of a wire name stands for. */
  datatype Kind =
    | StreamSession | StartRunner | DockerContainerCreated | DockerContainerStopped
    | StopStreamEvent | PauseStreamEvent | ResumeStreamEvent | Other

  datatype Target = Target(client: string, state: LaunchState)

  predicate SepAt(s: string, i: nat) {
    i + 1 < |s| && s[i] == ':' && s[i + 1] == ':'
  }

  predicate HasSep(s: string) {
    exists i: nat | i < |s| :: SepAt(s, i)
  }

  /** `rsplit("::").next()`: what follows the last separator. */
  function Leaf(s: string): string {
    if !HasSep(s) then s
    else if s[0] == ':' && s[1] == ':' && !HasSep(s[1..]) then s[2..]
    else Leaf(s[1..])
  }

  function KindOf(leaf: string): Kind {
    if leaf == "StreamSession" then StreamSession
    else if leaf == "StartRunner" then StartRunner
    else if leaf == "DockerContainerCreated" then DockerContainerCreated
    else if leaf == "DockerContainerStopped" then DockerContainerStopped
    else if leaf == "StopStreamEvent" then StopStreamEvent
    else if leaf == "PauseStreamEvent" then PauseStreamEvent
    else if leaf == "ResumeStreamEvent" then ResumeStreamEvent
    else Other
  }

  lemma SepSplits(s: string)
    ensures s != "" ==> (HasSep(s) <==> (|s| > 1 && s[0] == ':' && s[1] == ':') || HasSep(s[1..]))
  {
    if s != "" {
      assert forall i: nat :: SepAt(s[1..], i) <==> SepAt(s, i + 1);
      if i: nat :| i < |s| && SepAt(s, i) {
        if i > 0 { assert SepAt(s[1..], i - 1); }
      }
      if |s| > 1 && s[0] == ':' && s[1] == ':' { assert SepAt(s, 0); }
    }
  }

  lemma NoColonNoSep(s: string)
    requires ':' !in s
    ensures !HasSep(s) && !HasSep(":" + s)
  {
    assert forall i :: 0 <= i < |s| ==> s[i] in s;
    assert forall i :: 0 < i <= |s| ==> (":" + s)[i] == s[i - 1];
  }

  /** Whatever the name space, the leaf of a qualified name is its last part. */
  lemma {:induction false} LeafOf(ns: string, name: string)
    requires ':' !in name
    ensures Leaf(ns + ("::" + name)) == name
  {
    hide HasSep;
    var s := ns + ("::" + name);
    SepSplits(s);
    NoColonNoSep(name);
    if ns == "" {
      assert s == "::" + name && s[1..] == ":" + name && s[2..] == name;
    } else {
      assert s[1..] == ns[1..] + ("::" + name);
      SepAfter(ns[1..], name);
      LeafOf(ns[1..], name);
    }
  }

  lemma SepAfter(ns: string, name: string)
    ensures HasSep(ns + ("::" + name))
  {
    var s := ns + ("::" + name);
    assert SepAt(s, |ns|);
  }

  /** The names that mean something, by their letters. */
  lemma KindsOfNames()
    ensures KindOf("StreamSession") == StreamSession && KindOf("StartRunner") == StartRunner
    ensures KindOf("DockerContainerCreated") == DockerContainerCreated
    ensures KindOf("DockerContainerStopped") == DockerContainerStopped
    ensures KindOf("StopStreamEvent") == StopStreamEvent
    ensures KindOf("PauseStreamEvent") == PauseStreamEvent && KindOf("ResumeStreamEvent") == ResumeStreamEvent
  {
    assert "DockerContainerCreated"[15] == 'C' && "DockerContainerStopped"[15] == 'S';
  }

  lemma NamesHaveNoColon()
    ensures ':' !in "StreamSession" && ':' !in "StartRunner" && ':' !in "StopStreamEvent"
    ensures ':' !in "DockerContainerCreated" && ':' !in "DockerContainerStopped"
    ensures ':' !in "PauseStreamEvent" && ':' !in "ResumeStreamEvent"
  {}

  function Translate(wire: string, data: Data): Option<Target> {
    var kind := KindOf(Leaf(wire));
    var id := if kind == StreamSession then data.clientId else data.sessionId;
    if id.None? || kind == Other then None else
    Some(Target(id.value,
      match kind
      case StreamSession => Connecting
      case StartRunner => Launching
      case DockerContainerCreated => ContainerStarted
      case PauseStreamEvent => Paused
      case ResumeStreamEvent => Resumed
      case _ => Stopped))
  }

  // ---- the tasks

  /** An event on its way to the subscribers; a percentage has passed the ratchet as the one of that number. */
  datatype Ready = Ready(event: LaunchEvent, ticket: Option<nat>)

  /** The one task that publishes Wolf's events. */
  datatype Bridge = Idle | Advancing(event: LaunchEvent) | Sending(ready: Ready)

  /** The task that follows a container. */
  datatype Follower = Follower(client: string, app: Option<string>, pending: Option<Ready>)

  datatype Hub = Hub(
    apps: map<string, string>, paused: set<string>, lastPct: map<string, Percent>,
    followed: map<string, Follower>, bridge: Bridge,
    accepted: seq<LaunchEvent>,     // history: what passed the ratchet
    sent: seq<Ready>)               // history: what the subscribers were sent
  {
    /** `advances`, and the ratchet moved. */
    predicate Advances(e: LaunchEvent)
      requires e.percent.Some?
    {
      e.percent.value <= 1 || e.client !in lastPct || lastPct[e.client] < e.percent.value
    }

    function Accept(e: LaunchEvent): Hub
      requires e.percent.Some?
    {
      this.(lastPct := lastPct[e.client := e.percent.value], accepted := accepted + [e])
    }

    function Follow(container: Option<string>, f: Follower): Hub {
      if container.Some? && container.value !in followed then
        this.(followed := followed[container.value := f])
      else this
    }
  }

  const INITIAL := Hub(map[], {}, map[], map[], Idle, [], [])

  /** The mutex is released between the ratchet and the sending, so these are steps of their own. */
  datatype Step =
    | Receive(wire: string, data: Data)
    | BridgeAdvances
    | BridgeSends
    | Reports(container: string, update: RunnerUpdate)
    | RunnerSends(container: string)
    | RunnerGone(container: string)

  /** `publish` up to the ratchet. */
  function Received(h: Hub, wire: string, data: Data): Hub {
    var t := Translate(wire, data);
    if t.None? || (t.value.state == Resumed && t.value.client !in h.paused) then h else
    var Target(client, state) := t.value;
    var app := if data.appId.Some? then data.appId else if client in h.apps then Some(h.apps[client]) else None;
    var apps := if data.appId.Some? then h.apps[client := data.appId.value] else h.apps;
    h.(apps := if state == Stopped then apps - {client} else apps,
       paused := if state == Paused then h.paused + {client}
                 else if state == Resumed || state == Stopped then h.paused - {client} else h.paused,
       bridge := Advancing(LaunchEvent(client, app, state, CoarsePercent(state))))
     .Follow(if state == ContainerStarted then data.containerId else None, Follower(client, app, None))
  }

  function UpdateEvent(f: Follower, u: RunnerUpdate): LaunchEvent {
    match u
    case Percentage(p) => LaunchEvent(f.client, f.app, if p >= 100 then Running else Starting, Some(p))
    case Failure => LaunchEvent(f.client, f.app, Failed, None)
  }

  /** One step; a step of a task that is not at that point changes nothing. */
  function Apply(h: Hub, s: Step): Hub {
    match s
    case Receive(wire, data) => if h.bridge.Idle? then Received(h, wire, data) else h
    case BridgeAdvances =>
      if !h.bridge.Advancing? then h else
      var e := h.bridge.event;
      if e.percent.None? then h.(bridge := Sending(Ready(e, None)))
      else if h.Advances(e) then h.Accept(e).(bridge := Sending(Ready(e, Some(|h.accepted|))))
      else h.(bridge := Idle)
    case BridgeSends =>
      if !h.bridge.Sending? then h else h.(sent := h.sent + [h.bridge.ready], bridge := Idle)
    case Reports(c, update) =>
      if c !in h.followed || h.followed[c].pending.Some? then h else
      var f := h.followed[c];
      var e := UpdateEvent(f, update);
      if e.percent.None? then h.(followed := h.followed[c := f.(pending := Some(Ready(e, None)))])
      else if h.Advances(e) then h.Accept(e)
          .(followed := h.followed[c := f.(pending := Some(Ready(e, Some(|h.accepted|))))])
      else h
    case RunnerSends(c) =>
      if c !in h.followed || h.followed[c].pending.None? then h else
      h.(sent := h.sent + [h.followed[c].pending.value], followed := h.followed[c := h.followed[c].(pending := None)])
    case RunnerGone(c) =>
      if c !in h.followed || h.followed[c].pending.Some? then h else h.(followed := h.followed - {c})
  }

  function Run(steps: seq<Step>): Hub
    decreases |steps|
  {
    if steps == [] then INITIAL else Apply(Run(steps[..|steps| - 1]), steps[|steps| - 1])
  }

  // ---- the code

  class EventHub {
    var apps: map<string, string>
    var paused: set<string>
    var lastPct: map<string, Percent>
    var followed: map<string, Follower>
    var bridge: Bridge
    ghost var accepted: seq<LaunchEvent>
    ghost var sent: seq<Ready>
    var count: nat      // of accepted percentages

    ghost predicate Valid()
      reads this
    {
      count == |accepted|
    }

    ghost function Now(): Hub
      reads this
    {
      Hub(apps, paused, lastPct, followed, bridge, accepted, sent)
    }

    constructor ()
      ensures Valid() && Now() == INITIAL
    {
      apps, paused, lastPct, followed, bridge, accepted, sent, count := map[], {}, map[], map[], Idle, [], [], 0;
    }

    /** `advances` */
    method Advances(e: LaunchEvent) returns (ticket: Option<nat>)
      requires Valid() && e.percent.Some?
      modifies this`lastPct, this`accepted, this`count
      ensures Valid() && ticket == if old(Now()).Advances(e) then Some(old(|accepted|)) else None
      ensures Now() == if ticket.Some? then old(Now()).Accept(e) else old(Now())
    {
      var pct := e.percent.value;
      if pct > 1 && e.client in lastPct && pct <= lastPct[e.client] { return None; }
      lastPct := lastPct[e.client := pct];
      accepted := accepted + [e];
      ticket := Some(count);
      count := count + 1;
    }

    method FollowContainer(container: string, client: string, app: Option<string>)
      modifies this`followed
      ensures Now() == old(Now()).Follow(Some(container), Follower(client, app, None))
    {
      if container !in followed { followed := followed[container := Follower(client, app, None)]; }
    }

    /** The app that an event names is remembered; one that names none is about the app remembered. */
    method AppOf(client: string, named: Option<string>) returns (app: Option<string>)
      modifies this`apps
      ensures apps == if named.Some? then old(apps)[client := named.value] else old(apps)
      ensures app == if named.Some? then named else if client in old(apps) then Some(old(apps)[client]) else None
    {
      app := if client in apps then Some(apps[client]) else None;
      if named.Some? {
        app := named;
        apps := apps[client := named.value];
      }
    }

    method OnReceive(wire: string, data: Data)
      requires Valid()
      modifies this
      ensures Valid() && Now() == Apply(old(Now()), Receive(wire, data))
    {
      hide CoarsePercent, Leaf, KindOf;
      var t := Translate(wire, data);
      if !bridge.Idle? || t.None? { return; }
      var Target(client, state) := t.value;
      if state == Paused {
        paused := paused + {client};
      } else if state == Resumed {
        if client !in paused { return; }
        paused := paused - {client};
      }
      var app := AppOf(client, data.appId);
      if state == Stopped {
        apps := apps - {client};
        paused := paused - {client};
      }
      if state == ContainerStarted && data.containerId.Some? {
        FollowContainer(data.containerId.value, client, app);
      }
      bridge := Advancing(LaunchEvent(client, app, state, CoarsePercent(state)));
    }

    method OnBridgeAdvances()
      requires Valid()
      modifies this
      ensures Valid() && Now() == Apply(old(Now()), BridgeAdvances)
    {
      if !bridge.Advancing? { return; }
      var e := bridge.event;
      if e.percent.None? {
        bridge := Sending(Ready(e, None));
      } else {
        var ticket := Advances(e);
        bridge := if ticket.Some? then Sending(Ready(e, ticket)) else Idle;
      }
    }

    method OnBridgeSends()
      requires Valid()
      modifies this
      ensures Valid() && Now() == Apply(old(Now()), BridgeSends)
    {
      if bridge.Sending? {
        sent := sent + [bridge.ready];
        bridge := Idle;
      }
    }

    /** `publish` when nothing comes between. */
    method Publish(wire: string, data: Data)
      requires Valid()
      modifies this
      ensures Valid() && Now() == Apply(Apply(Apply(old(Now()), Receive(wire, data)), BridgeAdvances), BridgeSends)
    {
      OnReceive(wire, data);
      OnBridgeAdvances();
      OnBridgeSends();
    }

    /** The callback that follows a container's progress, up to the sending. */
    method OnReports(container: string, update: RunnerUpdate)
      requires Valid()
      modifies this
      ensures Valid() && Now() == Apply(old(Now()), Reports(container, update))
    {
      if container !in followed || followed[container].pending.Some? { return; }
      var f := followed[container];
      var e := UpdateEvent(f, update);
      if e.percent.None? {
        followed := followed[container := f.(pending := Some(Ready(e, None)))];
      } else {
        var ticket := Advances(e);
        if ticket.Some? { followed := followed[container := f.(pending := Some(Ready(e, ticket)))]; }
      }
    }

    method OnRunnerSends(container: string)
      requires Valid()
      modifies this
      ensures Valid() && Now() == Apply(old(Now()), RunnerSends(container))
    {
      if container !in followed || followed[container].pending.None? { return; }
      sent := sent + [followed[container].pending.value];
      followed := followed[container := followed[container].(pending := None)];
    }

    method OnRunnerGone(container: string)
      requires Valid()
      modifies this
      ensures Valid() && Now() == Apply(old(Now()), RunnerGone(container))
    {
      if container in followed && followed[container].pending.None? { followed := followed - {container}; }
    }
  }
}
