/** What clients are told, in the terms of Wolf's events and the runners' reports. */
module ProgressStory {
  import opened Wrappers
  import opened Progress

  /** A wire name: the name itself, or the name in some name space. */
  ghost predicate Named(wire: string, name: string) {
    wire == name || exists ns: string :: wire == ns + ("::" + name)
  }

  lemma {:induction false} LeafNamed(wire: string)
    ensures Named(wire, Leaf(wire))
    decreases |wire|
  {
    hide HasSep;
    if HasSep(wire) {
      SepSplits(wire);
      SepIsLong(wire);
      var leaf := Leaf(wire);
      if wire[0] == ':' && wire[1] == ':' && !HasSep(wire[1..]) {
        assert wire == "" + ("::" + leaf);
      } else {
        LeafNamed(wire[1..]);
        if wire[1..] == leaf {
          SepNotInLeaf(wire[1..]);
        } else {
          var ns: string :| wire[1..] == ns + ("::" + leaf);
          assert wire == ([wire[0]] + ns) + ("::" + leaf);
        }
      }
    }
  }

  lemma SepIsLong(s: string)
    ensures HasSep(s) ==> |s| >= 2
  {}

  lemma {:induction false} SepNotInLeaf(s: string)
    ensures HasSep(s) ==> |Leaf(s)| < |s|
    decreases |s|
  {
    hide HasSep;
    SepIsLong(s);
    SepSplits(s);
    if HasSep(s) {
      if !(s[0] == ':' && s[1] == ':' && !HasSep(s[1..])) { SepNotInLeaf(s[1..]); }
    }
  }

  // ---- what each of Wolf's events means to a client

  /** The event tells the client this. */
  ghost predicate Tells(wire: string, data: Data, e: LaunchEvent) {
    || (Named(wire, "StreamSession") && data.clientId == Some(e.client)
        && e.state == Connecting && e.percent == Some(1))
    || (data.sessionId == Some(e.client)
        && (|| (Named(wire, "StartRunner") && e.state == Launching && e.percent == Some(3))
            || (Named(wire, "DockerContainerCreated") && e.state == ContainerStarted && e.percent == Some(5))
            || (Named(wire, "DockerContainerStopped") && e.state == Stopped && e.percent == Some(0))
            || (Named(wire, "StopStreamEvent") && e.state == Stopped && e.percent == Some(0))
            || (Named(wire, "PauseStreamEvent") && e.state == Paused && e.percent == None)
            || (Named(wire, "ResumeStreamEvent") && e.state == Resumed && e.percent == None)))
  }

  /** A report of the runner tells the client this. */
  predicate Reported(update: RunnerUpdate, e: LaunchEvent) {
    match update
    case Failure => e.state == Failed && e.percent == None
    case Percentage(p) => e.percent == Some(p) && (if p >= 100 then e.state == Running else e.state == Starting)
  }

  /** The client's container is followed since it was created. */
  ghost predicate Created(steps: seq<Step>, container: string, client: string) {
    exists i :: 0 <= i < |steps| && steps[i].Receive? && CreatedBy(steps[i], container, client)
  }

  ghost predicate CreatedBy(s: Step, container: string, client: string)
    requires s.Receive?
  {
    Named(s.wire, "DockerContainerCreated") && s.data.containerId == Some(container) && s.data.sessionId == Some(client)
  }

  /** Step `k` is where the event comes from. */
  ghost predicate ComesFrom(steps: seq<Step>, e: LaunchEvent, k: nat)
    requires k < |steps|
  {
    match steps[k]
    case Receive(wire, data) => Tells(wire, data, e) && (data.appId.Some? ==> e.app == data.appId)
    case Reports(c, update) => Reported(update, e) && Created(steps[..k], c, e.client)
    case _ => false
  }

  ghost predicate Grounded(steps: seq<Step>, e: LaunchEvent) {
    exists k: nat :: k < |steps| && ComesFrom(steps, e, k)
  }

  /** Whatever is held or has been sent comes from some step, and every followed container has been created. */
  ghost predicate AllGrounded(steps: seq<Step>, h: Hub) {
    && (h.bridge.Advancing? ==> Grounded(steps, h.bridge.event))
    && (h.bridge.Sending? ==> Grounded(steps, h.bridge.ready.event))
    && (forall c <- h.followed ::
          Created(steps, c, h.followed[c].client)
          && (h.followed[c].pending.Some? ==> Grounded(steps, h.followed[c].pending.value.event)))
    && (forall i :: 0 <= i < |h.sent| ==> Grounded(steps, h.sent[i].event))
  }

  lemma CreatedLater(steps: seq<Step>, s: Step, container: string, client: string)
    requires Created(steps, container, client)
    ensures Created(steps + [s], container, client)
  {
    var i :| 0 <= i < |steps| && steps[i].Receive? && CreatedBy(steps[i], container, client);
    assert (steps + [s])[i] == steps[i];
  }

  lemma GroundedLater(steps: seq<Step>, s: Step, e: LaunchEvent)
    requires Grounded(steps, e)
    ensures Grounded(steps + [s], e)
  {
    var k: nat :| k < |steps| && ComesFrom(steps, e, k);
    assert (steps + [s])[k] == steps[k] && (steps + [s])[..k] == steps[..k];
    assert ComesFrom(steps + [s], e, k);
  }

  lemma GroundedNow(steps: seq<Step>, s: Step, e: LaunchEvent)
    requires ComesFrom(steps + [s], e, |steps|)
    ensures Grounded(steps + [s], e)
  {}

  lemma StaysGrounded(steps: seq<Step>, s: Step, h: Hub)
    requires AllGrounded(steps, h)
    ensures AllGrounded(steps + [s], h)
  {
    hide Grounded, Created;
    if h.bridge.Advancing? { GroundedLater(steps, s, h.bridge.event); }
    if h.bridge.Sending? { GroundedLater(steps, s, h.bridge.ready.event); }
    forall c | c in h.followed
      ensures Created(steps + [s], c, h.followed[c].client)
      ensures h.followed[c].pending.Some? ==> Grounded(steps + [s], h.followed[c].pending.value.event)
    {
      CreatedLater(steps, s, c, h.followed[c].client);
      if h.followed[c].pending.Some? { GroundedLater(steps, s, h.followed[c].pending.value.event); }
    }
    forall i | 0 <= i < |h.sent| ensures Grounded(steps + [s], h.sent[i].event) {
      GroundedLater(steps, s, h.sent[i].event);
    }
  }

  /** What the translation makes of an event. */
  lemma TranslateTells(wire: string, data: Data, app: Option<string>)
    ensures var t := Translate(wire, data);
            t.Some? ==> Tells(wire, data, LaunchEvent(t.value.client, app, t.value.state, CoarsePercent(t.value.state)))
  {
    LeafNamed(wire);
    hide Leaf, Named;
  }

  lemma CreatedHere(steps: seq<Step>, wire: string, data: Data)
    requires var t := Translate(wire, data); t.Some? && t.value.state == ContainerStarted && data.containerId.Some?
    ensures Created(steps + [Receive(wire, data)], data.containerId.value, Translate(wire, data).value.client)
  {
    LeafNamed(wire);
    hide Leaf, Named;
    var all := steps + [Receive(wire, data)];
    assert all[|steps|] == Receive(wire, data);
    assert CreatedBy(all[|steps|], data.containerId.value, Translate(wire, data).value.client);
  }

  lemma ReceiveGrounded(steps: seq<Step>, h: Hub, wire: string, data: Data)
    requires AllGrounded(steps, h) && h.bridge.Idle?
    ensures AllGrounded(steps + [Receive(wire, data)], Received(h, wire, data))
  {
    hide Grounded, Created, Tells, CoarsePercent;
    var s, t := Receive(wire, data), Translate(wire, data);
    StaysGrounded(steps, s, h);
    var h' := Received(h, wire, data);
    if t.Some? && h'.bridge.Advancing? {
      TranslateTells(wire, data, h'.bridge.event.app);
      if t.value.state == ContainerStarted && data.containerId.Some? { CreatedHere(steps, wire, data); }
      hide Translate;
      assert (steps + [s])[|steps|] == s;
      GroundedNow(steps, s, h'.bridge.event);
    }
  }

  lemma ReportGrounded(steps: seq<Step>, h: Hub, c: string, update: RunnerUpdate)
    requires AllGrounded(steps, h)
    ensures AllGrounded(steps + [Reports(c, update)], Apply(h, Reports(c, update)))
  {
    hide Grounded, Created, Hub.Advances;
    var s := Reports(c, update);
    StaysGrounded(steps, s, h);
    if c in h.followed && h.followed[c].pending.None? {
      var all := steps + [s];
      assert all[|steps|] == s && all[..|steps|] == steps;
      GroundedNow(steps, s, UpdateEvent(h.followed[c], update));
    }
  }

  lemma StepGrounded(steps: seq<Step>, h: Hub, s: Step)
    requires AllGrounded(steps, h)
    ensures AllGrounded(steps + [s], Apply(h, s))
  {
    hide Grounded, Created, Hub.Advances, Received;
    StaysGrounded(steps, s, h);
    match s {
      case Receive(wire, data) => if h.bridge.Idle? { ReceiveGrounded(steps, h, wire, data); }
      case Reports(c, update) => ReportGrounded(steps, h, c, update);
      case _ =>
    }
  }

  lemma {:induction false} RunGrounded(steps: seq<Step>)
    ensures AllGrounded(steps, Run(steps))
    decreases |steps|
  {
    hide Apply, AllGrounded;
    if steps == [] {
      NothingHeld();
    } else {
      var n := |steps| - 1;
      RunGrounded(steps[..n]);
      StepGrounded(steps[..n], Run(steps[..n]), steps[n]);
      assert steps[..n] + [steps[n]] == steps;
    }
  }

  lemma NothingHeld()
    ensures AllGrounded([], INITIAL)
  {}

  /** Over every interleaving, whatever a client is sent comes from one of Wolf's events or from a report of the runner
      in a container that was created for this client, and says what that event or report means. */
  lemma SentComesFrom(steps: seq<Step>, i: nat) returns (k: nat)
    requires i < |Run(steps).sent|
    ensures k < |steps| && ComesFrom(steps, Run(steps).sent[i].event, k)
  {
    hide Run, ComesFrom;
    RunGrounded(steps);
    assert Grounded(steps, Run(steps).sent[i].event);
    k :| k < |steps| && ComesFrom(steps, Run(steps).sent[i].event, k);
  }

  // ---- and what is told does reach the clients

  /** A publication with nothing between its steps. */
  function Published(h: Hub, wire: string, data: Data): seq<Ready> {
    Apply(Apply(Apply(h, Receive(wire, data)), BridgeAdvances), BridgeSends).sent
  }

  function AppNow(h: Hub, client: string, data: Data): Option<string> {
    if data.appId.Some? then data.appId else if client in h.apps then Some(h.apps[client]) else None
  }

  lemma PublishesPlain(h: Hub, wire: string, data: Data, client: string, state: LaunchState)
    requires h.bridge.Idle? && Translate(wire, data) == Some(Target(client, state))
    requires state == Paused || (state == Resumed && client in h.paused)
    ensures Published(h, wire, data)
         == h.sent + [Ready(LaunchEvent(client, AppNow(h, client, data), state, None), None)]
  {
    hide Translate;
  }

  /** Receiving leaves the event with the bridge, and the ratchet and what was sent as they were. */
  lemma ReceivedTold(h: Hub, wire: string, data: Data, client: string, state: LaunchState)
    requires h.bridge.Idle? && Translate(wire, data) == Some(Target(client, state)) && CoarsePercent(state).Some?
    ensures var h' := Apply(h, Receive(wire, data));
            h'.bridge == Advancing(LaunchEvent(client, AppNow(h, client, data), state, CoarsePercent(state)))
            && h'.lastPct == h.lastPct && h'.accepted == h.accepted && h'.sent == h.sent
  {
    hide Translate;
  }

  lemma PublishesPercent(h: Hub, wire: string, data: Data, client: string, state: LaunchState)
    requires h.bridge.Idle? && Translate(wire, data) == Some(Target(client, state)) && CoarsePercent(state).Some?
    ensures var e := LaunchEvent(client, AppNow(h, client, data), state, CoarsePercent(state));
            Published(h, wire, data) == if h.Advances(e) then h.sent + [Ready(e, Some(|h.accepted|))] else h.sent
  {
    ReceivedTold(h, wire, data, client, state);
    hide Translate, Received, AppNow, CoarsePercent, Hub.Follow;
    var e := LaunchEvent(client, AppNow(h, client, data), state, CoarsePercent(state));
    SentIfAdvanced(Apply(h, Receive(wire, data)), e);
  }

  lemma SentIfAdvanced(h: Hub, e: LaunchEvent)
    requires h.bridge == Advancing(e) && e.percent.Some?
    ensures Apply(Apply(h, BridgeAdvances), BridgeSends).sent
         == if h.Advances(e) then h.sent + [Ready(e, Some(|h.accepted|))] else h.sent
  {}

  /** Pauses and resumptions, new sessions and ends are always told; a resumption only after a pause. */
  lemma AlwaysTold(h: Hub, ns: string, data: Data, client: string)
    requires h.bridge.Idle? && data.sessionId == data.clientId == Some(client)
    ensures var app := AppNow(h, client, data);
      && Published(h, ns + ("::" + "PauseStreamEvent"), data)
         == h.sent + [Ready(LaunchEvent(client, app, Paused, None), None)]
      && (client in h.paused ==>
            Published(h, ns + ("::" + "ResumeStreamEvent"), data)
            == h.sent + [Ready(LaunchEvent(client, app, Resumed, None), None)])
      && Published(h, ns + ("::" + "StreamSession"), data)
         == h.sent + [Ready(LaunchEvent(client, app, Connecting, Some(1)), Some(|h.accepted|))]
      && Published(h, ns + ("::" + "StopStreamEvent"), data)
         == h.sent + [Ready(LaunchEvent(client, app, Stopped, Some(0)), Some(|h.accepted|))]
      && Published(h, ns + ("::" + "DockerContainerStopped"), data)
         == h.sent + [Ready(LaunchEvent(client, app, Stopped, Some(0)), Some(|h.accepted|))]
  {
    NamesTranslate(ns, data, client);
    hide Translate, Published;
    PublishesPlain(h, ns + ("::" + "PauseStreamEvent"), data, client, Paused);
    if client in h.paused { PublishesPlain(h, ns + ("::" + "ResumeStreamEvent"), data, client, Resumed); }
    PublishesPercent(h, ns + ("::" + "StreamSession"), data, client, Connecting);
    PublishesPercent(h, ns + ("::" + "StopStreamEvent"), data, client, Stopped);
    PublishesPercent(h, ns + ("::" + "DockerContainerStopped"), data, client, Stopped);
  }

  /** A runner that starts, and a container that is there, are told if the client has not seen as much yet. */
  lemma StartTold(h: Hub, ns: string, data: Data, client: string)
    requires h.bridge.Idle? && data.sessionId == Some(client)
    ensures var (app, seen) := (AppNow(h, client, data), if client in h.lastPct then h.lastPct[client] else 0);
      && Published(h, ns + ("::" + "StartRunner"), data)
         == (if seen < 3 then h.sent + [Ready(LaunchEvent(client, app, Launching, Some(3)), Some(|h.accepted|))]
             else h.sent)
      && Published(h, ns + ("::" + "DockerContainerCreated"), data)
         == (if seen < 5 then h.sent + [Ready(LaunchEvent(client, app, ContainerStarted, Some(5)), Some(|h.accepted|))]
             else h.sent)
  {
    NamesTranslate(ns, data, client);
    hide Translate, Published;
    PublishesPercent(h, ns + ("::" + "StartRunner"), data, client, Launching);
    PublishesPercent(h, ns + ("::" + "DockerContainerCreated"), data, client, ContainerStarted);
  }

  lemma NamesTranslate(ns: string, data: Data, client: string)
    requires data.sessionId == Some(client)
    ensures Translate(ns + ("::" + "StartRunner"), data) == Some(Target(client, Launching))
    ensures Translate(ns + ("::" + "DockerContainerCreated"), data) == Some(Target(client, ContainerStarted))
    ensures Translate(ns + ("::" + "DockerContainerStopped"), data) == Some(Target(client, Stopped))
    ensures Translate(ns + ("::" + "StopStreamEvent"), data) == Some(Target(client, Stopped))
    ensures Translate(ns + ("::" + "PauseStreamEvent"), data) == Some(Target(client, Paused))
    ensures Translate(ns + ("::" + "ResumeStreamEvent"), data) == Some(Target(client, Resumed))
    ensures data.clientId.Some? ==>
              Translate(ns + ("::" + "StreamSession"), data) == Some(Target(data.clientId.value, Connecting))
  {
    KindsOfNames();
    NamesHaveNoColon();
    LeafOf(ns, "StartRunner");
    LeafOf(ns, "DockerContainerCreated");
    LeafOf(ns, "DockerContainerStopped");
    LeafOf(ns, "StopStreamEvent");
    LeafOf(ns, "PauseStreamEvent");
    LeafOf(ns, "ResumeStreamEvent");
    LeafOf(ns, "StreamSession");
    hide Leaf, KindOf;
  }

  /** A failure that the runner reports is told as one, whatever percentage the client has seen. */
  lemma FailureTold(h: Hub, container: string)
    requires container in h.followed && h.followed[container].pending.None?
    ensures var f := h.followed[container];
            Apply(Apply(h, Reports(container, Failure)), RunnerSends(container)).sent
            == h.sent + [Ready(LaunchEvent(f.client, f.app, Failed, None), None)]
  {}

  /** A percentage that the runner reports is told if it is a start or larger than the client's last. */
  lemma PercentTold(h: Hub, container: string, p: Percent)
    requires container in h.followed && h.followed[container].pending.None?
    ensures var f := h.followed[container];
            var e := LaunchEvent(f.client, f.app, if p >= 100 then Running else Starting, Some(p));
            Apply(Apply(h, Reports(container, Percentage(p))), RunnerSends(container)).sent
            == if p <= 1 || f.client !in h.lastPct || h.lastPct[f.client] < p
               then h.sent + [Ready(e, Some(|h.accepted|))] else h.sent
  {}

  /** A container is followed from its first event on, for the client and the app it was created with, until its
      runner is gone; an event that names it again changes nothing about that. */
  lemma FollowedOnce(h: Hub, ns: string, data: Data, client: string, container: string)
    requires h.bridge.Idle? && data.sessionId == Some(client) && data.containerId == Some(container)
    ensures var followed := Apply(h, Receive(ns + ("::" + "DockerContainerCreated"), data)).followed;
            followed == if container in h.followed then h.followed
                        else h.followed[container := Follower(client, AppNow(h, client, data), None)]
  {
    NamesTranslate(ns, data, client);
    hide Translate, CoarsePercent;
  }

  lemma FollowedUntilGone(h: Hub, container: string)
    requires container in h.followed && h.followed[container].pending.None?
    ensures Apply(h, RunnerGone(container)) == h.(followed := h.followed - {container})
  {}

  /** Which app an event without one is about: the one named last for the client, until it stops. */
  lemma AppRemembered(h: Hub, wire: string, data: Data, client: string)
    requires h.bridge.Idle?
    ensures var (t, apps) := (Translate(wire, data), Apply(h, Receive(wire, data)).apps);
      if t.None? || t.value.client != client || (t.value.state == Resumed && client !in h.paused) then
        (client in apps <==> client in h.apps) && (client in apps ==> apps[client] == h.apps[client])
      else if t.value.state == Stopped then client !in apps
      else if data.appId.Some? then client in apps && apps[client] == data.appId.value
      else (client in apps <==> client in h.apps) && (client in apps ==> apps[client] == h.apps[client])
  {
    hide Translate, CoarsePercent;
  }
}
