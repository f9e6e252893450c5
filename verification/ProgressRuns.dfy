/** What clients are told over every interleaving of the tasks. */
module ProgressRuns {
  import opened Wrappers
  import opened Progress

  // ---- percentages, in the order the ratchet accepted them

  /** The last percentage of a client among the accepted ones. */
  function LastAccepted(es: seq<LaunchEvent>, client: string): Option<Percent> {
    if es == [] then None else
    var e := es[|es| - 1];
    if e.client == client then e.percent else LastAccepted(es[..|es| - 1], client)
  }

  predicate Rises(last: Option<Percent>, p: Percent) {
    p <= 1 || last.None? || last.value < p
  }

  /** Every accepted percentage starts anew or is larger than the client's last. */
  ghost predicate Ratcheted(es: seq<LaunchEvent>) {
    forall n :: 0 <= n < |es| ==> es[n].percent.Some? && Rises(LastAccepted(es[..n], es[n].client), es[n].percent.value)
  }

  /** No new start of the client was accepted after the earlier of two tickets and up to the later. */
  ghost predicate SameSession(es: seq<LaunchEvent>, a: nat, b: nat)
    requires a < |es| && b < |es| && Ratcheted(es)
  {
    forall n :: (a < n <= b || b < n <= a) && es[n].client == es[a].client ==> es[n].percent.value > 1
  }

  lemma LastAcceptedGrows(es: seq<LaunchEvent>, e: LaunchEvent, client: string)
    ensures LastAccepted(es + [e], client) == if e.client == client then e.percent else LastAccepted(es, client)
  {
    assert (es + [e])[..|es|] == es;
  }

  /** Within a session percentages rise with the tickets. */
  lemma {:induction false} SessionRises(es: seq<LaunchEvent>, a: nat, b: nat)
    requires Ratcheted(es) && a < b < |es| && es[a].client == es[b].client && SameSession(es, a, b)
    ensures es[a].percent.value < es[b].percent.value
  {
    var last := LastAccepted(es[..b], es[b].client);
    var m := LastTicket(es, a, b);
    assert Rises(LastAccepted(es[..b], es[b].client), es[b].percent.value);
    if m > a { SessionRises(es, a, m); }
  }

  /** The ticket that holds the client's last percentage before `b`, not before `a`. */
  lemma {:induction false} LastTicket(es: seq<LaunchEvent>, a: nat, b: nat) returns (m: nat)
    requires Ratcheted(es) && a < b <= |es|
    ensures a <= m < b && es[m].client == es[a].client && LastAccepted(es[..b], es[a].client) == es[m].percent
    decreases b
  {
    assert es[..b][..b - 1] == es[..b - 1];
    if es[b - 1].client == es[a].client { m := b - 1; } else { m := LastTicket(es, a, b - 1); }
  }

  // ---- what is sent

  /** The next percentage that the client of `sent[i]` was sent is `sent[j]`. */
  ghost predicate NextFor(sent: seq<Ready>, i: nat, j: nat) {
    i < j < |sent| && sent[i].event.client == sent[j].event.client
    && sent[i].event.percent.Some? && sent[j].event.percent.Some?
    && forall k :: i < k < j && sent[k].event.client == sent[i].event.client ==> sent[k].event.percent.None?
  }

  /** What clients see never goes backwards within a session. */
  ghost predicate NeverBackwards(sent: seq<Ready>) {
    forall i: nat, j: nat :: NextFor(sent, i, j) ==> Rises(sent[i].event.percent, sent[j].event.percent.value)
  }

  /** Tickets say where an event stands among the accepted ones. */
  ghost predicate Ticketed(es: seq<LaunchEvent>, r: Ready) {
    if r.event.percent.None? then r.ticket.None?
    else r.ticket.Some? && r.ticket.value < |es| && es[r.ticket.value] == r.event
  }

  /** Every task holds what it will send, and the ratchet what was accepted last. */
  ghost predicate Consistent(h: Hub) {
    && Ratcheted(h.accepted)
    && (forall c :: LastAccepted(h.accepted, c) == if c in h.lastPct then Some(h.lastPct[c]) else None)
    && (forall i :: 0 <= i < |h.sent| ==> Ticketed(h.accepted, h.sent[i]))
    && (h.bridge.Sending? ==> Ticketed(h.accepted, h.bridge.ready))
    && (forall c <- h.followed :: h.followed[c].pending.Some? ==> Ticketed(h.accepted, h.followed[c].pending.value))
  }

  /** Each percentage above a start was accepted after the one sent before it, if in the same session; across
      sessions, one of which then lags behind, it is larger. */
  ghost predicate OnTime(h: Hub)
    requires Consistent(h)
  {
    forall i: nat, j: nat :: NextFor(h.sent, i, j) && h.sent[j].event.percent.value > 1 ==>
      if SameSession(h.accepted, h.sent[i].ticket.value, h.sent[j].ticket.value)
      then h.sent[i].ticket.value < h.sent[j].ticket.value
      else h.sent[i].event.percent.value < h.sent[j].event.percent.value
  }

  lemma AcceptKeeps(h: Hub, e: LaunchEvent)
    requires Consistent(h) && e.percent.Some? && h.Advances(e)
    ensures Consistent(h.Accept(e)) && Ticketed(h.Accept(e).accepted, Ready(e, Some(|h.accepted|)))
  {
    hide LastAccepted;
    var es := h.accepted + [e];
    assert es[..|h.accepted|] == h.accepted;
    assert forall n :: 0 <= n < |h.accepted| ==> es[n] == h.accepted[n] && es[..n] == h.accepted[..n];
    forall c ensures LastAccepted(es, c) == if e.client == c then e.percent else LastAccepted(h.accepted, c) {
      LastAcceptedGrows(h.accepted, e, c);
    }
  }

  lemma StepConsistent(h: Hub, s: Step)
    requires Consistent(h)
    ensures Consistent(Apply(h, s))
  {
    hide Ratcheted, LastAccepted, Ticketed, Hub.Advances;
    match s {
      case BridgeAdvances =>
        if h.bridge.Advancing? && h.bridge.event.percent.Some? && h.Advances(h.bridge.event) {
          AcceptKeeps(h, h.bridge.event);
        } else {
          PlainTicket(h);
        }
      case Reports(c, update) =>
        if c in h.followed {
          var e := UpdateEvent(h.followed[c], update);
          if e.percent.Some? && h.Advances(e) { AcceptKeeps(h, e); } else { PlainTicket(h); }
        }
      case _ =>
    }
  }

  lemma PlainTicket(h: Hub)
    ensures forall e: LaunchEvent :: e.percent.None? ==> Ticketed(h.accepted, Ready(e, None))
  {}

  lemma {:induction false} RunConsistent(steps: seq<Step>)
    ensures Consistent(Run(steps))
    decreases |steps|
  {
    hide Apply, Ratcheted, Ticketed;
    if steps == [] {
      Begins();
    } else {
      RunConsistent(steps[..|steps| - 1]);
      StepConsistent(Run(steps[..|steps| - 1]), steps[|steps| - 1]);
    }
  }

  lemma Begins()
    ensures Consistent(INITIAL)
  {}

  /** Over every interleaving: clients never see progress go backwards if and only if everything is sent on time. */
  lemma {:induction false} NeverBackwardsExactly(steps: seq<Step>)
    ensures Consistent(Run(steps))
    ensures NeverBackwards(Run(steps).sent) <==> OnTime(Run(steps))
  {
    hide Run, Ratcheted, SameSession;
    RunConsistent(steps);
    var h := Run(steps);
    forall i: nat, j: nat | NextFor(h.sent, i, j) && h.sent[j].event.percent.value > 1
      ensures SameSession(h.accepted, h.sent[i].ticket.value, h.sent[j].ticket.value) ==>
                (h.sent[i].ticket.value < h.sent[j].ticket.value
                 <==> h.sent[i].event.percent.value < h.sent[j].event.percent.value)
    {
      assert Ticketed(h.accepted, h.sent[i]) && Ticketed(h.accepted, h.sent[j]);
      InSession(h.accepted, h.sent[i].ticket.value, h.sent[j].ticket.value);
    }
  }

  lemma InSession(es: seq<LaunchEvent>, a: nat, b: nat)
    requires Ratcheted(es) && a < |es| && b < |es| && es[a].client == es[b].client
    ensures SameSession(es, a, b) ==> (a < b <==> es[a].percent.value < es[b].percent.value)
  {
    hide Ratcheted;
    if SameSession(es, a, b) {
      if a < b { SessionRises(es, a, b); } else if b < a {
        SessionsMirror(es, a, b);
        SessionRises(es, b, a);
      }
    }
  }

  lemma SessionsMirror(es: seq<LaunchEvent>, a: nat, b: nat)
    requires Ratcheted(es) && a < |es| && b < |es| && es[a].client == es[b].client && SameSession(es, a, b)
    ensures SameSession(es, b, a)
  {}

  // ---- when percentages are sent in turn

  /** The ticket is the next one of the client's after `a`. */
  ghost predicate NextTicket(es: seq<LaunchEvent>, a: nat, b: nat)
    requires b < |es|
  {
    a < b && forall n :: a < n < b ==> es[n].client != es[b].client
  }

  /** Each client's percentages are sent in the order of their tickets, no earlier accepted one being left unsent. */
  ghost predicate InTurn(h: Hub)
    requires Consistent(h)
  {
    forall i: nat, j: nat :: NextFor(h.sent, i, j) ==>
      NextTicket(h.accepted, h.sent[i].ticket.value, h.sent[j].ticket.value)
  }

  lemma NextTicketRises(es: seq<LaunchEvent>, a: nat, b: nat)
    requires Ratcheted(es) && b < |es| && NextTicket(es, a, b) && es[a].client == es[b].client
    ensures Rises(es[a].percent, es[b].percent.value)
  {
    var m := LastTicket(es, a, b);
    assert m == a;
  }

  /** Whatever the values and the sessions: percentages that are sent in turn never go backwards. */
  lemma InTurnNeverBackwards(steps: seq<Step>)
    ensures Consistent(Run(steps))
    ensures InTurn(Run(steps)) ==> NeverBackwards(Run(steps).sent)
  {
    hide Run, Ratcheted, NextTicket;
    RunConsistent(steps);
    var h := Run(steps);
    if InTurn(h) {
      forall i: nat, j: nat | NextFor(h.sent, i, j)
        ensures Rises(h.sent[i].event.percent, h.sent[j].event.percent.value)
      {
        assert Ticketed(h.accepted, h.sent[i]) && Ticketed(h.accepted, h.sent[j]);
        NextTicketRises(h.accepted, h.sent[i].ticket.value, h.sent[j].ticket.value);
      }
    }
  }

  // ---- when nothing comes between ratchet and sending

  /** Where an event may wait between ratchet and sending: in the bridge, or in the follower of a container. */
  datatype Place = InBridge | InFollower(container: string)

  function Holding(h: Hub, p: Place): Option<Ready> {
    match p
    case InBridge => if h.bridge.Sending? then Some(h.bridge.ready) else None
    case InFollower(c) => if c in h.followed then h.followed[c].pending else None
  }

  /** A percentage of the client waits there. */
  ghost predicate WaitsIn(h: Hub, p: Place, client: string) {
    Holding(h, p).Some? && Holding(h, p).value.event.percent.Some? && Holding(h, p).value.event.client == client
  }

  ghost predicate Waits(h: Hub, client: string) { exists p :: WaitsIn(h, p, client) }

  /** The client whose percentage a step puts to the ratchet. */
  ghost function Asks(h: Hub, s: Step): Option<string> {
    match s
    case BridgeAdvances =>
      if h.bridge.Advancing? && h.bridge.event.percent.Some? then Some(h.bridge.event.client) else None
    case Reports(c, update) =>
      if c in h.followed && h.followed[c].pending.None? && update.Percentage? then Some(h.followed[c].client) else None
    case _ => None
  }

  /** A percentage is put to the ratchet only when none of the client's waits to be sent. */
  ghost predicate Prompt(h: Hub, s: Step) {
    Asks(h, s).Some? ==> !Waits(h, Asks(h, s).value)
  }

  ghost predicate AllPrompt(steps: seq<Step>) {
    forall k {:trigger steps[k]} :: 0 <= k < |steps| ==> Prompt(Run(steps[..k]), steps[k])
  }

  /** The ticket of the client's last accepted percentage. */
  function Latest(es: seq<LaunchEvent>, client: string): Option<nat> {
    if es == [] then None else
    if es[|es| - 1].client == client then Some(|es| - 1) else Latest(es[..|es| - 1], client)
  }

  /** The ticket of the percentage that the client was sent last. */
  function LastSent(sent: seq<Ready>, client: string): Option<nat> {
    if sent == [] then None else
    var r := sent[|sent| - 1];
    if r.event.client == client && r.event.percent.Some? then r.ticket else LastSent(sent[..|sent| - 1], client)
  }

  /** A percentage comes right after the client's last in the order of the tickets. */
  ghost predicate Fits(es: seq<LaunchEvent>, sent: seq<Ready>, r: Ready) {
    r.event.percent.Some? ==>
      r.ticket.Some? && r.ticket.value < |es|
      && LastSent(sent, r.event.client) == Latest(es[..r.ticket.value], r.event.client)
  }

  /** What a waiting percentage of a client must be: the latest accepted, and the next one to be sent. */
  ghost predicate Due(h: Hub, r: Ready) {
    r.event.percent.Some? ==> r.ticket == Latest(h.accepted, r.event.client) && Fits(h.accepted, h.sent, r)
  }

  /** At most one percentage of each client waits; if none does, the latest accepted has been sent. */
  ghost predicate CaughtUp(h: Hub) {
    && AllFit(h.accepted, h.sent)
    && (forall p :: Holding(h, p).Some? ==> Due(h, Holding(h, p).value))
    && (forall client :: !Waits(h, client) ==> LastSent(h.sent, client) == Latest(h.accepted, client))
    && (forall p, q, client :: WaitsIn(h, p, client) && WaitsIn(h, q, client) ==> p == q)
  }

  ghost predicate AllFit(es: seq<LaunchEvent>, sent: seq<Ready>) {
    forall n :: 0 <= n < |sent| ==> Fits(es, sent[..n], sent[n])
  }

  lemma LatestGrows(es: seq<LaunchEvent>, e: LaunchEvent, client: string)
    ensures Latest(es + [e], client) == if e.client == client then Some(|es|) else Latest(es, client)
  {
    assert (es + [e])[..|es|] == es;
  }

  lemma FitsLater(es: seq<LaunchEvent>, e: LaunchEvent, sent: seq<Ready>, r: Ready)
    requires Fits(es, sent, r)
    ensures Fits(es + [e], sent, r)
  {
    hide Latest, LastSent;
    if r.event.percent.Some? { assert (es + [e])[..r.ticket.value] == es[..r.ticket.value]; }
  }

  lemma AllFitLater(es: seq<LaunchEvent>, e: LaunchEvent, sent: seq<Ready>)
    requires AllFit(es, sent)
    ensures AllFit(es + [e], sent)
  {
    hide Fits;
    forall n | 0 <= n < |sent| ensures Fits(es + [e], sent[..n], sent[n]) { FitsLater(es, e, sent[..n], sent[n]); }
  }

  lemma LastSentGrows(sent: seq<Ready>, r: Ready, client: string)
    ensures LastSent(sent + [r], client) ==
              if r.event.client == client && r.event.percent.Some? then r.ticket else LastSent(sent, client)
  {
    assert (sent + [r])[..|sent|] == sent;
  }

  lemma SendGrows(es: seq<LaunchEvent>, sent: seq<Ready>, r: Ready)
    requires AllFit(es, sent) && Fits(es, sent, r)
    ensures AllFit(es, sent + [r])
  {
    hide Fits;
    var all := sent + [r];
    assert all[..|sent|] == sent;
    assert forall n :: 0 <= n < |sent| ==> all[n] == sent[n] && all[..n] == sent[..n];
  }

  /** The places hold what they held, but for one. */
  ghost predicate OnlyAt(h: Hub, h': Hub, p: Place, r: Option<Ready>) {
    forall q :: Holding(h', q) == if q == p then r else Holding(h, q)
  }

  lemma AcceptCatches(h: Hub, h': Hub, p: Place, e: LaunchEvent)
    requires CaughtUp(h) && e.percent.Some? && !Waits(h, e.client) && Holding(h, p).None?
    requires h'.sent == h.sent && h'.accepted == h.accepted + [e]
    requires OnlyAt(h, h', p, Some(Ready(e, Some(|h.accepted|))))
    ensures CaughtUp(h')
  {
    hide Holding, LastSent, Latest, AllFit, Fits;
    AllFitLater(h.accepted, e, h.sent);
    assert forall q, client :: WaitsIn(h', q, client) <==> WaitsIn(h, q, client) || (q == p && client == e.client);
    assert forall q :: !WaitsIn(h, q, e.client);
    assert WaitsIn(h', p, e.client);
    forall client | !Waits(h', client) ensures LastSent(h.sent, client) == Latest(h'.accepted, client) {
      assert forall q :: !WaitsIn(h', q, client);
      LatestGrows(h.accepted, e, client);
    }
    forall q | Holding(h', q).Some? ensures Due(h', Holding(h', q).value) {
      if q == p {
        NewIsDue(h, h', e);
      } else {
        assert !WaitsIn(h, q, e.client);
        StaysDue(h, h', e, Holding(h, q).value);
      }
    }
  }

  lemma NewIsDue(h: Hub, h': Hub, e: LaunchEvent)
    requires LastSent(h.sent, e.client) == Latest(h.accepted, e.client)
    requires h'.sent == h.sent && h'.accepted == h.accepted + [e]
    ensures Due(h', Ready(e, Some(|h.accepted|)))
  {
    hide LastSent, Latest;
    LatestGrows(h.accepted, e, e.client);
    assert (h.accepted + [e])[..|h.accepted|] == h.accepted;
  }

  lemma StaysDue(h: Hub, h': Hub, e: LaunchEvent, r: Ready)
    requires Due(h, r) && (r.event.percent.Some? ==> r.event.client != e.client)
    requires h'.sent == h.sent && h'.accepted == h.accepted + [e]
    ensures Due(h', r)
  {
    hide LastSent, Latest, Fits;
    LatestGrows(h.accepted, e, r.event.client);
    if r.event.percent.Some? { FitsLater(h.accepted, e, h.sent, r); }
  }

  lemma PlainCatches(h: Hub, h': Hub, p: Place, r: Option<Ready>)
    requires CaughtUp(h) && (r.Some? ==> r.value.event.percent.None?) && Holding(h, p).None?
    requires h'.sent == h.sent && h'.accepted == h.accepted && OnlyAt(h, h', p, r)
    ensures CaughtUp(h')
  {
    hide Holding, LastSent, Latest, AllFit, Fits;
    assert forall q, client :: WaitsIn(h', q, client) <==> WaitsIn(h, q, client);
    forall client ensures Waits(h', client) <==> Waits(h, client) {}
  }

  lemma SendCatches(h: Hub, h': Hub, p: Place, r: Ready)
    requires CaughtUp(h) && Holding(h, p) == Some(r)
    requires h'.sent == h.sent + [r] && h'.accepted == h.accepted && OnlyAt(h, h', p, None)
    ensures CaughtUp(h')
  {
    hide Holding, LastSent, Latest, AllFit, Fits;
    assert Due(h, r);
    if r.event.percent.None? { PlainFits(h.accepted, h.sent, r); }
    SendGrows(h.accepted, h.sent, r);
    assert forall q, client :: WaitsIn(h', q, client) <==> WaitsIn(h, q, client) && q != p;
    forall client | !Waits(h', client) ensures LastSent(h'.sent, client) == Latest(h.accepted, client) {
      LastSentGrows(h.sent, r, client);
      if !(r.event.percent.Some? && r.event.client == client) {
        forall q ensures !WaitsIn(h, q, client) { assert !WaitsIn(h', q, client); }
      }
    }
    forall q | Holding(h', q).Some? ensures Due(h', Holding(h', q).value) {
      OthersStayDue(h, h', p, q, r);
    }
  }

  lemma PlainFits(es: seq<LaunchEvent>, sent: seq<Ready>, r: Ready)
    ensures r.event.percent.None? ==> Fits(es, sent, r)
  {}

  lemma OthersStayDue(h: Hub, h': Hub, p: Place, q: Place, r: Ready)
    requires CaughtUp(h) && Holding(h, p) == Some(r) && q != p && Holding(h, q).Some?
    requires h'.accepted == h.accepted && h'.sent == h.sent + [r]
    ensures Due(h', Holding(h, q).value)
  {
    hide Holding, LastSent, Latest, AllFit;
    var e := Holding(h, q).value.event;
    LastSentGrows(h.sent, r, e.client);
    if e.percent.Some? {
      assert WaitsIn(h, q, e.client) && (WaitsIn(h, p, e.client) ==> p == q);
    }
  }

  lemma BridgeCatches(h: Hub)
    requires CaughtUp(h) && Prompt(h, BridgeAdvances) && h.bridge.Advancing?
    ensures CaughtUp(Apply(h, BridgeAdvances))
  {
    hide CaughtUp, Waits, Hub.Advances;
    var h', e := Apply(h, BridgeAdvances), h.bridge.event;
    if e.percent.None? {
      PlainCatches(h, h', InBridge, Some(Ready(e, None)));
    } else if h.Advances(e) {
      AcceptCatches(h, h', InBridge, e);
    } else {
      PlainCatches(h, h', InBridge, None);
    }
  }

  lemma FollowerCatches(h: Hub, c: string, update: RunnerUpdate)
    requires CaughtUp(h) && Prompt(h, Reports(c, update)) && c in h.followed && h.followed[c].pending.None?
    ensures CaughtUp(Apply(h, Reports(c, update)))
  {
    hide CaughtUp, Waits, Hub.Advances;
    var h', e := Apply(h, Reports(c, update)), UpdateEvent(h.followed[c], update);
    if e.percent.None? {
      PlainCatches(h, h', InFollower(c), Some(Ready(e, None)));
    } else if h.Advances(e) {
      AcceptCatches(h, h', InFollower(c), e);
    }
  }

  lemma StepCatches(h: Hub, s: Step)
    requires CaughtUp(h) && Prompt(h, s)
    ensures CaughtUp(Apply(h, s))
  {
    hide CaughtUp, Received, Waits, Hub.Advances, Hub.Accept;
    match s {
      case Receive(wire, data) => ReceiveCatches(h, wire, data);
      case BridgeAdvances => if h.bridge.Advancing? { BridgeCatches(h); }
      case BridgeSends =>
        if h.bridge.Sending? { SendCatches(h, Apply(h, s), InBridge, h.bridge.ready); }
      case Reports(c, update) =>
        if c in h.followed && h.followed[c].pending.None? { FollowerCatches(h, c, update); }
      case RunnerSends(c) =>
        if c in h.followed && h.followed[c].pending.Some? {
          SendCatches(h, Apply(h, s), InFollower(c), h.followed[c].pending.value);
        }
      case RunnerGone(c) =>
        if c in h.followed && h.followed[c].pending.None? { PlainCatches(h, Apply(h, s), InFollower(c), None); }
    }
  }

  lemma ReceiveCatches(h: Hub, wire: string, data: Data)
    requires CaughtUp(h)
    ensures CaughtUp(Apply(h, Receive(wire, data)))
  {
    hide CaughtUp;
    if h.bridge.Idle? { PlainCatches(h, Received(h, wire, data), InBridge, None); }
  }

  lemma {:induction false} PromptRunsCatchUp(steps: seq<Step>)
    requires AllPrompt(steps)
    ensures CaughtUp(Run(steps))
    decreases |steps|
  {
    hide Apply, Prompt, CaughtUp;
    if steps == [] {
      NothingWaits();
    } else {
      var n := |steps| - 1;
      assert forall k :: 0 <= k < n ==> steps[..n][..k] == steps[..k] && steps[..n][k] == steps[k];
      PromptRunsCatchUp(steps[..n]);
      assert Prompt(Run(steps[..n]), steps[n]);
      StepCatches(Run(steps[..n]), steps[n]);
    }
  }

  lemma NothingWaits()
    ensures CaughtUp(INITIAL)
  {}

  lemma {:induction false} LastSentAt(sent: seq<Ready>, i: nat, j: nat)
    requires i < j <= |sent| && sent[i].event.percent.Some?
    requires forall k :: i < k < j && sent[k].event.client == sent[i].event.client ==> sent[k].event.percent.None?
    ensures LastSent(sent[..j], sent[i].event.client) == sent[i].ticket
    decreases j
  {
    assert sent[..j][..j - 1] == sent[..j - 1];
    if i < j - 1 { LastSentAt(sent, i, j - 1); }
  }

  lemma {:induction false} LatestIsNext(es: seq<LaunchEvent>, a: nat, b: nat, client: string)
    requires b <= |es| && Latest(es[..b], client) == Some(a)
    ensures a < b && forall n :: a < n < b ==> es[n].client != client
    decreases b
  {
    assert es[..b][..b - 1] == es[..b - 1];
    if es[b - 1].client != client { LatestIsNext(es, a, b - 1, client); }
  }

  /** If no percentage is put to the ratchet while another of its client waits, all are sent in turn. */
  lemma PromptInTurn(steps: seq<Step>)
    requires AllPrompt(steps)
    ensures Consistent(Run(steps)) && InTurn(Run(steps))
  {
    hide Run, AllPrompt, Ratcheted, Latest, LastSent;
    PromptRunsCatchUp(steps);
    RunConsistent(steps);
    var h := Run(steps);
    forall i: nat, j: nat | NextFor(h.sent, i, j)
      ensures NextTicket(h.accepted, h.sent[i].ticket.value, h.sent[j].ticket.value)
    {
      NextFits(h, i, j);
    }
  }

  lemma NextFits(h: Hub, i: nat, j: nat)
    requires Consistent(h) && AllFit(h.accepted, h.sent) && NextFor(h.sent, i, j)
    ensures NextTicket(h.accepted, h.sent[i].ticket.value, h.sent[j].ticket.value)
  {
    hide Ratcheted, Latest, LastSent, LastAccepted;
    assert Ticketed(h.accepted, h.sent[i]) && Ticketed(h.accepted, h.sent[j]);
    LastSentAt(h.sent, i, j);
    assert Fits(h.accepted, h.sent[..j], h.sent[j]);
    LatestIsNext(h.accepted, h.sent[i].ticket.value, h.sent[j].ticket.value, h.sent[j].event.client);
  }

  /** So clients then never see progress go backwards. */
  lemma PromptNeverBackwards(steps: seq<Step>)
    requires AllPrompt(steps)
    ensures NeverBackwards(Run(steps).sent)
  {
    PromptInTurn(steps);
    InTurnNeverBackwards(steps);
  }

  // ---- a follower overtakes the bridge

  const CREATED := Receive("wolf::core::events" + ("::" + "DockerContainerCreated"),
                           Data(None, Some("c"), None, Some("k")))

  const BRIDGED := Ready(LaunchEvent("c", None, ContainerStarted, Some(5)), Some(0))

  const FOLLOWED := Ready(LaunchEvent("c", None, Starting, Some(10)), Some(1))

  /** The container's event has passed the ratchet with 5, the runner's 10 too, and both wait. */
  function Overlapping(): Hub {
    Hub(map[], {}, map["c" := 10], map["k" := Follower("c", None, Some(FOLLOWED))], Sending(BRIDGED),
        [BRIDGED.event, FOLLOWED.event], [])
  }

  lemma CreatedTranslates()
    ensures Translate(CREATED.wire, CREATED.data) == Some(Target("c", ContainerStarted))
  {
    LeafOf("wolf::core::events", "DockerContainerCreated");
    NamesHaveNoColon();
    KindsOfNames();
    hide Leaf, KindOf;
  }

  lemma BothAccepted()
    ensures Apply(Apply(Apply(INITIAL, CREATED), BridgeAdvances), Reports("k", Percentage(10))) == Overlapping()
  {
    var h1 := Apply(INITIAL, CREATED);
    CreatedTranslates();
    hide Leaf, KindOf, Translate;
    assert h1.bridge == Advancing(BRIDGED.event) && h1.followed == map["k" := Follower("c", None, None)];
    var h2 := Apply(h1, BridgeAdvances);
    assert h2.bridge == Sending(BRIDGED) && h2.lastPct == map["c" := 5] && h2.accepted == [BRIDGED.event];
  }

  /** The 10 is sent first. */
  lemma FollowerOvertakes()
    ensures var h := Apply(Apply(Apply(INITIAL, CREATED), BridgeAdvances), Reports("k", Percentage(10)));
            var sent := Apply(Apply(h, RunnerSends("k")), BridgeSends).sent;
            |sent| == 2 && sent[0].event.percent == Some(10) && sent[1].event.percent == Some(5)
            && sent[0].event.client == "c" && sent[1].event.client == "c" && !NeverBackwards(sent)
  {
    BothAccepted();
    var h := Overlapping();
    assert Apply(Apply(h, RunnerSends("k")), BridgeSends).sent == [FOLLOWED, BRIDGED];
    assert NextFor([FOLLOWED, BRIDGED], 0, 1);
  }

  /** The 10 passes while the 5 waits; if the 5 is sent first all the same, the two are sent in turn. */
  lemma OverlapInTurn()
    ensures var h := Apply(Apply(INITIAL, CREATED), BridgeAdvances);
            var h' := Apply(Apply(Apply(h, Reports("k", Percentage(10))), BridgeSends), RunnerSends("k"));
            !Prompt(h, Reports("k", Percentage(10))) && |h'.sent| == 2 && Consistent(h') && InTurn(h')
  {
    var h1 := Apply(INITIAL, CREATED);
    var h2 := Apply(h1, BridgeAdvances);
    NotPrompt();
    BothAccepted();
    hide *;
    SentInTurn();
    Begins();
    StepConsistent(INITIAL, CREATED);
    StepConsistent(h1, BridgeAdvances);
    StepConsistent(h2, Reports("k", Percentage(10)));
    StepConsistent(Overlapping(), BridgeSends);
    StepConsistent(Apply(Overlapping(), BridgeSends), RunnerSends("k"));
  }

  lemma NotPrompt()
    ensures !Prompt(Apply(Apply(INITIAL, CREATED), BridgeAdvances), Reports("k", Percentage(10)))
  {
    var h1 := Apply(INITIAL, CREATED);
    var h2 := Apply(h1, BridgeAdvances);
    CreatedTranslates();
    hide Leaf, KindOf, Translate;
    assert h2.bridge == Sending(BRIDGED);
    assert WaitsIn(h2, InBridge, "c");
  }

  lemma SentInTurn()
    ensures var h := Apply(Apply(Overlapping(), BridgeSends), RunnerSends("k"));
            |h.sent| == 2 && (Consistent(h) ==> InTurn(h))
  {
    hide Consistent, Ratcheted;
    var h := Apply(Apply(Overlapping(), BridgeSends), RunnerSends("k"));
    assert h.sent == [BRIDGED, FOLLOWED] && h.accepted == [BRIDGED.event, FOLLOWED.event];
  }

  // ---- pauses and resumptions

  predicate Marks(s: LaunchState) { s == Paused || s == Resumed || s == Stopped }

  /** The last pause, resumption or stop sent to a client. */
  function LastMark(sent: seq<Ready>, client: string): Option<LaunchState> {
    if sent == [] then None else
    var e := sent[|sent| - 1].event;
    if e.client == client && Marks(e.state) then Some(e.state) else LastMark(sent[..|sent| - 1], client)
  }

  /** The event that the bridge is about to put to the ratchet or to send. */
  function InHand(b: Bridge): Option<LaunchEvent> {
    match b case Idle => None case Advancing(e) => Some(e) case Sending(r) => Some(r.event)
  }

  /** The last mark of a client, the one in hand included. */
  function MarkSoFar(h: Hub, client: string): Option<LaunchState> {
    var e := InHand(h.bridge);
    if e.Some? && e.value.client == client && Marks(e.value.state) then Some(e.value.state)
    else LastMark(h.sent, client)
  }

  ghost predicate MayResume(sent: seq<Ready>, e: LaunchEvent) {
    e.state == Resumed ==> LastMark(sent, e.client) == Some(Paused)
  }

  ghost predicate ResumesAnswer(sent: seq<Ready>) {
    forall n :: 0 <= n < |sent| ==> MayResume(sent[..n], sent[n].event)
  }

  /** The set of paused clients is what the events tell; marks come from the bridge only, and none is dropped. */
  ghost predicate PausesKnown(h: Hub) {
    && ResumesAnswer(h.sent)
    && (InHand(h.bridge).Some? ==> MayResume(h.sent, InHand(h.bridge).value))
    && (forall c :: c in h.paused <==> MarkSoFar(h, c) == Some(Paused))
    && (forall c <- h.followed :: h.followed[c].pending.Some? ==> !Marks(h.followed[c].pending.value.event.state))
    && (h.bridge.Advancing? && Marks(h.bridge.event.state) ==>
        h.bridge.event.percent.None? || h.bridge.event.percent.value <= 1)
  }

  lemma MarksGrow(sent: seq<Ready>, r: Ready)
    ensures forall c ::
      LastMark(sent + [r], c) ==
        if r.event.client == c && Marks(r.event.state) then Some(r.event.state) else LastMark(sent, c)
    ensures ResumesAnswer(sent) && MayResume(sent, r.event) ==> ResumesAnswer(sent + [r])
  {
    var all := sent + [r];
    assert all[..|sent|] == sent;
    assert forall n :: 0 <= n < |sent| ==> all[n] == sent[n] && all[..n] == sent[..n];
  }

  lemma BridgePauses(h: Hub)
    requires PausesKnown(h) && h.bridge.Advancing?
    ensures PausesKnown(Apply(h, BridgeAdvances))
  {
    hide LastMark, ResumesAnswer, Hub.Advances;
    if h.bridge.event.percent.Some? { AdvancesLow(h, h.bridge.event); }
  }

  lemma SendPauses(h: Hub, h': Hub, r: Ready)
    requires PausesKnown(h) && h'.paused == h.paused && h'.sent == h.sent + [r]
    requires (h.bridge == Sending(r) && h'.bridge == Idle) || (h'.bridge == h.bridge && !Marks(r.event.state))
    requires forall c <- h'.followed :: h'.followed[c].pending.Some? ==>
      c in h.followed && h'.followed[c] == h.followed[c]
    ensures PausesKnown(h')
  {
    hide LastMark, ResumesAnswer;
    MarksGrow(h.sent, r);
    assert forall c :: MarkSoFar(h', c) == MarkSoFar(h, c);
  }

  lemma StepPauses(h: Hub, s: Step)
    requires PausesKnown(h)
    ensures PausesKnown(Apply(h, s))
  {
    match s {
      case Receive(wire, data) => if h.bridge.Idle? { ReceivePauses(h, wire, data); }
      case BridgeAdvances => if h.bridge.Advancing? { BridgePauses(h); }
      case BridgeSends => if h.bridge.Sending? { SendPauses(h, Apply(h, s), h.bridge.ready); }
      case Reports(c, update) => ReportPauses(h, c, update);
      case RunnerSends(c) =>
        hide LastMark, ResumesAnswer;
        if c in h.followed && h.followed[c].pending.Some? { SendPauses(h, Apply(h, s), h.followed[c].pending.value); }
      case RunnerGone(c) => hide LastMark, ResumesAnswer;
    }
  }

  lemma ReportPauses(h: Hub, c: string, update: RunnerUpdate)
    requires PausesKnown(h)
    ensures PausesKnown(Apply(h, Reports(c, update)))
  {
    hide LastMark, ResumesAnswer, Hub.Advances;
  }

  lemma AdvancesLow(h: Hub, e: LaunchEvent)
    requires e.percent.Some?
    ensures e.percent.value <= 1 ==> h.Advances(e)
  {}

  lemma ReceivePauses(h: Hub, wire: string, data: Data)
    requires PausesKnown(h) && h.bridge.Idle?
    ensures PausesKnown(Received(h, wire, data))
  {
    hide LastMark, ResumesAnswer;
    var t := Translate(wire, data);
    var h' := Received(h, wire, data);
    if t.Some? && h' != h {
      var Target(client, state) := t.value;
      assert forall c :: c != client ==> (c in h'.paused <==> c in h.paused);
    }
  }

  lemma {:induction false} RunPauses(steps: seq<Step>)
    ensures PausesKnown(Run(steps))
    decreases |steps|
  {
    hide Apply, PausesKnown;
    if steps == [] {
      NonePaused();
    } else {
      RunPauses(steps[..|steps| - 1]);
      StepPauses(Run(steps[..|steps| - 1]), steps[|steps| - 1]);
    }
  }

  lemma NonePaused()
    ensures PausesKnown(INITIAL)
  {}

  /** Over every interleaving: a resumption answers a pause, with no resumption or stop of that client between. */
  lemma ResumedAfterPaused(steps: seq<Step>, j: nat) returns (i: nat)
    requires j < |Run(steps).sent| && Run(steps).sent[j].event.state == Resumed
    ensures var sent := Run(steps).sent;
            i < j && sent[i].event.client == sent[j].event.client && sent[i].event.state == Paused
            && forall k :: i < k < j && sent[k].event.client == sent[j].event.client ==> !Marks(sent[k].event.state)
  {
    hide Run, LastMark;
    RunPauses(steps);
    var sent := Run(steps).sent;
    assert MayResume(sent[..j], sent[j].event);
    i := MarkAt(sent, j, sent[j].event.client);
  }

  lemma {:induction false} MarkAt(sent: seq<Ready>, n: nat, client: string) returns (i: nat)
    requires n <= |sent| && LastMark(sent[..n], client).Some?
    ensures i < n && sent[i].event.client == client && Some(sent[i].event.state) == LastMark(sent[..n], client)
    ensures forall k :: i < k < n && sent[k].event.client == client ==> !Marks(sent[k].event.state)
    decreases n
  {
    assert sent[..n][..n - 1] == sent[..n - 1];
    var e := sent[n - 1].event;
    if e.client == client && Marks(e.state) { i := n - 1; } else { i := MarkAt(sent, n - 1, client); }
  }
}
