/** When the sessions on a lobby's list are all running, and so somebody is really in it. */
module LobbyPresence {
  import opened Wrappers
  import opened Lobbies
  import opened LobbyRuns
  import opened LobbyDevices

  /** Every session connected to a listed lobby is running. */
  ghost predicate NoGhosts(st: State) {
    forall s, l :: In(st, s, l) ==> s in st.sessions
  }

  /** A stopped stream leaves no entry behind: its lobby's handler comes first, and it is in no other lobby. */
  ghost predicate Tidy(st: State, e: Event) {
    match e
    case StopStream(s, forgetFirst) =>
      s in st.sessions ==> forall l :: In(st, s, l) ==> !forgetFirst && st.LobbyOf(s) == Some(l)
    case _ => true
  }

  lemma StopMembers(st: State, l: string)
    ensures var st' := Stop(st, l);
            st'.sessions == st.sessions && forall t, m :: In(st', t, m) ==> In(st, t, m)
  {
    hide Stop, Find;
    if st.Listed(l) {
      StopCascade(st, l);
      forall m ensures Stop(st, l).Listed(m) <==> st.Listed(m) && m != l { StillListed(st.lobbies, l, m); }
    } else {
      StopIdle(st, l);
    }
  }

  lemma StopIdle(st: State, l: string)
    requires !st.Listed(l)
    ensures Stop(st, l) == st
  {}

  lemma LeaveStays(st: State, l: string, s: nat)
    ensures Leave(st, l, s).sessions == st.sessions
    ensures forall t, m :: In(Leave(st, l, s), t, m) <==>
      In(st, t, m) && !(st.Listed(l) && s in st.sessions && t == s && m == l)
  {
    hide Leave, In;
    LeaveChanges(st, l, s);
    if st.Listed(l) && s in st.sessions { LeaveMembers(st, l, s); } else { LeaveIdle(st, l, s); }
  }

  lemma JoinMembers(st: State, l: string, s: nat)
    ensures var st' := Join(st, l, s);
            st'.sessions == st.sessions
            && forall t, m :: In(st', t, m) ==> In(st, t, m) || (t == s && s in st.sessions)
  {
    hide TakePads, Find;
    if JoinOutcome(st, l, s) == Joined {
      var st1 := st.(connected := st.connected[l := st.Connected(l) + [s]], joined := st.joined + {l});
      forall t, m | In(Join(st, l, s), t, m) ensures In(st, t, m) || t == s {
        assert m != l ==> st1.Connected(m) == st.Connected(m);
      }
    }
  }

  lemma OverMembers(st: State, s: nat)
    ensures SessionOver(st, s).sessions == st.sessions
    ensures forall t, m :: In(SessionOver(st, s), t, m) <==>
      In(st, t, m) && !(s in st.sessions && t == s && st.LobbyOf(s) == Some(m))
  {
    hide Leave, FirstWith, Find;
    if st.LobbyOf(s).Some? { LeaveStays(st, st.LobbyOf(s).value, s); }
  }

  /** Nothing of places and membership has changed, and sessions have not ended. */
  lemma SameMembers(st: State, st': State)
    requires st'.lobbies == st.lobbies && st'.connected == st.connected
    ensures forall t, m :: In(st', t, m) <==> In(st, t, m)
  {
    hide Find;
  }

  lemma CreateMembers(st: State, lobby: Lobby)
    requires Listing(st) && lobby.id !in st.connected
    ensures forall t, m :: In(Step(st, CreateLobby(lobby)), t, m) ==> In(st, t, m)
  {
    hide Find;
    var st' := Step(st, CreateLobby(lobby));
    forall t, m | In(st', t, m) ensures In(st, t, m) {
      assert m != lobby.id && st'.Connected(m) == st.Connected(m);
      var x := Find(st'.lobbies, m).value;
      assert x in st'.lobbies && x.id == m;
      assert x in st.lobbies;
    }
  }

  lemma StopStreamGhosts(st: State, s: nat, forgetFirst: bool)
    requires NoGhosts(st)
    ensures NoGhosts(Step(st, StopStream(s, forgetFirst))) <==> Tidy(st, StopStream(s, forgetFirst))
  {
    hide SessionOver, In, FirstWith;
    var st' := Step(st, StopStream(s, forgetFirst));
    if forgetFirst {
      OverMembers(Forget(st, s), s);
      SameMembers(st, Forget(st, s));
    } else {
      OverMembers(st, s);
      SameMembers(SessionOver(st, s), st');
    }
    assert st'.sessions == st.sessions - {s};
  }

  lemma StepGhosts(st: State, e: Event)
    requires Listing(st) && FreshLobby(st, e) && NoGhosts(st)
    ensures NoGhosts(Step(st, e)) <==> Tidy(st, e)
  {
    hide Leave, Stop, Join, SessionOver, Find, FirstWith, In, Drained, Plug, Unplug, HasNumber, Erase, PadAt;
    match e {
      case JoinLobby(l, s) => JoinMembers(st, l, s);
      case LeaveLobby(l, s) => LeaveStays(st, l, s);
      case StopLobby(l) => StopMembers(st, l);
      case StreamOver(s) => OverMembers(st, s);
      case StopStream(s, forgetFirst) => StopStreamGhosts(st, s, forgetFirst);
      case CreateLobby(lobby) => CreateMembers(st, lobby);
      case _ => OtherMembers(st, e);
    }
  }

  lemma OtherMembers(st: State, e: Event)
    requires e.StartSession? || e.AddJoypad? || e.RemoveJoypad? || e.Drain?
    ensures forall t, m :: In(Step(st, e), t, m) <==> In(st, t, m)
    ensures forall s <- st.sessions :: s in Step(st, e).sessions
  {
    hide Find, FirstWith, Drained, HasNumber, Erase, PadAt;
    SameMembers(st, Step(st, e));
  }

  ghost predicate NeverGhosts(es: seq<Event>) {
    forall k :: 0 <= k <= |es| ==> NoGhosts(Run(INITIAL, es[..k]))
  }

  ghost predicate AllTidy(es: seq<Event>) {
    forall k {:trigger es[k]} :: 0 <= k < |es| ==> Tidy(Run(INITIAL, es[..k]), es[k])
  }

  lemma LastTidy(es: seq<Event>)
    requires es != []
    ensures var (init, e) := (es[..|es| - 1], es[|es| - 1]);
            (FreshIds(es) <==> FreshIds(init) && FreshLobby(Run(INITIAL, init), e))
            && (AllTidy(es) <==> AllTidy(init) && Tidy(Run(INITIAL, init), e))
  {
    hide Run, Tidy, FreshLobby;
    var n := |es| - 1;
    var init := es[..n];
    assert forall k :: 0 <= k < n ==> init[..k] == es[..k] && init[k] == es[k];
  }

  lemma LastGhosts(es: seq<Event>)
    requires es != []
    ensures NeverGhosts(es) <==> NeverGhosts(es[..|es| - 1]) && NoGhosts(Run(INITIAL, es))
  {
    hide Run, NoGhosts;
    var n := |es| - 1;
    assert forall k :: 0 <= k <= n ==> es[..n][..k] == es[..k];
    assert es[..|es|] == es;
  }

  /** Over every run: nobody on a lobby's list is ever gone if and only if every stopped stream was tidy. */
  lemma {:induction false} GhostsComeFromForgetting(es: seq<Event>)
    requires FreshIds(es)
    ensures NeverGhosts(es) <==> AllTidy(es)
    decreases |es|
  {
    hide Step, NoGhosts, Tidy, FreshLobby, FreshIds, AllTidy, NeverGhosts;
    if es == [] {
      NothingYet();
    } else {
      LastTidy(es);
      LastGhosts(es);
      GhostsComeFromForgetting(es[..|es| - 1]);
      LobbiesStayOccupied(es[..|es| - 1]);
      if NeverGhosts(es[..|es| - 1]) {
        GhostsLast(es[..|es| - 1]);
        StepGhosts(Run(INITIAL, es[..|es| - 1]), es[|es| - 1]);
      }
    }
  }

  lemma GhostsLast(es: seq<Event>)
    requires NeverGhosts(es)
    ensures NoGhosts(Run(INITIAL, es))
  {
    hide Run, NoGhosts;
    assert es[..|es|] == es;
  }

  lemma NothingYet()
    ensures NeverGhosts([]) && AllTidy([])
  {
    var none: seq<Event> := [];
    assert none[..0] == none;
  }

  /** So while streams stop tidily, a listed lobby that stops with its last session and was ever joined has a
      running member. */
  lemma SomebodyIsThere(es: seq<Event>, l: Lobby)
    requires FreshIds(es) && AllTidy(es)
    requires var st := Run(INITIAL, es); l in st.lobbies && l.stopWhenEveryoneLeaves && l.id in st.joined
    ensures exists s :: s in Run(INITIAL, es).Connected(l.id) && s in Run(INITIAL, es).sessions
  {
    hide Run, FreshIds, AllTidy, NeverGhosts, Find;
    var st := Run(INITIAL, es);
    GhostsComeFromForgetting(es);
    GhostsLast(es);
    LobbiesStayOccupied(es);
    FindListed(st.lobbies, l);
    assert In(st, st.Connected(l.id)[0], l.id);
  }

  /** A session forgotten first stays on the list of its lobby. */
  lemma ForgottenStaysListed(st: State, s: nat, l: string)
    requires In(st, s, l)
    ensures In(Step(st, StopStream(s, true)), s, l) && s !in Step(st, StopStream(s, true)).sessions
  {
    hide SessionOver, Find, FirstWith;
    OverMembers(Forget(st, s), s);
    SameMembers(st, Forget(st, s));
  }
}
