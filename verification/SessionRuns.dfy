// What every run of the session keeps, when every caller is a player that has joined.
module SessionRuns {
  import opened Common
  import opened Session
  import T = Travel
  import B = BuildSync

  datatype Event =
    | Join(player: PlayerId)
    | Leave(player: PlayerId)
    | Sims(list: seq<Listing>)
    | Select(player: PlayerId, sim: string)
    | Request(requestId: string, player: PlayerId, named: string, affordance: string)
    | Cancel(requestId: string, player: PlayerId, sim: string, interactionId: string)
    | Status(requestId: string, status: string, reported: Option<string>)
    | StartTravel(zoneId: string, actorIds: seq<string>, txnId: string)
    | TravelCall(call: T.Call)
    | AskLease(player: PlayerId, now: real, stamp: int)
    | GiveLease(player: PlayerId)
    | Build(player: PlayerId, op: string, data: B.Data, now: real)
    | OpenDialog(owner: PlayerId, dialogId: string)
    | AnswerDialog(player: PlayerId, dialogId: string)

  ghost function Step(cfg: B.Config, s: State, e: Event): State {
    match e
    case Join(p) => AddPlayer(s, p)
    case Leave(p) => RemovePlayer(s, p)
    case Sims(list) => UpdateSims(s, list)
    case Select(p, sim) => SelectSim(s, p, sim).0
    case Request(id, p, named, affordance) => ValidateInteraction(s, id, p, named, affordance).0
    case Cancel(id, p, sim, interactionId) => CancelInteraction(s, id, p, sim, interactionId).0
    case Status(id, status, interactionId) => ReportStatus(s, id, status, interactionId)
    case StartTravel(zoneId, actorIds, txnId) =>
      s.(travel := T.Step(s.travel, T.Propose(zoneId, actorIds, s.active.Keys, txnId)).0)
    case TravelCall(call) => s.(travel := T.Step(s.travel, call).0)
    case AskLease(p, now, stamp) => s.(build := B.Request(cfg, s.build, p, now, stamp).0)
    case GiveLease(p) => s.(build := B.Release(s.build, p).0)
    case Build(p, op, data, now) => s.(build := B.Submit(cfg, s.build, p, op, data, now).0)
    case OpenDialog(owner, id) => s.(dialogs := s.dialogs[id := owner])
    case AnswerDialog(p, id) => s.(dialogs := Respond(s.dialogs, p, id).0)
  }

  // Leases and dialogs are only given to players, proposals list the session's players, and a
  // player leaves the barrier only by leaving the session.
  ghost predicate Joined(s: State, e: Event) {
    && (e.AskLease? ==> e.player in s.active)
    && (e.OpenDialog? ==> e.owner in s.active)
    && (e.TravelCall? ==> !e.call.Propose? && !e.call.RemoveParticipant?)
  }

  const EMPTY := State([], map[], map[], map[], map[], T.INITIAL, B.NOBODY, map[])

  // The session after each event of a run: `states[k]` is reached by the first k events.
  ghost predicate History(cfg: B.Config, run: seq<Event>, states: seq<State>) {
    |states| == |run| + 1 && states[0] == EMPTY && forall k | 0 <= k < |run| :: Follows(cfg, run, states, k)
  }

  ghost predicate Follows(cfg: B.Config, run: seq<Event>, states: seq<State>, k: nat) {
    k < |run| && k + 1 < |states| && states[k + 1] == Step(cfg, states[k], run[k])
  }

  ghost predicate JoinedAt(run: seq<Event>, states: seq<State>, k: nat) {
    k < |run| && k < |states| && Joined(states[k], run[k])
  }

  // ----------------------------------------------------------- controller lists

  ghost predicate Distinct(s: seq<PlayerId>) {
    forall i, j | 0 <= i < j < |s| :: s[i] != s[j]
  }

  ghost predicate SimOk(s: State, sim: string)
    requires sim in s.sims
  {
    var list := s.sims[sim].controllers;
    && Distinct(list)
    && (forall p | p in list :: p in s.active)
    && (forall p | p in s.active && s.active[p] == Some(sim) :: p in list)
  }

  ghost predicate Exact(s: State, sim: string)
    requires sim in s.sims
  {
    s.sims[sim].controllers == ControllersOf(s.order, s.active, sim)
  }

  ghost predicate PlayersOk(s: State) {
    Distinct(s.order) && forall p :: p in s.order <==> p in s.active
  }

  lemma {:induction false} ControllersAreDistinct(
    order: seq<PlayerId>, active: map<PlayerId, Option<string>>, sim: string)
    requires Distinct(order)
    ensures Distinct(ControllersOf(order, active, sim))
  {
    if order != [] {
      var front, last := order[..|order| - 1], order[|order| - 1];
      ControllersAreDistinct(front, active, sim);
      assert last !in front;
    }
  }

  lemma {:induction false} WithoutIsDistinct(order: seq<PlayerId>, p: PlayerId)
    requires Distinct(order)
    ensures Distinct(Without(order, p))
  {
    if order != [] {
      var front, last := order[..|order| - 1], order[|order| - 1];
      WithoutIsDistinct(front, p);
      assert last !in front;
    }
  }

  lemma ExactIsOk(s: State, sim: string)
    requires PlayersOk(s) && sim in s.sims && Exact(s, sim)
    ensures SimOk(s, sim)
  {
    ControllersAreDistinct(s.order, s.active, sim);
  }

  ghost predicate AllOk(s: State) {
    forall sim | sim in s.sims :: SimOk(s, sim)
  }

  ghost predicate AllExact(s: State) {
    forall sim | sim in s.sims :: Exact(s, sim)
  }

  lemma AllExactIsOk(s: State)
    requires PlayersOk(s) && AllExact(s)
    ensures AllOk(s)
  {
    forall sim | sim in s.sims
      ensures SimOk(s, sim)
    {
      ExactIsOk(s, sim);
    }
  }

  // After a roster update or a departure, every list is exact.
  lemma RefreshedIsExact(s: State, list: seq<Listing>, p: PlayerId)
    ensures AllExact(UpdateSims(s, list)) && AllExact(RemovePlayer(s, p))
  {
  }

  // Only the lists of players' own Sims depend on them.
  lemma {:induction false} ControllersIgnore(
    order: seq<PlayerId>, a: map<PlayerId, Option<string>>, b: map<PlayerId, Option<string>>, sim: string)
    requires forall p | p in order :: Plays(a, p, sim) <==> Plays(b, p, sim)
    ensures ControllersOf(order, a, sim) == ControllersOf(order, b, sim)
  {
    if order != [] {
      ControllersIgnore(order[..|order| - 1], a, b, sim);
    }
  }

  // The Sim whose list a selection leaves stale: the player's old one, if it is another one in
  // the roster.
  predicate LeavesStale(s: State, p: PlayerId, sim: string) {
    p in s.active && s.active[p].Some? && s.active[p].value != sim && s.active[p].value in s.sims
  }

  // A selection keeps all lists exact if and only if it does not move the player away from
  // another Sim of the roster.
  lemma SelectKeepsExactIff(s: State, p: PlayerId, sim: string)
    requires PlayersOk(s) && AllExact(s) && SelectSim(s, p, sim).1.None?
    ensures AllExact(SelectSim(s, p, sim).0) <==> !LeavesStale(s, p, sim)
  {
    var t := SelectSim(s, p, sim).0;
    forall other | other in s.sims && other != sim && s.active[p] != Some(other)
      ensures Exact(t, other)
    {
      ControllersIgnore(s.order, s.active, t.active, other);
    }
    if LeavesStale(s, p, sim) {
      var was := s.active[p].value;
      assert p in s.sims[was].controllers;
      assert p !in ControllersOf(t.order, t.active, was);
      assert !Exact(t, was);
    } else {
      assert forall other | other in t.sims && other != sim :: Exact(t, other);
    }
  }

  lemma {:induction false} ControllersOfAppended(
    order: seq<PlayerId>, active: map<PlayerId, Option<string>>, p: PlayerId, sim: string)
    ensures ControllersOf(order + [p], active, sim) ==
            ControllersOf(order, active, sim) + (if Plays(active, p, sim) then [p] else [])
  {
    assert (order + [p])[..|order|] == order;
  }

  // So does a player who joins anew, with or without a remembered Sim.
  lemma JoinKeepsExact(s: State, p: PlayerId)
    requires PlayersOk(s) && AllExact(s) && p !in s.active
    ensures AllExact(AddPlayer(s, p))
  {
    forall sim | sim in AddPlayer(s, p).sims
      ensures Exact(AddPlayer(s, p), sim)
    {
      if !(p in s.reconnect && s.reconnect[p] == sim) {
        JoinKeepsOther(s, p, sim);
      }
    }
  }

  lemma JoinKeepsOther(s: State, p: PlayerId, sim: string)
    requires PlayersOk(s) && p !in s.active && sim in s.sims && Exact(s, sim)
    requires !(p in s.reconnect && s.reconnect[p] == sim)
    ensures Exact(AddPlayer(s, p), sim)
  {
    var t := AddPlayer(s, p);
    assert p !in s.order;
    assert t.order == s.order + [p];
    assert forall q | q in s.order :: Plays(s.active, q, sim) <==> Plays(t.active, q, sim);
    ControllersOfAppended(s.order, t.active, p, sim);
    ControllersIgnore(s.order, s.active, t.active, sim);
  }

  // --------------------------------------------------------------- the invariant

  ghost predicate Inv(s: State) {
    && PlayersOk(s) && AllOk(s)
    && (s.build.lock.Some? ==> s.build.lock.value.owner in s.active)
    && (forall d | d in s.dialogs :: s.dialogs[d] in s.active)
    && (s.travel.current.Some? && s.travel.current.value.Live() ==>
          s.travel.current.value.participants <= s.active.Keys)
  }

  lemma JoinKeepsPlayers(s: State, p: PlayerId)
    requires PlayersOk(s)
    ensures PlayersOk(AddPlayer(s, p)) && AddPlayer(s, p).active.Keys == s.active.Keys + {p}
  {
  }

  lemma JoinKeepsSim(s: State, p: PlayerId, sim: string)
    requires PlayersOk(s) && sim in s.sims && SimOk(s, sim)
    ensures SimOk(AddPlayer(s, p), sim)
  {
    JoinKeepsPlayers(s, p);
    if p in s.reconnect && s.reconnect[p] == sim {
      JoinRefreshes(s, p);
    } else {
      JoinLeavesAlone(s, p, sim);
    }
  }

  lemma JoinRefreshes(s: State, p: PlayerId)
    requires PlayersOk(s) && p in s.reconnect && s.reconnect[p] in s.sims
    ensures SimOk(AddPlayer(s, p), s.reconnect[p])
  {
    JoinKeepsPlayers(s, p);
    ExactIsOk(AddPlayer(s, p), s.reconnect[p]);
  }

  lemma JoinLeavesAlone(s: State, p: PlayerId, sim: string)
    requires sim in s.sims && SimOk(s, sim) && !(p in s.reconnect && s.reconnect[p] == sim)
    requires AddPlayer(s, p).active.Keys == s.active.Keys + {p}
    ensures SimOk(AddPlayer(s, p), sim)
  {
    var t := AddPlayer(s, p);
    assert t.sims[sim] == s.sims[sim];
    assert forall q | q in t.active && t.active[q] == Some(sim) :: q in s.active && s.active[q] == Some(sim);
  }

  lemma JoinKeepsInv(s: State, p: PlayerId)
    requires Inv(s)
    ensures Inv(AddPlayer(s, p))
  {
    JoinKeepsPlayers(s, p);
    forall sim | sim in AddPlayer(s, p).sims
      ensures SimOk(AddPlayer(s, p), sim)
    {
      JoinKeepsSim(s, p, sim);
    }
  }

  lemma LeaveKeepsInv(s: State, p: PlayerId)
    requires Inv(s)
    ensures Inv(RemovePlayer(s, p))
  {
    WithoutIsDistinct(s.order, p);
    RefreshedIsExact(s, [], p);
    AllExactIsOk(RemovePlayer(s, p));
  }

  lemma SelectKeepsInv(s: State, p: PlayerId, sim: string)
    requires Inv(s)
    ensures Inv(SelectSim(s, p, sim).0)
  {
    var t := SelectSim(s, p, sim).0;
    if p in s.active && sim in s.sims {
      assert t.order == s.order;
      forall other | other in t.sims
        ensures SimOk(t, other)
      {
        assert SimOk(s, other);
        if other == sim {
          ExactIsOk(t, other);
        }
      }
    }
  }

  lemma SimsKeepInv(s: State, list: seq<Listing>)
    requires Inv(s)
    ensures Inv(UpdateSims(s, list))
  {
    RefreshedIsExact(s, list, "");
    AllExactIsOk(UpdateSims(s, list));
  }

  lemma TravelKeepsInv(s: State, call: T.Call)
    requires Inv(s) && !call.RemoveParticipant?
    requires call.Propose? ==> call.participants <= s.active.Keys
    ensures Inv(s.(travel := T.Step(s.travel, call).0))
  {
    var t := s.(travel := T.Step(s.travel, call).0);
    assert forall sim | sim in t.sims :: SimOk(s, sim) ==> SimOk(t, sim);
  }

  // Ledger, lease and dialog events leave players and Sims alone.
  ghost predicate IsQuiet(e: Event) {
    e.Request? || e.Cancel? || e.Status? || e.AskLease? || e.GiveLease? || e.Build? || e.OpenDialog? || e.AnswerDialog?
  }

  lemma SameSimsStayOk(s: State, t: State)
    requires AllOk(s) && t.active == s.active && t.sims == s.sims
    ensures AllOk(t)
  {
    forall sim | sim in t.sims
      ensures SimOk(t, sim)
    {
      assert SimOk(s, sim);
    }
  }

  lemma LeaseKeepsOwner(cfg: B.Config, s: State, e: Event)
    requires e.AskLease? || e.GiveLease? || e.Build?
    requires s.build.lock.Some? ==> s.build.lock.value.owner in s.active
    requires e.AskLease? ==> e.player in s.active
    ensures var t := Step(cfg, s, e);
            && t == s.(build := t.build)
            && (t.build.lock.Some? ==> t.build.lock.value.owner in s.active)
  {
  }

  lemma DialogsKeepOwners(s: State, e: Event, cfg: B.Config)
    requires e.OpenDialog? || e.AnswerDialog?
    requires forall d | d in s.dialogs :: s.dialogs[d] in s.active
    requires e.OpenDialog? ==> e.owner in s.active
    ensures var t := Step(cfg, s, e);
            t == s.(dialogs := t.dialogs) && forall d | d in t.dialogs :: t.dialogs[d] in s.active
  {
  }

  lemma LedgerKeepsRest(cfg: B.Config, s: State, e: Event)
    requires e.Request? || e.Cancel? || e.Status?
    ensures Step(cfg, s, e) == s.(requests := Step(cfg, s, e).requests)
  {
  }

  lemma QuietKeepsInv(cfg: B.Config, s: State, e: Event)
    requires Inv(s) && Joined(s, e) && IsQuiet(e)
    ensures Inv(Step(cfg, s, e))
  {
    if e.AskLease? || e.GiveLease? || e.Build? {
      LeaseKeepsOwner(cfg, s, e);
    } else if e.OpenDialog? || e.AnswerDialog? {
      DialogsKeepOwners(s, e, cfg);
    } else {
      LedgerKeepsRest(cfg, s, e);
    }
    SameSimsStayOk(s, Step(cfg, s, e));
  }

  // The lease owner, the participants of a live travel and the owners of pending dialogs are
  // current players; every Sim's list has no repeats, holds only current players and holds
  // everyone whose active Sim it is.
  lemma StepKeepsInv(cfg: B.Config, s: State, e: Event)
    requires Inv(s) && Joined(s, e)
    ensures Inv(Step(cfg, s, e))
  {
    match e {
      case Join(p) => JoinKeepsInv(s, p);
      case Leave(p) => LeaveKeepsInv(s, p);
      case Sims(list) => SimsKeepInv(s, list);
      case Select(p, sim) => SelectKeepsInv(s, p, sim);
      case StartTravel(zoneId, actorIds, txnId) => TravelKeepsInv(s, T.Propose(zoneId, actorIds, s.active.Keys, txnId));
      case TravelCall(call) => TravelKeepsInv(s, call);
      case _ => QuietKeepsInv(cfg, s, e);
    }
  }

  lemma {:induction false} IntegrityHolds(cfg: B.Config, run: seq<Event>, states: seq<State>, k: nat)
    requires History(cfg, run, states) && k <= |run| && forall i | 0 <= i < k :: JoinedAt(run, states, i)
    ensures Inv(states[k])
  {
    if k > 0 {
      IntegrityHolds(cfg, run, states, k - 1);
      assert JoinedAt(run, states, k - 1) && Follows(cfg, run, states, k - 1);
      StepKeepsInv(cfg, states[k - 1], run[k - 1]);
    }
  }

  // ------------------------------------------------------------- exactness in runs

  // The event that leaves a list stale: a player's move away from a Sim of the roster, by a
  // selection or by joining again without having left.
  predicate Moves(s: State, e: Event) {
    || (e.Select? && e.sim in s.sims && LeavesStale(s, e.player, e.sim))
    || (e.Join? && e.player in s.active && s.active[e.player].Some? && s.active[e.player].value in s.sims &&
        !(e.player in s.reconnect && s.reconnect[e.player] == s.active[e.player].value))
  }

  lemma RejoinKeepsOther(s: State, p: PlayerId, sim: string)
    requires p in s.order && sim in s.sims && Exact(s, sim) && !Plays(s.active, p, sim)
    requires !(p in s.reconnect && s.reconnect[p] == sim)
    ensures Exact(AddPlayer(s, p), sim)
  {
    var t := AddPlayer(s, p);
    assert forall q | q in s.order :: Plays(s.active, q, sim) <==> Plays(t.active, q, sim);
    ControllersIgnore(s.order, s.active, t.active, sim);
  }

  lemma RejoinLeavesStale(s: State, p: PlayerId, was: string)
    requires p in s.order && was in s.sims && Exact(s, was) && Plays(s.active, p, was)
    requires !(p in s.reconnect && s.reconnect[p] == was)
    ensures was in AddPlayer(s, p).sims && !Exact(AddPlayer(s, p), was)
  {
    var t := AddPlayer(s, p);
    assert p in t.sims[was].controllers;
    assert p !in ControllersOf(t.order, t.active, was);
  }

  lemma RejoinKeepsExactIff(s: State, p: PlayerId)
    requires PlayersOk(s) && AllExact(s) && p in s.active
    ensures AllExact(AddPlayer(s, p)) <==> !Moves(s, Join(p))
  {
    if Moves(s, Join(p)) {
      RejoinLeavesStale(s, p, s.active[p].value);
    } else {
      forall sim | sim in AddPlayer(s, p).sims
        ensures Exact(AddPlayer(s, p), sim)
      {
        if !(p in s.reconnect && s.reconnect[p] == sim) {
          RejoinKeepsOther(s, p, sim);
        }
      }
    }
  }

  lemma SameSimsStayExact(s: State, t: State)
    requires AllExact(s) && t.order == s.order && t.active == s.active && t.sims == s.sims
    ensures AllExact(t)
  {
    forall sim | sim in t.sims
      ensures Exact(t, sim)
    {
      assert Exact(s, sim);
    }
  }

  lemma RestKeepsExact(cfg: B.Config, s: State, e: Event)
    requires AllExact(s) && !e.Join? && !e.Leave? && !e.Sims? && !e.Select?
    ensures AllExact(Step(cfg, s, e))
  {
    if e.Request? || e.Cancel? || e.Status? {
      LedgerKeepsRest(cfg, s, e);
    }
    SameSimsStayExact(s, Step(cfg, s, e));
  }

  // An event keeps every list exact if and only if it does not move a player away.
  lemma StepKeepsExactIff(cfg: B.Config, s: State, e: Event)
    requires PlayersOk(s) && AllExact(s)
    ensures AllExact(Step(cfg, s, e)) <==> !Moves(s, e)
  {
    match e {
      case Join(p) =>
        if p in s.active {
          RejoinKeepsExactIff(s, p);
        } else {
          JoinKeepsExact(s, p);
        }
      case Leave(p) => RefreshedIsExact(s, [], p);
      case Sims(list) => RefreshedIsExact(s, list, "");
      case Select(p, sim) =>
        if p in s.active && sim in s.sims {
          SelectKeepsExactIff(s, p, sim);
        }
      case _ => RestKeepsExact(cfg, s, e);
    }
  }

  ghost predicate MovesAt(run: seq<Event>, states: seq<State>, k: nat) {
    k < |run| && k < |states| && Moves(states[k], run[k])
  }

  // After a roster update or a departure the lists stay exact until a player moves away.
  lemma {:induction false} ExactUntilAMove(cfg: B.Config, run: seq<Event>, states: seq<State>, i: nat, k: nat)
    requires History(cfg, run, states) && i < k <= |run| && (run[i].Sims? || run[i].Leave?)
    requires forall j | 0 <= j < k :: JoinedAt(run, states, j)
    requires forall j | i < j < k :: !MovesAt(run, states, j)
    ensures AllExact(states[k])
    decreases k
  {
    var last := k - 1;
    assert Follows(cfg, run, states, last);
    if i == last {
      var e := run[last];
      RefreshedIsExact(states[last], if e.Sims? then e.list else [], if e.Leave? then e.player else "");
    } else {
      ExactUntilAMove(cfg, run, states, i, last);
      IntegrityHolds(cfg, run, states, last);
      assert !MovesAt(run, states, last);
      StepKeepsExactIff(cfg, states[last], run[last]);
    }
  }

  // ------------------------------------------------------- the interaction ledger

  ghost predicate SameOrigin(a: Record, b: Record) {
    a.player == b.player && a.sim == b.sim && a.affordance == b.affordance
  }

  lemma StepKeepsRecord(cfg: B.Config, s: State, e: Event, id: string)
    requires id in s.requests
    ensures id in Step(cfg, s, e).requests && SameOrigin(Step(cfg, s, e).requests[id], s.requests[id])
  {
  }

  // A request is never dropped, and who asked for what with which Sim never changes.
  lemma {:induction false} LedgerKeepsRecords(
    cfg: B.Config, run: seq<Event>, states: seq<State>, i: nat, k: nat, id: string)
    requires History(cfg, run, states) && i <= k <= |run| && id in states[i].requests
    ensures id in states[k].requests && SameOrigin(states[k].requests[id], states[i].requests[id])
    decreases k
  {
    if i < k {
      LedgerKeepsRecords(cfg, run, states, i, k - 1, id);
      assert Follows(cfg, run, states, k - 1);
      StepKeepsRecord(cfg, states[k - 1], run[k - 1], id);
    }
  }

  // Event j is a request, made under this id, that was accepted.
  ghost predicate AcceptedAt(run: seq<Event>, states: seq<State>, j: nat, id: string) {
    j < |run| && j < |states| && run[j].Request? && run[j].requestId == id &&
    ValidateInteraction(states[j], id, run[j].player, run[j].named, run[j].affordance).1.None?
  }

  // No id is accepted twice.
  lemma IdsAreNotReused(cfg: B.Config, run: seq<Event>, states: seq<State>, i: nat, k: nat, id: string)
    requires History(cfg, run, states) && i < k && AcceptedAt(run, states, i, id)
    ensures !AcceptedAt(run, states, k, id)
  {
    if k < |run| {
      RequestIsLegitimate(cfg, run, states, i, id);
      LedgerKeepsRecords(cfg, run, states, i + 1, k, id);
    }
  }

  // The record came from event j, when its Sim was in the roster and was its player's active one.
  ghost predicate Legitimate(run: seq<Event>, states: seq<State>, j: nat, id: string, record: Record) {
    && AcceptedAt(run, states, j, id)
    && record.player == run[j].player && record.affordance == Some(run[j].affordance)
    && record.sim in states[j].sims && Plays(states[j].active, record.player, record.sim)
  }

  lemma RequestIsLegitimate(cfg: B.Config, run: seq<Event>, states: seq<State>, j: nat, id: string)
    requires History(cfg, run, states) && AcceptedAt(run, states, j, id)
    ensures id in states[j + 1].requests && Legitimate(run, states, j, id, states[j + 1].requests[id])
  {
    assert Follows(cfg, run, states, j);
  }

  // Every record with an affordance goes back to such an acceptance.
  lemma {:induction false} RecordsAreLegitimate(cfg: B.Config, run: seq<Event>, states: seq<State>, k: nat, id: string)
    returns (j: nat)
    requires History(cfg, run, states) && k <= |run|
    requires id in states[k].requests && states[k].requests[id].affordance.Some?
    ensures j < k && Legitimate(run, states, j, id, states[k].requests[id])
    decreases k
  {
    assert k > 0;
    assert Follows(cfg, run, states, k - 1);
    var before := states[k - 1];
    if id in before.requests {
      StepKeepsRecord(cfg, before, run[k - 1], id);
      j := RecordsAreLegitimate(cfg, run, states, k - 1, id);
    } else {
      j := k - 1;
      NewRecordWasAccepted(cfg, before, run[k - 1], id);
      RequestIsLegitimate(cfg, run, states, j, id);
    }
  }

  lemma NewRecordWasAccepted(cfg: B.Config, s: State, e: Event, id: string)
    requires id !in s.requests && id in Step(cfg, s, e).requests && Step(cfg, s, e).requests[id].affordance.Some?
    ensures e.Request? && e.requestId == id && ValidateInteraction(s, id, e.player, e.named, e.affordance).1.None?
  {
  }
}
