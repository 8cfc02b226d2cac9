// The host's session index: kermp/session.py, with the dialog router of kermp/routing.py.
module Session {
  import opened Common
  import T = Travel
  import B = BuildSync

  // ------------------------------------------------------------------ the data

  datatype Sim = Sim(name: string, controllers: seq<PlayerId>)

  // One entry of the interaction ledger. Entries made by a cancellation have no affordance.
  datatype Record = Record(
    player: PlayerId, sim: string, affordance: Option<string>, status: string, interactionId: Option<string>)

  // `order` lists the players in the order their keys were inserted, `active` their active Sims.
  datatype State = State(
    order: seq<PlayerId>, active: map<PlayerId, Option<string>>, sims: map<string, Sim>,
    requests: map<string, Record>, reconnect: map<PlayerId, string>,
    travel: T.Coordinator, build: B.Authority, dialogs: map<string, PlayerId>)

  datatype Refusal = UnknownPlayer | InvalidSim | MissingRequestId | DuplicateRequestId
    | SimNotOwned | MissingAffordance | MissingInteractionId | UnknownDialog | DialogNotOwned

  predicate Plays(active: map<PlayerId, Option<string>>, p: PlayerId, sim: string) {
    p in active && active[p] == Some(sim)
  }

  // The players whose active Sim this is, in player order.
  function ControllersOf(order: seq<PlayerId>, active: map<PlayerId, Option<string>>, sim: string): (r: seq<PlayerId>)
    ensures forall p :: p in r <==> p in order && Plays(active, p, sim)
  {
    if order == [] then []
    else
      var front, last := ControllersOf(order[..|order| - 1], active, sim), order[|order| - 1];
      if Plays(active, last, sim) then front + [last] else front
  }

  function Refresh(s: State, sim: string): State
    requires sim in s.sims
  {
    s.(sims := s.sims[sim := s.sims[sim].(controllers := ControllersOf(s.order, s.active, sim))])
  }

  function RefreshAll(s: State): State {
    s.(sims := map sim | sim in s.sims :: s.sims[sim].(controllers := ControllersOf(s.order, s.active, sim)))
  }

  // ------------------------------------------------------------------ players

  function AddPlayer(s: State, p: PlayerId): State {
    var joined := s.(order := if p in s.order then s.order else s.order + [p], active := s.active[p := None]);
    if p in s.reconnect && s.reconnect[p] in s.sims then
      Refresh(joined.(active := joined.active[p := Some(s.reconnect[p])]), s.reconnect[p])
    else joined
  }

  function Without(order: seq<PlayerId>, p: PlayerId): (r: seq<PlayerId>)
    ensures forall q :: q in r <==> q in order && q != p
  {
    if order == [] then []
    else
      var front, last := Without(order[..|order| - 1], p), order[|order| - 1];
      if last == p then front else front + [last]
  }

  function Remembered(s: State, p: PlayerId): map<PlayerId, string> {
    if p in s.active && s.active[p].Some? && s.active[p].value != "" then s.reconnect[p := s.active[p].value]
    else s.reconnect
  }

  function Disconnected(dialogs: map<string, PlayerId>, p: PlayerId): map<string, PlayerId> {
    map d | d in dialogs && dialogs[d] != p :: dialogs[d]
  }

  function Forget(s: State, p: PlayerId): State {
    RefreshAll(s.(reconnect := Remembered(s, p), order := Without(s.order, p), active := s.active - {p}))
  }

  function RemovePlayer(s: State, p: PlayerId): State {
    Forget(s, p).(build := B.DropOwner(s.build, p),
                  travel := T.Step(s.travel, T.RemoveParticipant(p)).0,
                  dialogs := Disconnected(s.dialogs, p))
  }

  // ------------------------------------------------------------------ the Sims

  datatype Listing = Listing(simId: string, name: string)

  // The roster the host's game reports; entries without an id are skipped and later entries
  // for the same id win. Controllers are carried over, then derived anew.
  function Roster(previous: map<string, Sim>, list: seq<Listing>): map<string, Sim> {
    if list == [] then map[]
    else
      var front, last := Roster(previous, list[..|list| - 1]), list[|list| - 1];
      if last.simId == "" then front
      else front[last.simId := Sim(last.name, if last.simId in previous then previous[last.simId].controllers else [])]
  }

  function UpdateSims(s: State, list: seq<Listing>): State {
    RefreshAll(s.(sims := Roster(s.sims, list)))
  }

  function SelectSim(s: State, p: PlayerId, sim: string): (State, Option<Refusal>) {
    if p !in s.active then (s, Some(UnknownPlayer))
    else if sim !in s.sims then (s, Some(InvalidSim))
    else (Refresh(s.(active := s.active[p := Some(sim)]), sim), None)
  }

  // -------------------------------------------------------------- interactions

  // The Sim meant by a request: the one it names, or else the player's active one.
  function MeantSim(s: State, p: PlayerId, named: string): Option<string> {
    if named != "" then Some(named) else if p in s.active then s.active[p] else None
  }

  function ValidateInteraction(s: State, requestId: string, p: PlayerId, named: string, affordance: string)
    : (State, Option<Refusal>)
  {
    var sim := MeantSim(s, p, named);
    if requestId == "" then (s, Some(MissingRequestId))
    else if requestId in s.requests then (s, Some(DuplicateRequestId))
    else if sim.None? || !Plays(s.active, p, sim.value) then (s, Some(SimNotOwned))
    else if sim.value !in s.sims then (s, Some(InvalidSim))
    else if affordance == "" then (s, Some(MissingAffordance))
    else (s.(requests := s.requests[requestId := Record(p, sim.value, Some(affordance), "accepted", None)]), None)
  }

  function CancelId(requestId: string, p: PlayerId, interactionId: string): string {
    if requestId == "" then "cancel-" + p + "-" + interactionId else requestId
  }

  function CancelInteraction(s: State, requestId: string, p: PlayerId, sim: string, interactionId: string)
    : (State, Option<Refusal>)
  {
    if !Plays(s.active, p, sim) then (s, Some(SimNotOwned))
    else if interactionId == "" || interactionId == "0" then (s, Some(MissingInteractionId))
    else
      var id := CancelId(requestId, p, interactionId);
      var record := if id in s.requests then s.requests[id] else Record(p, sim, None, "", None);
      (s.(requests := s.requests[id := record.(status := "cancel_requested")]), None)
  }

  // A status report from the host's game about a known request.
  function ReportStatus(s: State, requestId: string, status: string, interactionId: Option<string>): State {
    if requestId !in s.requests then s else
    var record := s.requests[requestId].(status := status);
    var updated := if interactionId.Some? then record.(interactionId := interactionId) else record;
    s.(requests := s.requests[requestId := updated])
  }

  // ------------------------------------------------------------------- dialogs

  function Respond(dialogs: map<string, PlayerId>, p: PlayerId, d: string): (map<string, PlayerId>, Option<Refusal>) {
    if d !in dialogs then (dialogs, Some(UnknownDialog))
    else if dialogs[d] != p then (dialogs, Some(DialogNotOwned))
    else (dialogs - {d}, None)
  }

  class DialogRouter {
    var pending: map<string, PlayerId>

    constructor ()
      ensures pending == map[]
    {
      pending := map[];
    }

    // `dialogId` is the fresh uuid drawn for the dialog.
    method Open(owner: PlayerId, dialogId: string)
      modifies this
      ensures pending == old(pending)[dialogId := owner]
    {
      pending := pending[dialogId := owner];
    }

    method Answer(p: PlayerId, dialogId: string) returns (refusal: Option<Refusal>)
      modifies this
      ensures (pending, refusal) == Respond(old(pending), p, dialogId)
    {
      if dialogId !in pending {
        return Some(UnknownDialog);
      }
      var owner := pending[dialogId];
      pending := pending - {dialogId};
      if owner != p {
        pending := pending[dialogId := owner];
        assert pending == old(pending);
        return Some(DialogNotOwned);
      }
      return None;
    }

    method Disconnect(p: PlayerId)
      modifies this
      ensures pending == Disconnected(old(pending), p)
    {
      var stale := set d | d in pending && pending[d] == p;
      while stale != {}
        invariant pending.Keys <= old(pending).Keys
        invariant forall d | d in old(pending) :: d in pending <==> old(pending)[d] != p || d in stale
        invariant forall d | d in pending :: pending[d] == old(pending)[d]
        decreases stale
      {
        var d :| d in stale;
        pending := pending - {d};
        stale := stale - {d};
      }
    }
  }

  // ------------------------------------------------------------------ the object

  class HostSession {
    var order: seq<PlayerId>
    var active: map<PlayerId, Option<string>>
    var sims: map<string, Sim>
    var requests: map<string, Record>
    var reconnect: map<PlayerId, string>
    const travel: T.TravelCoordinator
    const build: B.BuildAuthority
    const dialogs: DialogRouter

    ghost function Value(): State
      reads this, travel, travel.current, build, build.lock, dialogs
    {
      State(order, active, sims, requests, reconnect, travel.State(), build.State(), dialogs.pending)
    }

    constructor (cfg: B.Config)
      ensures Value() == State([], map[], map[], map[], map[], T.INITIAL, B.NOBODY, map[])
    {
      order, active, sims, requests, reconnect := [], map[], map[], map[], map[];
      travel := new T.TravelCoordinator();
      build := new B.BuildAuthority(cfg);
      dialogs := new DialogRouter();
    }

    method SetSimControllers(sim: string)
      requires sim in sims
      modifies this`sims
      ensures Value() == Refresh(old(Value()), sim)
    {
      var controllers := [];
      for i := 0 to |order|
        invariant controllers == ControllersOf(order[..i], active, sim)
      {
        assert order[..i + 1][..i] == order[..i];
        if order[i] in active && active[order[i]] == Some(sim) {
          controllers := controllers + [order[i]];
        }
      }
      assert order[..|order|] == order;
      sims := sims[sim := sims[sim].(controllers := controllers)];
    }

    method SetAllControllers()
      modifies this`sims
      ensures Value() == RefreshAll(old(Value()))
    {
      var rest := sims.Keys;
      while rest != {}
        invariant rest <= sims.Keys == old(sims).Keys
        invariant forall sim | sim in sims :: sims[sim] ==
                    if sim in rest then old(sims)[sim]
                    else old(sims)[sim].(controllers := ControllersOf(order, active, sim))
        decreases rest
      {
        var sim :| sim in rest;
        SetSimControllers(sim);
        rest := rest - {sim};
      }
    }

    method AddPlayerRecord(p: PlayerId)
      modifies this
      ensures Value() == AddPlayer(old(Value()), p)
    {
      if p !in order {
        order := order + [p];
      }
      active := active[p := None];
      if p in reconnect && reconnect[p] in sims {
        active := active[p := Some(reconnect[p])];
        SetSimControllers(reconnect[p]);
      }
    }

    method ForgetPlayer(p: PlayerId)
      modifies this
      ensures Value() == Forget(old(Value()), p)
    {
      if p in active && active[p].Some? && active[p].value != "" {
        reconnect := reconnect[p := active[p].value];
      }
      order := Without(order, p);
      active := active - {p};
      SetAllControllers();
    }

    method RemovePlayerRecord(p: PlayerId)
      modifies this, build, travel.current, dialogs
      ensures Value() == RemovePlayer(old(Value()), p)
    {
      ForgetPlayer(p);
      if build.lock != null && build.lock.owner == p {
        build.lock := null;
        build.leaseId := None;
      }
      var _ := travel.RemoveParticipant(p);
      dialogs.Disconnect(p);
    }

    method UpdateRoster(list: seq<Listing>)
      modifies this
      ensures Value() == UpdateSims(old(Value()), list)
    {
      var previous := sims;
      var roster: map<string, Sim> := map[];
      for i := 0 to |list|
        invariant roster == Roster(previous, list[..i])
      {
        assert list[..i + 1][..i] == list[..i];
        if list[i].simId != "" {
          roster := roster[list[i].simId :=
            Sim(list[i].name, if list[i].simId in previous then previous[list[i].simId].controllers else [])];
        }
      }
      assert list[..|list|] == list;
      sims := roster;
      SetAllControllers();
    }

    method Select(p: PlayerId, sim: string) returns (refusal: Option<Refusal>)
      modifies this
      ensures (Value(), refusal) == SelectSim(old(Value()), p, sim)
    {
      if p !in active {
        return Some(UnknownPlayer);
      }
      if sim !in sims {
        return Some(InvalidSim);
      }
      active := active[p := Some(sim)];
      SetSimControllers(sim);
      return None;
    }

    method Validate(requestId: string, p: PlayerId, named: string, affordance: string)
      returns (refusal: Option<Refusal>)
      modifies this`requests
      ensures (Value(), refusal) == ValidateInteraction(old(Value()), requestId, p, named, affordance)
    {
      var sim := if named != "" then Some(named) else if p in active then active[p] else None;
      if requestId == "" {
        return Some(MissingRequestId);
      }
      if requestId in requests {
        return Some(DuplicateRequestId);
      }
      if p !in active || sim.None? || sim != active[p] {
        return Some(SimNotOwned);
      }
      if sim.value !in sims {
        return Some(InvalidSim);
      }
      if affordance == "" {
        return Some(MissingAffordance);
      }
      requests := requests[requestId := Record(p, sim.value, Some(affordance), "accepted", None)];
      return None;
    }

    method Cancel(requestId: string, p: PlayerId, sim: string, interactionId: string) returns (refusal: Option<Refusal>)
      modifies this`requests
      ensures (Value(), refusal) == CancelInteraction(old(Value()), requestId, p, sim, interactionId)
    {
      if p !in active || active[p] != Some(sim) {
        return Some(SimNotOwned);
      }
      if interactionId == "" || interactionId == "0" {
        return Some(MissingInteractionId);
      }
      var id := CancelId(requestId, p, interactionId);
      if id !in requests {
        requests := requests[id := Record(p, sim, None, "", None)];
      }
      requests := requests[id := requests[id].(status := "cancel_requested")];
      assert requests == CancelInteraction(old(Value()), requestId, p, sim, interactionId).0.requests;
      return None;
    }

    // A status report of the host's game, which the host runtime writes into the ledger.
    method Report(requestId: string, status: string, interactionId: Option<string>)
      modifies this`requests
      ensures Value() == ReportStatus(old(Value()), requestId, status, interactionId)
    {
      if requestId in requests {
        requests := requests[requestId := requests[requestId].(status := status)];
        if interactionId.Some? {
          requests := requests[requestId := requests[requestId].(interactionId := interactionId)];
        }
        assert requests == ReportStatus(old(Value()), requestId, status, interactionId).requests;
      }
    }
  }
}
