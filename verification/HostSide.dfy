// The host side of travel and of the view-update stream: HostRuntime in kermp/runtime.py.
module HostSide {
  import opened Common
  import opened Wire
  import T = Travel

  // `log` is what was broadcast, in order; `toGame` is what was sent over the local bridge to
  // the host's own game ("travel.prepare" is written as the Propose it carries).
  datatype Host = Host(
    players: set<PlayerId>, travel: T.Coordinator, gameSequence: nat, batchOpen: bool,
    log: seq<Message>, toGame: seq<Message>)

  function Broadcast(h: Host, m: Message): Host {
    h.(log := h.log + [m])
  }

  function Bridge(h: Host, m: Message): Host {
    h.(toGame := h.toGame + [m])
  }

  // The epoch stamped on a view update: the current travel's, while it is neither complete nor aborted.
  function Tag(travel: T.Coordinator): Option<int> {
    if travel.current.Some? && travel.current.value.Live() then Some(travel.current.value.epoch) else None
  }

  function OnRaw(h: Host, msgId: int, payload: Payload): Host {
    if !Readable(payload) then Bridge(h, Failure(RawInvalid)) else
    var next := h.gameSequence + 1;
    Broadcast(h.(gameSequence := next), Raw(Update(next, Tag(h.travel), msgId, payload)))
  }

  function OnViewBatch(h: Host, epoch: int, kind: Kind): Host {
    if h.travel.current.None? || h.travel.current.value.epoch != epoch then h else
    var m := ViewBatch(epoch, kind);
    var h1 := h.(batchOpen := kind == Begin);
    match kind
    case Begin => Broadcast(Bridge(h1, m), m)
    case End => Bridge(Broadcast(h1, m), m)
    case OtherKind => Broadcast(h1, m)
  }

  function StartTravel(h: Host, zoneId: string, actorIds: seq<string>, txnId: string): Host {
    if zoneId == "" then h else
    var (travel, reply) := T.Step(h.travel, T.Propose(zoneId, actorIds, h.players, txnId));
    if reply != T.Done then h else
    var m := Propose(travel.epoch, txnId, zoneId, actorIds);
    Broadcast(Bridge(h.(travel := travel), m), m)
  }

  function OnReady(h: Host, player: PlayerId, txnId: string, epoch: int): Host {
    if txnId == "" then h else
    var (travel, reply) := T.Step(h.travel, T.MarkReady(player, txnId, Some(epoch)));
    var h1 := h.(travel := travel);
    if reply != T.Flag(true) then h1 else
    var t := travel.current.value;
    var begin := ViewBatch(t.epoch, Begin);
    var commit := Commit(t.epoch, t.txnId, t.zoneId, t.actorIds);
    var h2 := Broadcast(Bridge(Bridge(Broadcast(h1, begin), begin), commit), commit);
    h2.(travel := T.Step(travel, T.BeginZoneWait(txnId)).0)
  }

  function OnZoneReady(h: Host, player: PlayerId, txnId: string, epoch: int): Host {
    if txnId == "" || h.travel.current.None? || h.travel.current.value.epoch != epoch then h else
    var (travel, reply) := T.Step(h.travel, T.MarkZoneReady(player, txnId, Some(epoch)));
    var h1 := h.(travel := travel);
    if reply != T.Flag(true) then h1 else
    var m := Resume(epoch);
    Broadcast(Bridge(h1, m), m)
  }

  function OnAbort(h: Host, epoch: int): Host {
    if h.travel.current.None? || h.travel.current.value.epoch != epoch then h else
    Broadcast(h.(travel := T.Step(h.travel, T.Abort(h.travel.current.value.txnId)).0), Abort(epoch))
  }

  // A peer joins or is dropped: the session's bookkeeping, which says nothing to anybody.
  function AddPlayer(h: Host, p: PlayerId): Host {
    h.(players := h.players + {p})
  }

  function RemovePlayer(h: Host, p: PlayerId): Host {
    h.(players := h.players - {p}, travel := T.Step(h.travel, T.RemoveParticipant(p)).0)
  }

  // Everything that can reach the host, as one event.
  datatype Event =
    | RawCaptured(msgId: int, payload: Payload)
    | BatchMarked(epoch: int, kind: Kind)
    | TravelRequested(zoneId: string, actorIds: seq<string>, txnId: string)
    | ReadyReceived(player: PlayerId, txnId: string, epoch: int)
    | ZoneReadyReceived(player: PlayerId, txnId: string, epoch: int)
    | AbortReceived(epoch: int)
    | PlayerJoined(player: PlayerId)
    | PlayerLeft(player: PlayerId)

  function Handle(h: Host, e: Event): Host {
    match e
    case RawCaptured(msgId, payload) => OnRaw(h, msgId, payload)
    case BatchMarked(epoch, kind) => OnViewBatch(h, epoch, kind)
    case TravelRequested(zoneId, actorIds, txnId) => StartTravel(h, zoneId, actorIds, txnId)
    case ReadyReceived(player, txnId, epoch) => OnReady(h, player, txnId, epoch)
    case ZoneReadyReceived(player, txnId, epoch) => OnZoneReady(h, player, txnId, epoch)
    case AbortReceived(epoch) => OnAbort(h, epoch)
    case PlayerJoined(player) => AddPlayer(h, player)
    case PlayerLeft(player) => RemovePlayer(h, player)
  }

  // What a handler ended with: normally, or with the exception of `propose`.
  datatype Outcome = Finished | Failed(error: T.TravelError)

  class HostRuntime {
    const travel: T.TravelCoordinator
    var players: set<PlayerId>
    var gameSequence: nat
    var batchOpen: bool
    var log: seq<Message>
    var toGame: seq<Message>

    ghost function State(): Host
      reads this, travel, travel.current
    {
      Host(players, travel.State(), gameSequence, batchOpen, log, toGame)
    }

    constructor (host: PlayerId)
      ensures State() == Host({host}, T.INITIAL, 0, false, [], [])
      ensures fresh(travel) && travel.current == null
    {
      travel := new T.TravelCoordinator();
      players, gameSequence, batchOpen, log, toGame := {host}, 0, false, [], [];
    }

    method ReceiveRaw(msgId: int, payload: Payload)
      modifies this
      ensures State() == OnRaw(old(State()), msgId, payload)
    {
      if !Readable(payload) {
        toGame := toGame + [Failure(RawInvalid)];
        return;
      }
      gameSequence := gameSequence + 1;
      var active := travel.current;
      var isLive := active != null && active.phase != T.Complete && active.phase != T.Aborted;
      var epoch := if isLive then Some(active.epoch) else None;
      log := log + [Raw(Update(gameSequence, epoch, msgId, payload))];
    }

    method ReceiveViewBatch(epoch: int, kind: Kind)
      modifies this
      ensures State() == OnViewBatch(old(State()), epoch, kind)
    {
      var active := travel.current;
      if active == null || active.epoch != epoch {
        return;
      }
      batchOpen := kind == Begin;
      var m := ViewBatch(epoch, kind);
      if kind == Begin {
        toGame := toGame + [m];
      }
      log := log + [m];
      if kind == End {
        toGame := toGame + [m];
      }
    }

    method RequestTravel(zoneId: string, actorIds: seq<string>, txnId: string) returns (outcome: Outcome)
      modifies this, travel
      ensures State() == StartTravel(old(State()), zoneId, actorIds, txnId)
      ensures outcome.Failed? <==>
              zoneId != "" && T.Step(old(travel.State()), T.Propose(zoneId, actorIds, old(players), txnId)).1 != T.Done
    {
      if zoneId == "" {
        return Finished;
      }
      var reply := travel.Propose(zoneId, actorIds, players, txnId);
      if reply.Raised? {
        return Failed(reply.error);
      }
      var m := Propose(travel.current.epoch, travel.current.txnId, travel.current.zoneId, travel.current.actorIds);
      toGame := toGame + [m];
      log := log + [m];
      return Finished;
    }

    method ReceiveReady(player: PlayerId, txnId: string, epoch: int)
      modifies this, travel.current
      ensures State() == OnReady(old(State()), player, txnId, epoch)
    {
      if txnId == "" {
        return;
      }
      var reply := travel.MarkReady(player, txnId, Some(epoch));
      if reply == T.Flag(true) {
        var t := travel.current;
        var begin := ViewBatch(t.epoch, Begin);
        var commit := Commit(t.epoch, t.txnId, t.zoneId, t.actorIds);
        log := log + [begin];
        toGame := toGame + [begin];
        toGame := toGame + [commit];
        log := log + [commit];
        var waited := travel.BeginZoneWait(txnId);
        assert waited == T.Done;
      }
    }

    method ReceiveZoneReady(player: PlayerId, txnId: string, epoch: int)
      modifies this, travel.current
      ensures State() == OnZoneReady(old(State()), player, txnId, epoch)
    {
      if txnId == "" {
        return;
      }
      var expected := travel.current;
      if expected == null || epoch != expected.epoch {
        return;
      }
      var resume := travel.MarkZoneReady(player, txnId, Some(epoch));
      if resume == T.Flag(true) {
        var m := Resume(expected.epoch);
        toGame := toGame + [m];
        log := log + [m];
      }
    }

    method ReceiveAbort(epoch: int)
      modifies this, travel.current
      ensures State() == OnAbort(old(State()), epoch)
    {
      var txn := travel.current;
      if txn != null && epoch == txn.epoch {
        var _ := travel.AbortTxn(txn.txnId);
        log := log + [Abort(epoch)];
      }
    }
  }
}
