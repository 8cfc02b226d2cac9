// The whole system: the host sidecar, the host's own game behind a local bridge, and any
// number of clients, each reading the host's broadcasts in order from the moment it joined.
// Clients are not trusted: anybody but the host may send any acknowledgement, abort or travel
// request at any time, and may leave at any time.
module World {
  import opened Common
  import opened Wire
  import opened HostSide
  import opened HostRuns
  import T = Travel
  import C = ClientStream

  // What the host's game sends to the host.
  datatype GameEvent =
    | GameRaw(msgId: int, payload: Payload)
    | GameRequest(zoneId: string, actorIds: seq<string>)
    | GameReady(txnId: string, epoch: int)
    | GameBatch(epoch: int, kind: Kind)
    | GameZoneReady(txnId: string, epoch: int)
    | GameAbort(epoch: int)

  // The travel globals of the script mod in the host's game. `pending` is "" when no
  // transaction is pending. `committed` is the model's own note that the last of prepare and
  // commit to be read was a commit.
  datatype Game = Game(pending: string, epoch: int, committed: bool)

  function GameReads(g: Game, m: Message, nativeFails: bool): (Game, seq<GameEvent>) {
    match m
    case Propose(epoch, txnId, _, _) => (Game(txnId, epoch, false), [GameReady(txnId, epoch)])
    case Commit(epoch, txnId, _, _) => (Game(txnId, epoch, true), if nativeFails then [GameAbort(epoch)] else [])
    case _ => (g, [])
  }

  // A zone has finished loading: the end of the batch is announced, then the zone.
  function SpunUp(g: Game): seq<GameEvent> {
    if g.pending == "" then [] else [GameBatch(g.epoch, End), GameZoneReady(g.pending, g.epoch)]
  }

  // A client and how far it has read the host's broadcasts.
  datatype Conn = Conn(pos: nat, client: C.Client)

  datatype World = World(
    host: Host, calls: seq<T.Call>, game: Game, gamePos: nat, fromGame: seq<GameEvent>,
    clients: map<PlayerId, Conn>)

  const INITIAL := World(START, [], Game("", 0, false), 0, [], map[])

  datatype Step =
    | Join(player: PlayerId)
    | Leave(player: PlayerId)                         // also the host's: when its name is asked for
    | Deliver(player: PlayerId)                       // a client reads its next broadcast
    | ZoneReport(player: PlayerId, epoch: int)        // a client's own zone finished loading
    | NetRequest(zoneId: string, actorIds: seq<string>, txnId: string)
    | NetReady(player: PlayerId, txnId: string, epoch: int)
    | NetZoneReady(player: PlayerId, txnId: string, epoch: int)
    | NetAbort(epoch: int)
    | GameEmits(event: GameEvent)                     // a view update or a travel request
    | SpinUp                                          // a zone finished loading in the host's game
    | GameTakes(nativeFails: bool)                    // the host's game reads its next bridge message
    | GameMisses                                      // ... or loses it
    | HostTakes(txnId: string)                        // the host reads its game's next event

  // The calls a handler makes on the travel coordinator.
  function CallsMade(h: Host, e: Event): seq<T.Call> {
    match e
    case TravelRequested(zoneId, actorIds, txnId) =>
      if zoneId == "" then [] else [T.Propose(zoneId, actorIds, h.players, txnId)]
    case ReadyReceived(player, txnId, epoch) =>
      if txnId == "" then [] else
      var call := T.MarkReady(player, txnId, Some(epoch));
      if T.Step(h.travel, call).1 == T.Flag(true) then [call, T.BeginZoneWait(txnId)] else [call]
    case ZoneReadyReceived(player, txnId, epoch) =>
      if txnId == "" || h.travel.current.None? || h.travel.current.value.epoch != epoch then []
      else [T.MarkZoneReady(player, txnId, Some(epoch))]
    case AbortReceived(epoch) =>
      if h.travel.current.None? || h.travel.current.value.epoch != epoch then []
      else [T.Abort(h.travel.current.value.txnId)]
    case PlayerLeft(player) => [T.RemoveParticipant(player)]
    case _ => []
  }

  function HostDoes(w: World, e: Event): World {
    w.(host := Handle(w.host, e), calls := w.calls + CallsMade(w.host, e))
  }

  // The event the host sees when it reads this from its game; `txnId` is a fresh uuid.
  function AsEvent(g: GameEvent, txnId: string): Event {
    match g
    case GameRaw(msgId, payload) => RawCaptured(msgId, payload)
    case GameRequest(zoneId, actorIds) => TravelRequested(zoneId, actorIds, txnId)
    case GameReady(id, epoch) => ReadyReceived(HOST, id, epoch)
    case GameBatch(epoch, kind) => BatchMarked(epoch, kind)
    case GameZoneReady(id, epoch) => ZoneReadyReceived(HOST, id, epoch)
    case GameAbort(epoch) => AbortReceived(epoch)
  }

  function ClientDoes(w: World, p: PlayerId, input: C.Input, read: nat): World
    requires p in w.clients
  {
    var conn := w.clients[p];
    w.(clients := w.clients[p := Conn(conn.pos + read, C.Step(conn.client, input))])
  }

  // One step; a step that is not possible changes nothing.
  function Next(w: World, s: Step): World {
    match s
    case Join(p) =>
      if p == HOST || p in w.clients then w
      else HostDoes(w, PlayerJoined(p)).(clients := w.clients[p := Conn(|w.host.log|, C.FRESH)])
    case Leave(p) =>
      HostDoes(w, PlayerLeft(p)).(clients := w.clients - {p})
    case Deliver(p) =>
      if p !in w.clients || w.clients[p].pos >= |w.host.log| then w
      else ClientDoes(w, p, C.FromHost(w.host.log[w.clients[p].pos]), 1)
    case ZoneReport(p, epoch) =>
      if p !in w.clients then w else ClientDoes(w, p, C.ZoneLoaded(epoch), 0)
    case NetRequest(zoneId, actorIds, txnId) => HostDoes(w, TravelRequested(zoneId, actorIds, txnId))
    case NetReady(p, txnId, epoch) => if p == HOST then w else HostDoes(w, ReadyReceived(p, txnId, epoch))
    case NetZoneReady(p, txnId, epoch) => if p == HOST then w else HostDoes(w, ZoneReadyReceived(p, txnId, epoch))
    case NetAbort(epoch) => HostDoes(w, AbortReceived(epoch))
    case GameEmits(e) => if e.GameRaw? || e.GameRequest? then w.(fromGame := w.fromGame + [e]) else w
    case SpinUp => w.(fromGame := w.fromGame + SpunUp(w.game))
    case GameTakes(nativeFails) =>
      if w.gamePos >= |w.host.toGame| then w else
      var (game, events) := GameReads(w.game, w.host.toGame[w.gamePos], nativeFails);
      w.(game := game, gamePos := w.gamePos + 1, fromGame := w.fromGame + events)
    case GameMisses => if w.gamePos >= |w.host.toGame| then w else w.(gamePos := w.gamePos + 1)
    case HostTakes(txnId) =>
      if w.fromGame == [] then w
      else HostDoes(w.(fromGame := w.fromGame[1..]), AsEvent(w.fromGame[0], txnId))
  }

  ghost function WorldAt(steps: seq<Step>, k: nat): World
    requires k <= |steps|
  {
    if k == 0 then INITIAL else Next(WorldAt(steps, k - 1), steps[k - 1])
  }
}
