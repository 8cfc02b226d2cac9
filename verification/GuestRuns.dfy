// Steps shared by the runs that show where travel fails: one guest joins, asks for a travel,
// and the host's game prepares it.
module GuestRuns {
  import opened Common
  import opened Wire
  import opened HostSide
  import opened HostRuns
  import opened World
  import T = Travel
  import C = ClientStream
  import opened Resume

  const GUEST: PlayerId := "guest"

  const PREPARING: seq<Step> := [
    Join(GUEST),
    NetRequest("zone", [], "txn"),     // a travel is proposed
    GameTakes(false)]                  // the host's game prepares and reports ready

  const PROPOSAL := Message.Propose(1, "txn", "zone", [])
  const COMMIT := Message.Commit(1, "txn", "zone", [])

  const JOINED: map<PlayerId, Conn> := map[GUEST := Conn(0, C.FRESH)]

  function Txn(listed: set<PlayerId>, phase: T.Phase, ready: set<PlayerId>, zoneReady: set<PlayerId>): T.Coordinator {
    T.Coordinator(Some(T.Txn(1, "txn", "zone", [], listed, phase, ready, zoneReady)), 1)
  }

  // What a world of these runs looks like.
  ghost predicate Looks(
    w: World, players: set<PlayerId>, travel: T.Coordinator, log: seq<Message>, queue: seq<GameEvent>,
    clients: map<PlayerId, Conn>)
  {
    && w.host.players == players && w.host.travel == travel && w.host.log == log
    && w.fromGame == queue && w.clients == clients
  }

  // The travel is proposed, and the host's game has prepared it.
  ghost predicate Prepared(w: World) {
    && w.game == Game("txn", 1, false)
    && Looks(w, {HOST, GUEST}, Txn({HOST, GUEST}, T.WaitingReady, {}, {}), [PROPOSAL], [GameReady("txn", 1)], JOINED)
  }

  lemma Asks(w: World)
    requires w == Next(Next(INITIAL, PREPARING[0]), PREPARING[1])
    ensures Looks(w, {HOST, GUEST}, Txn({HOST, GUEST}, T.WaitingReady, {}, {}), [PROPOSAL], [], JOINED)
    ensures w.host.toGame == [PROPOSAL] && w.gamePos == 0
  {
    assert Next(INITIAL, Join(GUEST)).host == Host({HOST, GUEST}, T.INITIAL, 0, false, [], []);
  }

  lemma Prepares(w: World)
    requires Looks(w, {HOST, GUEST}, Txn({HOST, GUEST}, T.WaitingReady, {}, {}), [PROPOSAL], [], JOINED)
    requires w.host.toGame == [PROPOSAL] && w.gamePos == 0
    ensures Prepared(Next(w, PREPARING[2]))
  {
  }

  lemma AtStep(run: seq<Step>, k: nat)
    requires k < |run|
    ensures WorldAt(run, k + 1) == Next(WorldAt(run, k), run[k])
  {
  }

  lemma UntilPrepared(run: seq<Step>)
    requires PREPARING <= run
    ensures Prepared(WorldAt(run, 3))
  {
    AtStep(run, 0);
    AtStep(run, 1);
    AtStep(run, 2);
    Asks(WorldAt(run, 2));
    Prepares(WorldAt(run, 2));
  }

  // The host's ready is counted, whatever its game has sent after it.
  lemma HostReady(w: World, queue: seq<GameEvent>)
    requires Looks(w, {HOST, GUEST}, Txn({HOST, GUEST}, T.WaitingReady, {}, {}), [PROPOSAL],
                   [GameReady("txn", 1)] + queue, JOINED)
    ensures Looks(Next(w, HostTakes("")), {HOST, GUEST}, Txn({HOST, GUEST}, T.WaitingReady, {HOST}, {}), [PROPOSAL],
                  queue, JOINED)
  {
    assert w.fromGame[1..] == queue;
    assert |HOST| != |GUEST|;
    assert GUEST !in {HOST} && {} + {HOST} == {HOST};
    assert OnReady(w.host, HOST, "txn", 1).travel == Txn({HOST, GUEST}, T.WaitingReady, {HOST}, {});
  }

  // The guest's ready fills the first barrier.
  lemma GuestReady(w: World, log: seq<Message>, queue: seq<GameEvent>)
    requires Looks(w, {HOST, GUEST}, Txn({HOST, GUEST}, T.WaitingReady, {HOST}, {}), log, queue, JOINED)
    ensures Looks(Next(w, NetReady(GUEST, "txn", 1)), {HOST, GUEST},
                  Txn({HOST, GUEST}, T.WaitingZoneReady, {HOST, GUEST}, {}),
                  log + [ViewBatch(1, Begin)] + [COMMIT], queue, JOINED)
  {
    assert |HOST| != |GUEST|;
    assert {HOST} + {GUEST} == {HOST, GUEST};
  }

  // ------------------------------------------------------------- the guest reads

  ghost predicate HasRead(w: World, log: seq<Message>, pos: nat, c: C.Client) {
    w.host.log == log && w.clients == map[GUEST := Conn(pos, c)]
  }

  lemma Reads(w: World, log: seq<Message>, pos: nat, c: C.Client)
    requires HasRead(w, log, pos, c) && pos < |log|
    ensures HasRead(Next(w, Deliver(GUEST)), log, pos + 1, C.Step(c, C.FromHost(log[pos])))
  {
  }

  ghost predicate ReadAt(run: seq<Step>, k: nat, log: seq<Message>, pos: nat, c: C.Client) {
    k <= |run| && HasRead(WorldAt(run, k), log, pos, c) && (c.travelEpoch == if pos == 0 then 0 else 1)
  }

  // A log that begins with the proposal of epoch 1 and proposes nothing else.
  ghost predicate OneTravel(log: seq<Message>) {
    log != [] && log[0] == PROPOSAL && forall i | 0 < i < |log| :: !log[i].Propose?
  }

  lemma ReadsOne(run: seq<Step>, k: nat, log: seq<Message>, pos: nat, b: C.Client) returns (c: C.Client)
    requires OneTravel(log) && ReadAt(run, k, log, pos, b) && pos < |log| && k < |run| && run[k] == Deliver(GUEST)
    ensures ReadAt(run, k + 1, log, pos + 1, c)
  {
    AtStep(run, k);
    Reads(WorldAt(run, k), log, pos, b);
    c := C.Step(b, C.FromHost(log[pos]));
    ReadingKeepsEpoch(log[pos], b, pos == 0);
  }

  lemma ReadingKeepsEpoch(m: Message, c: C.Client, isFirst: bool)
    requires if isFirst then m == PROPOSAL && c.travelEpoch == 0 else !m.Propose? && c.travelEpoch == 1
    ensures C.Step(c, C.FromHost(m)).travelEpoch == 1
  {
  }

  // The guest reads the resume of epoch 1 when the last mark before it was not an end.
  lemma KeepsBuffering(run: seq<Step>, k: nat, log: seq<Message>, pos: nat, c: C.Client)
    requires ReadAt(run, k, log, pos, c) && 0 < pos < |log| && log[pos] == Message.Resume(1) && !BatchDone(log[..pos])
    requires k < |run| && run[k] == Deliver(GUEST)
    ensures ResumeIsNext(WorldAt(run, k), GUEST)
    ensures GUEST in WorldAt(run, k + 1).clients && WorldAt(run, k + 1).clients[GUEST].client.buffering
  {
    ResumeReleasesIffBatchDone(run, k, GUEST);
    AtStep(run, k);
    Reads(WorldAt(run, k), log, pos, c);
  }
}
