// When a resume reaches a client, has the client's batch been completed? Exactly when the
// host's last batch mark is an end. That is always so if the host's game announces loaded
// zones only after it has been told to commit; without that, a run exists where it is not.
module Resume {
  import opened Common
  import opened Wire
  import opened HostSide
  import opened HostRuns
  import opened World
  import opened WorldRuns
  import T = Travel
  import TravelRuns
  import C = ClientStream
  import opened ClientRefinement

  // ---------------------------------------------------------------- barrier safety

  // If the host has broadcast Resume for an epoch, then in the coordinator's history there is
  // the proposal i of that epoch and the zone-ready r that opened the barrier, and between them
  // every player listed in the proposal had a zone-ready counted or departed.
  lemma ResumeMeansEveryoneArrivedOrLeft(steps: seq<Step>, k: nat, n: nat) returns (i: nat, r: nat)
    requires k <= |steps| && n < |WorldAt(steps, k).host.log| && WorldAt(steps, k).host.log[n].Resume?
    ensures var calls := WorldAt(steps, k).calls;
            && i < r < |calls| && TravelRuns.Proposed(calls, i)
            && TravelRuns.StateAt(calls, i + 1).epoch == WorldAt(steps, k).host.log[n].epoch
            && forall p | p in calls[i].participants ::
                 || (exists m :: i < m <= r && TravelRuns.ZoneCounted(calls, m, p))
                 || (exists m :: i < m < r && TravelRuns.Departed(calls, m, p))
  {
    InvHolds(steps, k);
    var w := WorldAt(steps, k);
    r :| Opened(w.calls, r, w.host.log[n].epoch);
    i := TravelRuns.ResumeOnlyAfterAllZones(w.calls, r);
  }

  // ---------------------------------------------------- when a resume releases

  // The next message of client p is the resume of the epoch it is in.
  ghost predicate ResumeIsNext(w: World, p: PlayerId) {
    && p in w.clients && w.clients[p].pos < |w.host.log|
    && w.host.log[w.clients[p].pos] == Message.Resume(w.clients[p].client.travelEpoch)
  }

  // A client that is in epoch e and reads Resume(e) stops buffering exactly when the last batch
  // mark the host had broadcast was an end; then its whole buffer goes to its game, and
  // otherwise nothing does.
  lemma ResumeReleasesIffBatchDone(steps: seq<Step>, k: nat, p: PlayerId)
    requires k < |steps| && steps[k] == Deliver(p) && ResumeIsNext(WorldAt(steps, k), p)
    ensures var conn := WorldAt(steps, k).clients[p];
            var before, after := conn.client, WorldAt(steps, k + 1).clients[p].client;
            var done := BatchDone(WorldAt(steps, k).host.log[..conn.pos]);
            && (!after.buffering <==> done)
            && Shown(after) == Shown(before) + (if done then before.buffer else [])
            && after.buffer == (if done then [] else before.buffer)
  {
    InvHolds(steps, k);
    var w := WorldAt(steps, k);
    var conn := w.clients[p];
    StepRefines(conn.client, C.FromHost(w.host.log[conn.pos]));
    assert MayFollow(w.host.log[..conn.pos], w.host.log[conn.pos]);
  }

  // ------------------------------------------- games that load zones only after commit

  // The host's game is disciplined in the first n steps of a run if in them no zone finishes
  // loading between its prepare and its commit.
  ghost predicate Disciplined(steps: seq<Step>, n: nat) {
    forall k | 0 <= k < n :: LoadsInTime(steps, k)
  }

  ghost predicate LoadsInTime(steps: seq<Step>, k: nat) {
    k < |steps| && steps[k] == SpinUp ==> MayLoad(WorldAt(steps, k).game)
  }

  // The host's own player has not been dropped in the first n steps.
  ghost predicate HostStays(steps: seq<Step>, n: nat) {
    forall k | 0 <= k < n && k < |steps| :: steps[k] != Leave(HOST)
  }

  ghost predicate MayLoad(g: Game) {
    g.pending == "" || g.committed
  }

  // The host side, while it is listed: a zone-ready of the host itself, and so a resume, comes
  // only after a commit and an end.
  ghost predicate Clean(h: Host) {
    && HostListed(h)
    && (h.travel.current.Some? && HOST in h.travel.current.value.zoneReady ==> BatchDone(h.log) && CommitSent(h.log))
    && (forall r | 0 <= r < |h.log| && h.log[r].Resume? :: BatchDone(h.log[..r]) && CommitSent(h.log[..r]))
  }

  // The host is not told by its own game to begin a batch, and when its game reports the zone
  // of the current epoch, the commit is sent and the batch is done.
  ghost predicate Timely(h: Host, e: Event) {
    && (e.BatchMarked? ==> e.kind == End)
    && (e.ZoneReadyReceived? && e.player == HOST && e.epoch == h.travel.epoch ==>
          BatchDone(h.log) && CommitSent(h.log))
  }

  ghost predicate StaysDone(h: Host, g: Host) {
    && h.travel.epoch <= g.travel.epoch
    && (h.travel.epoch == g.travel.epoch ==>
          && (CommitSent(h.log) ==> CommitSent(g.log))
          && (BatchDone(h.log) && h.travel.current.Some? && h.travel.current.value.phase != T.WaitingReady ==>
                BatchDone(g.log)))
  }

  // The part of the host's invariant that the next lemmas use.
  ghost predicate Basics(h: Host) {
    && TravelRuns.Inv(h.travel)
    && (h.travel.current.None? ==> h.travel.epoch == 0)
    && (h.travel.current.Some? && h.travel.current.value.phase == T.WaitingReady ==> !CommitSent(h.log))
  }

  lemma ReadyStaysDone(h: Host, player: PlayerId, txnId: string, epoch: int)
    requires Basics(h)
    ensures StaysDone(h, OnReady(h, player, txnId, epoch))
    ensures |CallsMade(h, ReadyReceived(player, txnId, epoch))| == 2 ==>
              CommitSent(OnReady(h, player, txnId, epoch).log)
  {
    var (travel, reply) := T.Step(h.travel, T.MarkReady(player, txnId, Some(epoch)));
    if txnId != "" && reply == T.Flag(true) {
      var t := travel.current.value;
      ReadyOpens(h.travel, player, txnId, epoch);
      ReadLast(h.log + [ViewBatch(t.epoch, Begin)], Commit(t.epoch, t.txnId, t.zoneId, t.actorIds));
    }
  }

  lemma RequestStaysDone(h: Host, zoneId: string, actorIds: seq<string>, txnId: string)
    requires Basics(h)
    ensures StaysDone(h, StartTravel(h, zoneId, actorIds, txnId))
  {
  }

  lemma SendStaysDone(h: Host, g: Host, m: Message)
    requires h.travel.epoch <= g.travel.epoch && g.log == h.log + [m]
    requires !m.Propose? && !(m.ViewBatch? && m.kind == Begin)
    ensures StaysDone(h, g)
  {
    ReadLast(h.log, m);
  }

  lemma BatchStaysDone(h: Host, e: Event)
    requires Basics(h) && Timely(h, e)
    ensures StaysDone(h, Handle(h, e))
  {
    if e.ReadyReceived? {
      ReadyStaysDone(h, e.player, e.txnId, e.epoch);
    } else if e.TravelRequested? {
      RequestStaysDone(h, e.zoneId, e.actorIds, e.txnId);
    } else {
      var g := Handle(h, e);
      if g.log != h.log {
        SendStaysDone(h, g, g.log[|h.log|]);
      }
    }
  }

  lemma ZoneReadyHasCause(h: Host, e: Event)
    requires HostRuns.Inv(h)
    ensures var g := Handle(h, e);
            g.travel.current.Some? && HOST in g.travel.current.value.zoneReady ==>
              && h.travel.current.Some? && h.travel.epoch == g.travel.epoch
              && h.travel.current.value.phase != T.WaitingReady
              && (HOST in h.travel.current.value.zoneReady ||
                  (e.ZoneReadyReceived? && e.player == HOST && e.epoch == h.travel.epoch))
  {
  }

  lemma CleanStays(h: Host, e: Event)
    requires HostRuns.Inv(h) && Clean(h) && e != PlayerLeft(HOST) && Timely(h, e)
    ensures Clean(Handle(h, e))
  {
    var g := Handle(h, e);
    HostStaysListed(h, e);
    BatchStaysDone(h, e);
    ZoneReadyHasCause(h, e);
    var sent := HandlerSends(h, e);
    forall r | 0 <= r < |g.log| && g.log[r].Resume?
      ensures BatchDone(g.log[..r]) && CommitSent(g.log[..r])
    {
      if r < |h.log| {
        assert g.log[..r] == h.log[..r];
      } else {
        assert g.log[r] in sent;
        assert g.log[..r] == h.log;
        assert HOST in g.travel.current.value.zoneReady;
      }
    }
  }

  // The bridge and the game: whatever is on its way between host and game is of a past epoch,
  // or follows the commit of the current one.
  ghost predicate Announced(h: Host, epoch: int) {
    0 < epoch <= h.travel.epoch && (epoch == h.travel.epoch ==> CommitSent(h.log))
  }

  ghost predicate BridgeOk(h: Host, m: Message) {
    && (m.Propose? ==> 0 < m.epoch <= h.travel.epoch)
    && (m.Commit? ==> Announced(h, m.epoch))
  }

  ghost predicate GameOk(h: Host, g: Game) {
    && (g.pending != "" ==> 0 < g.epoch <= h.travel.epoch)
    && (g.pending != "" && g.committed ==> Announced(h, g.epoch))
  }

  // A queued zone-ready of the current epoch is preceded by its end, read or still queued.
  ghost predicate QueueOk(h: Host, q: seq<GameEvent>) {
    forall i | 0 <= i < |q| :: EntryOk(h, q, i)
  }

  ghost predicate EntryOk(h: Host, q: seq<GameEvent>, i: nat)
    requires i < |q|
  {
    && (q[i].GameBatch? ==> q[i].kind == End && Announced(h, q[i].epoch))
    && (q[i].GameZoneReady? ==>
          && Announced(h, q[i].epoch)
          && (q[i].epoch == h.travel.epoch ==>
                BatchDone(h.log) || exists j :: 0 <= j < i && q[j] == GameBatch(q[i].epoch, End)))
  }

  ghost predicate Orderly(w: World) {
    && Clean(w.host)
    && (forall i | w.gamePos <= i < |w.host.toGame| :: BridgeOk(w.host, w.host.toGame[i]))
    && GameOk(w.host, w.game)
    && QueueOk(w.host, w.fromGame)
  }

  lemma HandlerBridges(h: Host, e: Event) returns (sent: seq<Message>)
    requires Basics(h)
    ensures Handle(h, e).toGame == h.toGame + sent
    ensures forall m | m in sent :: BridgeOk(Handle(h, e), m)
  {
    var g := Handle(h, e);
    sent := g.toGame[|h.toGame|..];
    if e.ReadyReceived? {
      ReadyStaysDone(h, e.player, e.txnId, e.epoch);
    }
  }

  lemma AnnouncedStays(h: Host, e: Event, epoch: int)
    requires Basics(h) && Timely(h, e) && Announced(h, epoch)
    ensures Announced(Handle(h, e), epoch)
  {
    BatchStaysDone(h, e);
  }

  lemma QueueStays(h: Host, e: Event, q: seq<GameEvent>)
    requires Basics(h) && Timely(h, e) && QueueOk(h, q)
    ensures QueueOk(Handle(h, e), q)
  {
    BatchStaysDone(h, e);
    forall i | 0 <= i < |q|
      ensures EntryOk(Handle(h, e), q, i)
    {
      assert EntryOk(h, q, i);
      if q[i].GameBatch? || q[i].GameZoneReady? {
        AnnouncedStays(h, e, q[i].epoch);
      }
    }
  }

  lemma HostDoesStaysOrderly(w: World, e: Event)
    requires WorldRuns.Inv(w) && Orderly(w) && e != PlayerLeft(HOST) && Timely(w.host, e)
    ensures Orderly(HostDoes(w, e))
  {
    CleanStays(w.host, e);
    BatchStaysDone(w.host, e);
    QueueStays(w.host, e, w.fromGame);
    var sent := HandlerBridges(w.host, e);
    var g := Handle(w.host, e);
    forall i | w.gamePos <= i < |g.toGame|
      ensures BridgeOk(g, g.toGame[i])
    {
      if i < |w.host.toGame| {
        assert BridgeOk(w.host, w.host.toGame[i]);
      } else {
        assert g.toGame[i] in sent;
      }
    }
  }

  lemma QueueGrows(h: Host, q: seq<GameEvent>, e: GameEvent)
    requires QueueOk(h, q)
    requires !e.GameBatch? && !e.GameZoneReady?
    ensures QueueOk(h, q + [e])
  {
    PrefixOk(h, q, [e]);
  }

  lemma PrefixOk(h: Host, q: seq<GameEvent>, more: seq<GameEvent>)
    requires QueueOk(h, q)
    ensures forall i | 0 <= i < |q| :: EntryOk(h, q + more, i)
  {
    forall i | 0 <= i < |q|
      ensures EntryOk(h, q + more, i)
    {
      assert EntryOk(h, q, i);
      if q[i].GameZoneReady? && q[i].epoch == h.travel.epoch && !BatchDone(h.log) {
        var j :| 0 <= j < i && q[j] == GameBatch(q[i].epoch, End);
        assert (q + more)[j] == q[j];
      }
    }
  }

  lemma SpinUpQueues(h: Host, q: seq<GameEvent>, g: Game)
    requires QueueOk(h, q) && GameOk(h, g) && MayLoad(g)
    ensures QueueOk(h, q + SpunUp(g))
  {
    PrefixOk(h, q, SpunUp(g));
    if g.pending != "" {
      assert (q + SpunUp(g))[|q|] == GameBatch(g.epoch, End);
    } else {
      assert q + SpunUp(g) == q;
    }
  }

  // Reading the head: the event is timely, and the rest of the queue stays in order.
  lemma HeadIsTimely(h: Host, q: seq<GameEvent>, txnId: string)
    requires QueueOk(h, q) && q != []
    ensures Timely(h, AsEvent(q[0], txnId)) && AsEvent(q[0], txnId) != PlayerLeft(HOST)
  {
    assert EntryOk(h, q, 0);
  }

  lemma TailOk(h: Host, q: seq<GameEvent>, txnId: string)
    requires Basics(h) && QueueOk(h, q) && q != []
    ensures QueueOk(Handle(h, AsEvent(q[0], txnId)), q[1..])
  {
    var e := AsEvent(q[0], txnId);
    HeadIsTimely(h, q, txnId);
    QueueStays(h, e, q);
    var g, rest := Handle(h, e), q[1..];
    if q[0] == GameBatch(g.travel.epoch, End) && 0 < g.travel.epoch {
      EndIsRead(h, g.travel.epoch);
    }
    forall i | 0 <= i < |rest|
      ensures EntryOk(g, rest, i)
    {
      assert EntryOk(g, q, i + 1) && q[i + 1] == rest[i];
      if rest[i].GameZoneReady? && rest[i].epoch == g.travel.epoch && !BatchDone(g.log) {
        var j :| 0 <= j < i + 1 && q[j] == GameBatch(rest[i].epoch, End);
        assert rest[j - 1] == q[j];
      }
    }
  }

  lemma EndIsRead(h: Host, epoch: int)
    requires Basics(h) && 0 < epoch == h.travel.epoch
    ensures BatchDone(OnViewBatch(h, epoch, End).log)
  {
    ReadLast(h.log, ViewBatch(epoch, End));
  }

  lemma GameTakesStaysOrderly(w: World, nativeFails: bool)
    requires Orderly(w) && w.gamePos < |w.host.toGame|
    ensures Orderly(Next(w, GameTakes(nativeFails)))
  {
    var m := w.host.toGame[w.gamePos];
    assert BridgeOk(w.host, m);
    var events := GameReads(w.game, m, nativeFails).1;
    if events == [] {
      assert w.fromGame + events == w.fromGame;
    } else {
      assert events == [events[0]];
      QueueGrows(w.host, w.fromGame, events[0]);
    }
  }

  lemma HostTakesStaysOrderly(w: World, txnId: string)
    requires WorldRuns.Inv(w) && Orderly(w) && w.fromGame != []
    ensures Orderly(Next(w, HostTakes(txnId)))
  {
    HeadIsTimely(w.host, w.fromGame, txnId);
    TailOk(w.host, w.fromGame, txnId);
    HostDoesStaysOrderly(w, AsEvent(w.fromGame[0], txnId));
  }

  lemma NetStepStaysOrderly(w: World, s: Step)
    requires WorldRuns.Inv(w) && Orderly(w) && NetStep(s)
    ensures Orderly(Next(w, s))
  {
    if Next(w, s) != w {
      HostDoesStaysOrderly(w, NetEvent(s));
    }
  }

  lemma ClientStepStaysOrderly(w: World, s: Step)
    requires WorldRuns.Inv(w) && Orderly(w) && ClientStep(s) && s != Leave(HOST)
    ensures Orderly(Next(w, s))
  {
    if s.Join? {
      HostDoesStaysOrderly(w, PlayerJoined(s.player));
    } else if s.Leave? {
      HostDoesStaysOrderly(w, PlayerLeft(s.player));
    }
  }

  lemma StepStaysOrderly(w: World, s: Step)
    requires WorldRuns.Inv(w) && Orderly(w) && s != Leave(HOST)
    requires s == SpinUp ==> MayLoad(w.game)
    ensures Orderly(Next(w, s))
  {
    if ClientStep(s) {
      ClientStepStaysOrderly(w, s);
    } else if NetStep(s) {
      NetStepStaysOrderly(w, s);
    } else if s.GameEmits? && (s.event.GameRaw? || s.event.GameRequest?) {
      QueueGrows(w.host, w.fromGame, s.event);
    } else if s.SpinUp? {
      SpinUpQueues(w.host, w.fromGame, w.game);
    } else if s.GameTakes? && w.gamePos < |w.host.toGame| {
      GameTakesStaysOrderly(w, s.nativeFails);
    } else if s.HostTakes? && w.fromGame != [] {
      HostTakesStaysOrderly(w, s.txnId);
    }
  }

  lemma StartIsOrderly()
    ensures Orderly(INITIAL)
  {
  }

  lemma {:induction false} DisciplinedRunsAreOrderly(steps: seq<Step>, k: nat)
    requires k <= |steps| && Disciplined(steps, k) && HostStays(steps, k)
    ensures Orderly(WorldAt(steps, k))
  {
    if k == 0 {
      StartIsOrderly();
    } else {
      var w, s := WorldAt(steps, k - 1), steps[k - 1];
      DisciplinedRunsAreOrderly(steps, k - 1);
      InvHolds(steps, k - 1);
      assert LoadsInTime(steps, k - 1);
      StepStaysOrderly(w, s);
    }
  }

  // Step i broadcast message n of the log.
  ghost predicate SentBy(steps: seq<Step>, i: nat, n: nat) {
    i < |steps| && |WorldAt(steps, i).host.log| <= n < |WorldAt(steps, i + 1).host.log|
  }

  ghost predicate LogReaches(steps: seq<Step>, k: nat, n: nat) {
    k <= |steps| && n < |WorldAt(steps, k).host.log|
  }

  lemma ReachedNow(steps: seq<Step>, k: nat, n: nat)
    requires k < |steps|
    ensures SentBy(steps, k, n) <==> LogReaches(steps, k + 1, n) && !LogReaches(steps, k, n)
    ensures !LogReaches(steps, 0, n)
  {
  }

  // Every message was broadcast by some step.
  lemma {:induction false} Sender(steps: seq<Step>, k: nat, n: nat) returns (i: nat)
    requires 0 < k <= |steps| && LogReaches(steps, k, n)
    ensures i < k && SentBy(steps, i, n)
  {
    ReachedNow(steps, k - 1, n);
    if LogReaches(steps, k - 1, n) {
      i := Sender(steps, k - 1, n);
    } else {
      i := k - 1;
    }
  }

  // If, until a resume was broadcast, the host's game was disciplined and the host's own player
  // stayed, then the resume follows a commit and an end of its epoch.
  lemma ResumeFollowsCommitAndEnd(steps: seq<Step>, i: nat, k: nat, n: nat)
    requires i < k <= |steps| && SentBy(steps, i, n) && Disciplined(steps, i + 1) && HostStays(steps, i + 1)
    ensures n < |WorldAt(steps, k).host.log|
    ensures var log := WorldAt(steps, k).host.log;
            log[n].Resume? ==> BatchDone(log[..n]) && CommitSent(log[..n])
  {
    DisciplinedRunsAreOrderly(steps, i + 1);
    LogOnlyGrows(steps, i + 1, k);
    SamePrefix(WorldAt(steps, i + 1).host.log, WorldAt(steps, k).host.log, n);
  }

  lemma SamePrefix(a: seq<Message>, b: seq<Message>, n: nat)
    requires a <= b && n < |a|
    ensures a[..n] == b[..n] && a[n] == b[n]
  {
  }

  // Such a resume always releases: whatever the clients send, whoever else joins and leaves,
  // whatever the bridge to the game loses, and whatever happens after it was broadcast.
  lemma ResumeAlwaysReleases(steps: seq<Step>, i: nat, k: nat, p: PlayerId)
    requires i < k < |steps| && steps[k] == Deliver(p) && ResumeIsNext(WorldAt(steps, k), p)
    requires SentBy(steps, i, WorldAt(steps, k).clients[p].pos)
    requires Disciplined(steps, i + 1) && HostStays(steps, i + 1)
    ensures var before, after := WorldAt(steps, k).clients[p].client, WorldAt(steps, k + 1).clients[p].client;
            !after.buffering && after.buffer == [] && Shown(after) == Shown(before) + before.buffer
  {
    ResumeFollowsCommitAndEnd(steps, i, k, WorldAt(steps, k).clients[p].pos);
    ResumeReleasesIffBatchDone(steps, k, p);
  }
}
