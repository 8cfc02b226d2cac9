// What reaches the clients' games, end to end: when the host's updates are tagged, and what a
// resume hands over.
module Handover {
  import opened Common
  import opened Wire
  import opened HostSide
  import opened HostRuns
  import opened HostLaws
  import opened World
  import opened WorldRuns
  import opened Resume
  import opened Departures
  import T = Travel
  import C = ClientStream
  import opened ClientRefinement
  import PlainFifo

  ghost predicate LawsAt(steps: seq<Step>, k: nat) {
    k <= |steps| && Laws(WorldAt(steps, k).host)
  }

  lemma LawsFirst(steps: seq<Step>)
    ensures LawsAt(steps, 0)
  {
  }

  lemma LawsNext(steps: seq<Step>, k: nat)
    requires k < |steps| && LawsAt(steps, k)
    ensures LawsAt(steps, k + 1)
  {
    InvHolds(steps, k);
    StepKeepsLaws(WorldAt(steps, k), steps[k]);
  }

  lemma {:induction false} LawsHold(steps: seq<Step>, k: nat)
    requires k <= |steps|
    ensures LawsAt(steps, k)
  {
    if k == 0 {
      LawsFirst(steps);
    } else {
      LawsHold(steps, k - 1);
      LawsNext(steps, k - 1);
    }
  }

  lemma StepKeepsLaws(w: World, s: Step)
    requires WorldRuns.Inv(w) && Laws(w.host)
    ensures Laws(Next(w, s).host)
  {
    var e := StepEvent(w, s);
    if e.Some? {
      HandleKeepsLaws(w.host, e.value);
    }
  }

  // ------------------------------------------------------ what the host's game hears

  ghost predicate GameHears(h: Host) {
    WithoutFailures(h.toGame) == ForGame(h.log)
  }

  lemma StepKeepsHearing(w: World, s: Step)
    requires GameHears(w.host)
    ensures GameHears(Next(w, s).host)
  {
    var e := StepEvent(w, s);
    if e.Some? {
      GameIsTold(w.host, e.value);
    }
  }

  // In every run the host's game is sent, besides failures, exactly the proposals, commits,
  // resumes, begins and ends that are broadcast, in their order.
  lemma {:induction false} GameHearsInOrder(steps: seq<Step>, k: nat)
    requires k <= |steps|
    ensures GameHears(WorldAt(steps, k).host)
  {
    if k > 0 {
      GameHearsInOrder(steps, k - 1);
      StepKeepsHearing(WorldAt(steps, k - 1), steps[k - 1]);
    }
  }

  // -------------------------------------------------------- an abort, in every run

  // Once an abort is in the log, no commit, resume or tagged update of its epoch comes after
  // it; while its epoch is the last one, the travel is over, and the next request for a zone,
  // if anybody is there, opens the next epoch.
  lemma AbortIsFinal(steps: seq<Step>, k: nat, r: nat)
    requires k <= |steps| && r < |WorldAt(steps, k).host.log| && WorldAt(steps, k).host.log[r].Abort?
    ensures var h := WorldAt(steps, k).host;
            var epoch := h.log[r].epoch;
            && (forall n | r < n < |h.log| && (h.log[n].Commit? || h.log[n].Resume?) :: h.log[n].epoch > epoch)
            && (forall n | r < n < |h.log| && h.log[n].Raw? && h.log[n].update.epoch.Some? ::
                  h.log[n].update.epoch.value > epoch)
            && (EpochOf(h.log) == epoch ==> IsOver(h))
  {
    InvHolds(steps, k);
    LawsHold(steps, k);
    AbortIsFinalIn(WorldAt(steps, k).host, r);
  }

  // No travel is in progress, and a request for a zone is taken up at once.
  ghost predicate IsOver(h: Host) {
    !InProgress(h) &&
    (h.players != {} ==>
       forall zoneId, actorIds, txnId | zoneId != "" ::
         Handle(h, TravelRequested(zoneId, actorIds, txnId)).log ==
         h.log + [Propose(EpochOf(h.log) + 1, txnId, zoneId, actorIds)])
  }

  lemma AbortIsFinalIn(h: Host, r: nat)
    requires HostRuns.Inv(h) && Laws(h) && r < |h.log| && h.log[r].Abort?
    ensures forall n | r < n < |h.log| && (h.log[n].Commit? || h.log[n].Resume?) :: h.log[n].epoch > h.log[r].epoch
    ensures forall n | r < n < |h.log| && h.log[n].Raw? && h.log[n].update.epoch.Some? ::
              h.log[n].update.epoch.value > h.log[r].epoch
    ensures EpochOf(h.log) == h.log[r].epoch ==> IsOver(h)
  {
    forall n | r < n < |h.log|
      ensures (h.log[n].Commit? || h.log[n].Resume?) ==> h.log[n].epoch > h.log[r].epoch
      ensures h.log[n].Raw? && h.log[n].update.epoch.Some? ==> h.log[n].update.epoch.value > h.log[r].epoch
    {
      NothingAfterAbort(h.log, r, n);
    }
    AbortsSinceProposal(h.log, r);
    if EpochOf(h.log) == h.log[r].epoch {
      AbortEndsTravel(h);
      forall zoneId, actorIds, txnId | zoneId != "" && h.players != {}
        ensures Handle(h, TravelRequested(zoneId, actorIds, txnId)).log ==
                h.log + [Propose(EpochOf(h.log) + 1, txnId, zoneId, actorIds)]
      {
        RequestAfterAbort(h, zoneId, actorIds, txnId);
      }
    }
  }

  // ------------------------------------------------- when a travel is in progress

  // The travel of the last proposal has been completed by a departure.
  ghost predicate EndedInSilence(steps: seq<Step>, k: nat, epoch: int) {
    exists i :: 0 <= i < k && LeavesOpen(steps, i, epoch, false)
  }

  // As the broadcasts and the departures tell: something was proposed, and since then nothing
  // was aborted or resumed, and no departure has completed the travel.
  ghost predicate IsLive(steps: seq<Step>, k: nat, log: seq<Message>) {
    EpochOf(log) > 0 && !AbortSent(log) && !ResumeSent(log) && !EndedInSilence(steps, k, EpochOf(log))
  }

  lemma CompletionHasCause(h: Host, e: Event, epoch: int)
    requires HostRuns.Inv(h) && InPhase(Handle(h, e), epoch, T.Complete)
    ensures || ResumeSent(Handle(h, e).log)
            || LastAbsentLeaves(h, e, epoch)
            || (InPhase(h, epoch, T.Complete) && !ResumeSent(h.log))
  {
    if InPhase(h, epoch, T.Complete) {
      if ResumeSent(h.log) {
        StaysResumed(h, e);
      }
    } else if e.PlayerLeft? {
      SilentCompletionIff(h, e, epoch);
    } else {
      CompletedByReport(h, e, epoch);
    }
  }

  lemma CompletedByReport(h: Host, e: Event, epoch: int)
    requires HostRuns.Inv(h) && InPhase(Handle(h, e), epoch, T.Complete)
    requires !InPhase(h, epoch, T.Complete) && !e.PlayerLeft?
    ensures ResumeSent(Handle(h, e).log)
  {
    if e.ReadyReceived? && T.Step(h.travel, T.MarkReady(e.player, e.txnId, Some(e.epoch))).1 == T.Flag(true) {
      ReadyOpens(h.travel, e.player, e.txnId, e.epoch);
    }
    assert e.ZoneReadyReceived?;
    ReadLast(h.log, Message.Resume(e.epoch));
  }

  lemma StaysResumed(h: Host, e: Event)
    requires HostRuns.Inv(h) && ResumeSent(h.log) && Handle(h, e).travel.epoch == h.travel.epoch
    ensures ResumeSent(Handle(h, e).log)
  {
    var g := Handle(h, e);
    if |g.log| == |h.log| + 1 {
      ReadLast(h.log, g.log[|h.log|]);
      assert g.log == h.log + [g.log[|h.log|]];
    } else if |g.log| > |h.log| {
      assert e.ReadyReceived?;
      ReadyOpens(h.travel, e.player, e.txnId, e.epoch);
    }
  }

  // The causes of a completed travel, in every run.
  ghost predicate Caused(steps: seq<Step>, k: nat, h: Host) {
    h.travel.current.Some? && h.travel.current.value.phase == T.Complete ==>
      ResumeSent(h.log) || EndedInSilence(steps, k, h.travel.current.value.epoch)
  }

  lemma StepKeepsCause(steps: seq<Step>, k: nat, w: World, x: World)
    requires k < |steps| && w == WorldAt(steps, k) && x == Next(w, steps[k])
    requires WorldRuns.Inv(w) && Caused(steps, k, w.host)
    ensures Caused(steps, k + 1, x.host)
  {
    var e := StepEvent(w, steps[k]);
    if e.Some? && x.host.travel.current.Some? && x.host.travel.current.value.phase == T.Complete {
      var epoch := x.host.travel.current.value.epoch;
      CompletionHasCause(w.host, e.value, epoch);
      if LastAbsentLeaves(w.host, e.value, epoch) {
        assert LeavesOpen(steps, k, epoch, false);
      }
    }
  }

  lemma {:induction false} CompletedTravelsAreCaused(steps: seq<Step>, k: nat)
    requires k <= |steps|
    ensures Caused(steps, k, WorldAt(steps, k).host)
  {
    if k > 0 {
      CompletedTravelsAreCaused(steps, k - 1);
      InvHolds(steps, k - 1);
      StepKeepsCause(steps, k - 1, WorldAt(steps, k - 1), WorldAt(steps, k));
    }
  }

  lemma SilenceEnds(steps: seq<Step>, k: nat, epoch: int)
    requires k <= |steps| && EndedInSilence(steps, k, epoch)
    ensures HasEnded(WorldAt(steps, k).host, epoch)
  {
    var i :| 0 <= i < k && LeavesOpen(steps, i, epoch, false);
    PastFrom(steps, i, epoch, false);
    StaysPast(steps, i, k, epoch, false);
  }

  // In every run the coordinator's travel is in progress exactly when broadcasts and departures
  // say so.
  lemma LiveIff(steps: seq<Step>, k: nat, h: Host)
    requires k <= |steps| && h == WorldAt(steps, k).host
    ensures InProgress(h) <==> IsLive(steps, k, h.log)
  {
    InvHolds(steps, k);
    LawsHold(steps, k);
    CompletedTravelsAreCaused(steps, k);
    if EndedInSilence(steps, k, EpochOf(h.log)) {
      SilenceEnds(steps, k, EpochOf(h.log));
    }
  }

  // Every readable update that the host takes from its game is broadcast as it is, under the
  // next number, tagged with the last proposal's epoch if its travel is live, and else not at all.
  lemma UpdatesCarryTheLiveEpoch(steps: seq<Step>, k: nat, w: World, txnId: string)
    requires k < |steps| && steps[k] == HostTakes(txnId) && w == WorldAt(steps, k)
    requires w.fromGame != [] && w.fromGame[0].GameRaw? && Readable(w.fromGame[0].payload)
    ensures var g, log := w.fromGame[0], w.host.log;
            var epoch := if IsLive(steps, k, log) then Some(EpochOf(log)) else None;
            WorldAt(steps, k + 1).host.log ==
            log + [Raw(Update(|Updates(log)| + 1, epoch, g.msgId, g.payload))]
  {
    InvHolds(steps, k);
    LiveIff(steps, k, w.host);
    UpdateIsStamped(w.host, w.fromGame[0].msgId, w.fromGame[0].payload);
    assert WorldAt(steps, k + 1) == Next(w, steps[k]);
  }

  // -------------------------------------------------------- what a client has kept

  // The updates broadcast since the last proposal or batch begin.
  ghost function SinceReset(log: seq<Message>): seq<Update> {
    if log == [] then []
    else
      var front, m := log[..|log| - 1], log[|log| - 1];
      if m.Propose? || (m.ViewBatch? && m.kind == Begin) then []
      else if m.Raw? then SinceReset(front) + [m.update]
      else SinceReset(front)
  }

  lemma SinceResetNext(log: seq<Message>, m: Message)
    ensures SinceReset(log + [m]) ==
            if m.Propose? || (m.ViewBatch? && m.kind == Begin) then []
            else if m.Raw? then SinceReset(log) + [m.update]
            else SinceReset(log)
  {
    assert (log + [m])[..|log|] == log;
  }

  predicate EndsWith(a: seq<Update>, b: seq<Update>) {
    |b| <= |a| && a[|a| - |b|..] == b
  }

  // What a client in an epoch has of the updates since the last reset that it has read, if all
  // of them were tagged: while it holds them, the first 256; and all of them, shown or held, if
  // they are no more than that.
  ghost predicate HasKept(read: seq<Message>, f: PlainFifo.Fifo) {
    && f.lastSequence <= |Updates(read)|
    && (f.travelEpoch > 0 ==> f.travelEpoch == EpochOf(read))
    && (f.travelEpoch > 0 && !UntaggedSent(read) ==>
          && (f.holding ==> f.queue == PlainFifo.Take(SinceReset(read), C.MAX_BUFFERED))
          && (|SinceReset(read)| <= C.MAX_BUFFERED ==> EndsWith(f.shown + f.queue, SinceReset(read))))
  }

  lemma AppendEnds(a: seq<Update>, b: seq<Update>, u: Update)
    requires EndsWith(a, b)
    ensures EndsWith(a + [u], b + [u])
  {
  }

  // A client that is in an epoch, or in none yet, accepts every update it reads in that epoch.
  lemma UpdateIsTaken(read: seq<Message>, f: PlainFifo.Fifo, u: Update)
    requires HasKept(read, f) && MayFollow(read, Raw(u)) && IsLawful(read, Raw(u))
    requires f.travelEpoch >= 0 && (f.travelEpoch > 0 ==> u.epoch.Some?)
    ensures PlainFifo.Takes(f, C.FromHost(Raw(u)))
  {
  }

  lemma OfferKeeps(read: seq<Message>, f: PlainFifo.Fifo, u: Update)
    requires HasKept(read, f) && PlainFifo.Inv(f) && f.travelEpoch > 0 && !UntaggedSent(read)
    ensures var g, since := PlainFifo.Offer(f, u), SinceReset(read) + [u];
            && (g.holding ==> g.queue == PlainFifo.Take(since, C.MAX_BUFFERED))
            && (|since| <= C.MAX_BUFFERED ==> EndsWith(g.shown + g.queue, since))
  {
    var since := SinceReset(read);
    if |since| < C.MAX_BUFFERED {
      AppendEnds(f.shown + f.queue, since, u);
      assert f.shown + f.queue + [u] == f.shown + (f.queue + [u]);
    }
  }

  lemma RawKeeps(read: seq<Message>, f: PlainFifo.Fifo, u: Update)
    requires HasKept(read, f) && PlainFifo.Inv(f)
    requires MayFollow(read, Raw(u)) && IsLawful(read, Raw(u))
    ensures HasKept(read + [Raw(u)], PlainFifo.FifoStep(f, C.FromHost(Raw(u))))
  {
    ReadLast(read, Raw(u));
    ReadNext(read, Raw(u));
    SinceResetNext(read, Raw(u));
    if f.travelEpoch > 0 && u.epoch.Some? {
      UpdateIsTaken(read, f, u);
      if !UntaggedSent(read) {
        OfferKeeps(read, f, u);
      }
    }
  }

  lemma ResetKeeps(read: seq<Message>, f: PlainFifo.Fifo, m: Message)
    requires HasKept(read, f) && PlainFifo.Inv(f) && MayFollow(read, m)
    requires m.Propose? || (m.ViewBatch? && m.kind == Begin)
    ensures HasKept(read + [m], PlainFifo.FifoStep(f, C.FromHost(m)))
  {
    ReadLast(read, m);
    ReadNext(read, m);
    SinceResetNext(read, m);
  }

  lemma OtherKeeps(read: seq<Message>, f: PlainFifo.Fifo, m: Message)
    requires HasKept(read, f) && MayFollow(read, m)
    requires !m.Raw? && !m.Propose? && !(m.ViewBatch? && m.kind == Begin)
    ensures HasKept(read + [m], PlainFifo.FifoStep(f, C.FromHost(m)))
  {
    ReadLast(read, m);
    ReadNext(read, m);
    SinceResetNext(read, m);
    assert f.shown + f.queue + [] == f.shown + f.queue;
  }

  lemma ReadKeeps(read: seq<Message>, f: PlainFifo.Fifo, m: Message)
    requires HasKept(read, f) && PlainFifo.Inv(f) && MayFollow(read, m) && IsLawful(read, m)
    ensures HasKept(read + [m], PlainFifo.FifoStep(f, C.FromHost(m)))
  {
    if m.Raw? {
      RawKeeps(read, f, m.update);
    } else if m.Propose? || (m.ViewBatch? && m.kind == Begin) {
      ResetKeeps(read, f, m);
    } else {
      OtherKeeps(read, f, m);
    }
  }

  lemma ZoneLoadKeeps(read: seq<Message>, f: PlainFifo.Fifo, epoch: int)
    requires HasKept(read, f)
    ensures HasKept(read, PlainFifo.FifoStep(f, C.ZoneLoaded(epoch)))
  {
    assert f.shown + f.queue + [] == f.shown + f.queue;
  }

  // ------------------------------------------------------------ in every run

  ghost predicate AllKept(w: World) {
    forall p | p in w.clients :: ConnKept(w.host.log, w.clients[p])
  }

  ghost predicate ConnKept(log: seq<Message>, conn: Conn) {
    conn.pos <= |log| && HasKept(log[..conn.pos], Abs(conn.client))
  }

  lemma DeliverKept(log: seq<Message>, conn: Conn)
    requires WellFormed(log) && Lawful(log) && ConnOk(log, conn) && ConnKept(log, conn) && conn.pos < |log|
    ensures ConnKept(log, Conn(conn.pos + 1, C.Step(conn.client, C.FromHost(log[conn.pos]))))
  {
    StepRefines(conn.client, C.FromHost(log[conn.pos]));
    ReadKeeps(log[..conn.pos], Abs(conn.client), log[conn.pos]);
    assert log[..conn.pos + 1] == log[..conn.pos] + [log[conn.pos]];
  }

  lemma ZoneReportKept(log: seq<Message>, conn: Conn, epoch: int)
    requires ConnOk(log, conn) && ConnKept(log, conn)
    ensures ConnKept(log, Conn(conn.pos, C.Step(conn.client, C.ZoneLoaded(epoch))))
  {
    StepRefines(conn.client, C.ZoneLoaded(epoch));
    ZoneLoadKeeps(log[..conn.pos], Abs(conn.client), epoch);
  }

  lemma FreshIsKept(log: seq<Message>)
    ensures ConnKept(log, Conn(|log|, C.FRESH))
  {
  }

  lemma LongerLogKept(log: seq<Message>, longer: seq<Message>, conn: Conn)
    requires log <= longer && ConnKept(log, conn)
    ensures ConnKept(longer, conn)
  {
    assert longer[..conn.pos] == log[..conn.pos];
  }

  // What a step does to one client's connection.
  lemma ConnNext(w: World, s: Step, p: PlayerId)
    requires p in Next(w, s).clients
    ensures var x, log := Next(w, s), w.host.log;
            if s == Deliver(p) && p in w.clients && w.clients[p].pos < |log| then
              x.clients[p] ==
                Conn(w.clients[p].pos + 1, C.Step(w.clients[p].client, C.FromHost(log[w.clients[p].pos])))
            else if s.ZoneReport? && s.player == p && p in w.clients then
              x.clients[p] == Conn(w.clients[p].pos, C.Step(w.clients[p].client, C.ZoneLoaded(s.epoch)))
            else if p in w.clients then x.clients[p] == w.clients[p]
            else s == Join(p) && x.clients[p] == Conn(|log|, C.FRESH)
  {
  }

  lemma StepKeepsKept(w: World, s: Step)
    requires WorldRuns.Inv(w) && Laws(w.host) && AllKept(w)
    ensures AllKept(Next(w, s))
  {
    var x, log := Next(w, s), w.host.log;
    StepGrowsLog(w, s);
    forall p | p in x.clients
      ensures ConnKept(x.host.log, x.clients[p])
    {
      ConnNext(w, s, p);
      if s == Deliver(p) && p in w.clients && w.clients[p].pos < |log| {
        DeliverKept(log, w.clients[p]);
      } else if s.ZoneReport? && s.player == p && p in w.clients {
        ZoneReportKept(log, w.clients[p], s.epoch);
      } else if p !in w.clients {
        FreshIsKept(log);
      }
      LongerLogKept(log, x.host.log, x.clients[p]);
    }
  }

  ghost predicate KeptAt(steps: seq<Step>, k: nat) {
    k <= |steps| && AllKept(WorldAt(steps, k))
  }

  lemma KeptNext(steps: seq<Step>, k: nat)
    requires k < |steps| && KeptAt(steps, k)
    ensures KeptAt(steps, k + 1)
  {
    InvHolds(steps, k);
    LawsHold(steps, k);
    StepKeepsKept(WorldAt(steps, k), steps[k]);
  }

  lemma {:induction false} KeptHolds(steps: seq<Step>, k: nat)
    requires k <= |steps|
    ensures KeptAt(steps, k)
  {
    if k > 0 {
      KeptHolds(steps, k - 1);
      KeptNext(steps, k - 1);
    }
  }

  // A client with a complete batch reads the resume of its epoch.
  lemma HandsOver(read: seq<Message>, c: C.Client)
    requires HasKept(read, Abs(c)) && PlainFifo.Inv(Abs(c)) && !UntaggedSent(read)
    requires c.travelEpoch > 0 && c.batchComplete
    ensures var after := C.Step(c, C.FromHost(Message.Resume(c.travelEpoch)));
            && after.buffer == []
            && (c.buffering ==> Shown(after) == Shown(c) + PlainFifo.Take(SinceReset(read), C.MAX_BUFFERED))
            && (|SinceReset(read)| <= C.MAX_BUFFERED ==> EndsWith(Shown(after), SinceReset(read)))
  {
    StepRefines(c, C.FromHost(Message.Resume(c.travelEpoch)));
  }

  // What a resume hands over. Client p, in its epoch, reads the resume, and the last mark before
  // it is an end. Then everything broadcast since the proposal was tagged. If the client is still
  // buffering, its game is handed exactly the first 256 updates broadcast between the last
  // proposal or begin and the resume; and buffering or not, if there were no more than that, its
  // game now has all of them, and they are the last it has.
  lemma ResumeHandsOver(steps: seq<Step>, k: nat, p: PlayerId, w: World, x: World)
    requires k < |steps| && steps[k] == Deliver(p) && w == WorldAt(steps, k) && x == WorldAt(steps, k + 1)
    requires ResumeIsNext(w, p) && w.clients[p].client.travelEpoch > 0 && BatchDone(w.host.log[..w.clients[p].pos])
    ensures p in x.clients
    ensures var read, before, after := w.host.log[..w.clients[p].pos], w.clients[p].client, x.clients[p].client;
            && !UntaggedSent(read) && after.buffer == []
            && (before.buffering ==>
                  Shown(after) == Shown(before) + PlainFifo.Take(SinceReset(read), C.MAX_BUFFERED))
            && (|SinceReset(read)| <= C.MAX_BUFFERED ==> EndsWith(Shown(after), SinceReset(read)))
  {
    KeptHolds(steps, k);
    LawsHold(steps, k);
    InvHolds(steps, k);
    ResumeHandsOverIn(w, p);
  }

  lemma ResumeHandsOverIn(w: World, p: PlayerId)
    requires WorldRuns.Inv(w) && Laws(w.host) && AllKept(w)
    requires ResumeIsNext(w, p) && w.clients[p].client.travelEpoch > 0 && BatchDone(w.host.log[..w.clients[p].pos])
    ensures var x := Next(w, Deliver(p));
            p in x.clients &&
            var read, before, after := w.host.log[..w.clients[p].pos], w.clients[p].client, x.clients[p].client;
            && !UntaggedSent(read) && after.buffer == []
            && (before.buffering ==>
                  Shown(after) == Shown(before) + PlainFifo.Take(SinceReset(read), C.MAX_BUFFERED))
            && (|SinceReset(read)| <= C.MAX_BUFFERED ==> EndsWith(Shown(after), SinceReset(read)))
  {
    var conn := w.clients[p];
    assert ConnKept(w.host.log, conn) && ConnOk(w.host.log, conn);
    assert IsLawful(w.host.log[..conn.pos], w.host.log[conn.pos]);
    HandsOver(w.host.log[..conn.pos], conn.client);
    ConnNext(w, Deliver(p), p);
  }

  // -------------------------------------------------------- before a client's first travel

  // A client that has read no proposal since it joined, when the log had n messages, has shown
  // every update since then.
  ghost predicate ShowsAll(log: seq<Message>, n: nat, conn: Conn) {
    && n <= conn.pos <= |log|
    && conn.client.lastSequence <= |Updates(log[..conn.pos])|
    && (conn.client.travelEpoch == 0 ==>
          && !conn.client.buffering && !conn.client.batchComplete && conn.client.buffer == []
          && Updates(log[..n]) + Shown(conn.client) == Updates(log[..conn.pos]))
  }

  lemma FirstReads(read: seq<Message>, f: PlainFifo.Fifo, m: Message)
    requires MayFollow(read, m) && IsLawful(read, m)
    requires f.travelEpoch == 0 && f.lastSequence <= |Updates(read)| && !f.holding && !f.complete && f.queue == []
    ensures var g := PlainFifo.FifoStep(f, C.FromHost(m));
            && g.lastSequence <= |Updates(read + [m])|
            && (g.travelEpoch == 0 ==>
                  && !g.holding && !g.complete && g.queue == []
                  && g.shown == f.shown + (if m.Raw? then [m.update] else []))
  {
    ReadLast(read, m);
  }

  lemma LaterReads(read: seq<Message>, f: PlainFifo.Fifo, m: Message)
    requires MayFollow(read, m) && f.travelEpoch > 0 && f.lastSequence <= |Updates(read)|
    ensures var g := PlainFifo.FifoStep(f, C.FromHost(m));
            g.travelEpoch > 0 && g.lastSequence <= |Updates(read + [m])|
  {
    ReadLast(read, m);
  }

  lemma DeliverShows(log: seq<Message>, n: nat, conn: Conn)
    requires WellFormed(log) && Lawful(log) && ConnOk(log, conn) && ShowsAll(log, n, conn) && conn.pos < |log|
    ensures ShowsAll(log, n, Conn(conn.pos + 1, C.Step(conn.client, C.FromHost(log[conn.pos]))))
  {
    var read, m := log[..conn.pos], log[conn.pos];
    StepRefines(conn.client, C.FromHost(m));
    assert MayFollow(read, m) && IsLawful(read, m);
    assert log[..conn.pos + 1] == read + [m];
    if conn.client.travelEpoch == 0 {
      FirstReads(read, Abs(conn.client), m);
      ReadLast(read, m);
      if m.Raw? {
        assert Updates(log[..n]) + (Shown(conn.client) + [m.update]) ==
               Updates(log[..n]) + Shown(conn.client) + [m.update];
      } else {
        assert Shown(conn.client) + [] == Shown(conn.client);
      }
    } else {
      LaterReads(read, Abs(conn.client), m);
    }
  }

  lemma ZoneReportShows(log: seq<Message>, n: nat, conn: Conn, epoch: int)
    requires ConnOk(log, conn) && ShowsAll(log, n, conn)
    ensures ShowsAll(log, n, Conn(conn.pos, C.Step(conn.client, C.ZoneLoaded(epoch))))
  {
    StepRefines(conn.client, C.ZoneLoaded(epoch));
  }

  lemma LongerLogShows(log: seq<Message>, longer: seq<Message>, n: nat, conn: Conn)
    requires log <= longer && ShowsAll(log, n, conn)
    ensures ShowsAll(longer, n, conn)
  {
    assert longer[..conn.pos] == log[..conn.pos] && longer[..n] == log[..n];
  }

  lemma StaysConnected(w: World, s: Step, p: PlayerId)
    requires p in w.clients && s != Leave(p)
    ensures p in Next(w, s).clients
  {
  }

  lemma StepShows(w: World, s: Step, p: PlayerId, n: nat)
    requires WellFormed(w.host.log) && Laws(w.host) && p in w.clients && s != Leave(p)
    requires ConnOk(w.host.log, w.clients[p]) && ShowsAll(w.host.log, n, w.clients[p])
    ensures p in Next(w, s).clients && ShowsAll(Next(w, s).host.log, n, Next(w, s).clients[p])
  {
    var log, conn := w.host.log, w.clients[p];
    StepGrowsLog(w, s);
    StaysConnected(w, s, p);
    ConnNext(w, s, p);
    if s == Deliver(p) && conn.pos < |log| {
      DeliverShows(log, n, conn);
    } else if s.ZoneReport? && s.player == p {
      ZoneReportShows(log, n, conn, s.epoch);
    }
    LongerLogShows(log, Next(w, s).host.log, n, Next(w, s).clients[p]);
  }

  ghost predicate ShowsAt(steps: seq<Step>, k: nat, p: PlayerId, n: nat) {
    k <= |steps| && p in WorldAt(steps, k).clients &&
    ShowsAll(WorldAt(steps, k).host.log, n, WorldAt(steps, k).clients[p])
  }

  lemma ShowsNext(steps: seq<Step>, k: nat, p: PlayerId, n: nat)
    requires k < |steps| && ShowsAt(steps, k, p, n) && steps[k] != Leave(p)
    ensures ShowsAt(steps, k + 1, p, n)
  {
    InvHolds(steps, k);
    LawsHold(steps, k);
    StepShows(WorldAt(steps, k), steps[k], p, n);
  }

  // Step j connects p, when the log has n messages.
  ghost predicate JoinsAt(steps: seq<Step>, j: nat, p: PlayerId, n: nat) {
    && j < |steps| && steps[j] == Join(p) && p != HOST
    && p !in WorldAt(steps, j).clients && n == |WorldAt(steps, j).host.log|
  }

  lemma ShowsFirst(steps: seq<Step>, j: nat, p: PlayerId, n: nat)
    requires JoinsAt(steps, j, p, n)
    ensures ShowsAt(steps, j + 1, p, n)
  {
    var w := WorldAt(steps, j);
    assert Next(w, Join(p)).host.log == w.host.log;
  }

  // In every run: until it reads its first proposal, a client that has stayed since step j shows
  // every update that it has read.
  lemma {:induction false} ShowsAllUntilTravel(steps: seq<Step>, j: nat, k: nat, p: PlayerId, n: nat)
    requires JoinsAt(steps, j, p, n) && j < k <= |steps| && forall i | j < i < k :: steps[i] != Leave(p)
    ensures ShowsAt(steps, k, p, n)
    decreases k
  {
    if k == j + 1 {
      ShowsFirst(steps, j, p, n);
    } else {
      ShowsAllUntilTravel(steps, j, k - 1, p, n);
      ShowsNext(steps, k - 1, p, n);
    }
  }
}
