// What holds in every run of the whole system.
module WorldRuns {
  import opened Common
  import opened Wire
  import opened HostSide
  import opened HostRuns
  import opened World
  import T = Travel
  import TravelRuns
  import C = ClientStream
  import opened ClientRefinement
  import PlainFifo

  // ------------------------------------------- the coordinator's calls and the log

  // Call m opened the second barrier of this epoch.
  ghost predicate Opened(calls: seq<T.Call>, m: nat, epoch: int) {
    && m < |calls| && calls[m].MarkZoneReady?
    && TravelRuns.ReplyAt(calls, m) == T.Flag(true)
    && TravelRuns.StateAt(calls, m).epoch == epoch
  }

  ghost predicate ResumesCaused(log: seq<Message>, calls: seq<T.Call>) {
    forall r | 0 <= r < |log| && log[r].Resume? :: exists m :: Opened(calls, m, log[r].epoch)
  }

  lemma {:induction false} PrefixState(calls: seq<T.Call>, more: seq<T.Call>, k: nat)
    requires k <= |calls|
    ensures TravelRuns.StateAt(calls + more, k) == TravelRuns.StateAt(calls, k)
  {
    if k > 0 {
      PrefixState(calls, more, k - 1);
    }
  }

  lemma OpenedStays(calls: seq<T.Call>, more: seq<T.Call>, m: nat, epoch: int)
    requires Opened(calls, m, epoch)
    ensures Opened(calls + more, m, epoch)
  {
    PrefixState(calls, more, m);
  }

  lemma AppendState(calls: seq<T.Call>, call: T.Call)
    ensures TravelRuns.StateAt(calls + [call], |calls| + 1) == T.Step(TravelRuns.StateAt(calls, |calls|), call).0
  {
    PrefixState(calls, [call], |calls|);
  }

  ghost predicate HostOk(h: Host, calls: seq<T.Call>) {
    && HostRuns.Inv(h)
    && h.travel == TravelRuns.StateAt(calls, |calls|)
    && ResumesCaused(h.log, calls)
  }

  lemma CallsExplain(h: Host, calls: seq<T.Call>, e: Event)
    requires h.travel == TravelRuns.StateAt(calls, |calls|)
    ensures var all := calls + CallsMade(h, e); Handle(h, e).travel == TravelRuns.StateAt(all, |all|)
  {
    var made := CallsMade(h, e);
    if |made| == 0 {
      assert calls + made == calls;
    } else {
      AppendState(calls, made[0]);
      if |made| == 1 {
        assert made == [made[0]];
      } else {
        AppendState(calls + [made[0]], made[1]);
        assert calls + made == calls + [made[0]] + [made[1]];
      }
    }
  }

  // A handler sends nothing, or extends the log; a Resume is sent only by the call that opened
  // the barrier.
  lemma HandlerSends(h: Host, e: Event) returns (sent: seq<Message>)
    ensures Handle(h, e).log == h.log + sent
    ensures forall m | m in sent && m.Resume? ::
              e.ZoneReadyReceived? && |CallsMade(h, e)| == 1 &&
              T.Step(h.travel, CallsMade(h, e)[0]).1 == T.Flag(true) &&
              h.travel.current.Some? && h.travel.current.value.epoch == m.epoch
  {
    var g := Handle(h, e);
    if e.ReadyReceived? && |CallsMade(h, e)| == 2 {
      sent := g.log[|h.log|..];
    } else if |g.log| > |h.log| {
      sent := [g.log[|h.log|]];
    } else {
      sent := [];
    }
  }

  lemma HostKeeps(h: Host, calls: seq<T.Call>, e: Event)
    requires HostOk(h, calls)
    ensures HostOk(Handle(h, e), calls + CallsMade(h, e))
    ensures h.log <= Handle(h, e).log
  {
    HandleKeepsInv(h, e);
    CallsExplain(h, calls, e);
    var sent := HandlerSends(h, e);
    var log, all := Handle(h, e).log, calls + CallsMade(h, e);
    forall r | 0 <= r < |log| && log[r].Resume?
      ensures exists m :: Opened(all, m, log[r].epoch)
    {
      if r < |h.log| {
        var m :| Opened(calls, m, h.log[r].epoch);
        OpenedStays(calls, CallsMade(h, e), m, h.log[r].epoch);
      } else {
        assert log[r] in sent;
        PrefixState(calls, CallsMade(h, e), |calls|);
        assert Opened(all, |calls|, log[r].epoch);
      }
    }
  }

  // ------------------------------------------------------------------ the clients

  // A client that has read this much of the log and is in an epoch is in the log's last epoch,
  // and knows its batch complete exactly when the log says so.
  ghost predicate InStep(read: seq<Message>, c: C.Client) {
    || (c.travelEpoch == 0 && !c.batchComplete)
    || (c.travelEpoch > 0 && c.travelEpoch == EpochOf(read) && (c.batchComplete <==> BatchDone(read)))
  }

  ghost predicate ConnOk(log: seq<Message>, conn: Conn) {
    && conn.pos <= |log|
    && PlainFifo.Inv(Abs(conn.client))
    && InStep(log[..conn.pos], conn.client)
    && OnlySent(log[..conn.pos], Abs(conn.client))
  }

  // The client shows and holds only updates that it has read.
  ghost predicate OnlySent(read: seq<Message>, f: PlainFifo.Fifo) {
    forall u | u in f.shown || u in f.queue :: u in Updates(read)
  }

  lemma ReadKeepsOnlySent(read: seq<Message>, m: Message, f: PlainFifo.Fifo)
    requires OnlySent(read, f)
    ensures OnlySent(read + [m], PlainFifo.FifoStep(f, C.FromHost(m)))
  {
    ReadLast(read, m);
  }

  lemma ReadKeepsStep(read: seq<Message>, m: Message, c: C.Client)
    requires InStep(read, c) && MayFollow(read, m)
    ensures InStep(read + [m], C.Step(c, C.FromHost(m)))
  {
    ReadLast(read, m);
  }

  lemma DeliverKeeps(log: seq<Message>, conn: Conn)
    requires WellFormed(log) && ConnOk(log, conn) && conn.pos < |log|
    ensures ConnOk(log, Conn(conn.pos + 1, C.Step(conn.client, C.FromHost(log[conn.pos]))))
  {
    var i := C.FromHost(log[conn.pos]);
    StepRefines(conn.client, i);
    PlainFifo.StepKeepsInv(Abs(conn.client), i);
    ReadKeepsStep(log[..conn.pos], log[conn.pos], conn.client);
    ReadKeepsOnlySent(log[..conn.pos], log[conn.pos], Abs(conn.client));
    assert log[..conn.pos + 1] == log[..conn.pos] + [log[conn.pos]];
  }

  lemma ZoneReportKeeps(log: seq<Message>, conn: Conn, epoch: int)
    requires ConnOk(log, conn)
    ensures ConnOk(log, Conn(conn.pos, C.Step(conn.client, C.ZoneLoaded(epoch))))
  {
    StepRefines(conn.client, C.ZoneLoaded(epoch));
    PlainFifo.StepKeepsInv(Abs(conn.client), C.ZoneLoaded(epoch));
  }

  lemma ConnStays(log: seq<Message>, log': seq<Message>, conn: Conn)
    requires log <= log' && ConnOk(log, conn)
    ensures ConnOk(log', conn)
  {
    assert log'[..conn.pos] == log[..conn.pos];
  }

  ghost predicate Inv(w: World) {
    && HostOk(w.host, w.calls)
    && w.gamePos <= |w.host.toGame|
    && forall p | p in w.clients :: ConnOk(w.host.log, w.clients[p])
  }

  lemma HostDoesKeeps(w: World, e: Event)
    requires Inv(w)
    ensures Inv(HostDoes(w, e))
  {
    HostKeeps(w.host, w.calls, e);
    forall p | p in w.clients
      ensures ConnOk(Handle(w.host, e).log, w.clients[p])
    {
      ConnStays(w.host.log, Handle(w.host, e).log, w.clients[p]);
    }
  }

  ghost predicate ClientStep(s: Step) {
    s.Join? || s.Leave? || s.Deliver? || s.ZoneReport?
  }

  ghost predicate NetStep(s: Step) {
    s.NetRequest? || s.NetReady? || s.NetZoneReady? || s.NetAbort?
  }

  lemma JoinKeepsInv(w: World, p: PlayerId)
    requires Inv(w)
    ensures Inv(Next(w, Join(p)))
  {
    HostDoesKeeps(w, PlayerJoined(p));
  }

  lemma ClientStepKeepsInv(w: World, s: Step)
    requires Inv(w) && ClientStep(s)
    ensures Inv(Next(w, s))
  {
    match s {
      case Join(p) =>
        JoinKeepsInv(w, p);
      case Leave(p) =>
        HostDoesKeeps(w, PlayerLeft(p));
      case Deliver(p) =>
        if p in w.clients && w.clients[p].pos < |w.host.log| {
          DeliverKeeps(w.host.log, w.clients[p]);
        }
      case ZoneReport(p, epoch) =>
        if p in w.clients {
          ZoneReportKeeps(w.host.log, w.clients[p], epoch);
        }
    }
  }

  // The event a network step brings to the host.
  ghost function NetEvent(s: Step): Event
    requires NetStep(s)
  {
    match s
    case NetRequest(zoneId, actorIds, txnId) => TravelRequested(zoneId, actorIds, txnId)
    case NetReady(p, txnId, epoch) => ReadyReceived(p, txnId, epoch)
    case NetZoneReady(p, txnId, epoch) => ZoneReadyReceived(p, txnId, epoch)
    case NetAbort(epoch) => AbortReceived(epoch)
  }

  // What a step does to the host: nothing, or the handling of one event.
  lemma StepEvent(w: World, s: Step) returns (e: Option<Event>)
    ensures Next(w, s).host == if e.Some? then Handle(w.host, e.value) else w.host
    ensures e.Some? && e.value.PlayerLeft? ==> s == Leave(e.value.player)
  {
    e := None;
    if s.Join? && s.player != HOST && s.player !in w.clients {
      e := Some(PlayerJoined(s.player));
    } else if s.Leave? {
      e := Some(PlayerLeft(s.player));
    } else if NetStep(s) && Next(w, s) != w {
      e := Some(NetEvent(s));
    } else if s.HostTakes? && w.fromGame != [] {
      e := Some(AsEvent(w.fromGame[0], s.txnId));
    }
  }

  lemma {:induction false} LogOnlyGrows(steps: seq<Step>, i: nat, k: nat)
    requires i <= k <= |steps|
    ensures WorldAt(steps, i).host.log <= WorldAt(steps, k).host.log
    decreases k
  {
    if i < k {
      LogOnlyGrows(steps, i, k - 1);
      StepGrowsLog(WorldAt(steps, k - 1), steps[k - 1]);
    }
  }

  lemma StepGrowsLog(w: World, s: Step)
    ensures w.host.log <= Next(w, s).host.log
  {
    var e := StepEvent(w, s);
    if e.Some? {
      var _ := HandlerSends(w.host, e.value);
    }
  }

  lemma StepKeepsInv(w: World, s: Step)
    requires Inv(w)
    ensures Inv(Next(w, s))
  {
    if ClientStep(s) {
      ClientStepKeepsInv(w, s);
    } else if NetStep(s) {
      assert Next(w, s) == w || Next(w, s) == HostDoes(w, NetEvent(s));
      HostDoesKeeps(w, NetEvent(s));
    } else if s.HostTakes? && w.fromGame != [] {
      HostDoesKeeps(w.(fromGame := w.fromGame[1..]), AsEvent(w.fromGame[0], s.txnId));
    }
  }

  lemma {:induction false} InvHolds(steps: seq<Step>, k: nat)
    requires k <= |steps|
    ensures Inv(WorldAt(steps, k))
  {
    if k > 0 {
      InvHolds(steps, k - 1);
      StepKeepsInv(WorldAt(steps, k - 1), steps[k - 1]);
    }
  }

  // In every run, what each client's game has been handed is a subsequence of the updates the
  // host broadcast, with strictly increasing numbers.
  lemma ClientsShowSubsequences(steps: seq<Step>, k: nat, p: PlayerId)
    requires k <= |steps| && p in WorldAt(steps, k).clients
    ensures var shown := Shown(WorldAt(steps, k).clients[p].client);
            Increasing(shown) && PlainFifo.Subsequence(shown, Updates(WorldAt(steps, k).host.log))
  {
    InvHolds(steps, k);
    var w := WorldAt(steps, k);
    ShowsSubsequence(w.host.log, w.clients[p]);
  }

  lemma ShowsSubsequence(log: seq<Message>, conn: Conn)
    requires WellFormed(log) && ConnOk(log, conn)
    ensures Increasing(Shown(conn.client)) && PlainFifo.Subsequence(Shown(conn.client), Updates(log))
  {
    var f := Abs(conn.client);
    var all := f.shown + f.queue;
    assert forall i | 0 <= i < |f.shown| :: all[i] == f.shown[i];
    UpdatesAreStamped(log);
    UpdatesGrow(log, conn.pos);
    PlainFifo.IncreasingStampedIsSubsequence(f.shown, Updates(log));
  }

  lemma {:induction false} UpdatesGrow(log: seq<Message>, k: nat)
    requires k <= |log|
    ensures Updates(log[..k]) <= Updates(log)
    decreases |log|
  {
    if k == |log| {
      assert log[..k] == log;
    } else {
      UpdatesGrow(log[..|log| - 1], k);
      assert log[..|log| - 1][..k] == log[..k];
    }
  }
}
