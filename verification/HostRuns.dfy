// What the host's broadcast log looks like after any sequence of events.
module HostRuns {
  import opened Common
  import opened Wire
  import opened HostSide
  import T = Travel
  import TravelRuns

  // The host's own player. No remote peer can join under this identity or send in its name,
  // but a refused attempt to join under it drops the host's own player from the session.
  const HOST: PlayerId := "host"

  const START := Host({HOST}, T.INITIAL, 0, false, [], [])

  // ------------------------------------------------------------ reading the log

  // The epoch of the last proposal in a log.
  ghost function EpochOf(log: seq<Message>): nat {
    if log == [] then 0
    else
      var m := log[|log| - 1];
      if m.Propose? && m.epoch >= 0 then m.epoch else EpochOf(log[..|log| - 1])
  }

  // The last batch mark since the last proposal is an end.
  ghost predicate BatchDone(log: seq<Message>) {
    log != [] &&
    var m := log[|log| - 1];
    if m.Propose? || (m.ViewBatch? && m.kind == Begin) then false
    else (m.ViewBatch? && m.kind == End) || BatchDone(log[..|log| - 1])
  }

  // A commit was broadcast since the last proposal.
  ghost predicate CommitSent(log: seq<Message>) {
    log != [] &&
    var m := log[|log| - 1];
    !m.Propose? && (m.Commit? || CommitSent(log[..|log| - 1]))
  }

  // A resume was broadcast since the last proposal.
  ghost predicate ResumeSent(log: seq<Message>) {
    log != [] &&
    var m := log[|log| - 1];
    !m.Propose? && (m.Resume? || ResumeSent(log[..|log| - 1]))
  }

  ghost function Updates(log: seq<Message>): seq<Update> {
    if log == [] then []
    else
      var front := Updates(log[..|log| - 1]);
      if log[|log| - 1].Raw? then front + [log[|log| - 1].update] else front
  }

  lemma ReadLast(log: seq<Message>, m: Message)
    ensures EpochOf(log + [m]) == if m.Propose? && m.epoch >= 0 then m.epoch else EpochOf(log)
    ensures BatchDone(log + [m]) <==>
            !m.Propose? && !(m.ViewBatch? && m.kind == Begin) && ((m.ViewBatch? && m.kind == End) || BatchDone(log))
    ensures CommitSent(log + [m]) <==> !m.Propose? && (m.Commit? || CommitSent(log))
    ensures ResumeSent(log + [m]) <==> !m.Propose? && (m.Resume? || ResumeSent(log))
    ensures Updates(log + [m]) == if m.Raw? then Updates(log) + [m.update] else Updates(log)
  {
    assert (log + [m])[..|log|] == log;
  }

  // What may follow a log: the next proposal takes the next epoch, updates are numbered in
  // order and tagged only with the current epoch, everything else is of the current epoch, and
  // commit and resume come once.
  ghost predicate MayFollow(log: seq<Message>, m: Message) {
    match m
    case Propose(epoch, _, _, _) => epoch == EpochOf(log) + 1
    case Raw(u) => u.sequence == |Updates(log)| + 1 && (u.epoch.Some? ==> u.epoch.value == EpochOf(log))
    case ViewBatch(epoch, _) => epoch == EpochOf(log) > 0
    case Commit(epoch, _, _, _) => epoch == EpochOf(log) > 0 && !CommitSent(log)
    case Resume(epoch) => epoch == EpochOf(log) > 0 && !ResumeSent(log)
    case Abort(epoch) => epoch == EpochOf(log) > 0
    case Failure(_) => false
  }

  ghost predicate WellFormed(log: seq<Message>) {
    forall k | 0 <= k < |log| :: MayFollow(log[..k], log[k])
  }

  lemma WellFormedExtends(log: seq<Message>, m: Message)
    requires WellFormed(log) && MayFollow(log, m)
    ensures WellFormed(log + [m])
  {
    var next := log + [m];
    forall k | 0 <= k < |next|
      ensures MayFollow(next[..k], next[k])
    {
      assert next[..k] == log[..k];
      assert log[..|log|] == log;
    }
  }

  // ---------------------------------------------------------------- the invariant

  ghost predicate Inv(h: Host) {
    && TravelRuns.Inv(h.travel)
    && WellFormed(h.log)
    && EpochOf(h.log) == h.travel.epoch
    && h.gameSequence == |Updates(h.log)|
    && (h.travel.current.None? ==> h.travel.epoch == 0)
    && (h.travel.current.Some? ==> TxnOk(h, h.travel.current.value))
  }

  // Between two events COMMITTED means that a departure has opened the barrier.
  ghost predicate TxnOk(h: Host, t: T.Txn) {
    && (t.Live() ==> t.participants <= h.players && !ResumeSent(h.log))
    && (t.phase == T.WaitingReady || t.phase == T.Committed ==> !CommitSent(h.log))
    && (t.phase == T.WaitingZoneReady ==> t.zoneReady != t.participants)
  }

  // The host's own player is in the session and in the live travel.
  ghost predicate HostListed(h: Host) {
    && HOST in h.players
    && (h.travel.current.Some? && h.travel.current.value.Live() ==> HOST in h.travel.current.value.participants)
  }

  // Only its own departure takes it off the list.
  lemma HostStaysListed(h: Host, e: Event)
    requires HostListed(h) && e != PlayerLeft(HOST)
    ensures HostListed(Handle(h, e))
  {
  }

  lemma SendKeeps(h: Host, m: Message)
    requires WellFormed(h.log) && MayFollow(h.log, m)
    ensures WellFormed(Broadcast(h, m).log)
    ensures EpochOf(h.log + [m]) == if m.Propose? then EpochOf(h.log) + 1 else EpochOf(h.log)
    ensures |Updates(h.log + [m])| == if m.Raw? then |Updates(h.log)| + 1 else |Updates(h.log)|
    ensures CommitSent(h.log + [m]) <==> !m.Propose? && (m.Commit? || CommitSent(h.log))
    ensures ResumeSent(h.log + [m]) <==> !m.Propose? && (m.Resume? || ResumeSent(h.log))
  {
    WellFormedExtends(h.log, m);
    ReadLast(h.log, m);
  }

  lemma HandleKeepsInv(h: Host, e: Event)
    requires Inv(h)
    ensures Inv(Handle(h, e))
  {
    match e {
      case RawCaptured(msgId, payload) => RawKeepsInv(h, msgId, payload);
      case BatchMarked(epoch, kind) => BatchKeepsInv(h, epoch, kind);
      case TravelRequested(zoneId, actorIds, txnId) => RequestKeepsInv(h, zoneId, actorIds, txnId);
      case ReadyReceived(player, txnId, epoch) => ReadyKeepsInv(h, player, txnId, epoch);
      case ZoneReadyReceived(player, txnId, epoch) => ZoneReadyKeepsInv(h, player, txnId, epoch);
      case AbortReceived(epoch) => AbortKeepsInv(h, epoch);
      case PlayerJoined(player) =>
      case PlayerLeft(player) => LeaveKeepsInv(h, player);
    }
  }

  lemma RawKeepsInv(h: Host, msgId: int, payload: Payload)
    requires Inv(h)
    ensures Inv(OnRaw(h, msgId, payload))
  {
    if Readable(payload) {
      SendKeeps(h, Raw(Update(h.gameSequence + 1, Tag(h.travel), msgId, payload)));
    }
  }

  lemma BatchKeepsInv(h: Host, epoch: int, kind: Kind)
    requires Inv(h)
    ensures Inv(OnViewBatch(h, epoch, kind))
  {
    if h.travel.current.Some? && h.travel.current.value.epoch == epoch {
      SendKeeps(h, ViewBatch(epoch, kind));
    }
  }

  lemma AbortKeepsInv(h: Host, epoch: int)
    requires Inv(h)
    ensures Inv(OnAbort(h, epoch))
  {
    if h.travel.current.Some? && h.travel.current.value.epoch == epoch {
      SendKeeps(h, Abort(epoch));
    }
  }

  lemma LeaveKeepsInv(h: Host, player: PlayerId)
    requires Inv(h)
    ensures Inv(RemovePlayer(h, player))
  {
    TravelRuns.StepKeepsInv(h.travel, T.RemoveParticipant(player));
  }

  lemma RequestKeepsInv(h: Host, zoneId: string, actorIds: seq<string>, txnId: string)
    requires Inv(h)
    ensures Inv(StartTravel(h, zoneId, actorIds, txnId))
  {
    var call := T.Propose(zoneId, actorIds, h.players, txnId);
    TravelRuns.StepKeepsInv(h.travel, call);
    var (travel, reply) := T.Step(h.travel, call);
    if zoneId != "" && reply == T.Done {
      SendKeeps(h, Propose(travel.epoch, txnId, zoneId, actorIds));
    }
  }

  // The batch begin and the commit that a full barrier sends.
  lemma CommitKeeps(log: seq<Message>, begin: Message, commit: Message)
    requires WellFormed(log) && begin.ViewBatch? && commit.Commit?
    requires begin.epoch == commit.epoch == EpochOf(log) > 0 && !CommitSent(log)
    ensures WellFormed(log + [begin] + [commit])
    ensures EpochOf(log + [begin] + [commit]) == EpochOf(log)
    ensures Updates(log + [begin] + [commit]) == Updates(log)
    ensures CommitSent(log + [begin] + [commit]) && (ResumeSent(log + [begin] + [commit]) <==> ResumeSent(log))
  {
    ReadLast(log, begin);
    ReadLast(log + [begin], commit);
    WellFormedExtends(log, begin);
    WellFormedExtends(log + [begin], commit);
  }

  // A ready that fills the barrier takes the transaction from its first to its third phase.
  lemma ReadyOpens(s: T.Coordinator, player: PlayerId, txnId: string, epoch: int)
    requires TravelRuns.Inv(s)
    requires T.Step(s, T.MarkReady(player, txnId, Some(epoch))).1 == T.Flag(true)
    ensures s.current.Some? && s.current.value.phase == T.WaitingReady
    ensures var t := s.current.value;
            var past := t.(phase := T.WaitingZoneReady, ready := t.participants);
            T.Step(T.Step(s, T.MarkReady(player, txnId, Some(epoch))).0, T.BeginZoneWait(txnId)).0 ==
            s.(current := Some(past))
  {
  }

  lemma ReadyKeepsInv(h: Host, player: PlayerId, txnId: string, epoch: int)
    requires Inv(h)
    ensures Inv(OnReady(h, player, txnId, epoch))
  {
    var call := T.MarkReady(player, txnId, Some(epoch));
    TravelRuns.StepKeepsInv(h.travel, call);
    var (travel, reply) := T.Step(h.travel, call);
    if txnId != "" && reply == T.Flag(true) {
      var t := travel.current.value;
      ReadyOpens(h.travel, player, txnId, epoch);
      CommitKeeps(h.log, ViewBatch(t.epoch, Begin), Commit(t.epoch, t.txnId, t.zoneId, t.actorIds));
      TravelRuns.StepKeepsInv(travel, T.BeginZoneWait(txnId));
    }
  }

  lemma ZoneReadyKeepsInv(h: Host, player: PlayerId, txnId: string, epoch: int)
    requires Inv(h)
    ensures Inv(OnZoneReady(h, player, txnId, epoch))
  {
    var call := T.MarkZoneReady(player, txnId, Some(epoch));
    TravelRuns.StepKeepsInv(h.travel, call);
    var (travel, reply) := T.Step(h.travel, call);
    if reply == T.Flag(true) {
      SendKeeps(h, Resume(epoch));
    }
  }

  // ------------------------------------------------------ once per epoch

  lemma PrefixIsWellFormed(log: seq<Message>, n: nat)
    requires WellFormed(log) && n <= |log|
    ensures WellFormed(log[..n])
  {
    forall k | 0 <= k < n
      ensures MayFollow(log[..n][..k], log[..n][k])
    {
      assert log[..n][..k] == log[..k];
    }
  }

  // A commit of the last epoch has been sent since its proposal; so has a resume.
  lemma {:induction false} SentSinceProposal(log: seq<Message>, r: nat)
    requires WellFormed(log) && r < |log| && (log[r].Commit? || log[r].Resume?)
    ensures 0 < log[r].epoch <= EpochOf(log)
    ensures log[r].epoch == EpochOf(log) ==> if log[r].Commit? then CommitSent(log) else ResumeSent(log)
    decreases |log|
  {
    var front, last := log[..|log| - 1], log[|log| - 1];
    assert MayFollow(front, last);
    if r < |front| {
      PrefixIsWellFormed(log, |front|);
      SentSinceProposal(front, r);
    }
  }

  // Of every epoch at most one commit and at most one resume is broadcast.
  lemma OncePerEpoch(log: seq<Message>, i: nat, j: nat)
    requires WellFormed(log) && i < j < |log|
    requires (log[i].Commit? && log[j].Commit?) || (log[i].Resume? && log[j].Resume?)
    ensures log[i].epoch < log[j].epoch
  {
    PrefixIsWellFormed(log, j);
    SentSinceProposal(log[..j], i);
    assert MayFollow(log[..j], log[j]);
  }

  // The updates in a well-formed log are numbered 1, 2, 3, ...
  lemma {:induction false} UpdatesAreStamped(log: seq<Message>)
    requires WellFormed(log)
    ensures forall i | 0 <= i < |Updates(log)| :: Updates(log)[i].sequence == i + 1
  {
    if log != [] {
      PrefixIsWellFormed(log, |log| - 1);
      UpdatesAreStamped(log[..|log| - 1]);
      assert MayFollow(log[..|log| - 1], log[|log| - 1]);
    }
  }
}
