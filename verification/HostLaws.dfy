// What the host's answers mean: when an update is tagged, what a commit carries, what an abort
// ends, and when a request is taken up. Everything is read from the broadcast log, the
// coordinator and the players; nothing from the handlers.
module HostLaws {
  import opened Common
  import opened Wire
  import opened HostSide
  import opened HostRuns
  import T = Travel

  // ------------------------------------------------------------ reading the log

  // An abort was broadcast since the last proposal.
  ghost predicate AbortSent(log: seq<Message>) {
    log != [] &&
    var m := log[|log| - 1];
    !m.Propose? && (m.Abort? || AbortSent(log[..|log| - 1]))
  }

  // An update without a tag was broadcast since the last proposal.
  ghost predicate UntaggedSent(log: seq<Message>) {
    log != [] &&
    var m := log[|log| - 1];
    !m.Propose? && ((m.Raw? && m.update.epoch.None?) || UntaggedSent(log[..|log| - 1]))
  }

  ghost function LastProposal(log: seq<Message>): Option<Message> {
    if log == [] then None
    else if log[|log| - 1].Propose? then Some(log[|log| - 1])
    else LastProposal(log[..|log| - 1])
  }

  lemma ReadNext(log: seq<Message>, m: Message)
    ensures AbortSent(log + [m]) <==> !m.Propose? && (m.Abort? || AbortSent(log))
    ensures UntaggedSent(log + [m]) <==> !m.Propose? && ((m.Raw? && m.update.epoch.None?) || UntaggedSent(log))
    ensures LastProposal(log + [m]) == if m.Propose? then Some(m) else LastProposal(log)
  {
    assert (log + [m])[..|log|] == log;
  }

  // A commit repeats its proposal; commits, resumes and tagged updates come while the travel is
  // neither aborted nor resumed; nothing untagged comes between a proposal and its resume.
  ghost predicate IsLawful(log: seq<Message>, m: Message) {
    match m
    case Commit(epoch, txnId, zoneId, actorIds) =>
      !AbortSent(log) && LastProposal(log) == Some(Propose(epoch, txnId, zoneId, actorIds))
    case Resume(_) => !AbortSent(log) && !UntaggedSent(log)
    case Raw(u) => Readable(u.payload) && (u.epoch.Some? ==> EpochOf(log) > 0 && !AbortSent(log) && !ResumeSent(log))
    case _ => true
  }

  ghost predicate Lawful(log: seq<Message>) {
    forall k | 0 <= k < |log| :: IsLawful(log[..k], log[k])
  }

  lemma LawfulExtends(log: seq<Message>, m: Message)
    requires Lawful(log) && IsLawful(log, m)
    ensures Lawful(log + [m])
  {
    var next := log + [m];
    forall k | 0 <= k < |next|
      ensures IsLawful(next[..k], next[k])
    {
      assert next[..k] == log[..k];
      assert log[..|log|] == log;
    }
  }

  // ---------------------------------------------------------------- the invariant

  ghost predicate Laws(h: Host) {
    && Lawful(h.log)
    && (h.travel.current.None? ==> !AbortSent(h.log))
    && (h.travel.current.Some? ==> TravelAgrees(h.log, h.travel.current.value))
  }

  ghost predicate TravelAgrees(log: seq<Message>, t: T.Txn) {
    && LastProposal(log) == Some(Propose(t.epoch, t.txnId, t.zoneId, t.actorIds))
    && (t.phase == T.Aborted <==> AbortSent(log))
    && (UntaggedSent(log) ==> !t.Live())
  }

  lemma RawIsLawful(h: Host, msgId: int, payload: Payload)
    requires HostRuns.Inv(h) && Laws(h)
    ensures Laws(OnRaw(h, msgId, payload))
  {
    if Readable(payload) {
      var m := Raw(Update(h.gameSequence + 1, Tag(h.travel), msgId, payload));
      LawfulExtends(h.log, m);
      ReadNext(h.log, m);
    }
  }

  lemma BatchIsLawful(h: Host, epoch: int, kind: Kind)
    requires Laws(h)
    ensures Laws(OnViewBatch(h, epoch, kind))
  {
    LawfulExtends(h.log, ViewBatch(epoch, kind));
    ReadNext(h.log, ViewBatch(epoch, kind));
  }

  lemma AbortIsLawful(h: Host, epoch: int)
    requires Laws(h)
    ensures Laws(OnAbort(h, epoch))
  {
    LawfulExtends(h.log, Message.Abort(epoch));
    ReadNext(h.log, Message.Abort(epoch));
  }

  lemma RequestIsLawful(h: Host, zoneId: string, actorIds: seq<string>, txnId: string)
    requires Laws(h)
    ensures Laws(StartTravel(h, zoneId, actorIds, txnId))
  {
    var (travel, reply) := T.Step(h.travel, T.Propose(zoneId, actorIds, h.players, txnId));
    var m := Propose(travel.epoch, txnId, zoneId, actorIds);
    LawfulExtends(h.log, m);
    ReadNext(h.log, m);
  }

  lemma CommitIsLawful(log: seq<Message>, t: T.Txn)
    requires Lawful(log) && !AbortSent(log)
    requires LastProposal(log) == Some(Propose(t.epoch, t.txnId, t.zoneId, t.actorIds))
    ensures var next := log + [ViewBatch(t.epoch, Begin)] + [Commit(t.epoch, t.txnId, t.zoneId, t.actorIds)];
            && Lawful(next) && LastProposal(next) == LastProposal(log)
            && (AbortSent(next) <==> AbortSent(log)) && (UntaggedSent(next) <==> UntaggedSent(log))
  {
    var begin, commit := ViewBatch(t.epoch, Begin), Commit(t.epoch, t.txnId, t.zoneId, t.actorIds);
    LawfulExtends(log, begin);
    ReadNext(log, begin);
    LawfulExtends(log + [begin], commit);
    ReadNext(log + [begin], commit);
  }

  lemma ReadyIsLawful(h: Host, player: PlayerId, txnId: string, epoch: int)
    requires HostRuns.Inv(h) && Laws(h)
    ensures Laws(OnReady(h, player, txnId, epoch))
  {
    var (travel, reply) := T.Step(h.travel, T.MarkReady(player, txnId, Some(epoch)));
    if txnId != "" && reply == T.Flag(true) {
      ReadyOpens(h.travel, player, txnId, epoch);
      CommitIsLawful(h.log, h.travel.current.value);
    }
  }

  lemma ZoneReadyIsLawful(h: Host, player: PlayerId, txnId: string, epoch: int)
    requires HostRuns.Inv(h) && Laws(h)
    ensures Laws(OnZoneReady(h, player, txnId, epoch))
  {
    var m := Message.Resume(epoch);
    ReadNext(h.log, m);
    if OnZoneReady(h, player, txnId, epoch).log != h.log {
      LawfulExtends(h.log, m);
    }
  }

  lemma LeaveIsLawful(h: Host, player: PlayerId)
    requires HostRuns.Inv(h) && Laws(h)
    ensures Laws(RemovePlayer(h, player))
  {
  }

  lemma HandleKeepsLaws(h: Host, e: Event)
    requires HostRuns.Inv(h) && Laws(h)
    ensures Laws(Handle(h, e))
  {
    match e {
      case RawCaptured(msgId, payload) => RawIsLawful(h, msgId, payload);
      case BatchMarked(epoch, kind) => BatchIsLawful(h, epoch, kind);
      case TravelRequested(zoneId, actorIds, txnId) => RequestIsLawful(h, zoneId, actorIds, txnId);
      case ReadyReceived(player, txnId, epoch) => ReadyIsLawful(h, player, txnId, epoch);
      case ZoneReadyReceived(player, txnId, epoch) => ZoneReadyIsLawful(h, player, txnId, epoch);
      case AbortReceived(epoch) => AbortIsLawful(h, epoch);
      case PlayerJoined(player) =>
      case PlayerLeft(player) => LeaveIsLawful(h, player);
    }
  }

  // ------------------------------------------------------------ what an abort ends

  lemma LawfulPrefix(log: seq<Message>, n: nat)
    requires Lawful(log) && n <= |log|
    ensures Lawful(log[..n])
  {
    forall k | 0 <= k < n
      ensures IsLawful(log[..n][..k], log[..n][k])
    {
      assert log[..n][..k] == log[..k];
    }
  }

  lemma {:induction false} AbortsSinceProposal(log: seq<Message>, r: nat)
    requires WellFormed(log) && r < |log| && log[r].Abort?
    ensures 0 < log[r].epoch <= EpochOf(log) && (log[r].epoch == EpochOf(log) ==> AbortSent(log))
    decreases |log|
  {
    var front, last := log[..|log| - 1], log[|log| - 1];
    assert MayFollow(front, last);
    if r < |front| {
      PrefixIsWellFormed(log, |front|);
      AbortsSinceProposal(front, r);
    }
  }

  // After an abort neither commit nor resume nor a tagged update of that epoch is broadcast.
  lemma NothingAfterAbort(log: seq<Message>, i: nat, j: nat)
    requires WellFormed(log) && Lawful(log) && i < j < |log| && log[i].Abort?
    ensures (log[j].Commit? || log[j].Resume?) ==> log[i].epoch < log[j].epoch
    ensures log[j].Raw? && log[j].update.epoch.Some? ==> log[i].epoch < log[j].update.epoch.value
  {
    PrefixIsWellFormed(log, j);
    AbortsSinceProposal(log[..j], i);
    assert MayFollow(log[..j], log[j]) && IsLawful(log[..j], log[j]);
  }

  // The coordinator's travel is in progress: it exists and has neither ended nor been aborted.
  ghost predicate InProgress(h: Host) {
    h.travel.current.Some? && h.travel.current.value.phase != T.Complete && h.travel.current.value.phase != T.Aborted
  }

  // Once an abort of the current epoch is in the log, the travel is over.
  lemma AbortEndsTravel(h: Host)
    requires Laws(h) && AbortSent(h.log)
    ensures !InProgress(h)
  {
  }

  // An abort of the current epoch, and no other, is carried out and broadcast.
  lemma AbortIsTakenIff(h: Host, epoch: int)
    requires HostRuns.Inv(h) && Laws(h)
    ensures var g := Handle(h, AbortReceived(epoch));
            if 0 < epoch == EpochOf(h.log) then g.log == h.log + [Message.Abort(epoch)] && !InProgress(g)
            else g == h
  {
    AbortIsLawful(h, epoch);
    ReadNext(h.log, Message.Abort(epoch));
  }

  // A request is taken up exactly when it names a zone, somebody is there, and no travel is in
  // progress; then the next epoch is proposed to everybody there, and otherwise nothing happens.
  lemma RequestIsTakenIff(h: Host, zoneId: string, actorIds: seq<string>, txnId: string)
    requires HostRuns.Inv(h)
    ensures var g := Handle(h, TravelRequested(zoneId, actorIds, txnId));
            if zoneId != "" && h.players != {} && !InProgress(h) then
              && g.log == h.log + [Propose(EpochOf(h.log) + 1, txnId, zoneId, actorIds)]
              && InProgress(g) && g.travel.current.value.participants == h.players
              && g.travel.current.value.ready == {} && g.travel.current.value.phase == T.WaitingReady
            else g == h
  {
  }

  // So after an abort the next request for a zone opens the next epoch.
  lemma RequestAfterAbort(h: Host, zoneId: string, actorIds: seq<string>, txnId: string)
    requires HostRuns.Inv(h) && Laws(h) && AbortSent(h.log) && zoneId != "" && h.players != {}
    ensures Handle(h, TravelRequested(zoneId, actorIds, txnId)).log ==
            h.log + [Propose(EpochOf(h.log) + 1, txnId, zoneId, actorIds)]
  {
    AbortEndsTravel(h);
    RequestIsTakenIff(h, zoneId, actorIds, txnId);
  }

  // ------------------------------------------------------- what else the host answers

  // A readable update is broadcast as it was captured, under the next number, and carries the
  // epoch of the travel in progress, if there is one; of an unreadable one only the game hears.
  lemma UpdateIsStamped(h: Host, msgId: int, payload: Payload)
    requires HostRuns.Inv(h)
    ensures var g := Handle(h, RawCaptured(msgId, payload));
            if Readable(payload) then
              var epoch := if InProgress(h) then Some(EpochOf(h.log)) else None;
              && g.log == h.log + [Raw(Update(|Updates(h.log)| + 1, epoch, msgId, payload))]
              && g.toGame == h.toGame && g.travel == h.travel
            else g == h.(toGame := h.toGame + [Failure(RawInvalid)])
  {
  }

  // A batch mark is broadcast exactly when it is of the current epoch.
  lemma MarkIsBroadcastIff(h: Host, epoch: int, kind: Kind)
    requires HostRuns.Inv(h)
    ensures var g := Handle(h, BatchMarked(epoch, kind));
            && g.travel == h.travel
            && g.log == h.log + (if 0 < epoch == EpochOf(h.log) then [ViewBatch(epoch, kind)] else [])
  {
  }

  // An acknowledgement of the current travel by a participant.
  ghost predicate IsAck(h: Host, p: PlayerId, txnId: string, epoch: int) {
    && txnId != "" && h.travel.current.Some? && h.travel.current.value.txnId == txnId
    && h.travel.current.value.epoch == epoch && p in h.travel.current.value.participants
  }

  // One that names another transaction or epoch, or none, changes nothing.
  lemma StaleAckIsIgnored(h: Host, p: PlayerId, txnId: string, epoch: int)
    requires txnId == "" || h.travel.current.None? || h.travel.current.value.txnId != txnId ||
             h.travel.current.value.epoch != epoch
    ensures Handle(h, ReadyReceived(p, txnId, epoch)) == h && Handle(h, ZoneReadyReceived(p, txnId, epoch)) == h
  {
  }

  // The first acknowledgement of readiness counts, and the last one begins the batch and commits.
  lemma ReadyIsCounted(h: Host, p: PlayerId, txnId: string, epoch: int)
    requires HostRuns.Inv(h) && IsAck(h, p, txnId, epoch) && h.travel.current.value.phase == T.WaitingReady
    ensures var t, g := h.travel.current.value, Handle(h, ReadyReceived(p, txnId, epoch));
            && g.travel.current.Some? && g.travel.current.value.ready == t.ready + {p}
            && (if t.participants <= t.ready + {p} then
                  && g.travel.current.value.phase == T.WaitingZoneReady
                  && g.log == h.log + [ViewBatch(epoch, Begin)] + [Commit(epoch, txnId, t.zoneId, t.actorIds)]
                else g.log == h.log)
  {
    var t := h.travel.current.value;
    assert t.participants <= t.ready + {p} <==> t.ready + {p} == t.participants;
    if t.participants <= t.ready + {p} {
      ReadyOpens(h.travel, p, txnId, epoch);
    }
  }

  // A zone report counts once everybody is ready, and the last one resumes.
  lemma ZoneReadyIsCounted(h: Host, p: PlayerId, txnId: string, epoch: int)
    requires HostRuns.Inv(h) && IsAck(h, p, txnId, epoch)
    requires h.travel.current.value.phase == T.Committed || h.travel.current.value.phase == T.WaitingZoneReady
    ensures var t, g := h.travel.current.value, Handle(h, ZoneReadyReceived(p, txnId, epoch));
            && g.travel.current.Some? && g.travel.current.value.zoneReady == t.zoneReady + {p}
            && (if t.participants <= t.zoneReady + {p} then !InProgress(g) && g.log == h.log + [Message.Resume(epoch)]
                else InProgress(g) && g.log == h.log)
  {
    var t := h.travel.current.value;
    assert t.participants <= t.zoneReady + {p} <==> t.zoneReady + {p} == t.participants;
  }

  // Joining adds a player and starts nothing. A departure takes the player out of the session
  // and of a travel in progress, and tells nobody.
  lemma ComingAndGoing(h: Host, p: PlayerId)
    ensures Handle(h, PlayerJoined(p)) == h.(players := h.players + {p})
    ensures var g := Handle(h, PlayerLeft(p));
            && g == h.(players := h.players - {p}, travel := g.travel)
            && (!InProgress(h) ==> g.travel == h.travel)
            && (InProgress(h) ==>
                  && g.travel.current.Some? && g.travel.current.value.epoch == h.travel.current.value.epoch
                  && g.travel.current.value.participants == h.travel.current.value.participants - {p}
                  && g.travel.current.value.ready == h.travel.current.value.ready - {p}
                  && g.travel.current.value.zoneReady == h.travel.current.value.zoneReady - {p})
  {
  }

  // ---------------------------------------------------------- what the host's game is told

  // Of the broadcasts, the host's game is told proposals, commits, resumes, and the begins and
  // ends of batches.
  ghost predicate IsForGame(m: Message) {
    m.Propose? || m.Commit? || m.Resume? || (m.ViewBatch? && m.kind != OtherKind)
  }

  ghost function ForGame(log: seq<Message>): seq<Message> {
    if log == [] then []
    else
      var front, last := ForGame(log[..|log| - 1]), log[|log| - 1];
      if IsForGame(last) then front + [last] else front
  }

  ghost function WithoutFailures(told: seq<Message>): seq<Message> {
    if told == [] then []
    else
      var front, last := WithoutFailures(told[..|told| - 1]), told[|told| - 1];
      if last.Failure? then front else front + [last]
  }

  lemma ForGameAppend(log: seq<Message>, m: Message)
    ensures ForGame(log + [m]) == if IsForGame(m) then ForGame(log) + [m] else ForGame(log)
    ensures WithoutFailures(log + [m]) == if m.Failure? then WithoutFailures(log) else WithoutFailures(log) + [m]
  {
    assert (log + [m])[..|log|] == log;
  }

  ghost function Add(log: seq<Message>, m: Option<Message>): seq<Message> {
    if m.Some? then log + [m.value] else log
  }

  // A handler broadcasts at most one message, and tells the game at most one, except when it
  // commits.
  lemma WhatIsTold(h: Host, e: Event) returns (sent: Option<Message>, told: Option<Message>)
    requires !(e.ReadyReceived? && |OnReady(h, e.player, e.txnId, e.epoch).log| == |h.log| + 2)
    ensures Handle(h, e).log == Add(h.log, sent) && Handle(h, e).toGame == Add(h.toGame, told)
    ensures if sent.Some? && IsForGame(sent.value) then told == sent && !sent.value.Failure?
            else told.Some? ==> told.value.Failure?
  {
    var g := Handle(h, e);
    sent := if |g.log| > |h.log| then Some(g.log[|h.log|]) else None;
    told := if |g.toGame| > |h.toGame| then Some(g.toGame[|h.toGame|]) else None;
  }

  lemma CommitIsTold(h: Host, player: PlayerId, txnId: string, epoch: int) returns (begin: Message, commit: Message)
    requires |OnReady(h, player, txnId, epoch).log| == |h.log| + 2
    ensures begin.ViewBatch? && begin.kind == Begin && commit.Commit?
    ensures OnReady(h, player, txnId, epoch).log == h.log + [begin] + [commit]
    ensures OnReady(h, player, txnId, epoch).toGame == h.toGame + [begin] + [commit]
  {
    var g := OnReady(h, player, txnId, epoch);
    begin, commit := g.log[|h.log|], g.log[|h.log| + 1];
  }

  // Exactly these, in the order of the broadcasts; besides them only failures.
  lemma GameIsTold(h: Host, e: Event)
    requires WithoutFailures(h.toGame) == ForGame(h.log)
    ensures WithoutFailures(Handle(h, e).toGame) == ForGame(Handle(h, e).log)
  {
    if e.ReadyReceived? && |OnReady(h, e.player, e.txnId, e.epoch).log| == |h.log| + 2 {
      var begin, commit := CommitIsTold(h, e.player, e.txnId, e.epoch);
      ForGameAppend(h.log, begin);
      ForGameAppend(h.toGame, begin);
      ForGameAppend(h.log + [begin], commit);
      ForGameAppend(h.toGame + [begin], commit);
    } else {
      var sent, told := WhatIsTold(h, e);
      AddTells(h.log, sent);
      AddTells(h.toGame, told);
    }
  }

  lemma AddTells(log: seq<Message>, m: Option<Message>)
    ensures ForGame(Add(log, m)) == Add(ForGame(log), if m.Some? && IsForGame(m.value) then m else None)
    ensures WithoutFailures(Add(log, m)) == Add(WithoutFailures(log), if m.Some? && !m.value.Failure? then m else None)
  {
    if m.Some? {
      ForGameAppend(log, m.value);
    }
  }
}
