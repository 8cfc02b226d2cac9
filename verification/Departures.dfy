// Departures that open a barrier: the coordinator notices, but nobody is told.
module Departures {
  import opened Common
  import opened Wire
  import opened HostSide
  import opened HostRuns
  import opened World
  import opened WorldRuns
  import T = Travel

  // p is the only participant that has not acknowledged.
  predicate OnlyMissing(acks: set<PlayerId>, participants: set<PlayerId>, p: PlayerId) {
    p in participants && p !in acks && participants - {p} <= acks
  }

  ghost predicate InPhase(h: Host, epoch: int, phase: T.Phase) {
    h.travel.current.Some? && h.travel.current.value.epoch == epoch && h.travel.current.value.phase == phase
  }

  // The event takes the travel of this epoch from one phase to the other and broadcasts nothing.
  ghost predicate Silently(h: Host, e: Event, epoch: int, before: T.Phase, after: T.Phase) {
    InPhase(h, epoch, before) && InPhase(Handle(h, e), epoch, after) && Handle(h, e).log == h.log
  }

  // Everybody else in the travel is ready, and the event is the departure of the last one.
  ghost predicate LastUnreadyLeaves(h: Host, e: Event, epoch: int) {
    e.PlayerLeft? && InPhase(h, epoch, T.WaitingReady) &&
    OnlyMissing(h.travel.current.value.ready, h.travel.current.value.participants, e.player)
  }

  ghost predicate LastAbsentLeaves(h: Host, e: Event, epoch: int) {
    e.PlayerLeft? && InPhase(h, epoch, T.WaitingZoneReady) &&
    OnlyMissing(h.travel.current.value.zoneReady, h.travel.current.value.participants, e.player)
  }

  lemma OnlyMissingIff(acks: set<PlayerId>, participants: set<PlayerId>, p: PlayerId)
    requires acks <= participants && acks != participants
    ensures acks - {p} == participants - {p} <==> OnlyMissing(acks, participants, p)
  {
    assert p in acks ==> acks == acks - {p} + {p} && participants == participants - {p} + {p};
    assert p !in acks ==> acks - {p} == acks;
    assert p !in participants ==> participants - {p} == participants;
  }

  // The first barrier is opened in silence exactly by the departure of the last participant
  // that was not ready, and COMMITTED is reached in no other way.
  lemma SilentCommitIff(h: Host, e: Event, epoch: int)
    requires HostRuns.Inv(h)
    ensures Silently(h, e, epoch, T.WaitingReady, T.Committed) <==> LastUnreadyLeaves(h, e, epoch)
    ensures InPhase(h, epoch, T.WaitingReady) && InPhase(Handle(h, e), epoch, T.Committed) ==>
              LastUnreadyLeaves(h, e, epoch)
  {
    if e.ReadyReceived? && T.Step(h.travel, T.MarkReady(e.player, e.txnId, Some(e.epoch))).1 == T.Flag(true) {
      ReadyOpens(h.travel, e.player, e.txnId, e.epoch);
    } else if e.PlayerLeft? && InPhase(h, epoch, T.WaitingReady) {
      OnlyMissingIff(h.travel.current.value.ready, h.travel.current.value.participants, e.player);
    }
  }

  // The second one is opened in silence exactly by the departure of the last participant whose
  // zone was not ready.
  lemma SilentCompletionIff(h: Host, e: Event, epoch: int)
    requires HostRuns.Inv(h)
    ensures Silently(h, e, epoch, T.WaitingZoneReady, T.Complete) <==> LastAbsentLeaves(h, e, epoch)
  {
    if e.PlayerLeft? && InPhase(h, epoch, T.WaitingZoneReady) {
      OnlyMissingIff(h.travel.current.value.zoneReady, h.travel.current.value.participants, e.player);
    }
  }

  // ------------------------------------------------------- what never comes after it

  ghost predicate NoCommit(log: seq<Message>, epoch: int) {
    forall r | 0 <= r < |log| && log[r].Commit? :: log[r].epoch != epoch
  }

  ghost predicate NoResume(log: seq<Message>, epoch: int) {
    forall r | 0 <= r < |log| && log[r].Resume? :: log[r].epoch != epoch
  }

  // The travel of this epoch is past its first phase, and no commit was broadcast for it.
  ghost predicate CommitIsPast(h: Host, epoch: int) {
    h.travel.epoch >= epoch && !InPhase(h, epoch, T.WaitingReady) && NoCommit(h.log, epoch)
  }

  ghost predicate ResumeIsPast(h: Host, epoch: int) {
    h.travel.epoch >= epoch && NoResume(h.log, epoch) && HasEnded(h, epoch)
  }

  ghost predicate HasEnded(h: Host, epoch: int) {
    h.travel.current.Some? && h.travel.current.value.epoch == epoch ==> !h.travel.current.value.Live()
  }

  lemma NoneSent(h: Host, epoch: int)
    requires HostRuns.Inv(h) && h.travel.epoch == epoch
    ensures !CommitSent(h.log) ==> NoCommit(h.log, epoch)
    ensures !ResumeSent(h.log) ==> NoResume(h.log, epoch)
  {
    forall r | 0 <= r < |h.log| && (h.log[r].Commit? || h.log[r].Resume?)
      ensures h.log[r].epoch == epoch ==> if h.log[r].Commit? then CommitSent(h.log) else ResumeSent(h.log)
    {
      SentSinceProposal(h.log, r);
    }
  }

  // A commit is sent only for a travel in its first phase, a resume only for a live one.
  lemma WhatIsSent(h: Host, e: Event) returns (sent: seq<Message>)
    requires HostRuns.Inv(h)
    ensures Handle(h, e).log == h.log + sent
    ensures forall m | m in sent && m.Commit? :: InPhase(h, m.epoch, T.WaitingReady)
    ensures forall m | m in sent && m.Resume? ::
              h.travel.current.Some? && h.travel.current.value.epoch == m.epoch && h.travel.current.value.Live()
  {
    var g := Handle(h, e);
    if e.ReadyReceived? && |CallsMade(h, e)| == 2 {
      ReadyOpens(h.travel, e.player, e.txnId, e.epoch);
      var t := h.travel.current.value;
      sent := [ViewBatch(t.epoch, Begin), Commit(t.epoch, t.txnId, t.zoneId, t.actorIds)];
      assert g.log == h.log + sent;
    } else if |g.log| > |h.log| {
      sent := [g.log[|h.log|]];
    } else {
      sent := [];
    }
  }

  // A travel past its first phase stays past it, and one that has ended stays ended.
  lemma PhasesPass(h: Host, e: Event, epoch: int)
    requires HostRuns.Inv(h) && h.travel.epoch >= epoch
    ensures Handle(h, e).travel.epoch >= epoch
    ensures !InPhase(h, epoch, T.WaitingReady) ==> !InPhase(Handle(h, e), epoch, T.WaitingReady)
    ensures HasEnded(h, epoch) ==> HasEnded(Handle(h, e), epoch)
  {
    if e.ReadyReceived? && |CallsMade(h, e)| == 2 {
      ReadyOpens(h.travel, e.player, e.txnId, e.epoch);
    }
  }

  lemma CommitStaysPast(h: Host, e: Event, epoch: int)
    requires HostRuns.Inv(h) && CommitIsPast(h, epoch)
    ensures CommitIsPast(Handle(h, e), epoch)
  {
    PhasesPass(h, e, epoch);
    var sent := WhatIsSent(h, e);
    assert forall r | |h.log| <= r < |h.log + sent| :: (h.log + sent)[r] in sent;
  }

  lemma ResumeStaysPast(h: Host, e: Event, epoch: int)
    requires HostRuns.Inv(h) && ResumeIsPast(h, epoch)
    ensures ResumeIsPast(Handle(h, e), epoch)
  {
    PhasesPass(h, e, epoch);
    var sent := WhatIsSent(h, e);
    assert forall r | |h.log| <= r < |h.log + sent| :: (h.log + sent)[r] in sent;
  }

  // Step i is a departure that opens this barrier of the epoch.
  ghost predicate LeavesOpen(steps: seq<Step>, i: nat, epoch: int, first: bool) {
    i < |steps| && steps[i].Leave? &&
    var h, e := WorldAt(steps, i).host, PlayerLeft(steps[i].player);
    if first then LastUnreadyLeaves(h, e, epoch) else LastAbsentLeaves(h, e, epoch)
  }

  lemma DepartureOpens(w: World, p: PlayerId, epoch: int)
    requires WorldRuns.Inv(w)
    ensures LastUnreadyLeaves(w.host, PlayerLeft(p), epoch) ==> CommitIsPast(Next(w, Leave(p)).host, epoch)
    ensures LastAbsentLeaves(w.host, PlayerLeft(p), epoch) ==> ResumeIsPast(Next(w, Leave(p)).host, epoch)
  {
    if w.host.travel.epoch == epoch {
      SilentCommitIff(w.host, PlayerLeft(p), epoch);
      SilentCompletionIff(w.host, PlayerLeft(p), epoch);
      NoneSent(w.host, epoch);
    }
  }

  lemma StepStaysPast(w: World, s: Step, epoch: int)
    requires WorldRuns.Inv(w)
    ensures CommitIsPast(w.host, epoch) ==> CommitIsPast(Next(w, s).host, epoch)
    ensures ResumeIsPast(w.host, epoch) ==> ResumeIsPast(Next(w, s).host, epoch)
  {
    var e := StepEvent(w, s);
    if e.Some? {
      if CommitIsPast(w.host, epoch) {
        CommitStaysPast(w.host, e.value, epoch);
      }
      if ResumeIsPast(w.host, epoch) {
        ResumeStaysPast(w.host, e.value, epoch);
      }
    }
  }

  ghost predicate IsPast(h: Host, epoch: int, first: bool) {
    if first then CommitIsPast(h, epoch) else ResumeIsPast(h, epoch)
  }

  ghost predicate PastAt(steps: seq<Step>, k: nat, epoch: int, first: bool) {
    k <= |steps| && IsPast(WorldAt(steps, k).host, epoch, first)
  }

  lemma PastFrom(steps: seq<Step>, i: nat, epoch: int, first: bool)
    requires LeavesOpen(steps, i, epoch, first)
    ensures PastAt(steps, i + 1, epoch, first)
  {
    InvHolds(steps, i);
    DepartureOpens(WorldAt(steps, i), steps[i].player, epoch);
  }

  lemma PastStep(steps: seq<Step>, k: nat, epoch: int, first: bool)
    requires k < |steps| && PastAt(steps, k, epoch, first)
    ensures PastAt(steps, k + 1, epoch, first)
  {
    InvHolds(steps, k);
    StepStaysPast(WorldAt(steps, k), steps[k], epoch);
  }

  lemma {:induction false} StaysPast(steps: seq<Step>, i: nat, k: nat, epoch: int, first: bool)
    requires i < k <= |steps| && PastAt(steps, i + 1, epoch, first)
    ensures PastAt(steps, k, epoch, first)
    decreases k
  {
    if i + 1 < k {
      StaysPast(steps, i, k - 1, epoch, first);
      PastStep(steps, k - 1, epoch, first);
    }
  }

  // Whatever happens before or after: once the last unready participant has left, no commit of
  // that epoch is ever broadcast; once the last absent one has left, no resume is.
  lemma NothingIsAnnounced(steps: seq<Step>, i: nat, k: nat, epoch: int, first: bool)
    requires i < k <= |steps| && LeavesOpen(steps, i, epoch, first)
    ensures first ==> NoCommit(WorldAt(steps, k).host.log, epoch)
    ensures !first ==> NoResume(WorldAt(steps, k).host.log, epoch)
  {
    PastFrom(steps, i, epoch, first);
    StaysPast(steps, i, k, epoch, first);
  }

  // ------------------------------------------------------- exactly when it is announced

  // The event opens this barrier of the travel, silently or not.
  ghost predicate Opens(h: Host, e: Event, epoch: int, first: bool) {
    var g := Handle(h, e);
    if first then
      InPhase(h, epoch, T.WaitingReady) && (InPhase(g, epoch, T.Committed) || InPhase(g, epoch, T.WaitingZoneReady))
    else
      (InPhase(h, epoch, T.Committed) || InPhase(h, epoch, T.WaitingZoneReady)) && InPhase(g, epoch, T.Complete)
  }

  ghost predicate LastLeaves(h: Host, e: Event, epoch: int, first: bool) {
    if first then LastUnreadyLeaves(h, e, epoch) else LastAbsentLeaves(h, e, epoch)
  }

  ghost predicate Announces(m: Message, epoch: int, first: bool) {
    if first then m.Commit? && m.epoch == epoch else m == Message.Resume(epoch)
  }

  ghost predicate IsAnnounced(log: seq<Message>, epoch: int, first: bool) {
    exists r :: 0 <= r < |log| && Announces(log[r], epoch, first)
  }

  lemma OpensLoudly(h: Host, e: Event, epoch: int, first: bool)
    requires HostRuns.Inv(h) && Opens(h, e, epoch, first) && !LastLeaves(h, e, epoch, first)
    ensures IsAnnounced(Handle(h, e).log, epoch, first)
  {
    if first {
      SilentCommitIff(h, e, epoch);
    } else {
      SilentCompletionIff(h, e, epoch);
    }
    var log := Handle(h, e).log;
    assert Announces(log[|log| - 1], epoch, first);
  }

  // Step i is the handling of this event, which opens this barrier of the epoch.
  ghost predicate OpensAt(steps: seq<Step>, i: nat, e: Event, epoch: int, first: bool) {
    && i < |steps| && WorldAt(steps, i + 1).host == Handle(WorldAt(steps, i).host, e)
    && (e.PlayerLeft? ==> steps[i] == Leave(e.player))
    && Opens(WorldAt(steps, i).host, e, epoch, first)
  }

  lemma LoudStaysLoud(steps: seq<Step>, i: nat, k: nat, e: Event, epoch: int, first: bool)
    requires i < k <= |steps| && OpensAt(steps, i, e, epoch, first)
    requires !LastLeaves(WorldAt(steps, i).host, e, epoch, first)
    ensures IsAnnounced(WorldAt(steps, k).host.log, epoch, first)
  {
    InvHolds(steps, i);
    OpensLoudly(WorldAt(steps, i).host, e, epoch, first);
    LogOnlyGrows(steps, i + 1, k);
    AnnouncedInLonger(WorldAt(steps, i + 1).host.log, WorldAt(steps, k).host.log, epoch, first);
  }

  lemma AnnouncedInLonger(a: seq<Message>, b: seq<Message>, epoch: int, first: bool)
    requires a <= b && IsAnnounced(a, epoch, first)
    ensures IsAnnounced(b, epoch, first)
  {
    var r :| 0 <= r < |a| && Announces(a[r], epoch, first);
    assert Announces(b[r], epoch, first);
  }

  lemma SilentStaysSilent(steps: seq<Step>, i: nat, k: nat, e: Event, epoch: int, first: bool)
    requires i < k <= |steps| && OpensAt(steps, i, e, epoch, first)
    requires LastLeaves(WorldAt(steps, i).host, e, epoch, first)
    ensures !IsAnnounced(WorldAt(steps, k).host.log, epoch, first)
  {
    NothingIsAnnounced(steps, i, k, epoch, first);
  }

  // In every run: an opened barrier is announced if and only if it was not the departure of the
  // last missing participant that opened it.
  lemma AnnouncedIff(steps: seq<Step>, i: nat, k: nat, e: Event, epoch: int, first: bool)
    requires i < k <= |steps| && OpensAt(steps, i, e, epoch, first)
    ensures IsAnnounced(WorldAt(steps, k).host.log, epoch, first) <==>
            !LastLeaves(WorldAt(steps, i).host, e, epoch, first)
  {
    if LastLeaves(WorldAt(steps, i).host, e, epoch, first) {
      SilentStaysSilent(steps, i, k, e, epoch, first);
    } else {
      LoudStaysLoud(steps, i, k, e, epoch, first);
    }
  }
}
