// What every sequence of coordinator calls keeps. A run is a list of calls; the
// arguments are arbitrary, so late, repeated, forged and stale calls are all included.
module TravelRuns {
  import opened Common
  import opened Travel

  ghost function StateAt(calls: seq<Call>, k: nat): Coordinator
    requires k <= |calls|
  {
    if k == 0 then INITIAL else Step(StateAt(calls, k - 1), calls[k - 1]).0
  }

  ghost function ReplyAt(calls: seq<Call>, k: nat): Reply
    requires k < |calls|
  {
    Step(StateAt(calls, k), calls[k]).1
  }

  // ---------------------------------------------------------------- the invariant

  ghost predicate TxnInv(t: Txn) {
    && t.ready <= t.participants
    && t.zoneReady <= t.participants
    && (t.phase == WaitingReady ==> t.ready != t.participants && t.zoneReady == {})
    && (t.phase == Committed ==> t.ready == t.participants && t.zoneReady == {})
    && (t.phase == WaitingZoneReady ==>
          t.ready == t.participants && (t.zoneReady == t.participants ==> t.participants == {}))
    && (t.phase == Complete ==> t.ready == t.participants && t.zoneReady == t.participants)
  }

  ghost predicate Inv(s: Coordinator) {
    s.current.Some? ==> TxnInv(s.current.value) && s.current.value.epoch == s.epoch && s.epoch > 0
  }

  lemma StepKeepsInv(s: Coordinator, call: Call)
    requires Inv(s)
    ensures Inv(Step(s, call).0)
  {
  }

  lemma {:induction false} InvHolds(calls: seq<Call>, k: nat)
    requires k <= |calls|
    ensures Inv(StateAt(calls, k))
  {
    if k > 0 {
      InvHolds(calls, k - 1);
      StepKeepsInv(StateAt(calls, k - 1), calls[k - 1]);
    }
  }

  // ------------------------------------------------- progress only moves one way

  ghost function Rank(s: Coordinator): nat {
    if s.current.None? then 0
    else match s.current.value.phase
      case WaitingReady => 0
      case Committed => 1
      case WaitingZoneReady => 2
      case Complete => 3
      case Aborted => 3
  }

  ghost predicate NotBefore(s: Coordinator, s': Coordinator) {
    s.epoch < s'.epoch || (s.epoch == s'.epoch && Rank(s) <= Rank(s'))
  }

  // Epochs never go back, and inside one epoch the phase never goes back; in particular
  // the pair {Complete, Aborted} can be left only by the next accepted proposal.
  lemma {:induction false} ProgressIsMonotone(calls: seq<Call>, i: nat, j: nat)
    requires i <= j <= |calls|
    ensures NotBefore(StateAt(calls, i), StateAt(calls, j))
    decreases j
  {
    if i < j {
      ProgressIsMonotone(calls, i, j - 1);
      InvHolds(calls, j - 1);
    }
  }

  // A barrier opens at most once: two acknowledgements of the same kind that both
  // answered True belong to different, increasing epochs.
  lemma TrueAtMostOncePerEpoch(calls: seq<Call>, i: nat, j: nat)
    requires i < j < |calls|
    requires ReplyAt(calls, i) == Flag(true) && ReplyAt(calls, j) == Flag(true)
    requires (calls[i].MarkReady? && calls[j].MarkReady?) || (calls[i].MarkZoneReady? && calls[j].MarkZoneReady?)
    ensures StateAt(calls, i).epoch < StateAt(calls, j).epoch
  {
    ProgressIsMonotone(calls, i + 1, j);
  }

  lemma ProposalsIncreaseEpochs(calls: seq<Call>, i: nat, j: nat)
    requires i < j < |calls|
    requires Proposed(calls, i) && Proposed(calls, j)
    ensures StateAt(calls, i + 1).epoch < StateAt(calls, j + 1).epoch
  {
    ProgressIsMonotone(calls, i + 1, j);
  }

  // ------------------------------------------------------------- aborts and refusals

  // An abort is answered normally if and only if it names the current transaction, and then the
  // transaction is no longer live, in whatever phase it was.
  lemma AbortIs(s: Coordinator, txnId: string)
    ensures var (t, reply) := Step(s, Abort(txnId));
            && (reply == Done <==> s.current.Some? && s.current.value.txnId == txnId)
            && (reply == Done ==> t == s.(current := t.current) && t.current.Some? && !t.current.value.Live())
            && (reply == Done ==> t.current.value == s.current.value.(phase := Aborted))
            && (reply != Done ==> t == s)
  {
  }

  // After an abort neither barrier of that epoch opens.
  lemma NoTrueAfterAbort(calls: seq<Call>, i: nat, j: nat)
    requires i < j < |calls| && calls[i].Abort? && ReplyAt(calls, i) == Done
    requires (calls[j].MarkReady? || calls[j].MarkZoneReady?) && ReplyAt(calls, j) == Flag(true)
    ensures StateAt(calls, i).epoch < StateAt(calls, j).epoch
  {
    InvHolds(calls, i);
    AbortIs(StateAt(calls, i), calls[i].txnId);
    ProgressIsMonotone(calls, i + 1, j);
  }

  // Which calls raise what; a call that raises changes nothing.
  lemma RaisesIff(s: Coordinator, call: Call)
    ensures var (t, reply) := Step(s, call);
            var isLive := s.current.Some? && s.current.value.phase != Complete && s.current.value.phase != Aborted;
            var names := match call
              case Propose(_, _, _, _) => true
              case RemoveParticipant(_) => true
              case _ => s.current.Some? && s.current.value.txnId == call.txnId;
            && (reply == Raised(InProgress) <==> call.Propose? && isLive)
            && (reply == Raised(NoParticipants) <==> call.Propose? && !isLive && call.participants == {})
            && (reply == Raised(UnknownTxn) <==> !names)
            && (reply == Raised(NotCommitted) <==> call.BeginZoneWait? && names && s.current.value.phase != Committed)
            && (reply.Raised? ==> t == s)
            && (call.RemoveParticipant? ==> reply == Flag(isLive) && (!isLive ==> t == s))
  {
  }

  // ------------------------------------------------------------- barrier safety

  ghost predicate Proposed(calls: seq<Call>, i: nat) {
    i < |calls| && calls[i].Propose? && ReplyAt(calls, i) == Done
  }

  // Call m is a ready of player p that the barrier counted.
  ghost predicate ReadyCounted(calls: seq<Call>, m: nat, p: PlayerId) {
    m < |calls| && calls[m].MarkReady? && calls[m].player == p &&
    var s := StateAt(calls, m);
    Known(s, calls[m].txnId) && EpochMatches(s.current.value, calls[m].epoch) &&
    s.current.value.phase == WaitingReady && p in s.current.value.participants
  }

  // Call m is a zone-ready of player p that the barrier counted.
  ghost predicate ZoneCounted(calls: seq<Call>, m: nat, p: PlayerId) {
    m < |calls| && calls[m].MarkZoneReady? && calls[m].player == p &&
    var s := StateAt(calls, m);
    Known(s, calls[m].txnId) && EpochMatches(s.current.value, calls[m].epoch) &&
    AwaitsZones(s.current.value.phase) && p in s.current.value.participants
  }

  ghost predicate Departed(calls: seq<Call>, m: nat, p: PlayerId) {
    m < |calls| && calls[m] == RemoveParticipant(p)
  }

  // Where the three sets of the live transaction came from, given the call i that proposed it.
  ghost predicate Explained(calls: seq<Call>, i: nat, k: nat)
    requires k <= |calls|
  {
    var s := StateAt(calls, k);
    && Proposed(calls, i) && i < k
    && s.current.Some? && s.epoch == StateAt(calls, i + 1).epoch
    && s.current.value.txnId == calls[i].txnId
    && (forall p | p in calls[i].participants ::
          p in s.current.value.participants || exists m :: i < m < k && Departed(calls, m, p))
    && (forall p | p in s.current.value.ready :: exists m :: i < m < k && ReadyCounted(calls, m, p))
    && (forall p | p in s.current.value.zoneReady :: exists m :: i < m < k && ZoneCounted(calls, m, p))
  }

  lemma {:induction false} Explain(calls: seq<Call>, k: nat) returns (i: nat)
    requires k <= |calls| && StateAt(calls, k).current.Some?
    ensures Explained(calls, i, k)
  {
    var s := StateAt(calls, k - 1);
    if Proposed(calls, k - 1) {
      i := k - 1;
    } else {
      i := Explain(calls, k - 1);
      InvHolds(calls, k - 1);
      ExplainStep(calls, i, k - 1);
    }
  }

  lemma ExplainStep(calls: seq<Call>, i: nat, k: nat)
    requires k < |calls| && Explained(calls, i, k) && Inv(StateAt(calls, k)) && !Proposed(calls, k)
    ensures Explained(calls, i, k + 1)
  {
    var t, t' := StateAt(calls, k).current.value, StateAt(calls, k + 1).current.value;
    forall p | p in calls[i].participants && p !in t'.participants
      ensures exists m :: i < m < k + 1 && Departed(calls, m, p)
    {
      if p in t.participants {
        assert Departed(calls, k, p);
      }
    }
    forall p | p in t'.ready
      ensures exists m :: i < m < k + 1 && ReadyCounted(calls, m, p)
    {
      if p !in t.ready {
        assert ReadyCounted(calls, k, p);
      }
    }
    forall p | p in t'.zoneReady
      ensures exists m :: i < m < k + 1 && ZoneCounted(calls, m, p)
    {
      if p !in t.zoneReady {
        assert ZoneCounted(calls, k, p);
      }
    }
  }

  // The second barrier opens at call r only if every player listed in the proposal of that
  // epoch has had a zone-ready counted since, or has departed since.
  lemma ResumeOnlyAfterAllZones(calls: seq<Call>, r: nat) returns (i: nat)
    requires r < |calls| && calls[r].MarkZoneReady? && ReplyAt(calls, r) == Flag(true)
    ensures i < r && Proposed(calls, i) && StateAt(calls, i + 1).epoch == StateAt(calls, r).epoch
    ensures forall p | p in calls[i].participants ::
              (exists m :: i < m <= r && ZoneCounted(calls, m, p)) || (exists m :: i < m < r && Departed(calls, m, p))
  {
    i := Explain(calls, r + 1);
    InvHolds(calls, r);
    assert !Proposed(calls, r);
    forall p | p in calls[i].participants
      ensures (exists m :: i < m <= r && ZoneCounted(calls, m, p)) || (exists m :: i < m < r && Departed(calls, m, p))
    {
      if p in StateAt(calls, r + 1).current.value.participants {
        var m :| i < m < r + 1 && ZoneCounted(calls, m, p);
      } else {
        var m :| i < m < r + 1 && Departed(calls, m, p);
      }
    }
  }

  // No zone-ready is counted before the first barrier is closed: when one is counted at
  // call r, every player listed in the proposal has been counted ready or has departed.
  lemma ZoneCountedOnlyAfterAllReady(calls: seq<Call>, r: nat, q: PlayerId) returns (i: nat)
    requires ZoneCounted(calls, r, q)
    ensures i < r && Proposed(calls, i) && StateAt(calls, i + 1).epoch == StateAt(calls, r).epoch
    ensures forall p | p in calls[i].participants ::
              (exists m :: i < m < r && ReadyCounted(calls, m, p)) || (exists m :: i < m < r && Departed(calls, m, p))
  {
    i := Explain(calls, r);
    InvHolds(calls, r);
  }

  // ------------------------------------------------------------------ confluence

  datatype Ack = Ack(player: PlayerId, txnId: string, epoch: Option<int>)

  ghost predicate Valid(t: Txn, a: Ack) {
    a.txnId == t.txnId && EpochMatches(t, a.epoch)
  }

  // Everybody, stranger or not, who acknowledged this transaction and epoch.
  ghost function Ackers(t: Txn, acks: seq<Ack>): set<PlayerId> {
    set i | 0 <= i < |acks| && Valid(t, acks[i]) :: acks[i].player
  }

  lemma AckersStep(t: Txn, acks: seq<Ack>, k: nat)
    requires k < |acks|
    ensures Ackers(t, acks[..k + 1]) ==
            if Valid(t, acks[k]) then Ackers(t, acks[..k]) + {acks[k].player} else Ackers(t, acks[..k])
  {
    var a, b := acks[..k], acks[..k + 1];
    assert b == a + [acks[k]];
    forall p | p in Ackers(t, a)
      ensures p in Ackers(t, b)
    {
      var i :| 0 <= i < |a| && Valid(t, a[i]) && a[i].player == p;
      assert b[i] == a[i];
    }
    if Valid(t, acks[k]) {
      assert b[k] == acks[k];
    }
    forall p | p in Ackers(t, b) && !(Valid(t, acks[k]) && p == acks[k].player)
      ensures p in Ackers(t, a)
    {
      var i :| 0 <= i < |b| && Valid(t, b[i]) && b[i].player == p;
      assert i < k ==> a[i] == b[i];
    }
  }

  ghost function AfterReady(s: Coordinator, acks: seq<Ack>, k: nat): Coordinator
    requires k <= |acks|
  {
    if k == 0 then s else Step(AfterReady(s, acks, k - 1), ReadyCall(acks[k - 1])).0
  }

  ghost function ReadyCall(a: Ack): Call {
    MarkReady(a.player, a.txnId, a.epoch)
  }

  ghost function AfterZones(s: Coordinator, acks: seq<Ack>, k: nat): Coordinator
    requires k <= |acks|
  {
    if k == 0 then s else Step(AfterZones(s, acks, k - 1), ZoneCall(acks[k - 1])).0
  }

  ghost function ZoneCall(a: Ack): Call {
    MarkZoneReady(a.player, a.txnId, a.epoch)
  }

  // The outcome as a function of the set of valid ackers alone.
  ghost function ReadyOutcome(s: Coordinator, ackers: set<PlayerId>): Coordinator
    requires s.current.Some?
  {
    var t := s.current.value;
    var ready := t.ready + ackers * t.participants;
    s.(current := Some(t.(ready := ready, phase := if ready == t.participants then Committed else WaitingReady)))
  }

  ghost function ZoneOutcome(s: Coordinator, ackers: set<PlayerId>): Coordinator
    requires s.current.Some?
  {
    var t := s.current.value;
    var zoneReady := t.zoneReady + ackers * t.participants;
    var phase :=
      if ackers == {} then t.phase
      else if zoneReady == t.participants then Complete
      else WaitingZoneReady;
    s.(current := Some(t.(zoneReady := zoneReady, phase := phase)))
  }

  // Somebody valid acknowledged, and nobody is missing any more.
  ghost predicate Covers(have: set<PlayerId>, ackers: set<PlayerId>, all: set<PlayerId>) {
    ackers != {} && all <= have + ackers
  }

  lemma ReadyOutcomeStep(s: Coordinator, ackers: set<PlayerId>, a: Ack)
    requires Inv(s) && s.current.Some? && s.current.value.phase == WaitingReady
    ensures var t := s.current.value;
            var ackers' := if Valid(t, a) then ackers + {a.player} else ackers;
            && Step(ReadyOutcome(s, ackers), ReadyCall(a)).0 == ReadyOutcome(s, ackers')
            && (Step(ReadyOutcome(s, ackers), ReadyCall(a)).1 == Flag(true) <==>
                  Covers(t.ready, ackers', t.participants) && !Covers(t.ready, ackers, t.participants))
  {
    var t := s.current.value;
    var before := t.ready + ackers * t.participants;
    var after := t.ready + (ackers + {a.player}) * t.participants;
    assert after == if a.player in t.participants then before + {a.player} else before;
    assert forall w: set<PlayerId> :: t.participants <= t.ready + w <==> t.ready + w * t.participants == t.participants;
  }

  lemma ZoneOutcomeStep(s: Coordinator, ackers: set<PlayerId>, a: Ack)
    requires Inv(s) && s.current.Some? && AwaitsZones(s.current.value.phase)
    ensures var t := s.current.value;
            var ackers' := if Valid(t, a) then ackers + {a.player} else ackers;
            && Step(ZoneOutcome(s, ackers), ZoneCall(a)).0 == ZoneOutcome(s, ackers')
            && (Step(ZoneOutcome(s, ackers), ZoneCall(a)).1 == Flag(true) <==>
                  Covers(t.zoneReady, ackers', t.participants) && !Covers(t.zoneReady, ackers, t.participants))
  {
    var t := s.current.value;
    var before := t.zoneReady + ackers * t.participants;
    var after := t.zoneReady + (ackers + {a.player}) * t.participants;
    assert after == if a.player in t.participants then before + {a.player} else before;
    assert forall w: set<PlayerId> ::
        t.participants <= t.zoneReady + w <==> t.zoneReady + w * t.participants == t.participants;
  }

  // Any list of readies, however ordered, repeated, stale or forged, leaves the state fixed
  // by who acknowledged; True is answered exactly where the list first covers the participants.
  lemma {:induction false} ReadyConfluence(s: Coordinator, acks: seq<Ack>, k: nat)
    requires Inv(s) && s.current.Some? && s.current.value.phase == WaitingReady && k <= |acks|
    ensures AfterReady(s, acks, k) == ReadyOutcome(s, Ackers(s.current.value, acks[..k]))
    ensures var t := s.current.value;
            k < |acks| ==>
              (Step(AfterReady(s, acks, k), ReadyCall(acks[k])).1 == Flag(true) <==>
               Covers(t.ready, Ackers(t, acks[..k + 1]), t.participants) &&
               !Covers(t.ready, Ackers(t, acks[..k]), t.participants))
  {
    var t := s.current.value;
    if k == 0 {
      assert t.ready + Ackers(t, acks[..0]) * t.participants == t.ready;
    } else {
      ReadyConfluence(s, acks, k - 1);
      AckersStep(t, acks, k - 1);
      ReadyOutcomeStep(s, Ackers(t, acks[..k - 1]), acks[k - 1]);
    }
    if k < |acks| {
      AckersStep(t, acks, k);
      ReadyOutcomeStep(s, Ackers(t, acks[..k]), acks[k]);
    }
  }

  // The same for zone-readies, for any participants, even none.
  lemma {:induction false} ZoneConfluence(s: Coordinator, acks: seq<Ack>, k: nat)
    requires Inv(s) && s.current.Some? && AwaitsZones(s.current.value.phase) && k <= |acks|
    ensures AfterZones(s, acks, k) == ZoneOutcome(s, Ackers(s.current.value, acks[..k]))
    ensures var t := s.current.value;
            k < |acks| ==>
              (Step(AfterZones(s, acks, k), ZoneCall(acks[k])).1 == Flag(true) <==>
               Covers(t.zoneReady, Ackers(t, acks[..k + 1]), t.participants) &&
               !Covers(t.zoneReady, Ackers(t, acks[..k]), t.participants))
  {
    var t := s.current.value;
    if k == 0 {
      assert t.zoneReady + Ackers(t, acks[..0]) * t.participants == t.zoneReady;
    } else {
      ZoneConfluence(s, acks, k - 1);
      AckersStep(t, acks, k - 1);
      ZoneOutcomeStep(s, Ackers(t, acks[..k - 1]), acks[k - 1]);
    }
    if k < |acks| {
      AckersStep(t, acks, k);
      ZoneOutcomeStep(s, Ackers(t, acks[..k]), acks[k]);
    }
  }

  // Two lists with the same valid ackers are interchangeable at both barriers.
  lemma OrderIsIrrelevant(s: Coordinator, a: seq<Ack>, b: seq<Ack>)
    requires Inv(s) && s.current.Some?
    requires Ackers(s.current.value, a) == Ackers(s.current.value, b)
    ensures s.current.value.phase == WaitingReady ==> AfterReady(s, a, |a|) == AfterReady(s, b, |b|)
    ensures AwaitsZones(s.current.value.phase) ==>
              AfterZones(s, a, |a|) == AfterZones(s, b, |b|)
  {
    assert a[..|a|] == a && b[..|b|] == b;
    if s.current.value.phase == WaitingReady {
      ReadyConfluence(s, a, |a|);
      ReadyConfluence(s, b, |b|);
    } else if AwaitsZones(s.current.value.phase) {
      ZoneConfluence(s, a, |a|);
      ZoneConfluence(s, b, |b|);
    }
  }
}
