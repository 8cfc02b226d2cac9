// A plain FIFO queue with an open and a closed position: what the client's stream handling
// is meant to be, without sorting, outgoing notices or transport details. ClientRefinement
// shows that the client does exactly this, so every fact below is a fact about the client.
module PlainFifo {
  import opened Common
  import opened Wire
  import opened ClientStream

  datatype Fifo = Fifo(
    lastSequence: int, travelEpoch: int, holding: bool, queue: seq<Update>,
    complete: bool, loaded: bool, shown: seq<Update>)

  const EMPTY := Fifo(0, 0, false, [], false, false, [])

  predicate Takes(f: Fifo, i: Input) {
    i.FromHost? && i.message.Raw? &&
    var u := i.message.update;
    f.lastSequence < u.sequence && Readable(u.payload) && EpochAgrees(f.travelEpoch, u)
  }

  predicate Proposes(f: Fifo, i: Input) {
    i.FromHost? && i.message.Propose? && i.message.epoch > f.travelEpoch
  }

  predicate Begins(f: Fifo, i: Input) {
    i.FromHost? && i.message.ViewBatch? && i.message.kind == Begin && i.message.epoch == f.travelEpoch
  }

  predicate Resets(f: Fifo, i: Input) {
    Proposes(f, i) || Begins(f, i)
  }

  predicate Ends(f: Fifo, i: Input) {
    i.FromHost? && i.message.ViewBatch? && i.message.kind == End && i.message.epoch == f.travelEpoch
  }

  predicate Loads(f: Fifo, i: Input) {
    i.ZoneLoaded? && i.epoch == f.travelEpoch
  }

  predicate Resumes(f: Fifo, i: Input) {
    i.FromHost? && i.message.Resume? && i.message.epoch == f.travelEpoch
  }

  // A release needs a complete batch and one of: the zone is loaded, or the host says resume.
  predicate Releases(f: Fifo, i: Input) {
    (Ends(f, i) && f.loaded) || (f.complete && (Loads(f, i) || Resumes(f, i)))
  }

  function Offer(f: Fifo, u: Update): Fifo {
    if !f.holding then f.(lastSequence := u.sequence, shown := f.shown + [u])
    else if |f.queue| < MAX_BUFFERED then f.(lastSequence := u.sequence, queue := f.queue + [u])
    else f.(lastSequence := u.sequence)
  }

  function FifoStep(f: Fifo, i: Input): Fifo {
    if Takes(f, i) then Offer(f, i.message.update)
    else if Proposes(f, i) then
      f.(travelEpoch := i.message.epoch, holding := true, queue := [], complete := false, loaded := false)
    else if Begins(f, i) then f.(holding := true, queue := [], complete := false)
    else
      var g := f.(complete := f.complete || Ends(f, i), loaded := f.loaded || Loads(f, i));
      if Releases(f, i) then g.(holding := false, queue := [], shown := f.shown + f.queue) else g
  }

  ghost function FifoAt(ins: seq<Input>, k: nat): Fifo
    requires k <= |ins|
  {
    if k == 0 then EMPTY else FifoStep(FifoAt(ins, k - 1), ins[k - 1])
  }

  // ---------------------------------------------------------------- the invariant

  ghost predicate Numbered(s: seq<Update>, top: int) {
    Increasing(s) && forall u | u in s :: 0 < u.sequence <= top
  }

  ghost predicate Inv(f: Fifo) {
    && f.lastSequence >= 0 && f.travelEpoch >= 0
    && Numbered(f.shown + f.queue, f.lastSequence)
    && |f.queue| <= MAX_BUFFERED
    && (!f.holding ==> f.queue == [])
    && (f.travelEpoch > 0 ==> forall u | u in f.queue :: u.epoch == Some(f.travelEpoch))
    && (f.travelEpoch > 0 && !f.complete ==> f.holding)
  }

  lemma NumberedAppend(s: seq<Update>, top: int, u: Update)
    requires Numbered(s, top) && 0 <= top < u.sequence
    ensures Numbered(s + [u], u.sequence)
  {
    forall i | 0 <= i < |s|
      ensures s[i].sequence < u.sequence
    {
      assert s[i] in s;
    }
  }

  // After a step, what was shown or is held is the old list, a prefix of it, or the old
  // list with the accepted update at its end.
  lemma StepNumbers(f: Fifo, i: Input)
    requires Inv(f)
    ensures var g := FifoStep(f, i); Numbered(g.shown + g.queue, g.lastSequence)
  {
    var g := FifoStep(f, i);
    var before, after := f.shown + f.queue, g.shown + g.queue;
    if Takes(f, i) {
      NumberedAppend(before, f.lastSequence, i.message.update);
      if f.holding && |f.queue| >= MAX_BUFFERED {
        assert after == before;
      } else {
        assert after == before + [i.message.update];
      }
    } else if Resets(f, i) {
      assert after == before[..|f.shown|];
    } else {
      assert after == before;
    }
  }

  lemma StepKeepsInv(f: Fifo, i: Input)
    requires Inv(f)
    ensures Inv(FifoStep(f, i))
  {
    StepNumbers(f, i);
  }

  lemma {:induction false} InvHolds(ins: seq<Input>, k: nat)
    requires k <= |ins|
    ensures Inv(FifoAt(ins, k))
  {
    if k > 0 {
      InvHolds(ins, k - 1);
      StepKeepsInv(FifoAt(ins, k - 1), ins[k - 1]);
    }
  }

  // ------------------------------------------------------ the order of delivery

  ghost predicate Subsequence(a: seq<Update>, b: seq<Update>) {
    exists f: seq<int> :: Embeds(a, b, f)
  }

  ghost predicate Embeds(a: seq<Update>, b: seq<Update>, f: seq<int>) {
    && |f| == |a|
    && (forall i | 0 <= i < |f| :: 0 <= f[i] < |b| && a[i] == b[f[i]])
    && (forall i, j | 0 <= i < j < |f| :: f[i] < f[j])
  }

  // The host numbers its updates 1, 2, 3, ... in the order it sends them.
  ghost predicate Stamped(sent: seq<Update>) {
    forall i | 0 <= i < |sent| :: sent[i].sequence == i + 1
  }

  ghost predicate AllAmong(a: seq<Update>, b: seq<Update>) {
    forall i | 0 <= i < |a| :: a[i] in b
  }

  lemma IncreasingStampedIsSubsequence(shown: seq<Update>, sent: seq<Update>)
    requires Increasing(shown) && Stamped(sent) && AllAmong(shown, sent)
    ensures Subsequence(shown, sent)
  {
    forall i | 0 <= i < |shown|
      ensures 0 <= shown[i].sequence - 1 < |sent| && shown[i] == sent[shown[i].sequence - 1]
    {
      assert shown[i] in sent;
    }
    assert Embeds(shown, sent, seq(|shown|, i requires 0 <= i < |shown| => shown[i].sequence - 1));
  }

  lemma DeliveryIncreases(ins: seq<Input>, k: nat)
    requires k <= |ins|
    ensures Increasing(FifoAt(ins, k).shown)
    ensures Increasing(FifoAt(ins, k).shown + FifoAt(ins, k).queue)
  {
    InvHolds(ins, k);
    var f := FifoAt(ins, k);
    var all := f.shown + f.queue;
    assert forall i | 0 <= i < |f.shown| :: all[i] == f.shown[i];
  }

  ghost predicate Received(ins: seq<Input>, k: nat, u: Update)
    requires k <= |ins|
  {
    exists m :: 0 <= m < k && ins[m] == FromHost(Raw(u))
  }

  lemma {:induction false} ShownWasReceived(ins: seq<Input>, k: nat, u: Update)
    requires k <= |ins| && (u in FifoAt(ins, k).shown || u in FifoAt(ins, k).queue)
    ensures Received(ins, k, u)
  {
    var f := FifoAt(ins, k - 1);
    if u in f.shown || u in f.queue {
      ShownWasReceived(ins, k - 1, u);
      var m :| 0 <= m < k - 1 && ins[m] == FromHost(Raw(u));
    } else {
      assert ins[k - 1] == FromHost(Raw(u));
    }
  }

  // ---------------------------------------------------------------- conservation

  ghost predicate AcceptedAt(ins: seq<Input>, k: nat)
    requires k < |ins|
  {
    Takes(FifoAt(ins, k), ins[k])
  }

  ghost predicate ResetAt(ins: seq<Input>, k: nat)
    requires k < |ins|
  {
    Resets(FifoAt(ins, k), ins[k])
  }

  ghost predicate EndAt(ins: seq<Input>, k: nat)
    requires k < |ins|
  {
    Ends(FifoAt(ins, k), ins[k])
  }

  // The updates accepted by the inputs from i up to k.
  ghost function Accepted(ins: seq<Input>, i: nat, k: nat): seq<Update>
    requires i <= k <= |ins|
  {
    if k == i then []
    else if AcceptedAt(ins, k - 1) then Accepted(ins, i, k - 1) + [ins[k - 1].message.update]
    else Accepted(ins, i, k - 1)
  }

  // The accepted updates that met a full buffer.
  ghost function Overflowed(ins: seq<Input>, k: nat): seq<Update>
    requires k <= |ins|
  {
    if k == 0 then []
    else if AcceptedAt(ins, k - 1) && FifoAt(ins, k - 1).holding && |FifoAt(ins, k - 1).queue| >= MAX_BUFFERED
    then Overflowed(ins, k - 1) + [ins[k - 1].message.update]
    else Overflowed(ins, k - 1)
  }

  // What was held when a proposal or a batch begin cleared the buffer.
  ghost function Discarded(ins: seq<Input>, k: nat): seq<Update>
    requires k <= |ins|
  {
    if k == 0 then []
    else if ResetAt(ins, k - 1) then Discarded(ins, k - 1) + FifoAt(ins, k - 1).queue
    else Discarded(ins, k - 1)
  }

  ghost function Kept(f: Fifo): multiset<Update> {
    multiset(f.shown) + multiset(f.queue)
  }

  lemma StepBalances(f: Fifo, i: Input)
    requires !f.holding ==> f.queue == []
    ensures var g := FifoStep(f, i);
            if Takes(f, i) then
              Kept(g) ==
              if f.holding && |f.queue| >= MAX_BUFFERED then Kept(f) else Kept(f) + multiset{i.message.update}
            else if Resets(f, i) then Kept(f) == Kept(g) + multiset(f.queue)
            else Kept(g) == Kept(f)
  {
  }

  // Every accepted update is in exactly one place: shown, held, discarded or overflowed.
  lemma {:induction false} Conservation(ins: seq<Input>, k: nat)
    requires k <= |ins|
    ensures multiset(Accepted(ins, 0, k)) ==
            Kept(FifoAt(ins, k)) + multiset(Discarded(ins, k)) + multiset(Overflowed(ins, k))
  {
    if k > 0 {
      Conservation(ins, k - 1);
      InvHolds(ins, k - 1);
      StepBalances(FifoAt(ins, k - 1), ins[k - 1]);
    }
  }

  // The accepted numbers strictly increase, so no update is accepted, or counted, twice.
  lemma {:induction false} AcceptedOnce(ins: seq<Input>, k: nat)
    requires k <= |ins|
    ensures Numbered(Accepted(ins, 0, k), FifoAt(ins, k).lastSequence)
  {
    if k > 0 {
      AcceptedOnce(ins, k - 1);
      InvHolds(ins, k - 1);
      if AcceptedAt(ins, k - 1) {
        NumberedAppend(Accepted(ins, 0, k - 1), FifoAt(ins, k - 1).lastSequence, ins[k - 1].message.update);
      }
    }
  }

  function Take(s: seq<Update>, n: nat): seq<Update> {
    if |s| <= n then s else s[..n]
  }

  // Input r was a reset; since then there was none, the client has been holding, and the game
  // has been shown nothing.
  ghost predicate HoldsSince(ins: seq<Input>, r: nat, k: nat) {
    && r < k <= |ins| && ResetAt(ins, r)
    && (forall m | r < m < k :: !ResetAt(ins, m))
    && (forall m | r < m <= k :: StillHolds(ins, r, m))
  }

  ghost predicate StillHolds(ins: seq<Input>, r: nat, m: nat)
    requires r < m <= |ins|
  {
    FifoAt(ins, m).holding && FifoAt(ins, m).shown == FifoAt(ins, r).shown
  }

  ghost predicate QueuedSince(ins: seq<Input>, r: nat, k: nat)
    requires r < k <= |ins|
  {
    FifoAt(ins, k).queue == Take(Accepted(ins, r + 1, k), MAX_BUFFERED)
  }

  lemma HeldFirst(ins: seq<Input>, k: nat)
    requires k < |ins| && ResetAt(ins, k)
    ensures HoldsSince(ins, k, k + 1) && QueuedSince(ins, k, k + 1)
  {
    assert StillHolds(ins, k, k + 1);
  }

  lemma HeldNext(ins: seq<Input>, r: nat, k: nat)
    requires r < k < |ins| && StillHolds(ins, r, k) && QueuedSince(ins, r, k)
    requires !ResetAt(ins, k) && FifoAt(ins, k + 1).holding
    ensures StillHolds(ins, r, k + 1) && QueuedSince(ins, r, k + 1)
  {
  }

  lemma HoldingBegins(ins: seq<Input>, k: nat)
    requires 0 < k <= |ins| && FifoAt(ins, k).holding && !ResetAt(ins, k - 1)
    ensures FifoAt(ins, k - 1).holding
  {
  }

  // While the client is holding there is a latest reset r; it has been holding, and the game
  // has seen nothing new, ever since; and the queue is exactly the first 256 updates accepted
  // since r.
  lemma {:induction false} Held(ins: seq<Input>, k: nat) returns (r: nat)
    requires k <= |ins| && FifoAt(ins, k).holding
    ensures HoldsSince(ins, r, k) && QueuedSince(ins, r, k)
    decreases k
  {
    assert k > 0;
    if ResetAt(ins, k - 1) {
      r := k - 1;
      HeldFirst(ins, k - 1);
    } else {
      HoldingBegins(ins, k);
      r := Held(ins, k - 1);
      assert StillHolds(ins, r, k - 1);
      HeldNext(ins, r, k - 1);
    }
  }

  // If the batch is complete, an end of the current epoch was read after the latest reset.
  lemma {:induction false} EndSeen(ins: seq<Input>, k: nat) returns (j: nat)
    requires k <= |ins| && FifoAt(ins, k).complete
    ensures j < k && EndAt(ins, j) && FifoAt(ins, j).travelEpoch == FifoAt(ins, k).travelEpoch
    ensures forall m | j <= m < k :: !ResetAt(ins, m)
    decreases k
  {
    if EndAt(ins, k - 1) {
      j := k - 1;
    } else {
      j := EndSeen(ins, k - 1);
    }
  }

  // Holding is switched off at input k only after an end of the current epoch that follows
  // the latest proposal or begin, and then the game is handed, in order, exactly the first
  // 256 updates accepted since that reset, having been handed none of them before.
  lemma ReleaseIsGatedAndExact(ins: seq<Input>, k: nat) returns (r: nat, j: nat)
    requires k < |ins| && FifoAt(ins, k).holding && !FifoAt(ins, k + 1).holding
    ensures r < j <= k && ResetAt(ins, r) && EndAt(ins, j)
    ensures forall m | r < m <= k :: !ResetAt(ins, m)
    ensures FifoAt(ins, j).travelEpoch == FifoAt(ins, k + 1).travelEpoch
    ensures FifoAt(ins, k).shown == FifoAt(ins, r).shown
    ensures FifoAt(ins, k + 1).shown == FifoAt(ins, r).shown + Take(Accepted(ins, r + 1, k), MAX_BUFFERED)
    ensures FifoAt(ins, k + 1).queue == []
  {
    r := Held(ins, k);
    j := EndSeen(ins, k + 1);
    assert StillHolds(ins, r, k);
  }

  ghost predicate IsAt(ins: seq<Input>, k: nat, f: Fifo) {
    k <= |ins| && f == FifoAt(ins, k)
  }

  // The release law for the states before and after input k, the latest reset r, which found the
  // state `reset`, and the end j.
  ghost predicate ReleaseIsLawful(ins: seq<Input>, k: nat, r: nat, j: nat, before: Fifo, reset: Fifo, after: Fifo)
    requires k < |ins|
  {
    before.holding && !after.holding ==>
      && r < j <= k && ResetAt(ins, r) && EndAt(ins, j)
      && (forall m | r < m <= k :: !ResetAt(ins, m))
      && before.shown == reset.shown
      && after.shown == reset.shown + Take(Accepted(ins, r + 1, k), MAX_BUFFERED)
  }

  lemma ReleasesAreLawful(ins: seq<Input>, k: nat)
    returns (r: nat, j: nat, before: Fifo, reset: Fifo, after: Fifo)
    requires k < |ins|
    ensures IsAt(ins, k, before) && IsAt(ins, r, reset) && IsAt(ins, k + 1, after)
    ensures ReleaseIsLawful(ins, k, r, j, before, reset, after)
  {
    r, j, before, after := 0, 0, FifoAt(ins, k), FifoAt(ins, k + 1);
    if before.holding && !after.holding {
      r, j := ReleaseIsGatedAndExact(ins, k);
    }
    reset := FifoAt(ins, r);
  }

  lemma {:induction false} EpochNeverDecreases(ins: seq<Input>, i: nat, k: nat)
    requires i <= k <= |ins|
    ensures FifoAt(ins, i).travelEpoch <= FifoAt(ins, k).travelEpoch
    decreases k
  {
    if i < k {
      EpochNeverDecreases(ins, i, k - 1);
    }
  }

  // Once the client is in an epoch, every update it hands to the game carries that epoch's tag.
  lemma NoForeignEpochIsDelivered(ins: seq<Input>, k: nat) returns (news: seq<Update>)
    requires k < |ins|
    ensures FifoAt(ins, k + 1).shown == FifoAt(ins, k).shown + news
    ensures FifoAt(ins, k).travelEpoch > 0 ==> forall u | u in news :: u.epoch == Some(FifoAt(ins, k).travelEpoch)
  {
    var f := FifoAt(ins, k);
    InvHolds(ins, k);
    if Takes(f, ins[k]) {
      news := if f.holding then [] else [ins[k].message.update];
    } else {
      news := if Releases(f, ins[k]) then f.queue else [];
    }
  }
}
