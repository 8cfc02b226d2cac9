// The client's code refines the plain FIFO, for every list of inputs: messages may be lost,
// repeated, reordered or invented, and local zone reports may come at any moment.
module ClientRefinement {
  import opened Wire
  import opened ClientStream
  import PlainFifo

  // The state of the code after the first k inputs.
  ghost function StateAt(ins: seq<Input>, k: nat): Client
    requires k <= |ins|
  {
    if k == 0 then FRESH else Step(StateAt(ins, k - 1), ins[k - 1])
  }

  // The view updates among what was handed to the game, in order.
  ghost function Delivered(out: seq<ToGame>): seq<Update> {
    if out == [] then []
    else
      var front := Delivered(out[..|out| - 1]);
      if out[|out| - 1].Apply? then front + [out[|out| - 1].update] else front
  }

  ghost function Shown(c: Client): seq<Update> {
    Delivered(c.toGame)
  }

  ghost function Abs(c: Client): PlainFifo.Fifo {
    PlainFifo.Fifo(c.lastSequence, c.travelEpoch, c.buffering, c.buffer, c.batchComplete, c.zoneLoaded, Shown(c))
  }

  lemma EmitShows(c: Client, o: ToGame)
    ensures Shown(Emit(c, o)) == if o.Apply? then Shown(c) + [o.update] else Shown(c)
  {
    assert (c.toGame + [o])[..|c.toGame|] == c.toGame;
  }

  lemma {:induction false} AppliedShows(out: seq<ToGame>, us: seq<Update>)
    ensures Delivered(out + Applied(us)) == Delivered(out) + us
  {
    if us == [] {
      assert out + Applied(us) == out;
    } else {
      var front, last := us[..|us| - 1], us[|us| - 1];
      AppliedShows(out, front);
      assert us == front + [last];
      var all := out + Applied(us);
      assert all[..|all| - 1] == out + Applied(front);
    }
  }

  lemma FlushShows(c: Client)
    requires Increasing(c.buffer)
    ensures Shown(Flush(c)) == Shown(c) + c.buffer
  {
    SortIsNoOp(c.buffer);
    AppliedShows(c.toGame, c.buffer);
  }

  lemma FlushReleases(c: Client, m: Message)
    requires Increasing(c.buffer)
    ensures Abs(Emit(Flush(c), Forward(m))) ==
            Abs(c).(holding := false, queue := [], shown := Abs(c).shown + Abs(c).queue)
  {
    FlushShows(c);
    EmitShows(Flush(c), Forward(m));
  }

  lemma RejectedRefines(c: Client, u: Update)
    requires !Accepts(c, u)
    ensures Abs(OnRaw(c, u)) == Abs(c)
  {
    EmitShows(c, SidecarError(RawInvalid));
    EmitShows(c, SidecarError(MissingEpoch));
    EmitShows(c, SidecarError(StaleEpoch));
  }

  lemma AcceptedRefines(c: Client, u: Update)
    requires Accepts(c, u) && Increasing(c.buffer + [u])
    ensures Abs(OnRaw(c, u)) == PlainFifo.Offer(Abs(c), u)
  {
    var d := c.(lastSequence := u.sequence);
    if !c.buffering {
      EmitShows(d, Apply(u));
    } else if |c.buffer| >= MAX_BUFFERED {
      EmitShows(d, SidecarError(BufferFull));
    } else {
      SortIsNoOp(c.buffer + [u]);
    }
  }

  lemma RawRefines(c: Client, u: Update)
    requires c.lastSequence < u.sequence ==> Increasing(c.buffer + [u])
    ensures Abs(OnRaw(c, u)) == PlainFifo.FifoStep(Abs(c), FromHost(Raw(u)))
  {
    if Accepts(c, u) {
      AcceptedRefines(c, u);
    } else {
      RejectedRefines(c, u);
    }
  }

  lemma BatchRefines(c: Client, m: Message)
    requires Increasing(c.buffer) && m.ViewBatch?
    ensures Abs(OnMessage(c, m)) == PlainFifo.FifoStep(Abs(c), FromHost(m))
  {
    if m.epoch != c.travelEpoch {
      EmitShows(c, SidecarError(StaleEpoch));
    } else if m.kind == End && c.zoneLoaded {
      EndRefines(c, m);
    } else {
      EmitShows(c, Forward(m));
    }
  }

  lemma EndRefines(c: Client, m: Message)
    requires Increasing(c.buffer) && m == ViewBatch(c.travelEpoch, End) && c.zoneLoaded
    ensures Abs(OnMessage(c, m)) == PlainFifo.FifoStep(Abs(c), FromHost(m))
  {
    var e := c.(batchComplete := true);
    assert OnMessage(c, m) == Emit(Flush(e), Forward(m));
    FlushReleases(e, m);
  }

  lemma ResumeRefines(c: Client, m: Message)
    requires Increasing(c.buffer) && m.Resume?
    ensures Abs(OnMessage(c, m)) == PlainFifo.FifoStep(Abs(c), FromHost(m))
  {
    FlushReleases(c, m);
    EmitShows(c, Forward(m));
  }

  lemma ZoneRefines(c: Client, epoch: int)
    requires Increasing(c.buffer)
    ensures Abs(OnZoneLoaded(c, epoch)) == PlainFifo.FifoStep(Abs(c), ZoneLoaded(epoch))
  {
    FlushShows(c.(zoneLoaded := true));
  }

  lemma NoticeRefines(c: Client, m: Message)
    requires m.Propose? || m.Commit? || m.Abort? || m.Failure?
    ensures Abs(OnMessage(c, m)) == PlainFifo.FifoStep(Abs(c), FromHost(m))
  {
    EmitShows(c, Forward(m));
    EmitShows(c, Prepare(m));
  }

  // Both sorts in the code are no-ops in every state that can arise, and one step of the code
  // is one step of the plain queue.
  lemma StepRefines(c: Client, i: Input)
    requires PlainFifo.Inv(Abs(c))
    ensures Abs(Step(c, i)) == PlainFifo.FifoStep(Abs(c), i)
  {
    BufferIncreases(c);
    match i {
      case ZoneLoaded(epoch) => ZoneRefines(c, epoch);
      case FromHost(Raw(u)) => RawRefines(c, u);
      case FromHost(ViewBatch(_, _)) => BatchRefines(c, i.message);
      case FromHost(Resume(_)) => ResumeRefines(c, i.message);
      case FromHost(_) => NoticeRefines(c, i.message);
    }
  }

  lemma BufferIncreases(c: Client)
    requires PlainFifo.Inv(Abs(c))
    ensures Increasing(c.buffer)
    ensures forall u: Update | c.lastSequence < u.sequence :: Increasing(c.buffer + [u])
  {
    var all := Shown(c) + c.buffer;
    assert forall i | 0 <= i < |c.buffer| :: all[|Shown(c)| + i] == c.buffer[i];
    assert forall i | 0 <= i < |c.buffer| :: c.buffer[i] in all;
  }

  lemma {:induction false} CodeIsFifo(ins: seq<Input>, k: nat)
    requires k <= |ins|
    ensures Abs(StateAt(ins, k)) == PlainFifo.FifoAt(ins, k)
    ensures PlainFifo.Inv(Abs(StateAt(ins, k)))
  {
    PlainFifo.InvHolds(ins, k);
    if k > 0 {
      CodeIsFifo(ins, k - 1);
      StepRefines(StateAt(ins, k - 1), ins[k - 1]);
    }
  }

  // Whatever the network does, the game is handed strictly increasing sequence numbers, and,
  // if nobody forges updates, a subsequence of what the host stamped.
  lemma DeliveryIsOrderedSubsequence(ins: seq<Input>, k: nat, sent: seq<Update>)
    requires k <= |ins| && PlainFifo.Stamped(sent)
    requires forall m, u | 0 <= m < |ins| && ins[m] == FromHost(Raw(u)) :: u in sent
    ensures Increasing(Shown(StateAt(ins, k)))
    ensures PlainFifo.Subsequence(Shown(StateAt(ins, k)), sent)
  {
    CodeIsFifo(ins, k);
    var shown := PlainFifo.FifoAt(ins, k).shown;
    PlainFifo.DeliveryIncreases(ins, k);
    forall u | u in shown
      ensures u in sent
    {
      PlainFifo.ShownWasReceived(ins, k, u);
    }
    PlainFifo.IncreasingStampedIsSubsequence(shown, sent);
  }

  // The plain queue's view of the code after k inputs.
  ghost predicate Seen(ins: seq<Input>, k: nat, f: PlainFifo.Fifo) {
    k <= |ins| && Abs(StateAt(ins, k)) == f
  }

  lemma CodeIsSeen(ins: seq<Input>, k: nat, f: PlainFifo.Fifo)
    requires PlainFifo.IsAt(ins, k, f)
    ensures Seen(ins, k, f)
  {
    CodeIsFifo(ins, k);
  }

  // The release theorem of the plain queue, read on the code: if buffering goes off at input k,
  // an end of the current epoch was read after the latest reset r, and exactly the first 256
  // updates accepted since r reach the game, none of them before.
  lemma ClientReleaseIsGatedAndExact(ins: seq<Input>, k: nat)
    returns (r: nat, j: nat, before: PlainFifo.Fifo, reset: PlainFifo.Fifo, after: PlainFifo.Fifo)
    requires k < |ins|
    ensures Seen(ins, k, before) && Seen(ins, r, reset) && Seen(ins, k + 1, after)
    ensures PlainFifo.ReleaseIsLawful(ins, k, r, j, before, reset, after)
  {
    r, j, before, reset, after := PlainFifo.ReleasesAreLawful(ins, k);
    CodeIsSeen(ins, k, before);
    CodeIsSeen(ins, r, reset);
    CodeIsSeen(ins, k + 1, after);
  }
}
