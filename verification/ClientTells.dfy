// What the client passes to its game besides view updates: notices of travel, in which order,
// and errors.
module ClientTells {
  import opened Common
  import opened Wire
  import opened ClientStream
  import opened ClientRefinement

  predicate IsNotice(o: ToGame) {
    o.Forward? || o.Prepare?
  }

  ghost function Notices(out: seq<ToGame>): seq<ToGame> {
    if out == [] then []
    else
      var front, last := Notices(out[..|out| - 1]), out[|out| - 1];
      if IsNotice(last) then front + [last] else front
  }

  ghost function ErrorCount(out: seq<ToGame>): nat {
    if out == [] then 0 else ErrorCount(out[..|out| - 1]) + (if out[|out| - 1].SidecarError? then 1 else 0)
  }

  lemma EmitTells(c: Client, o: ToGame)
    ensures Notices(Emit(c, o).toGame) == if IsNotice(o) then Notices(c.toGame) + [o] else Notices(c.toGame)
    ensures ErrorCount(Emit(c, o).toGame) == ErrorCount(c.toGame) + (if o.SidecarError? then 1 else 0)
  {
    assert (c.toGame + [o])[..|c.toGame|] == c.toGame;
  }

  lemma {:induction false} AppliedTells(out: seq<ToGame>, us: seq<Update>)
    ensures Notices(out + Applied(us)) == Notices(out) && ErrorCount(out + Applied(us)) == ErrorCount(out)
  {
    if us == [] {
      assert out + Applied(us) == out;
    } else {
      AppliedTells(out, us[..|us| - 1]);
      var all := out + Applied(us);
      assert all[..|all| - 1] == out + Applied(us[..|us| - 1]);
      assert all[|all| - 1].Apply?;
    }
  }

  lemma FlushTells(c: Client)
    ensures Notices(Flush(c).toGame) == Notices(c.toGame) && ErrorCount(Flush(c).toGame) == ErrorCount(c.toGame)
  {
    AppliedTells(c.toGame, SortBySequence(c.buffer));
  }

  // The notice due for an input: commits, aborts, resumes and failures always, batch marks of
  // the client's epoch, and proposals of a later one.
  function Due(travelEpoch: int, i: Input): seq<ToGame> {
    if i.ZoneLoaded? then []
    else
      var m := i.message;
      if m.Commit? || m.Abort? || m.Resume? || m.Failure? then [Forward(m)]
      else if m.ViewBatch? && m.epoch == travelEpoch then [Forward(m)]
      else if m.Propose? && m.epoch > travelEpoch then [Prepare(m)]
      else []
  }

  // A raw message emits nothing, or one update or error.
  lemma RawEmits(c: Client, u: Update) returns (out: seq<ToGame>)
    ensures |out| <= 1 && (out != [] ==> !IsNotice(out[0])) && OnRaw(c, u).toGame == c.toGame + out
  {
    var all := OnRaw(c, u).toGame;
    out := if |all| > |c.toGame| then [all[|c.toGame|]] else [];
  }

  lemma RawTells(c: Client, u: Update)
    ensures Notices(OnRaw(c, u).toGame) == Notices(c.toGame)
  {
    var out := RawEmits(c, u);
    if out == [] {
      assert c.toGame + out == c.toGame;
    } else {
      assert out == [out[0]] && Emit(c, out[0]).toGame == c.toGame + out;
      EmitTells(c, out[0]);
    }
  }

  lemma BatchTells(c: Client, m: Message)
    requires m.ViewBatch?
    ensures Notices(OnMessage(c, m).toGame) == Notices(c.toGame) + Due(c.travelEpoch, FromHost(m))
  {
    if m.epoch != c.travelEpoch {
      EmitTells(c, SidecarError(StaleEpoch));
    } else if m.kind == End && c.zoneLoaded {
      var ended := c.(batchComplete := true);
      FlushTells(ended);
      EmitTells(Flush(ended), Forward(m));
      assert OnMessage(c, m) == Emit(Flush(ended), Forward(m));
    } else {
      EmitTells(c, Forward(m));
      assert OnMessage(c, m).toGame == c.toGame + [Forward(m)];
    }
  }

  lemma ResumeTells(c: Client, m: Message)
    requires m.Resume?
    ensures Notices(OnMessage(c, m).toGame) == Notices(c.toGame) + Due(c.travelEpoch, FromHost(m))
  {
    FlushTells(c);
    EmitTells(Flush(c), Forward(m));
    EmitTells(c, Forward(m));
  }

  lemma NoticeTells(c: Client, m: Message)
    requires m.Propose? || m.Commit? || m.Abort? || m.Failure?
    ensures Notices(OnMessage(c, m).toGame) == Notices(c.toGame) + Due(c.travelEpoch, FromHost(m))
  {
    if m.Propose? {
      var d := c.(
        travelEpoch := m.epoch, zoneLoaded := false, batchComplete := false, buffering := true, buffer := []);
      EmitTells(d, Prepare(m));
    } else {
      EmitTells(c, Forward(m));
    }
  }

  lemma StepTells(c: Client, i: Input)
    ensures Notices(Step(c, i).toGame) == Notices(c.toGame) + Due(c.travelEpoch, i)
  {
    match i {
      case ZoneLoaded(epoch) => FlushTells(c.(zoneLoaded := true));
      case FromHost(Raw(u)) => RawTells(c, u);
      case FromHost(ViewBatch(_, _)) => BatchTells(c, i.message);
      case FromHost(Resume(_)) => ResumeTells(c, i.message);
      case FromHost(_) => NoticeTells(c, i.message);
    }
  }

  ghost function AllDue(ins: seq<Input>, k: nat): seq<ToGame>
    requires k <= |ins|
  {
    if k == 0 then [] else AllDue(ins, k - 1) + Due(StateAt(ins, k - 1).travelEpoch, ins[k - 1])
  }

  ghost predicate IsExact(ins: seq<Input>, k: nat) {
    k <= |ins| && Notices(StateAt(ins, k).toGame) == AllDue(ins, k)
  }

  lemma ExactFirst(ins: seq<Input>)
    ensures IsExact(ins, 0)
  {
  }

  lemma ExactNext(ins: seq<Input>, k: nat)
    requires k < |ins| && IsExact(ins, k)
    ensures IsExact(ins, k + 1)
  {
    StepTells(StateAt(ins, k), ins[k]);
  }

  // For any inputs, the game has been given exactly the notices that were due, in order.
  lemma {:induction false} NoticesAreExact(ins: seq<Input>, k: nat)
    requires k <= |ins|
    ensures IsExact(ins, k)
  {
    if k == 0 {
      ExactFirst(ins);
    } else {
      NoticesAreExact(ins, k - 1);
      ExactNext(ins, k - 1);
    }
  }

  // The message releases the buffer.
  predicate Frees(c: Client, m: Message) {
    || (m.Resume? && m.epoch == c.travelEpoch && c.batchComplete)
    || (m.ViewBatch? && m.epoch == c.travelEpoch && m.kind == End && c.zoneLoaded)
  }

  // A notice comes after the updates that its message releases.
  lemma NoticeComesLast(c: Client, m: Message)
    requires Due(c.travelEpoch, FromHost(m)) != []
    ensures var released := if Frees(c, m) then Applied(SortBySequence(c.buffer)) else [];
            OnMessage(c, m).toGame == c.toGame + released + Due(c.travelEpoch, FromHost(m))
  {
    if !Frees(c, m) {
      assert c.toGame + [] == c.toGame;
      NothingFreed(c, m);
    }
  }

  lemma NothingFreed(c: Client, m: Message)
    requires Due(c.travelEpoch, FromHost(m)) != [] && !Frees(c, m)
    ensures OnMessage(c, m).toGame == c.toGame + Due(c.travelEpoch, FromHost(m))
  {
  }

  // A new update is refused with exactly one error if it cannot be read, is not of the client's
  // epoch, or meets a full buffer; an old one without any; and no other update causes an error.
  lemma ErrorIff(c: Client, u: Update)
    ensures var isFull := c.buffering && |c.buffer| >= MAX_BUFFERED;
            var isOfEpoch := c.travelEpoch == 0 || u.epoch == Some(c.travelEpoch);
            ErrorCount(OnRaw(c, u).toGame) ==
            ErrorCount(c.toGame) +
            (if c.lastSequence < u.sequence && (!Readable(u.payload) || !isOfEpoch || isFull) then 1 else 0)
  {
    var d := c.(lastSequence := u.sequence);
    EmitTells(c, SidecarError(RawInvalid));
    EmitTells(c, SidecarError(MissingEpoch));
    EmitTells(c, SidecarError(StaleEpoch));
    EmitTells(d, Apply(u));
    EmitTells(d, SidecarError(BufferFull));
  }
}
