// Replicas fed from the authority's log: what they apply, and when that is the log.
module ReplayRuns {
  import opened Adapter

  // --------------------------------------------------- any deliveries whatever

  datatype Step =
    | Deliver(payload: Payload, during: seq<Payload>, raises: bool)
    | CaptureHere(payload: Payload)
    | Configure

  ghost function After(r: Replica, s: Step): Replica {
    match s
    case Deliver(p, during, raises) => ApplyRemote(r, p, during, raises).0
    case CaptureHere(p) => Capture(r, p).0
    case Configure => r.(configured := true)
  }

  const NEW := Replica(false, {}, false, [], [], 0, 0, map[])

  ghost function StateAt(run: seq<Step>, k: nat): Replica
    requires k <= |run|
  {
    if k == 0 then NEW else After(StateAt(run, k - 1), run[k - 1])
  }

  ghost predicate DistinctKeys(ops: seq<Normal>) {
    forall i, j {:trigger ops[i], ops[j]} | 0 <= i < j < |ops| :: KeyOf(ops[i]) != KeyOf(ops[j])
  }

  ghost predicate Inv(r: Replica) {
    && !r.applying
    && DistinctKeys(r.handed)
    && Remembered(r.handed, r.seen)
  }

  ghost predicate Remembered(ops: seq<Normal>, seen: set<Key>) {
    forall i {:trigger ops[i]} | 0 <= i < |ops| :: KeyOf(ops[i]) in seen
  }

  ghost predicate HasKey(ops: seq<Normal>, key: Key) {
    exists i {:trigger ops[i]} :: 0 <= i < |ops| && KeyOf(ops[i]) == key
  }

  lemma HasKeyAppend(ops: seq<Normal>, n: Normal, key: Key)
    ensures HasKey(ops + [n], key) <==> HasKey(ops, key) || KeyOf(n) == key
  {
    var all := ops + [n];
    assert all[|ops|] == n;
    assert forall i | 0 <= i < |ops| :: all[i] == ops[i];
  }

  // Everything captured while an operation is being applied is suppressed and counted.
  lemma {:induction false} CapturesAreSuppressed(r: Replica, ps: seq<Payload>)
    requires r.applying
    ensures CaptureAll(r, ps) == r.(suppressed := r.suppressed + |ps|)
  {
    if ps != [] {
      CapturesAreSuppressed(r, ps[..|ps| - 1]);
    }
  }

  // So an apply emits no capture, whatever its callback does natively.
  lemma ApplyEmitsNothing(r: Replica, p: Payload, during: seq<Payload>, raises: bool)
    ensures ApplyRemote(r, p, during, raises).0.captured == r.captured
    ensures ApplyRemote(r, p, during, raises).0.lastDefinition == r.lastDefinition
    ensures !r.applying ==> !ApplyRemote(r, p, during, raises).0.applying
  {
    var n := Normalize(p);
    if n.Ok? {
      CapturesAreSuppressed(
        r.(seen := r.seen + {KeyOf(n.value)}, applying := true, handed := r.handed + [n.value]), during);
    }
  }

  lemma ApplyEffect(r: Replica, p: Payload, during: seq<Payload>, raises: bool)
    ensures var (s, outcome) := ApplyRemote(r, p, during, raises);
            if Normalize(p).Err? || KeyOf(Normalize(p).value) in r.seen then s == r
            else
              && s.seen == r.seen + {KeyOf(Normalize(p).value)} && s.configured == r.configured
              && s.handed == (if r.configured then r.handed + [Normalize(p).value] else r.handed)
              && (r.configured ==> !s.applying) && (!r.configured ==> s.applying == r.applying)
  {
    var n := Normalize(p);
    if n.Ok? {
      CapturesAreSuppressed(
        r.(seen := r.seen + {KeyOf(n.value)}, applying := true, handed := r.handed + [n.value]), during);
    }
  }

  lemma StepKeepsInv(r: Replica, s: Step)
    requires Inv(r)
    ensures Inv(After(r, s))
  {
    if s.Deliver? {
      ApplyEffect(r, s.payload, s.during, s.raises);
    }
  }

  // Under any repetition, loss and reordering, no key is handed to the callback twice.
  lemma {:induction false} AppliedAtMostOnce(run: seq<Step>, k: nat)
    requires k <= |run|
    ensures Inv(StateAt(run, k)) && DistinctKeys(StateAt(run, k).handed)
  {
    if k > 0 {
      AppliedAtMostOnce(run, k - 1);
      StepKeepsInv(StateAt(run, k - 1), run[k - 1]);
    }
  }

  // ------------------------------------------------------ replaying slices of a log

  // The operations of a log that the adapter takes, in order.
  ghost function Usable(log: seq<Payload>): seq<Normal> {
    if log == [] then []
    else
      var front, n := Usable(log[..|log| - 1]), Normalize(log[|log| - 1]);
      if n.Ok? then front + [n.value] else front
  }

  ghost function Replay(r: Replica, ps: seq<Payload>): Replica {
    if ps == [] then r else ApplyRemote(Replay(r, ps[..|ps| - 1]), ps[|ps| - 1], [], false).0
  }

  // A schedule of overlapping slices [first, stop) of a log, without gaps: each starts no later
  // than where the earlier ones have reached.
  datatype Slice = Slice(first: nat, stop: nat)

  ghost function Reached(slices: seq<Slice>): nat {
    if slices == [] then 0
    else
      var before, last := Reached(slices[..|slices| - 1]), slices[|slices| - 1].stop;
      if before < last then last else before
  }

  ghost predicate GapFree(slices: seq<Slice>, n: nat) {
    slices == [] ||
    (GapFree(slices[..|slices| - 1], n) &&
     slices[|slices| - 1].first <= slices[|slices| - 1].stop <= n &&
     slices[|slices| - 1].first <= Reached(slices[..|slices| - 1]))
  }

  ghost function ReplaySlices(r: Replica, log: seq<Payload>, slices: seq<Slice>): Replica
    requires GapFree(slices, |log|)
  {
    if slices == [] then r
    else
      var last := slices[|slices| - 1];
      Replay(ReplaySlices(r, log, slices[..|slices| - 1]), log[last.first..last.stop])
  }

  // The replica has applied exactly the usable part of the first m entries.
  ghost predicate CaughtUp(r: Replica, log: seq<Payload>, m: nat) {
    && m <= |log| && r.configured
    && r.handed == Usable(log[..m])
    && Remembered(r.handed, r.seen) && forall key | key in r.seen :: HasKey(r.handed, key)
  }

  lemma UsableStep(log: seq<Payload>, m: nat)
    requires m < |log|
    ensures Usable(log[..m + 1]) ==
            if Normalize(log[m]).Ok? then Usable(log[..m]) + [Normalize(log[m]).value] else Usable(log[..m])
  {
    assert log[..m + 1][..m] == log[..m];
  }

  lemma {:induction false} UsableHas(log: seq<Payload>, i: nat, m: nat)
    requires i < m <= |log| && Normalize(log[i]).Ok?
    ensures Normalize(log[i]).value in Usable(log[..m])
    decreases m
  {
    UsableStep(log, m - 1);
    if i < m - 1 {
      UsableHas(log, i, m - 1);
    }
  }

  lemma {:induction false} UsableGrows(log: seq<Payload>, m: nat)
    requires m <= |log|
    ensures Usable(log[..m]) <= Usable(log)
    decreases |log| - m
  {
    if m == |log| {
      assert log[..m] == log;
    } else {
      UsableStep(log, m);
      UsableGrows(log, m + 1);
    }
  }

  lemma NextKeyIsNew(ops: seq<Normal>, next: Normal, seen: set<Key>, all: seq<Normal>)
    requires DistinctKeys(all) && ops + [next] <= all
    requires forall key | key in seen :: HasKey(ops, key)
    ensures KeyOf(next) !in seen
  {
    assert all[|ops|] == next;
    assert forall j | 0 <= j < |ops| :: ops[j] == all[j];
  }

  lemma SeenKeysStay(ops: seq<Normal>, next: Normal, seen: set<Key>, after: set<Key>)
    requires forall key | key in seen :: HasKey(ops, key)
    requires after <= seen + {KeyOf(next)}
    ensures forall key | key in after :: HasKey(ops + [next], key)
  {
    forall key | key in after
      ensures HasKey(ops + [next], key)
    {
      HasKeyAppend(ops, next, key);
    }
  }

  lemma CatchesUp(r: Replica, s: Replica, log: seq<Payload>, m: nat)
    requires CaughtUp(r, log, m) && m < |log| && Normalize(log[m]).Ok?
    requires var n := Normalize(log[m]).value;
             s.configured && s.handed == r.handed + [n] && s.seen == r.seen + {KeyOf(n)}
    ensures CaughtUp(s, log, m + 1)
  {
    UsableStep(log, m);
    SeenKeysStay(r.handed, Normalize(log[m]).value, r.seen, s.seen);
  }

  lemma NextIsNew(r: Replica, log: seq<Payload>, m: nat)
    requires CaughtUp(r, log, m) && m < |log| && Normalize(log[m]).Ok? && DistinctKeys(Usable(log))
    ensures KeyOf(Normalize(log[m]).value) !in r.seen
  {
    UsableStep(log, m);
    UsableGrows(log, m + 1);
    NextKeyIsNew(r.handed, Normalize(log[m]).value, r.seen, Usable(log));
  }

  lemma DeliverNext(r: Replica, log: seq<Payload>, m: nat)
    requires CaughtUp(r, log, m) && m < |log|
    requires Normalize(log[m]).Ok? ==> KeyOf(Normalize(log[m]).value) !in r.seen
    ensures CaughtUp(ApplyRemote(r, log[m], [], false).0, log, m + 1)
  {
    ApplyEffect(r, log[m], [], false);
    if Normalize(log[m]).Ok? {
      CatchesUp(r, ApplyRemote(r, log[m], [], false).0, log, m);
    } else {
      UsableStep(log, m);
    }
  }

  // Delivering entry i to a replica that has reached m >= i.
  lemma DeliverEntry(r: Replica, log: seq<Payload>, m: nat, i: nat)
    requires CaughtUp(r, log, m) && i <= m && i < |log| && DistinctKeys(Usable(log))
    ensures CaughtUp(ApplyRemote(r, log[i], [], false).0, log, if i == m then m + 1 else m)
  {
    if i == m {
      if Normalize(log[m]).Ok? {
        NextIsNew(r, log, m);
      }
      DeliverNext(r, log, m);
    } else {
      ApplyEffect(r, log[i], [], false);
      if Normalize(log[i]).Ok? {
        UsableHas(log, i, m);
      }
    }
  }

  lemma {:induction false} DeliverSlice(r: Replica, log: seq<Payload>, m: nat, first: nat, stop: nat)
    requires CaughtUp(r, log, m) && first <= stop <= |log| && first <= m && DistinctKeys(Usable(log))
    ensures CaughtUp(Replay(r, log[first..stop]), log, if m < stop then stop else m)
    decreases stop
  {
    if first < stop {
      DeliverSlice(r, log, m, first, stop - 1);
      assert log[first..stop][..stop - 1 - first] == log[first..stop - 1];
      DeliverEntry(Replay(r, log[first..stop - 1]), log, if m < stop - 1 then stop - 1 else m, stop - 1);
    }
  }

  lemma {:induction false} SlicesCatchUp(r: Replica, log: seq<Payload>, slices: seq<Slice>)
    requires CaughtUp(r, log, 0) && GapFree(slices, |log|) && DistinctKeys(Usable(log))
    ensures CaughtUp(ReplaySlices(r, log, slices), log, Reached(slices))
  {
    if slices != [] {
      var front, last := slices[..|slices| - 1], slices[|slices| - 1];
      SlicesCatchUp(r, log, front);
      DeliverSlice(ReplaySlices(r, log, front), log, Reached(front), last.first, last.stop);
    }
  }

  const READY := Replica(true, {}, false, [], [], 0, 0, map[])

  lemma {:induction false} ReplayKeepsInv(r: Replica, ps: seq<Payload>)
    requires Inv(r)
    ensures Inv(Replay(r, ps))
  {
    if ps != [] {
      ReplayKeepsInv(r, ps[..|ps| - 1]);
      ApplyEffect(Replay(r, ps[..|ps| - 1]), ps[|ps| - 1], [], false);
    }
  }

  // ---------------------------------- whatever callbacks do, and whatever is captured between

  ghost function RunFrom(r: Replica, run: seq<Step>): Replica {
    if run == [] then r else After(RunFrom(r, run[..|run| - 1]), run[|run| - 1])
  }

  // The payloads delivered in a run.
  ghost function Delivered(run: seq<Step>): seq<Payload> {
    if run == [] then []
    else
      var front, last := Delivered(run[..|run| - 1]), run[|run| - 1];
      if last.Deliver? then front + [last.payload] else front
  }

  // Two replicas that hand over the same operations from now on.
  ghost predicate Agree(r: Replica, s: Replica) {
    r.configured && s.configured && r.seen == s.seen && r.handed == s.handed
  }

  lemma StepsAgree(r: Replica, s: Replica, step: Step)
    requires Agree(r, s)
    ensures Agree(After(r, step), if step.Deliver? then ApplyRemote(s, step.payload, [], false).0 else s)
  {
    if step.Deliver? {
      ApplyEffect(r, step.payload, step.during, step.raises);
      ApplyEffect(s, step.payload, [], false);
    }
  }

  // Callbacks that capture or raise, and captures between deliveries, change nothing about what
  // is handed over.
  lemma {:induction false} OnlyDeliveriesMatter(r: Replica, s: Replica, run: seq<Step>)
    requires Agree(r, s)
    ensures Agree(RunFrom(r, run), Replay(s, Delivered(run)))
  {
    if run != [] {
      var front, last := run[..|run| - 1], run[|run| - 1];
      OnlyDeliveriesMatter(r, s, front);
      StepsAgree(RunFrom(r, front), Replay(s, Delivered(front)), last);
      if last.Deliver? {
        assert Delivered(run)[..|Delivered(front)|] == Delivered(front);
      }
    }
  }

  // The entries of a schedule of slices, one after the other.
  ghost function Flatten(log: seq<Payload>, slices: seq<Slice>): seq<Payload>
    requires GapFree(slices, |log|)
  {
    if slices == [] then []
    else Flatten(log, slices[..|slices| - 1]) + log[slices[|slices| - 1].first..slices[|slices| - 1].stop]
  }

  lemma {:induction false} ReplayAppend(r: Replica, a: seq<Payload>, b: seq<Payload>)
    ensures Replay(r, a + b) == Replay(Replay(r, a), b)
  {
    if b == [] {
      assert a + b == a;
    } else {
      ReplayAppend(r, a, b[..|b| - 1]);
      assert (a + b)[..|a + b| - 1] == a + b[..|b| - 1];
    }
  }

  lemma {:induction false} SlicesAreFlat(r: Replica, log: seq<Payload>, slices: seq<Slice>)
    requires GapFree(slices, |log|)
    ensures ReplaySlices(r, log, slices) == Replay(r, Flatten(log, slices))
  {
    if slices != [] {
      var front, last := slices[..|slices| - 1], slices[|slices| - 1];
      SlicesAreFlat(r, log, front);
      ReplayAppend(r, Flatten(log, front), log[last.first..last.stop]);
    }
  }

  // If no two usable entries share a key, any run that delivers a gap-free schedule of
  // overlapping slices leaves exactly the usable log prefix applied, in order.
  lemma ReplayConverges(log: seq<Payload>, slices: seq<Slice>, run: seq<Step>)
    requires GapFree(slices, |log|) && DistinctKeys(Usable(log)) && Delivered(run) == Flatten(log, slices)
    ensures Reached(slices) <= |log|
    ensures RunFrom(READY, run).handed == Usable(log[..Reached(slices)])
  {
    SlicesCatchUp(READY, log, slices);
    SlicesAreFlat(READY, log, slices);
    OnlyDeliveriesMatter(READY, READY, run);
  }

  // And only then: a run that delivers a log once applies all of it exactly when its keys are
  // distinct.
  lemma OnePassAppliesAllIffKeysDistinct(log: seq<Payload>, run: seq<Step>)
    requires Delivered(run) == log
    ensures RunFrom(READY, run).handed == Usable(log) <==> DistinctKeys(Usable(log))
  {
    ReplayKeepsInv(READY, log);
    OnlyDeliveriesMatter(READY, READY, run);
    if DistinctKeys(Usable(log)) {
      DeliverSlice(READY, log, 0, 0, |log|);
      assert log[0..|log|] == log && log[..|log|] == log;
    }
  }
}
