// Which local operations a replica emits as captures, over every run of captures and
// deliveries, and what an apply answers.
module CaptureLaws {
  import opened Common
  import opened BuildSync
  import opened Adapter
  import opened ReplayRuns
  import opened BuildLaws

  // What a replica takes as valid, in terms of the payload: it is stricter than the authority in
  // asking every operation on objects for its object, and laxer in looking at nothing else.
  lemma TakenIff(p: Payload)
    ensures var n := Normalize(p);
            && (n.Ok? <==>
                  && p.op in OPERATIONS && (p.op in OBJECT_ID_OPERATIONS ==> IsNamed(p.data, "object_id"))
                  && (p.op == "object.create" ==> IsNamed(p.data, "definition_id"))
                  && (p.op == "funds.modify" ==> IsNamed(p.data, "household_id")))
            && (n.Ok? ==>
                  && n.value.op == p.op && n.value.data.Keys == p.data.Keys
                  && forall k | k in p.data ::
                       && Str(n.value.data[k]) == Str(p.data[k])
                       && (k !in ADAPTER_ID_KEYS || p.data[k].Null? ==> n.value.data[k] == p.data[k])
                       && (k in ADAPTER_ID_KEYS && !p.data[k].Null? ==> n.value.data[k].Text?))
  {
    SameFields(p.data, "object_id");
    SameFields(p.data, "definition_id");
    SameFields(p.data, "household_id");
  }

  predicate IsDefinition(n: Normal) {
    n.op == "object.definition"
  }

  // The definition that the last captured definition operation gave the object; null if none did.
  ghost function DefinitionOf(captured: seq<Normal>, thing: Value): Value {
    if captured == [] then Null
    else
      var last := captured[|captured| - 1];
      if IsDefinition(last) && Get(last.data, "object_id") == thing then Get(last.data, "definition_id")
      else DefinitionOf(captured[..|captured| - 1], thing)
  }

  // What the replica remembers is what it has emitted.
  ghost predicate Remembers(r: Replica) {
    && (forall thing :: DefinitionOf(r.captured, thing) ==
                         if thing in r.lastDefinition then r.lastDefinition[thing] else Null)
    && r.captureSequence == |r.captured|
  }

  // The operation gives its object the definition that was emitted for it last.
  ghost predicate GivenLast(r: Replica, n: Normal) {
    IsDefinition(n) && DefinitionOf(r.captured, Get(n.data, "object_id")) == Get(n.data, "definition_id")
  }

  // The payload brings an id of its own.
  ghost predicate BringsId(p: Payload) {
    p.opId.Present? && p.opId.id.Some? && p.opId.id.value != ""
  }

  lemma DefinitionNext(captured: seq<Normal>, n: Normal, thing: Value)
    ensures DefinitionOf(captured + [n], thing) ==
            if IsDefinition(n) && Get(n.data, "object_id") == thing then Get(n.data, "definition_id")
            else DefinitionOf(captured, thing)
  {
    assert (captured + [n])[..|captured|] == captured;
  }

  // Outside an apply, an operation is emitted if and only if it is valid and, if it gives an
  // object a definition, not the one that was emitted for it last. What is emitted is the
  // operation itself, under its own id or else a running number.
  lemma CaptureIff(r: Replica, p: Payload)
    requires Remembers(r) && !r.applying
    ensures var (s, emitted) := Capture(r, p);
            var n := Normalize(p);
            && (emitted.Some? <==> n.Ok? && !GivenLast(r, n.value))
            && (emitted.Some? ==>
                  && s.captured == r.captured + [emitted.value]
                  && emitted.value.op == p.op && emitted.value.data == n.value.data
                  && emitted.value.opId ==
                     Some(if BringsId(p) then p.opId.id.value else "local-" + Decimal(|r.captured| + 1)))
            && (emitted.None? ==> s == r)
  {
  }

  lemma CaptureRemembers(r: Replica, p: Payload)
    requires Remembers(r)
    ensures Remembers(Capture(r, p).0)
  {
    var (s, emitted) := Capture(r, p);
    if emitted.Some? {
      forall thing
        ensures DefinitionOf(s.captured, thing) == if thing in s.lastDefinition then s.lastDefinition[thing] else Null
      {
        DefinitionNext(r.captured, emitted.value, thing);
      }
    }
  }

  lemma StepRemembers(r: Replica, s: Step)
    requires Remembers(r)
    ensures Remembers(After(r, s))
  {
    match s {
      case Deliver(p, during, raises) =>
        ApplyEmitsNothing(r, p, during, raises);
        ApplyKeepsNumber(r, p, during, raises);
      case CaptureHere(p) => CaptureRemembers(r, p);
      case Configure =>
    }
  }

  lemma ApplyKeepsNumber(r: Replica, p: Payload, during: seq<Payload>, raises: bool)
    ensures ApplyRemote(r, p, during, raises).0.captureSequence == r.captureSequence
  {
    var n := Normalize(p);
    if n.Ok? {
      CapturesAreSuppressed(
        r.(seen := r.seen + {KeyOf(n.value)}, applying := true, handed := r.handed + [n.value]), during);
    }
  }

  lemma {:induction false} RunsRemember(run: seq<Step>, k: nat)
    requires k <= |run|
    ensures Remembers(StateAt(run, k))
  {
    if k > 0 {
      RunsRemember(run, k - 1);
      StepRemembers(StateAt(run, k - 1), run[k - 1]);
    }
  }

  // In every run, of what happens in the game outside applies exactly this is emitted.
  lemma CapturedIff(run: seq<Step>, k: nat, p: Payload, r: Replica)
    requires k < |run| && run[k] == CaptureHere(p) && r == StateAt(run, k)
    ensures var s, n := StateAt(run, k + 1), Normalize(p);
            var isNews := n.Ok? && !GivenLast(r, n.value);
            if isNews then
              var id := if BringsId(p) then p.opId.id.value else "local-" + Decimal(|r.captured| + 1);
              s.captured == r.captured + [n.value.(opId := Some(id))]
            else s == r
  {
    RunsRemember(run, k);
    AppliedAtMostOnce(run, k);
    CaptureIff(r, p);
    assert StateAt(run, k + 1) == Capture(r, p).0;
  }

  // Generated ids are never used twice.
  lemma GeneratedIdsDiffer(i: nat, j: nat)
    ensures "local-" + Decimal(i) == "local-" + Decimal(j) ==> i == j
  {
    var a, b := "local-" + Decimal(i), "local-" + Decimal(j);
    assert a[6..] == Decimal(i) && b[6..] == Decimal(j);
    if a == b {
      DecimalIsInjective(i, j);
    }
  }

  // What an apply answers: invalid, seen before, nobody to apply it, or applied, well or not;
  // the callback is called exactly in the last two cases, and a valid new operation is
  // remembered in the last three.
  lemma AnswerIs(r: Replica, p: Payload, during: seq<Payload>, raises: bool)
    ensures var (s, outcome) := ApplyRemote(r, p, during, raises);
            var n := Normalize(p);
            && (outcome == Invalid <==> n.Err?)
            && (outcome == Duplicate <==> n.Ok? && KeyOf(n.value) in r.seen)
            && (outcome == NotConfigured <==> n.Ok? && KeyOf(n.value) !in r.seen && !r.configured)
            && (outcome == CallbackRaised <==> n.Ok? && KeyOf(n.value) !in r.seen && r.configured && raises)
            && (outcome == AppliedOk <==> n.Ok? && KeyOf(n.value) !in r.seen && r.configured && !raises)
            && (outcome == AppliedOk || outcome == CallbackRaised <==> s.handed != r.handed)
            && (s.handed != r.handed ==> s.handed == r.handed + [n.value])
            && (outcome != Invalid ==> s.seen == r.seen + {KeyOf(n.value)})
  {
    ApplyEffect(r, p, during, raises);
  }
}
