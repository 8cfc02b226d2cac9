// The replica: the build adapter inside each game,
// sims_mod_src/kermp_mod/build_adapter.py.
module Adapter {
  import opened Common
  import opened BuildSync

  // A payload's "op_id": not there, there and null, or there with some text.
  datatype IdField = Absent | Present(id: Option<string>)

  datatype Payload = Payload(op: string, data: Data, opId: IdField, opSeq: Option<nat>)

  datatype Normal = Normal(op: string, data: Data, opId: Option<string>)

  const ADAPTER_ID_KEYS: seq<string> := ["object_id", "parent_id", "definition_id", "household_id", "zone_id"]

  const OBJECT_ID_OPERATIONS: set<string> := OPERATIONS - {"wall.create", "wall.delete", "funds.modify"}

  function PayloadId(p: Payload): Option<string> {
    if p.opId.Present? then p.opId.id
    else if p.opSeq.Some? then Some(Decimal(p.opSeq.value))
    else None
  }

  function Normalize(p: Payload): Result<Normal, BuildError> {
    if p.op !in OPERATIONS then Err(UnsupportedOperation)
    else if p.op in OBJECT_ID_OPERATIONS && Field(p.data, "object_id") == "" then Err(ObjectIdRequired)
    else if p.op == "object.create" && Field(p.data, "definition_id") == "" then Err(DefinitionIdRequired)
    else if p.op == "funds.modify" && Field(p.data, "household_id") == "" then Err(HouseholdIdRequired)
    else Ok(Normal(p.op, WithTextIds(p.data, ADAPTER_ID_KEYS), PayloadId(p)))
  }

  // An operation is remembered by its id, or, without one, by its whole content: the sorted
  // JSON text of it. No id is the JSON text of an operation.
  datatype Key = ById(id: string) | ByContent(operation: Normal)

  function KeyOf(n: Normal): Key {
    if n.opId.Some? && n.opId.value != "" then ById(n.opId.value) else ByContent(n)
  }

  // `handed` is what was passed to the apply callback and `captured` what was returned as a
  // local capture, each in order.
  datatype Replica = Replica(
    configured: bool, seen: set<Key>, applying: bool, handed: seq<Normal>,
    captured: seq<Normal>, captureSequence: nat, suppressed: nat, lastDefinition: map<Value, Value>)

  // data.get(key)
  function Get(data: Data, key: string): Value {
    if key in data then data[key] else Null
  }

  predicate RepeatsDefinition(r: Replica, n: Normal) {
    n.op == "object.definition" &&
    var objectId := Get(n.data, "object_id");
    (if objectId in r.lastDefinition then r.lastDefinition[objectId] else Null) == Get(n.data, "definition_id")
  }

  function CaptureId(p: Payload, sequence: nat): string {
    if p.opId.Present? && p.opId.id.Some? && p.opId.id.value != "" then p.opId.id.value
    else "local-" + Decimal(sequence)
  }

  function Capture(r: Replica, p: Payload): (Replica, Option<Normal>) {
    if r.applying then (r.(suppressed := r.suppressed + 1), None) else
    var n := Normalize(p);
    if n.Err? || RepeatsDefinition(r, n.value) then (r, None) else
    var next := r.captureSequence + 1;
    var operation := n.value.(opId := Some(CaptureId(p, next)));
    var definitions :=
      if operation.op == "object.definition"
      then r.lastDefinition[Get(operation.data, "object_id") := Get(operation.data, "definition_id")]
      else r.lastDefinition;
    (r.(captureSequence := next, captured := r.captured + [operation], lastDefinition := definitions), Some(operation))
  }

  function CaptureAll(r: Replica, ps: seq<Payload>): Replica {
    if ps == [] then r else Capture(CaptureAll(r, ps[..|ps| - 1]), ps[|ps| - 1]).0
  }

  datatype Outcome = Invalid | Duplicate | NotConfigured | AppliedOk | CallbackRaised

  // The callback is described by the captures it causes while it runs and by whether it raises;
  // it does not call back into apply.
  function ApplyRemote(r: Replica, p: Payload, during: seq<Payload>, raises: bool): (Replica, Outcome) {
    var n := Normalize(p);
    if n.Err? then (r, Invalid)
    else if KeyOf(n.value) in r.seen then (r, Duplicate)
    else
      var s := r.(seen := r.seen + {KeyOf(n.value)});
      if !r.configured then (s, NotConfigured) else
      var t := CaptureAll(s.(applying := true, handed := s.handed + [n.value]), during);
      (t.(applying := false), if raises then CallbackRaised else AppliedOk)
  }

  class SimsBuildAdapter {
    var configured: bool
    var seen: set<Key>
    var applying: bool
    var handed: seq<Normal>
    var captured: seq<Normal>
    var captureSequence: nat
    var suppressed: nat
    var lastDefinition: map<Value, Value>

    ghost function State(): Replica
      reads this
    {
      Replica(configured, seen, applying, handed, captured, captureSequence, suppressed, lastDefinition)
    }

    constructor ()
      ensures State() == Replica(false, {}, false, [], [], 0, 0, map[])
    {
      configured, seen, applying, handed := false, {}, false, [];
      captured, captureSequence, suppressed, lastDefinition := [], 0, 0, map[];
    }

    method CaptureLocal(p: Payload) returns (operation: Option<Normal>)
      modifies this
      ensures (State(), operation) == Capture(old(State()), p)
    {
      if applying {
        suppressed := suppressed + 1;
        return None;
      }
      var n := Normalize(p);
      if n.Err? {
        return None;
      }
      if n.value.op == "object.definition" {
        var objectId := Get(n.value.data, "object_id");
        var definitionId := Get(n.value.data, "definition_id");
        if (if objectId in lastDefinition then lastDefinition[objectId] else Null) == definitionId {
          return None;
        }
        lastDefinition := lastDefinition[objectId := definitionId];
      }
      captureSequence := captureSequence + 1;
      var result := n.value.(opId := Some(CaptureId(p, captureSequence)));
      captured := captured + [result];
      return Some(result);
    }

    // Runs the callback: it is handed the operation, and what it does natively is captured.
    method RunCallback(operation: Normal, during: seq<Payload>)
      modifies this
      ensures State() == CaptureAll(old(State()).(handed := old(handed) + [operation]), during)
    {
      handed := handed + [operation];
      ghost var start := State();
      for i := 0 to |during|
        invariant State() == CaptureAll(start, during[..i])
      {
        var _ := CaptureLocal(during[i]);
        assert during[..i + 1][..i] == during[..i];
      }
      assert during[..|during|] == during;
    }

    method ApplyRemoteOperation(p: Payload, during: seq<Payload>, raises: bool) returns (outcome: Outcome)
      modifies this
      ensures (State(), outcome) == ApplyRemote(old(State()), p, during, raises)
    {
      var n := Normalize(p);
      if n.Err? {
        return Invalid;
      }
      var key := KeyOf(n.value);
      if key in seen {
        return Duplicate;
      }
      seen := seen + {key};
      if !configured {
        return NotConfigured;
      }
      applying := true;
      RunCallback(n.value, during);
      applying := false;
      return if raises then CallbackRaised else AppliedOk;
    }
  }
}
