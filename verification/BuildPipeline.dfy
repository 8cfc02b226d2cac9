// From the authority's log to the replicas: which logged operations every replica applies.
module BuildPipeline {
  import opened Common
  import opened BuildSync
  import opened Adapter
  import opened ReplayRuns
  import BuildRuns

  // ----------------------------------------------------- what is broadcast

  // An operation a client submitted is broadcast with its sequence number only.
  function FromClient(o: Operation): Payload {
    Payload(o.op, o.data, Absent, Some(o.sequence))
  }

  function DataOpId(data: Data): Option<string> {
    if "op_id" in data && !data["op_id"].Null? then Some(Str(data["op_id"])) else None
  }

  // One captured in the host's own game is broadcast with the "op_id" of its data, usually null.
  function FromHostGame(o: Operation): Payload {
    Payload(o.op, o.data, Present(DataOpId(o.data)), Some(o.sequence))
  }

  function Wire(o: Operation, host: PlayerId): Payload {
    if o.player == host then FromHostGame(o) else FromClient(o)
  }

  function Broadcast(log: seq<Operation>, host: PlayerId): seq<Payload> {
    seq(|log|, i requires 0 <= i < |log| => Wire(log[i], host))
  }

  // ------------------------------------- does the adapter take what was logged?

  // The data is the outcome of some successful validation.
  ghost predicate Vetted(o: Operation) {
    exists raw :: Validated(o.op, raw) == Ok(o.data)
  }

  lemma {:induction false} LogIsVetted(cfg: Config, run: seq<BuildRuns.Timed>, k: nat)
    requires k <= |run|
    ensures forall i | 0 <= i < |BuildRuns.LogAt(cfg, run, k)| :: Vetted(BuildRuns.LogAt(cfg, run, k)[i])
  {
    if k > 0 {
      LogIsVetted(cfg, run, k - 1);
      var a, t, log := BuildRuns.StateAt(cfg, run, k - 1), run[k - 1], BuildRuns.LogAt(cfg, run, k);
      if log != BuildRuns.LogAt(cfg, run, k - 1) {
        assert Validated(t.act.op, t.act.data) == Ok(log[|log| - 1].data);
        assert Vetted(log[|log| - 1]);
      }
    }
  }

  predicate CreateWithoutObject(o: Operation) {
    o.op == "object.create" && Field(o.data, "object_id") == ""
  }

  // The adapter checks more than the authority: it refuses exactly the logged creations that
  // name no object, and takes every other logged operation with its data unchanged.
  lemma AdapterTakesIff(o: Operation, opId: IdField, opSeq: Option<nat>)
    requires Vetted(o)
    ensures var n := Normalize(Payload(o.op, o.data, opId, opSeq));
            && (n.Ok? <==> !CreateWithoutObject(o))
            && (n.Ok? ==> n.value.op == o.op && n.value.data == o.data)
  {
    var raw :| Validated(o.op, raw) == Ok(o.data);
    TextIdsAreKept(raw, ID_KEYS, ADAPTER_ID_KEYS);
    ObjectOperations(o.op);
  }

  lemma TextIdsAreKept(raw: Data, keys: seq<string>, fewer: seq<string>)
    requires forall k | k in fewer :: k in keys
    ensures WithTextIds(WithTextIds(raw, keys), fewer) == WithTextIds(raw, keys)
  {
  }

  lemma ObjectOperations(op: string)
    requires op in OPERATIONS
    ensures op in OBJECT_ID_OPERATIONS ==> IsObjectOperation(op)
    ensures IsObjectOperation(op) ==> op in OBJECT_ID_OPERATIONS
  {
    var objectPrefix := "object.";
    assert |"wall.create"| == 11 && |"wall.delete"| == 11 && |"funds.modify"| == 12;
    assert "wall.create"[0] == 'w' && "wall.delete"[0] == 'w' && "funds.modify"[0] == 'f' && objectPrefix[0] == 'o';
    assert "object.create"[..7] == objectPrefix && "object.destroy"[..7] == objectPrefix;
    assert "object.move"[..7] == objectPrefix && "object.definition"[..7] == objectPrefix;
    assert "object.scale"[..7] == objectPrefix;
    assert "object.set_parent"[..7] == objectPrefix && "object.clear_parent"[..7] == objectPrefix;
  }

  // ------------------------------------------------------- replaying the broadcasts

  // What the replicas are expected to apply: every logged operation but the creations that
  // name no object.
  ghost function Expected(log: seq<Operation>, host: PlayerId): seq<Normal> {
    if log == [] then []
    else
      var front, last := Expected(log[..|log| - 1], host), log[|log| - 1];
      if CreateWithoutObject(last) then front else front + [AsNormal(last, host)]
  }

  ghost function AsNormal(o: Operation, host: PlayerId): Normal {
    Normal(o.op, o.data, PayloadId(Wire(o, host)))
  }

  ghost predicate AllVetted(log: seq<Operation>) {
    forall i | 0 <= i < |log| :: Vetted(log[i])
  }

  lemma {:induction false} UsableIsExpected(log: seq<Operation>, host: PlayerId)
    requires AllVetted(log)
    ensures Usable(Broadcast(log, host)) == Expected(log, host)
  {
    if log != [] {
      var front, last := log[..|log| - 1], log[|log| - 1];
      UsableIsExpected(front, host);
      var sent := Broadcast(log, host);
      assert sent[..|sent| - 1] == Broadcast(front, host);
      assert Vetted(last);
      AdapterTakesIff(last, Wire(last, host).opId, Wire(last, host).opSeq);
    }
  }

  lemma {:induction false} ExpectedLength(log: seq<Operation>, host: PlayerId)
    ensures |Expected(log, host)| <= |log|
    ensures |Expected(log, host)| == |log| <==> forall i | 0 <= i < |log| :: !CreateWithoutObject(log[i])
  {
    if log != [] {
      ExpectedLength(log[..|log| - 1], host);
    }
  }

  // ---- when are the keys distinct?

  // The id under which replicas remember an operation: a client's is its sequence number, and
  // that of a host capture the one its data brings, if any.
  function IdOf(o: Operation, host: PlayerId): Option<string> {
    if o.player != host then Some(Decimal(o.sequence))
    else if DataOpId(o.data) == Some("") then None
    else DataOpId(o.data)
  }

  // The operations have the same id, or have none and the same content.
  predicate Clash(a: Operation, b: Operation, host: PlayerId) {
    if IdOf(a, host).Some? || IdOf(b, host).Some? then IdOf(a, host) == IdOf(b, host)
    else a.op == b.op && a.data == b.data
  }

  // Operations of clients never clash with each other.
  lemma ClientsDoNotClash(a: Operation, b: Operation, host: PlayerId)
    requires a.sequence != b.sequence && a.player != host && b.player != host
    ensures !Clash(a, b, host)
  {
    if Decimal(a.sequence) == Decimal(b.sequence) {
      DecimalIsInjective(a.sequence, b.sequence);
    }
  }

  ghost predicate ClashesIn(log: seq<Operation>, o: Operation, host: PlayerId) {
    exists i :: 0 <= i < |log| && !CreateWithoutObject(log[i]) && Clash(log[i], o, host)
  }

  // No two operations that replicas take clash.
  ghost predicate ClashFree(log: seq<Operation>, host: PlayerId) {
    forall i, j | 0 <= i < j < |log| && !CreateWithoutObject(log[i]) && !CreateWithoutObject(log[j]) ::
      !Clash(log[i], log[j], host)
  }

  lemma SameKeyIff(a: Operation, b: Operation, host: PlayerId)
    ensures KeyOf(AsNormal(a, host)) == KeyOf(AsNormal(b, host)) <==> Clash(a, b, host)
  {
  }

  lemma {:induction false} HasKeyIff(log: seq<Operation>, host: PlayerId, o: Operation)
    ensures HasKey(Expected(log, host), KeyOf(AsNormal(o, host))) <==> ClashesIn(log, o, host)
  {
    if log != [] {
      var front, last := log[..|log| - 1], log[|log| - 1];
      HasKeyIff(front, host, o);
      HasKeyAppend(Expected(front, host), AsNormal(last, host), KeyOf(AsNormal(o, host)));
      SameKeyIff(last, o, host);
      ClashesAppend(front, last, o, host);
      assert log == front + [last];
    }
  }

  lemma ClashesAppend(log: seq<Operation>, last: Operation, o: Operation, host: PlayerId)
    ensures ClashesIn(log + [last], o, host) <==>
            ClashesIn(log, o, host) || (!CreateWithoutObject(last) && Clash(last, o, host))
  {
    var all := log + [last];
    assert all[|log|] == last;
    assert forall i | 0 <= i < |log| :: all[i] == log[i];
  }

  lemma ClashFreeAppend(log: seq<Operation>, last: Operation, host: PlayerId)
    ensures ClashFree(log + [last], host) <==>
            ClashFree(log, host) && (CreateWithoutObject(last) || !ClashesIn(log, last, host))
  {
    var all := log + [last];
    assert all[|log|] == last;
    assert forall i | 0 <= i < |log| :: all[i] == log[i];
  }

  lemma DistinctKeysAppend(ops: seq<Normal>, n: Normal)
    ensures DistinctKeys(ops + [n]) <==> DistinctKeys(ops) && !HasKey(ops, KeyOf(n))
  {
    var all := ops + [n];
    assert all[|ops|] == n;
    assert forall i | 0 <= i < |ops| :: all[i] == ops[i];
  }

  lemma {:induction false} KeysAreDistinctIff(log: seq<Operation>, host: PlayerId)
    ensures DistinctKeys(Expected(log, host)) <==> ClashFree(log, host)
  {
    if log != [] {
      var front, last := log[..|log| - 1], log[|log| - 1];
      KeysAreDistinctIff(front, host);
      assert log == front + [last];
      ClashFreeAppend(front, last, host);
      if !CreateWithoutObject(last) {
        DistinctKeysAppend(Expected(front, host), AsNormal(last, host));
        HasKeyIff(front, host, last);
      }
    }
  }

  // ---- convergence

  // The run delivers a gap-free schedule of slices of what was broadcast.
  ghost predicate Delivers(run: seq<ReplayRuns.Step>, log: seq<Operation>, host: PlayerId, slices: seq<Slice>) {
    GapFree(slices, |Broadcast(log, host)|) && Delivered(run) == Flatten(Broadcast(log, host), slices)
  }

  lemma LogConverges(log: seq<Operation>, host: PlayerId, slices: seq<Slice>, run: seq<ReplayRuns.Step>)
    requires AllVetted(log) && ClashFree(log, host) && Delivers(run, log, host, slices)
    ensures Reached(slices) <= |log| && RunFrom(READY, run).handed == Expected(log[..Reached(slices)], host)
  {
    UsableIsExpected(log, host);
    KeysAreDistinctIff(log, host);
    ReplayConverges(Broadcast(log, host), slices, run);
    var m := Reached(slices);
    UsableIsExpected(log[..m], host);
    assert Broadcast(log, host)[..m] == Broadcast(log[..m], host);
  }

  lemma OnePassIff(log: seq<Operation>, host: PlayerId, run: seq<ReplayRuns.Step>)
    requires AllVetted(log) && Delivered(run) == Broadcast(log, host)
    ensures RunFrom(READY, run).handed == Expected(log, host) <==> ClashFree(log, host)
  {
    UsableIsExpected(log, host);
    OnePassAppliesAllIffKeysDistinct(Broadcast(log, host), run);
    KeysAreDistinctIff(log, host);
  }

  // What the authority has logged after k acts of some run.
  ghost predicate IsLog(cfg: Config, acts: seq<BuildRuns.Timed>, k: nat, log: seq<Operation>) {
    k <= |acts| && log == BuildRuns.LogAt(cfg, acts, k)
  }

  // For every run of the authority whose log has no clash, and every run of a replica, with any
  // callbacks and captures, that delivers a gap-free schedule of overlapping log slices: the
  // replica has applied, in order and once each, exactly the log prefix reached, but for the
  // creations that name no object.
  lemma OperationsConverge(
    cfg: Config, acts: seq<BuildRuns.Timed>, k: nat, log: seq<Operation>, host: PlayerId, slices: seq<Slice>,
    run: seq<ReplayRuns.Step>)
    requires IsLog(cfg, acts, k, log) && ClashFree(log, host) && Delivers(run, log, host, slices)
    ensures Reached(slices) <= |log| && RunFrom(READY, run).handed == Expected(log[..Reached(slices)], host)
  {
    LogIsVetted(cfg, acts, k);
    LogConverges(log, host, slices, run);
  }

  // And only then: one pass over the log of any run applies all it should exactly when the log
  // has no clash.
  lemma OnePassConvergesIffClashFree(
    cfg: Config, acts: seq<BuildRuns.Timed>, k: nat, log: seq<Operation>, host: PlayerId, run: seq<ReplayRuns.Step>)
    requires IsLog(cfg, acts, k, log) && Delivered(run) == Broadcast(log, host)
    ensures RunFrom(READY, run).handed == Expected(log, host) <==> ClashFree(log, host)
  {
    LogIsVetted(cfg, acts, k);
    OnePassIff(log, host, run);
  }

  // In a log of client operations alone nothing clashes, so it always converges.
  lemma ClientLogsAreClashFree(cfg: Config, acts: seq<BuildRuns.Timed>, k: nat, log: seq<Operation>, host: PlayerId)
    requires IsLog(cfg, acts, k, log) && forall i | 0 <= i < |log| :: log[i].player != host
    ensures ClashFree(log, host)
  {
    BuildRuns.HistoryIsLogTail(cfg, acts, k);
    forall i, j | 0 <= i < j < |log|
      ensures !Clash(log[i], log[j], host)
    {
      ClientsDoNotClash(log[i], log[j], host);
    }
  }

  const PURCHASE: Data := map["household_id" := Text("7"), "amount" := Number("-50")]

  // Two clashing operations: a replica that receives both, in any state that has not seen the
  // first, with any callbacks, applies one.
  lemma SecondOfAClashIsLost(
    r: Replica, a: Operation, b: Operation, host: PlayerId, during: seq<Payload>, more: seq<Payload>, raises: bool)
    requires Clash(a, b, host) && Vetted(a) && !CreateWithoutObject(a) && Vetted(b) && !CreateWithoutObject(b)
    requires r.configured && KeyOf(AsNormal(a, host)) !in r.seen
    ensures var once := ApplyRemote(r, Wire(a, host), during, raises).0;
            && once.handed == r.handed + [AsNormal(a, host)]
            && ApplyRemote(once, Wire(b, host), more, raises) == (once, Duplicate)
  {
    AdapterTakesIff(a, Wire(a, host).opId, Wire(a, host).opSeq);
    AdapterTakesIff(b, Wire(b, host).opId, Wire(b, host).opSeq);
    ApplyEffect(r, Wire(a, host), during, raises);
    SameKeyIff(a, b, host);
  }

  // There are such operations: buying the same thing twice in the host's game.
  lemma PurchasesClash(a: Operation, b: Operation, host: PlayerId)
    requires a.player == b.player == host && a.op == b.op == "funds.modify" && a.data == b.data == PURCHASE
    ensures Validated("funds.modify", PURCHASE) == Ok(PURCHASE) && Clash(a, b, host)
  {
    var op := "funds.modify";
    assert op[0] == 'f' && "object."[0] == 'o' && "object.create"[0] == 'o';
    assert |"household_id"| == 12 && |"amount"| == 6 && |"op_id"| == 5;
    assert |PURCHASE| <= 2;
    assert WithTextIds(PURCHASE, ID_KEYS) == PURCHASE by {
      assert "amount" !in ID_KEYS;
    }
  }

  const NEW_CHAIR: Data := map["definition_id" := Text("2")]

  // A creation that names no object is logged by the authority and refused by every replica.
  lemma CreationWithoutObjectIsLoggedAndRefused(host: PlayerId)
    ensures Validated("object.create", NEW_CHAIR) == Ok(NEW_CHAIR)
    ensures forall opId, opSeq :: Normalize(Payload("object.create", NEW_CHAIR, opId, opSeq)) == Err(ObjectIdRequired)
  {
    assert |"definition_id"| == 13 && |"object_id"| == 9;
    assert WithTextIds(NEW_CHAIR, ID_KEYS) == NEW_CHAIR;
    ObjectOperations("object.create");
    assert "object.create"[..7] == "object.";
    assert "object.create"[0] == 'o' && "funds.modify"[0] == 'f';
  }
}
