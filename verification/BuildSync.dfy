// The host's build authority: a timed lease and a bounded operation history,
// kermp/buildsync.py. A handler reads the clock once; `now` is that reading.
module BuildSync {
  import opened Common

  // ------------------------------------------------------------ operation data

  // A JSON value as far as validation looks at it; `shown` is what str() prints.
  datatype Value = Null | Text(text: string) | Number(shown: string) | Other(shown: string)

  type Data = map<string, Value>

  datatype BuildError =
    | NoAuthority
    | UnsupportedOperation
    | TooManyKeys
    | EntryTooLarge
    | ObjectIdRequired
    | DefinitionIdRequired
    | HouseholdIdRequired
    | AmountNotNumeric

  const OPERATIONS: set<string> := {
    "object.create", "object.destroy", "object.move", "object.definition", "object.scale",
    "object.set_parent", "object.clear_parent", "funds.modify", "wall.create", "wall.delete"}

  const MAX_KEYS := 32
  const MAX_KEY_LENGTH := 128
  const MAX_VALUE_LENGTH := 4096

  const ID_KEYS: seq<string> :=
    ["object_id", "parent_id", "definition_id", "household_id", "zone_id", "routing_surface_id"]

  function Str(v: Value): string {
    match v
    case Null => "None"
    case Text(text) => text
    case Number(shown) => shown
    case Other(shown) => shown
  }

  // str(data.get(key, ""))
  function Field(data: Data, key: string): string {
    if key in data then Str(data[key]) else ""
  }

  predicate EntryFits(key: string, value: Value) {
    |key| <= MAX_KEY_LENGTH && (value.Text? ==> |value.text| <= MAX_VALUE_LENGTH)
  }

  function AsText(v: Value): Value {
    if v.Null? then Null else Text(Str(v))
  }

  // The identifiers among the given keys become strings; None stays None.
  function WithTextIds(data: Data, keys: seq<string>): Data {
    map k | k in data :: if k in keys then AsText(data[k]) else data[k]
  }

  function IsObjectOperation(op: string): bool {
    "object." <= op
  }

  function Validated(op: string, data: Data): Result<Data, BuildError> {
    if op !in OPERATIONS then Err(UnsupportedOperation)
    else if |data| > MAX_KEYS then Err(TooManyKeys)
    else if exists k | k in data :: !EntryFits(k, data[k]) then Err(EntryTooLarge)
    else
      var result := WithTextIds(data, ID_KEYS);
      if IsObjectOperation(op) && Field(result, "object_id") == "" && op != "object.create" then Err(ObjectIdRequired)
      else if op == "object.create" && Field(result, "definition_id") == "" then Err(DefinitionIdRequired)
      else if op == "funds.modify" && Field(result, "household_id") == "" then Err(HouseholdIdRequired)
      else if op == "funds.modify" && !("amount" in result && result["amount"].Number?) then Err(AmountNotNumeric)
      else Ok(result)
  }

  method CheckEntries(data: Data) returns (fit: bool)
    ensures fit <==> forall k | k in data :: EntryFits(k, data[k])
  {
    var pending := data.Keys;
    while pending != {}
      invariant pending <= data.Keys
      invariant forall k | k in data && k !in pending :: EntryFits(k, data[k])
      decreases pending
    {
      var k :| k in pending;
      if !EntryFits(k, data[k]) {
        return false;
      }
      pending := pending - {k};
    }
    return true;
  }

  method TextIds(data: Data, keys: seq<string>) returns (result: Data)
    ensures result == WithTextIds(data, keys)
  {
    result := data;
    for i := 0 to |keys|
      invariant result == WithTextIds(data, keys[..i])
    {
      var key := keys[i];
      assert keys[..i + 1] == keys[..i] + [key];
      if key in result && !result[key].Null? {
        result := result[key := Text(Str(result[key]))];
      }
    }
    assert keys[..|keys|] == keys;
  }

  method ValidateBuildData(op: string, data: Data) returns (r: Result<Data, BuildError>)
    ensures r == Validated(op, data)
  {
    if op !in OPERATIONS {
      return Err(UnsupportedOperation);
    }
    if |data| > MAX_KEYS {
      return Err(TooManyKeys);
    }
    var fit := CheckEntries(data);
    if !fit {
      return Err(EntryTooLarge);
    }
    var result := TextIds(data, ID_KEYS);
    if IsObjectOperation(op) {
      if Field(result, "object_id") == "" && op != "object.create" {
        return Err(ObjectIdRequired);
      }
    }
    if op == "object.create" && Field(result, "definition_id") == "" {
      return Err(DefinitionIdRequired);
    }
    if op == "funds.modify" {
      if Field(result, "household_id") == "" {
        return Err(HouseholdIdRequired);
      }
      if !("amount" in result && result["amount"].Number?) {
        return Err(AmountNotNumeric);
      }
    }
    return Ok(result);
  }

  // An id that is short enough as it came but prints as a text that is too long.
  predicate PrintsTooLong(key: string, v: Value) {
    key in ID_KEYS && !v.Null? && !v.Text? && |Str(v)| > MAX_VALUE_LENGTH
  }

  // What the authority logs, it would accept again, unchanged, if and only if the data held no
  // such id: lengths are checked before ids are turned into text.
  lemma RevalidationIsIdentityIff(op: string, data: Data)
    requires Validated(op, data).Ok?
    ensures var kept := Validated(op, data).value;
            Validated(op, kept) == Ok(kept) <==> !exists k :: k in data && PrintsTooLong(k, data[k])
  {
    var kept := Validated(op, data).value;
    assert |kept| == |kept.Keys| && |data| == |data.Keys| && kept.Keys == data.Keys;
    assert WithTextIds(kept, ID_KEYS) == kept;
    assert forall k | k in data :: EntryFits(k, data[k]);
    assert forall k | k in kept :: !EntryFits(k, kept[k]) <==> PrintsTooLong(k, data[k]);
  }

  // There is such data: a destruction whose object id is a long list.
  lemma LongListIsAcceptedOnce()
    ensures var data := map["object_id" := Other(seq(MAX_VALUE_LENGTH + 1, _ => '1'))];
            && Validated("object.destroy", data).Ok?
            && Validated("object.destroy", Validated("object.destroy", data).value) == Err(EntryTooLarge)
  {
    var op, key, v := "object.destroy", "object_id", Other(seq(MAX_VALUE_LENGTH + 1, _ => '1'));
    var data := map[key := v];
    assert |key| == 9 && |data| == 1;
    assert op[0] == 'o' && "funds.modify"[0] == 'f' && |op| == 14 && |"object.create"| == 13;
    assert ID_KEYS[0] == key;
    var kept := WithTextIds(data, ID_KEYS);
    assert kept[key] == Text(v.shown) && |kept| == |kept.Keys| && kept.Keys == data.Keys;
    assert Field(kept, key) == v.shown;
  }

  // ------------------------------------------------------------------ the state

  datatype Lock = Lock(owner: PlayerId, acquiredAt: real, leaseSeconds: real)

  datatype Operation = Operation(operationId: string, sequence: nat, player: PlayerId, op: string, data: Data)

  // A lease id is the owner's name and a time stamp.
  datatype LeaseId = LeaseId(owner: PlayerId, stamp: int)

  datatype Authority = Authority(
    lock: Option<Lock>, sequence: nat, history: seq<Operation>, leaseId: Option<LeaseId>)

  const NOBODY := Authority(None, 0, [], None)

  datatype Config = Config(leaseSeconds: real, historyLimit: int)

  predicate Expired(l: Lock, now: real) {
    now - l.acquiredAt > l.leaseSeconds
  }

  function DropExpired(a: Authority, now: real): Authority {
    if a.lock.Some? && Expired(a.lock.value, now) then a.(lock := None) else a
  }

  function Request(cfg: Config, a: Authority, player: PlayerId, now: real, stamp: int): (Authority, bool) {
    var b := DropExpired(a, now);
    if b.lock.None? || b.lock.value.owner == player then
      (b.(lock := Some(Lock(player, now, cfg.leaseSeconds)), leaseId := Some(LeaseId(player, stamp))), true)
    else (b, false)
  }

  function Release(a: Authority, player: PlayerId): (Authority, bool) {
    if a.lock.Some? && a.lock.value.owner == player then (a.(lock := None, leaseId := None), true) else (a, false)
  }

  // A player is dropped from the session (kermp/session.py): a lease it owns goes with it.
  function DropOwner(a: Authority, player: PlayerId): Authority {
    Release(a, player).0
  }

  // Python's `del h[:-limit]`.
  function Trim(h: seq<Operation>, limit: int): seq<Operation> {
    if limit > 0 then (if |h| <= limit then h else h[|h| - limit..])
    else if limit == 0 then h
    else if |h| <= -limit then [] else h[-limit..]
  }

  function Submit(cfg: Config, a: Authority, player: PlayerId, op: string, data: Data, now: real)
    : (Authority, Result<Operation, BuildError>)
  {
    var b := DropExpired(a, now);
    if b.lock.None? || b.lock.value.owner != player then (b, Err(NoAuthority)) else
    var checked := Validated(op, data);
    if checked.Err? then (b, Err(checked.error)) else
    (Logged(cfg, b, player, op, checked.value, now), Ok(NextOperation(b, player, op, checked.value)))
  }

  function NextOperation(a: Authority, player: PlayerId, op: string, data: Data): Operation {
    Operation("build-" + Decimal(a.sequence + 1), a.sequence + 1, player, op, data)
  }

  function Logged(cfg: Config, a: Authority, player: PlayerId, op: string, data: Data, now: real): Authority
    requires a.lock.Some?
  {
    a.(lock := Some(a.lock.value.(acquiredAt := now)), sequence := a.sequence + 1,
       history := Trim(a.history + [NextOperation(a, player, op, data)], cfg.historyLimit))
  }

  function Since(h: seq<Operation>, sequence: int): seq<Operation> {
    if h == [] then []
    else if h[0].sequence > sequence then [h[0]] + Since(h[1..], sequence)
    else Since(h[1..], sequence)
  }

  class BuildLock {
    const owner: PlayerId
    var acquiredAt: real
    const leaseSeconds: real

    ghost function Value(): Lock
      reads this
    {
      Lock(owner, acquiredAt, leaseSeconds)
    }

    constructor (owner: PlayerId, acquiredAt: real, leaseSeconds: real)
      ensures Value() == Lock(owner, acquiredAt, leaseSeconds)
    {
      this.owner, this.acquiredAt, this.leaseSeconds := owner, acquiredAt, leaseSeconds;
    }

    predicate IsExpired(now: real)
      reads this
      ensures IsExpired(now) <==> Expired(Value(), now)
    {
      now - acquiredAt > leaseSeconds
    }
  }

  class BuildAuthority {
    const cfg: Config
    var lock: BuildLock?
    var sequence: nat
    var history: seq<Operation>
    var leaseId: Option<LeaseId>

    ghost function State(): Authority
      reads this, lock
    {
      Authority(if lock == null then None else Some(lock.Value()), sequence, history, leaseId)
    }

    constructor (cfg: Config)
      ensures State() == NOBODY && this.cfg == cfg && lock == null
    {
      this.cfg := cfg;
      lock, sequence, history, leaseId := null, 0, [], None;
    }

    method RequestLock(player: PlayerId, now: real, stamp: int) returns (granted: bool)
      modifies this
      ensures (State(), granted) == Request(cfg, old(State()), player, now, stamp)
      ensures lock == old(lock) || lock == null || fresh(lock)
    {
      if lock != null && lock.IsExpired(now) {
        lock := null;
      }
      if lock == null || lock.owner == player {
        lock := new BuildLock(player, now, cfg.leaseSeconds);
        leaseId := Some(LeaseId(player, stamp));
        return true;
      }
      return false;
    }

    method ReleaseLock(player: PlayerId) returns (released: bool)
      modifies this
      ensures (State(), released) == Release(old(State()), player)
      ensures lock == old(lock) || lock == null
    {
      if lock != null && lock.owner == player {
        lock := null;
        leaseId := None;
        return true;
      }
      return false;
    }

    method SubmitOperation(player: PlayerId, op: string, data: Data, now: real)
      returns (r: Result<Operation, BuildError>)
      modifies this, lock
      ensures (State(), r) == Submit(cfg, old(State()), player, op, data, now)
      ensures lock == old(lock) || lock == null
    {
      if lock != null && lock.IsExpired(now) {
        lock := null;
      }
      if lock == null || lock.owner != player {
        return Err(NoAuthority);
      }
      var checked := ValidateBuildData(op, data);
      if checked.Err? {
        return Err(checked.error);
      }
      var operation := Log(player, op, checked.value, now);
      return Ok(operation);
    }

    // Renews the lease and appends the next operation to the bounded history.
    method Log(player: PlayerId, op: string, data: Data, now: real) returns (operation: Operation)
      requires lock != null
      modifies this, lock
      ensures State() == Logged(cfg, old(State()), player, op, data, now)
      ensures operation == NextOperation(old(State()), player, op, data)
      ensures lock == old(lock)
    {
      lock.acquiredAt := now;
      sequence := sequence + 1;
      operation := Operation("build-" + Decimal(sequence), sequence, player, op, data);
      history := history + [operation];
      history := Trim(history, cfg.historyLimit);
    }

    function HistorySince(since: int): seq<Operation>
      reads this
    {
      Since(history, since)
    }
  }
}
