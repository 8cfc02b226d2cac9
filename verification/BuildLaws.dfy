// When the build authority must say yes and when it must refuse, over every run, and what it
// then records.
module BuildLaws {
  import opened Common
  import opened BuildSync
  import opened BuildRuns

  // p renewed its lease at act j, at most the lease time before act k.
  ghost predicate RenewedInTime(cfg: Config, run: seq<Timed>, j: nat, k: nat, p: PlayerId) {
    j < k < |run| && Renewed(cfg, run, j, p) && run[k].now - run[j].now <= cfg.leaseSeconds
  }

  // p holds the lease at act k, by a renewal in time.
  ghost predicate HoldsInTime(cfg: Config, run: seq<Timed>, k: nat, p: PlayerId) {
    Holds(cfg, run, k, p) && exists j :: 0 <= j < k && RenewedInTime(cfg, run, j, k, p)
  }

  lemma HoldsInTimeIff(cfg: Config, run: seq<Timed>, k: nat, p: PlayerId)
    requires ClockMovesForward(run) && k < |run|
    ensures HoldsInTime(cfg, run, k, p) <==>
            Holds(cfg, run, k, p) && !Expired(StateAt(cfg, run, k).lock.value, run[k].now)
  {
    if Holds(cfg, run, k, p) {
      ExpiredIffNotRenewedInTime(cfg, run, k, run[k].now);
      InTimeIff(cfg, run, k, p);
    }
  }

  lemma InTimeIff(cfg: Config, run: seq<Timed>, k: nat, p: PlayerId)
    requires k < |run|
    ensures (exists j :: 0 <= j < k && RenewedInTime(cfg, run, j, k, p)) <==>
            !forall j | 0 <= j < k && Renewed(cfg, run, j, p) :: run[k].now - run[j].now > cfg.leaseSeconds
  {
    if j :| 0 <= j < k && Renewed(cfg, run, j, p) && run[k].now - run[j].now <= cfg.leaseSeconds {
      assert RenewedInTime(cfg, run, j, k, p);
    }
  }

  // Somebody else holds the lease at act k, by a renewal in time.
  ghost predicate IsTaken(cfg: Config, run: seq<Timed>, k: nat, p: PlayerId) {
    exists q :: q != p && HoldsInTime(cfg, run, k, q)
  }

  // A request is granted, and the player then holds the lease, if and only if nobody else holds
  // it by a renewal in time.
  lemma GrantedIff(cfg: Config, run: seq<Timed>, k: nat, p: PlayerId)
    requires ClockMovesForward(run) && k < |run| && run[k].act.RequestLock? && run[k].act.player == p
    ensures Granted(cfg, run, k, p) <==> !IsTaken(cfg, run, k, p)
    ensures Holds(cfg, run, k + 1, p) <==> !IsTaken(cfg, run, k, p)
    ensures IsTaken(cfg, run, k, p) ==> StateAt(cfg, run, k + 1) == StateAt(cfg, run, k)
  {
    var a := StateAt(cfg, run, k);
    if a.lock.Some? {
      HoldsInTimeIff(cfg, run, k, a.lock.value.owner);
      assert forall q :: Holds(cfg, run, k, q) ==> q == a.lock.value.owner;
    }
    RequestIs(cfg, a, run[k]);
  }

  lemma RequestIs(cfg: Config, a: Authority, t: Timed)
    requires t.act.RequestLock?
    ensures var (b, granted) := Request(cfg, a, t.act.player, t.now, t.act.stamp);
            var isTaken := a.lock.Some? && a.lock.value.owner != t.act.player && !Expired(a.lock.value, t.now);
            && (granted <==> !isTaken) && b == Step(cfg, a, t)
            && (isTaken ==> b == a)
            && (granted ==> b.lock.Some? && b.lock.value.owner == t.act.player)
  {
  }

  // A submission is logged if and only if its player holds the lease by a renewal in time and
  // the data is valid; without the lease the error says so, whatever the data.
  lemma AcceptedIff(cfg: Config, run: seq<Timed>, k: nat, p: PlayerId)
    requires ClockMovesForward(run) && k < |run| && run[k].act.SubmitOp? && run[k].act.player == p
    ensures var checked := Validated(run[k].act.op, run[k].act.data);
            var reply := Submit(cfg, StateAt(cfg, run, k), p, run[k].act.op, run[k].act.data, run[k].now).1;
            && (Accepted(cfg, run, k, p) <==> HoldsInTime(cfg, run, k, p) && checked.Ok?)
            && (!HoldsInTime(cfg, run, k, p) ==> reply == Err(NoAuthority))
            && (HoldsInTime(cfg, run, k, p) && checked.Err? ==> reply == Err(checked.error))
  {
    HoldsInTimeIff(cfg, run, k, p);
  }

  // A logged operation is the one submitted: its player, its operation, its validated data, and
  // the next number, which is also its name.
  lemma LoggedAsSubmitted(cfg: Config, run: seq<Timed>, k: nat, p: PlayerId) returns (o: Operation)
    requires Accepted(cfg, run, k, p)
    ensures LogAt(cfg, run, k + 1) == LogAt(cfg, run, k) + [o]
    ensures o.player == p && o.op == run[k].act.op && Validated(o.op, run[k].act.data) == Ok(o.data)
    ensures o.sequence == |LogAt(cfg, run, k)| + 1 && o.operationId == "build-" + Decimal(o.sequence)
  {
    HistoryIsLogTail(cfg, run, k);
    o := Submit(cfg, StateAt(cfg, run, k), p, run[k].act.op, run[k].act.data, run[k].now).1.value;
  }

  // A release or a removal ends the lease of its player, if it has it, and of nobody else.
  lemma ReleasedIff(cfg: Config, run: seq<Timed>, k: nat, p: PlayerId, q: PlayerId)
    requires k < |run| && (run[k].act == ReleaseLock(p) || run[k].act == DropPlayer(p))
    ensures Release(StateAt(cfg, run, k), p).1 <==> Holds(cfg, run, k, p)
    ensures Holds(cfg, run, k + 1, q) <==> Holds(cfg, run, k, q) && q != p
  {
  }

  // While there is a lock, the lease id names its owner, and the stamp of its last grant.
  lemma {:induction false} LeaseIdNamesTheGrant(cfg: Config, run: seq<Timed>, k: nat) returns (j: nat)
    requires k <= |run| && StateAt(cfg, run, k).lock.Some?
    ensures var p := StateAt(cfg, run, k).lock.value.owner;
            && j < k && Granted(cfg, run, j, p)
            && StateAt(cfg, run, k).leaseId == Some(LeaseId(p, run[j].act.stamp))
            && forall m | j < m < k :: !Granted(cfg, run, m, p)
    decreases k
  {
    var p := StateAt(cfg, run, k).lock.value.owner;
    if Granted(cfg, run, k - 1, p) {
      j := k - 1;
    } else {
      LeaseIdStays(cfg, StateAt(cfg, run, k - 1), run[k - 1]);
      j := LeaseIdNamesTheGrant(cfg, run, k - 1);
    }
  }

  lemma LeaseIdStays(cfg: Config, a: Authority, t: Timed)
    requires Step(cfg, a, t).lock.Some?
    requires !(t.act.RequestLock? && Request(cfg, a, t.act.player, t.now, t.act.stamp).1)
    ensures a.lock.Some? && a.lock.value.owner == Step(cfg, a, t).lock.value.owner
    ensures Step(cfg, a, t).leaseId == a.leaseId
  {
  }

  // ------------------------------------------------------------ what is valid

  // The data has this entry, and it prints as something.
  predicate IsNamed(data: Data, key: string) {
    key in data && Str(data[key]) != ""
  }

  predicate IsFit(data: Data) {
    |data| <= 32 && forall k | k in data :: |k| <= 128 && (data[k].Text? ==> |data[k].text| <= 4096)
  }

  // Which operations on objects that exist need to say on which.
  predicate NeedsObject(op: string) {
    "object." <= op && op != "object.create"
  }

  // Valid data in terms of what was submitted; and what is kept prints the same, entry by entry,
  // with ids as text and nothing else changed.
  lemma ValidIff(op: string, data: Data)
    ensures var checked := Validated(op, data);
            && (checked.Ok? <==>
                  && op in OPERATIONS && IsFit(data)
                  && (NeedsObject(op) ==> IsNamed(data, "object_id"))
                  && (op == "object.create" ==> IsNamed(data, "definition_id"))
                  && (op == "funds.modify" ==>
                        IsNamed(data, "household_id") && "amount" in data && data["amount"].Number?))
            && (checked.Ok? ==>
                  && checked.value.Keys == data.Keys
                  && forall k | k in data ::
                       && Str(checked.value[k]) == Str(data[k])
                       && checked.value[k] == if k in ID_KEYS && !data[k].Null? then Text(Str(data[k])) else data[k])
  {
    assert "amount" !in ID_KEYS by {
      assert "amount"[0] == 'a';
    }
    SameFields(data, "object_id");
    SameFields(data, "definition_id");
    SameFields(data, "household_id");
  }

  lemma SameFields(data: Data, key: string)
    ensures Field(WithTextIds(data, ID_KEYS), key) == Field(data, key)
    ensures Field(data, key) == "" <==> !IsNamed(data, key)
  {
  }

  // The error names the first thing wrong.
  lemma RefusalIs(op: string, data: Data)
    requires Validated(op, data).Err?
    ensures var e := Validated(op, data).error;
            var fits := op in OPERATIONS && IsFit(data);
            && (e == UnsupportedOperation <==> op !in OPERATIONS)
            && (e == TooManyKeys <==> op in OPERATIONS && |data| > 32)
            && (e == EntryTooLarge <==> op in OPERATIONS && |data| <= 32 && !IsFit(data))
            && (e == ObjectIdRequired <==> fits && NeedsObject(op) && !IsNamed(data, "object_id"))
            && (e == DefinitionIdRequired <==> fits && op == "object.create" && !IsNamed(data, "definition_id"))
            && (e == HouseholdIdRequired <==> fits && op == "funds.modify" && !IsNamed(data, "household_id"))
            && (e == AmountNotNumeric <==>
                  fits && op == "funds.modify" && IsNamed(data, "household_id") &&
                  !("amount" in data && data["amount"].Number?))
  {
    assert "amount" !in ID_KEYS by {
      assert "amount"[0] == 'a';
    }
    SameFields(data, "object_id");
    SameFields(data, "definition_id");
    SameFields(data, "household_id");
    assert "object.create"[0] == 'o' && "funds.modify"[0] == 'f' && "object."[0] == 'o';
  }
}
