// What holds in every run of the build authority with a clock that does not go back.
module BuildRuns {
  import opened Common
  import opened BuildSync

  datatype Act =
    | RequestLock(player: PlayerId, stamp: int)
    | ReleaseLock(player: PlayerId)
    | SubmitOp(player: PlayerId, op: string, data: Data)
    | DropPlayer(player: PlayerId)

  // An act and the clock when it is handled.
  datatype Timed = Timed(now: real, act: Act)

  function Step(cfg: Config, a: Authority, t: Timed): Authority {
    match t.act
    case RequestLock(p, stamp) => Request(cfg, a, p, t.now, stamp).0
    case ReleaseLock(p) => Release(a, p).0
    case SubmitOp(p, op, data) => Submit(cfg, a, p, op, data, t.now).0
    case DropPlayer(p) => DropOwner(a, p)
  }

  ghost function StateAt(cfg: Config, run: seq<Timed>, k: nat): Authority
    requires k <= |run|
  {
    if k == 0 then NOBODY else Step(cfg, StateAt(cfg, run, k - 1), run[k - 1])
  }

  ghost predicate ClockMovesForward(run: seq<Timed>) {
    forall i, j | 0 <= i < j < |run| :: run[i].now <= run[j].now
  }

  // ------------------------------------------------------------------ the lease

  ghost predicate Holds(cfg: Config, run: seq<Timed>, k: nat, p: PlayerId) {
    k <= |run| && StateAt(cfg, run, k).lock.Some? && StateAt(cfg, run, k).lock.value.owner == p
  }

  // Act k is a submission that was logged.
  ghost predicate Accepted(cfg: Config, run: seq<Timed>, k: nat, p: PlayerId) {
    k < |run| && run[k].act.SubmitOp? && run[k].act.player == p &&
    Submit(cfg, StateAt(cfg, run, k), p, run[k].act.op, run[k].act.data, run[k].now).1.Ok?
  }

  ghost predicate Granted(cfg: Config, run: seq<Timed>, k: nat, p: PlayerId) {
    k < |run| && run[k].act.RequestLock? && run[k].act.player == p &&
    Request(cfg, StateAt(cfg, run, k), p, run[k].now, run[k].act.stamp).1
  }

  ghost predicate Renewed(cfg: Config, run: seq<Timed>, k: nat, p: PlayerId) {
    Granted(cfg, run, k, p) || Accepted(cfg, run, k, p)
  }

  // The lock in force dates from the owner's last renewal, and nothing has touched it since.
  lemma {:induction false} LockOrigin(cfg: Config, run: seq<Timed>, k: nat) returns (j: nat)
    requires k <= |run| && StateAt(cfg, run, k).lock.Some?
    ensures var l := StateAt(cfg, run, k).lock.value;
            j < k && Renewed(cfg, run, j, l.owner) && l == Lock(l.owner, run[j].now, cfg.leaseSeconds)
    ensures forall m | j < m <= k :: StateAt(cfg, run, m).lock == StateAt(cfg, run, k).lock
    decreases k
  {
    var before, after := StateAt(cfg, run, k - 1), StateAt(cfg, run, k);
    if before.lock == after.lock {
      j := LockOrigin(cfg, run, k - 1);
    } else {
      j := k - 1;
      if before.lock.Some? && run[j].act.SubmitOp? {
        var _ := LockOrigin(cfg, run, k - 1);
      }
    }
  }

  // On a clock that never goes back, a lock is expired at some moment exactly when none of its
  // owner's renewals lies within the lease time before that moment.
  lemma ExpiredIffNotRenewedInTime(cfg: Config, run: seq<Timed>, k: nat, now: real)
    requires ClockMovesForward(run) && k <= |run| && StateAt(cfg, run, k).lock.Some?
    ensures var lock := StateAt(cfg, run, k).lock.value;
            Expired(lock, now) <==>
            forall j | 0 <= j < k && Renewed(cfg, run, j, lock.owner) :: now - run[j].now > cfg.leaseSeconds
  {
    var lock := StateAt(cfg, run, k).lock.value;
    var o := LockOrigin(cfg, run, k);
    forall j | 0 <= j < k && Renewed(cfg, run, j, lock.owner)
      ensures run[j].now <= lock.acquiredAt
    {
      if o < j {
        RenewalSetsClock(cfg, run, j, lock.owner);
        assert StateAt(cfg, run, j + 1).lock == StateAt(cfg, run, k).lock;
      }
    }
  }

  lemma RenewalSetsClock(cfg: Config, run: seq<Timed>, j: nat, p: PlayerId)
    requires Renewed(cfg, run, j, p)
    ensures var lock := StateAt(cfg, run, j + 1).lock;
            lock.Some? && lock.value.owner == p && lock.value.acquiredAt == run[j].now
  {
  }

  // Every logged operation was submitted by the holder of the lease, whose last renewal was at
  // most the lease time ago.
  lemma LoggedWithinLease(cfg: Config, run: seq<Timed>, k: nat, p: PlayerId) returns (j: nat)
    requires Accepted(cfg, run, k, p)
    ensures j < k && Renewed(cfg, run, j, p) && run[k].now - run[j].now <= cfg.leaseSeconds
    ensures forall m | j < m <= k :: Holds(cfg, run, m, p)
  {
    j := LockOrigin(cfg, run, k);
  }

  // Act m is the one by which p loses the lease, and there are only three ways to.
  ghost predicate Loses(cfg: Config, run: seq<Timed>, m: nat, p: PlayerId) {
    && m < |run| && Holds(cfg, run, m, p) && !Holds(cfg, run, m + 1, p)
    && (run[m].act == ReleaseLock(p) || run[m].act == DropPlayer(p) ||
        Expired(StateAt(cfg, run, m).lock.value, run[m].now))
  }

  lemma {:induction false} LosesBetween(cfg: Config, run: seq<Timed>, i: nat, k: nat, p: PlayerId) returns (m: nat)
    requires i < k <= |run| && Holds(cfg, run, i, p) && !Holds(cfg, run, k, p)
    ensures i <= m < k && Loses(cfg, run, m, p)
    decreases k
  {
    if Holds(cfg, run, k - 1, p) {
      m := k - 1;
    } else {
      m := LosesBetween(cfg, run, i, k - 1, p);
    }
  }

  lemma AcceptedHolds(cfg: Config, run: seq<Timed>, k: nat, p: PlayerId)
    requires Accepted(cfg, run, k, p)
    ensures Holds(cfg, run, k, p) && Holds(cfg, run, k + 1, p)
  {
  }

  // Two logged operations of different players are separated by the release, removal or expiry
  // of the first one's lease.
  lemma HandoverIsExplicit(cfg: Config, run: seq<Timed>, i: nat, k: nat, p: PlayerId, q: PlayerId) returns (m: nat)
    requires i < k && p != q && Accepted(cfg, run, i, p) && Accepted(cfg, run, k, q)
    ensures i < m < k && Loses(cfg, run, m, p)
  {
    AcceptedHolds(cfg, run, i, p);
    AcceptedHolds(cfg, run, k, q);
    m := LosesBetween(cfg, run, i + 1, k, p);
  }

  // Act j is p asking for the lease, or an operation of p that is logged.
  ghost predicate Acts(cfg: Config, run: seq<Timed>, j: nat, p: PlayerId) {
    (j < |run| && run[j].act.RequestLock? && run[j].act.player == p) || Accepted(cfg, run, j, p)
  }

  // p acted at j, at most the lease time before act m.
  ghost predicate ActedInTime(cfg: Config, run: seq<Timed>, j: nat, m: nat, p: PlayerId) {
    j < m < |run| && Acts(cfg, run, j, p) && run[m].now - run[j].now <= cfg.leaseSeconds
  }

  // Since act i, p has acted recently enough for act m, and act m is not p giving up.
  ghost predicate StaysInterested(cfg: Config, run: seq<Timed>, i: nat, m: nat, p: PlayerId) {
    && m < |run| && run[m].act != ReleaseLock(p) && run[m].act != DropPlayer(p)
    && exists j :: i <= j < m && ActedInTime(cfg, run, j, m, p)
  }

  // While it holds the lease, p's lock is at least as new as each of its acts.
  lemma {:induction false} LockIsAsNewAsActs(cfg: Config, run: seq<Timed>, i: nat, j: nat, k: nat, p: PlayerId)
    requires i <= j < k <= |run| && ClockMovesForward(run)
    requires Acts(cfg, run, j, p)
    requires forall m | j < m <= k :: Holds(cfg, run, m, p)
    ensures var lock := StateAt(cfg, run, k).lock;
            lock.Some? && lock.value.acquiredAt >= run[j].now && lock.value.leaseSeconds == cfg.leaseSeconds
    decreases k
  {
    assert Holds(cfg, run, k, p);
    var o := LockOrigin(cfg, run, k);
    if o < j {
      assert StateAt(cfg, run, j + 1).lock == StateAt(cfg, run, k).lock;
    }
  }

  // A lease in its window survives every act but its owner's release or removal.
  lemma LeaseSurvives(cfg: Config, a: Authority, t: Timed, p: PlayerId)
    requires a.lock.Some? && a.lock.value.owner == p && !Expired(a.lock.value, t.now)
    requires t.act != ReleaseLock(p) && t.act != DropPlayer(p)
    ensures Step(cfg, a, t).lock.Some? && Step(cfg, a, t).lock.value.owner == p
  {
  }

  // An owner that asks again, or has an operation logged, within every lease window, and
  // neither releases nor leaves, is never displaced.
  lemma {:induction false} OwnerIsNotDisplaced(cfg: Config, run: seq<Timed>, i: nat, k: nat, p: PlayerId)
    requires ClockMovesForward(run) && Granted(cfg, run, i, p) && i < k <= |run|
    requires forall m | i < m < k :: StaysInterested(cfg, run, i, m, p)
    ensures forall m | i < m <= k :: Holds(cfg, run, m, p)
    decreases k
  {
    if k > i + 1 {
      OwnerIsNotDisplaced(cfg, run, i, k - 1, p);
      assert StaysInterested(cfg, run, i, k - 1, p);
      var j :| i <= j < k - 1 && ActedInTime(cfg, run, j, k - 1, p);
      LockIsAsNewAsActs(cfg, run, i, j, k - 1, p);
      assert Holds(cfg, run, k - 1, p);
      LeaseSurvives(cfg, StateAt(cfg, run, k - 1), run[k - 1], p);
      assert Holds(cfg, run, k, p);
    } else {
      assert Holds(cfg, run, i + 1, p);
    }
  }

  // And while p keeps the lease, nobody else is granted it or has an operation logged.
  lemma OthersAreRefused(cfg: Config, run: seq<Timed>, m: nat, p: PlayerId, q: PlayerId)
    requires m < |run| && Holds(cfg, run, m, p) && Holds(cfg, run, m + 1, p) && p != q
    ensures !Renewed(cfg, run, m, q)
  {
  }

  // ---------------------------------------------------------------- the history

  // Everything ever logged, never trimmed.
  ghost function LogAt(cfg: Config, run: seq<Timed>, k: nat): seq<Operation>
    requires k <= |run|
  {
    if k == 0 then []
    else if run[k - 1].act.SubmitOp? && Accepted(cfg, run, k - 1, run[k - 1].act.player) then
      var a, t := StateAt(cfg, run, k - 1), run[k - 1];
      LogAt(cfg, run, k - 1) + [Submit(cfg, a, t.act.player, t.act.op, t.act.data, t.now).1.value]
    else LogAt(cfg, run, k - 1)
  }

  ghost predicate Contiguous(log: seq<Operation>) {
    forall i | 0 <= i < |log| :: log[i].sequence == i + 1
  }

  // How many of n operations the history keeps. A limit of 0 keeps all of them, and a negative
  // limit none, as Python's slice deletion does.
  function Retained(limit: int, n: nat): nat {
    if limit == 0 then n else if limit < 0 then 0 else if n < limit then n else limit
  }

  function LastOf(log: seq<Operation>, n: nat): seq<Operation>
    requires n <= |log|
  {
    log[|log| - n..]
  }

  lemma TrimKeepsLast(log: seq<Operation>, operation: Operation, limit: int)
    ensures Trim(LastOf(log, Retained(limit, |log|)) + [operation], limit) ==
            LastOf(log + [operation], Retained(limit, |log| + 1))
  {
  }

  // A step that logs nothing leaves numbering and history alone.
  lemma StepLogs(cfg: Config, a: Authority, t: Timed)
    ensures var b := Step(cfg, a, t);
            if t.act.SubmitOp? && Submit(cfg, a, t.act.player, t.act.op, t.act.data, t.now).1.Ok? then
              var operation := Submit(cfg, a, t.act.player, t.act.op, t.act.data, t.now).1.value;
              && b.sequence == a.sequence + 1 && operation.sequence == b.sequence
              && b.history == Trim(a.history + [operation], cfg.historyLimit)
            else b.sequence == a.sequence && b.history == a.history
  {
  }

  // The bounded history is the tail of the unbounded log, numbered without gaps.
  ghost predicate IsTailOf(a: Authority, log: seq<Operation>, limit: int) {
    && a.sequence == |log| && Contiguous(log)
    && a.history == LastOf(log, Retained(limit, |log|))
  }

  lemma LoggingKeepsTail(a: Authority, b: Authority, log: seq<Operation>, operation: Operation, limit: int)
    requires IsTailOf(a, log, limit)
    requires b.sequence == operation.sequence == a.sequence + 1 && b.history == Trim(a.history + [operation], limit)
    ensures IsTailOf(b, log + [operation], limit)
  {
    TrimKeepsLast(log, operation, limit);
  }

  lemma {:induction false} HistoryIsLogTail(cfg: Config, run: seq<Timed>, k: nat)
    requires k <= |run|
    ensures IsTailOf(StateAt(cfg, run, k), LogAt(cfg, run, k), cfg.historyLimit)
  {
    if k > 0 {
      var a, t, log := StateAt(cfg, run, k - 1), run[k - 1], LogAt(cfg, run, k - 1);
      HistoryIsLogTail(cfg, run, k - 1);
      StepLogs(cfg, a, t);
      if t.act.SubmitOp? && Accepted(cfg, run, k - 1, t.act.player) {
        var operation := Submit(cfg, a, t.act.player, t.act.op, t.act.data, t.now).1.value;
        LoggingKeepsTail(a, Step(cfg, a, t), log, operation, cfg.historyLimit);
        assert LogAt(cfg, run, k) == log + [operation];
      } else {
        assert LogAt(cfg, run, k) == log;
      }
    }
  }

  function Clamp(since: int, n: nat): nat {
    if since < 0 then 0 else if since > n then n else since
  }

  lemma {:induction false} SinceOfTail(log: seq<Operation>, from: nat, since: int)
    requires Contiguous(log) && from <= |log|
    ensures var c := Clamp(since, |log|); Since(log[from..], since) == log[if from < c then c else from..]
    decreases |log| - from
  {
    if from < |log| {
      SinceOfTail(log, from + 1, since);
      assert log[from..][1..] == log[from + 1..];
    }
  }

  lemma TailSuffices(log: seq<Operation>, kept: nat, since: int)
    requires Contiguous(log) && kept <= |log|
    ensures Since(log, since) == log[Clamp(since, |log|)..]
    ensures Since(LastOf(log, kept), since) == Since(log, since) <==>
            (if since < 0 then 0 else since) >= |log| - kept
  {
    var c := Clamp(since, |log|);
    SinceOfTail(log, |log| - kept, since);
    SinceOfTail(log, 0, since);
    assert log[0..] == log && Since(log, since) == log[c..];
    if |log| - kept <= c {
      assert Since(LastOf(log, kept), since) == log[c..];
    } else {
      assert |Since(LastOf(log, kept), since)| == kept && |log[c..]| == |log| - c;
    }
  }

  // A client that has everything up to `since` gets everything it misses from the bounded
  // history exactly when nothing after `since` has been trimmed.
  lemma HistorySuffices(cfg: Config, run: seq<Timed>, k: nat, since: int)
    requires k <= |run|
    ensures var a, log := StateAt(cfg, run, k), LogAt(cfg, run, k);
            && Since(log, since) == log[Clamp(since, |log|)..]
            && (Since(a.history, since) == Since(log, since) <==>
                (if since < 0 then 0 else since) >= a.sequence - |a.history|)
  {
    HistoryIsLogTail(cfg, run, k);
    var log := LogAt(cfg, run, k);
    TailSuffices(log, Retained(cfg.historyLimit, |log|), since);
  }
}
