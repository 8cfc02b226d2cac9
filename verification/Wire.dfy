// The messages of the travel barrier and of the view-update stream.
module Wire {
  import opened Common

  const MAX_GAME_MESSAGE_BYTES := 2 * 1024 * 1024

  // A base64 field: either it does not decode, or it decodes to some bytes.
  datatype Payload = Malformed | Bytes(data: seq<int>)

  predicate Readable(p: Payload) {
    p.Bytes? && |p.data| <= MAX_GAME_MESSAGE_BYTES
  }

  // One game message as the host stamps it.
  datatype Update = Update(sequence: int, epoch: Option<int>, msgId: int, payload: Payload)

  datatype Kind = Begin | End | OtherKind

  datatype Reason = RawInvalid | MissingEpoch | StaleEpoch | BufferFull

  datatype Message =
    | Raw(update: Update)
    | ViewBatch(epoch: int, kind: Kind)
    | Propose(epoch: int, txnId: string, zoneId: string, actorIds: seq<string>)
    | Commit(epoch: int, txnId: string, zoneId: string, actorIds: seq<string>)
    | Resume(epoch: int)
    | Abort(epoch: int)
    | Failure(reason: Reason)

  // ------------------------------------------------------- ordering by sequence

  ghost predicate Increasing(s: seq<Update>) {
    forall i, j | 0 <= i < j < |s| :: s[i].sequence < s[j].sequence
  }

  ghost predicate Sorted(s: seq<Update>) {
    forall i, j | 0 <= i < j < |s| :: s[i].sequence <= s[j].sequence
  }

  // A sort by sequence number; `SortIsStable` below says that it is stable.
  function SortBySequence(s: seq<Update>): (r: seq<Update>)
    ensures Sorted(r) && multiset(r) == multiset(s)
  {
    if s == [] then [] else
    assert s == s[..|s| - 1] + [s[|s| - 1]];
    Insert(SortBySequence(s[..|s| - 1]), s[|s| - 1])
  }

  function Insert(s: seq<Update>, u: Update): (r: seq<Update>)
    requires Sorted(s)
    ensures Sorted(r) && multiset(r) == multiset(s) + multiset{u}
  {
    if s == [] || s[|s| - 1].sequence <= u.sequence then s + [u] else
    var last := s[|s| - 1];
    var front := s[..|s| - 1];
    assert s == front + [last];
    var r := Insert(front, u);
    InsertStaysBelow(front, u, r, last);
    r + [last]
  }

  lemma InsertStaysBelow(front: seq<Update>, u: Update, r: seq<Update>, last: Update)
    requires multiset(r) == multiset(front) + multiset{u}
    requires u.sequence <= last.sequence && forall i | 0 <= i < |front| :: front[i].sequence <= last.sequence
    ensures forall i | 0 <= i < |r| :: r[i].sequence <= last.sequence
  {
    forall i | 0 <= i < |r|
      ensures r[i].sequence <= last.sequence
    {
      assert r[i] in multiset(r);
    }
  }

  // The updates with this number, in order.
  ghost function Numbered(s: seq<Update>, n: int): seq<Update> {
    if s == [] then []
    else
      var front := Numbered(s[..|s| - 1], n);
      if s[|s| - 1].sequence == n then front + [s[|s| - 1]] else front
  }

  lemma NumberedAppend(s: seq<Update>, u: Update, n: int)
    ensures Numbered(s + [u], n) == if u.sequence == n then Numbered(s, n) + [u] else Numbered(s, n)
  {
    assert (s + [u])[..|s|] == s;
  }

  lemma {:induction false} InsertIsStable(s: seq<Update>, u: Update, n: int)
    requires Sorted(s)
    ensures Numbered(Insert(s, u), n) == Numbered(s + [u], n)
  {
    if s != [] && s[|s| - 1].sequence > u.sequence {
      var front, last := s[..|s| - 1], s[|s| - 1];
      InsertIsStable(front, u, n);
      NumberedAppend(Insert(front, u), last, n);
      NumbersCommute(front, last, u, n);
      assert s == front + [last];
    }
  }

  // Updates with different numbers may change places.
  lemma NumbersCommute(s: seq<Update>, a: Update, b: Update, n: int)
    requires a.sequence != b.sequence
    ensures Numbered(s + [a] + [b], n) ==
            if a.sequence == n then Numbered(s + [b], n) + [a] else Numbered(s + [b], n)
  {
    NumberedAppend(s, a, n);
    NumberedAppend(s, b, n);
    NumberedAppend(s + [a], b, n);
  }

  // Updates with the same number keep their order.
  lemma {:induction false} SortIsStable(s: seq<Update>, n: int)
    ensures Numbered(SortBySequence(s), n) == Numbered(s, n)
  {
    if s != [] {
      var front, last := s[..|s| - 1], s[|s| - 1];
      SortIsStable(front, n);
      InsertIsStable(SortBySequence(front), last, n);
      NumberedAppend(SortBySequence(front), last, n);
    }
  }

  lemma InsertAtEnd(s: seq<Update>, u: Update)
    requires Sorted(s) && (s == [] || s[|s| - 1].sequence <= u.sequence)
    ensures Insert(s, u) == s + [u]
  {
  }

  lemma SortAppend(front: seq<Update>, last: Update)
    requires SortBySequence(front) == front && (front == [] || front[|front| - 1].sequence <= last.sequence)
    ensures SortBySequence(front + [last]) == front + [last]
  {
    assert (front + [last])[..|front|] == front;
    InsertAtEnd(front, last);
  }

  lemma IncreasingPrefix(s: seq<Update>)
    requires Increasing(s) && s != []
    ensures Increasing(s[..|s| - 1]) && (|s| > 1 ==> s[|s| - 2].sequence <= s[|s| - 1].sequence)
    ensures s == s[..|s| - 1] + [s[|s| - 1]]
  {
  }

  lemma {:induction false} SortIsNoOp(s: seq<Update>)
    requires Increasing(s)
    ensures SortBySequence(s) == s
  {
    if s != [] {
      IncreasingPrefix(s);
      SortIsNoOp(s[..|s| - 1]);
      SortAppend(s[..|s| - 1], s[|s| - 1]);
    }
  }
}
