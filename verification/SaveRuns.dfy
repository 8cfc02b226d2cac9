// Round trip of a transfer, and safety of the final files under any schedule of messages.
module SaveRuns {
  import opened Common
  import opened SaveSync

  // ------------------------------------------------------------------ round trip

  // A client receives the chunks in order from this index on; the flag says whether all of
  // them were accepted.
  ghost function Feed(digest: Bytes -> string, c: Client, index: nat, chunks: seq<Bytes>): (Client, bool)
    decreases |chunks|
  {
    if chunks == [] then (c, true)
    else
      var (d, reply) := Handle(digest, c, GotChunk(index, Some(chunks[0])));
      var (e, rest) := Feed(digest, d, index + 1, chunks[1..]);
      (e, reply.Progress? && rest)
  }

  // A whole transfer of a file: manifest, chunks, end.
  ghost function Transfer(
    digest: Bytes -> string, c: Client, m: Manifest, content: Bytes, session: string, second: int)
    : (Client, bool, Reply)
    requires m.chunkSize >= 1
  {
    var d := Handle(digest, c, GotManifest(m)).0;
    var (e, accepted) := Feed(digest, d, 0, Cut(content, m.chunkSize));
    var (f, reply) := Handle(digest, e, GotEnd(session, second));
    (f, accepted, reply)
  }

  // The receiver is this far into the file: `done` is written, `rest` is to come.
  ghost predicate Midway(c: Client, m: Manifest, base: Disk, index: nat, done: Bytes, rest: Bytes) {
    && m.chunkSize >= 1 && m.totalBytes == |done| + |rest|
    && m.chunkCount == index + |Cut(rest, m.chunkSize)|
    && c.receiver == Some(NewReceiver(m).(nextIndex := index, received := |done|))
    && c.disk.finals == base.finals && c.disk.backups == base.backups
    && c.disk.partials - {m.slotId} == base.partials - {m.slotId}
    && PartialOf(c.disk, m.slotId) == done
    && (m.slotId in c.disk.partials <==> done != [])
  }

  // The next chunk the sender cuts is accepted.
  lemma ChunkIsAccepted(
    digest: Bytes -> string, c: Client, m: Manifest, base: Disk, index: nat, done: Bytes, rest: Bytes)
    requires Midway(c, m, base, index, done, rest) && rest != []
    ensures var cut := Cut(rest, m.chunkSize);
            var (d, reply) := Handle(digest, c, GotChunk(index, Some(cut[0])));
            && reply.Progress? && done + cut[0] + rest[|cut[0]|..] == done + rest
            && cut[1..] == Cut(rest[|cut[0]|..], m.chunkSize)
            && Midway(d, m, base, index + 1, done + cut[0], rest[|cut[0]|..])
  {
    var cut := Cut(rest, m.chunkSize);
    if |rest| <= m.chunkSize {
      assert cut == [rest] && rest[|rest|..] == [];
    } else {
      CutHasChunkCount(rest[m.chunkSize..], m.chunkSize);
      assert cut[1..] == Cut(rest[m.chunkSize..], m.chunkSize);
      assert |cut[1..]| >= 1;
    }
    assert rest == cut[0] + rest[|cut[0]|..];
    assert done + (cut[0] + rest[|cut[0]|..]) == done + cut[0] + rest[|cut[0]|..];
    var (d, reply) := Handle(digest, c, GotChunk(index, Some(cut[0])));
    assert ChunkFault(c.receiver.value, index, cut[0]) == None;
    assert d.disk.partials - {m.slotId} == c.disk.partials - {m.slotId};
  }

  lemma {:induction false} ChunksAreAccepted(
    digest: Bytes -> string, c: Client, m: Manifest, base: Disk, index: nat, done: Bytes, rest: Bytes)
    requires Midway(c, m, base, index, done, rest)
    ensures var (d, accepted) := Feed(digest, c, index, Cut(rest, m.chunkSize));
            accepted && Midway(d, m, base, m.chunkCount, done + rest, [])
    decreases |rest|
  {
    if rest == [] {
      assert done + rest == done;
    } else {
      var cut := Cut(rest, m.chunkSize);
      ChunkIsAccepted(digest, c, m, base, index, done, rest);
      var d := Handle(digest, c, GotChunk(index, Some(cut[0]))).0;
      ChunksAreAccepted(digest, d, m, base, index + 1, done + cut[0], rest[|cut[0]|..]);
    }
  }

  // The backups after the final file of this slot, if there is one, was backed up.
  function WithBackup(d: Disk, slotId: string, session: string, second: int): map<BackupName, Bytes> {
    if slotId in d.finals then d.backups[NameOfBackup(session, slotId, second) := d.finals[slotId]] else d.backups
  }

  // Every chunk the sender cuts is accepted, and the transfer ends with the file in place, the
  // old one backed up and nothing else touched, exactly when the file is not empty. (Of an
  // empty file no chunk is sent, so there is nothing to commit.)
  lemma TransferSucceedsIffNotEmpty(
    digest: Bytes -> string, c: Client, slotId: string, content: Bytes, chunkSize: int, session: string, second: int)
    requires IsSlotId(slotId) && 1 <= chunkSize <= MAX_CHUNK_SIZE && |digest(content)| == HASH_LENGTH
    ensures var m := ManifestOf(slotId, content, chunkSize, digest(content)).value;
            var (d, accepted, reply) := Transfer(digest, c, m, content, session, second);
            && accepted && d.receiver == None
            && reply == (if content == [] then Fault(NoPartialFile)
                         else Ack(slotId, digest(content), |content|, slotId in c.disk.finals))
            && (content != [] ==>
                  && d.disk.finals == c.disk.finals[slotId := content]
                  && d.disk.backups == WithBackup(c.disk, slotId, session, second))
            && (content == [] ==> d.disk.finals == c.disk.finals && d.disk.backups == c.disk.backups)
            && d.disk.partials == c.disk.partials - {slotId}
  {
    var m := ManifestOf(slotId, content, chunkSize, digest(content)).value;
    CutHasChunkCount(content, chunkSize);
    ManifestIsValid(m, content);
    var start := Handle(digest, c, GotManifest(m)).0;
    assert Midway(start, m, c.disk, 0, [], content);
    ChunksAreAccepted(digest, start, m, c.disk, 0, [], content);
    var (d, _) := Feed(digest, start, 0, Cut(content, chunkSize));
    assert [] + content == content;
    assert Midway(d, m, c.disk, m.chunkCount, content, []);
    assert content == [] ==> d.disk.partials - {slotId} == d.disk.partials;
  }

  lemma ManifestIsValid(m: Manifest, content: Bytes)
    requires IsSlotId(m.slotId) && |m.sha256| == HASH_LENGTH && m.totalBytes == |content|
    requires 1 <= m.chunkSize <= MAX_CHUNK_SIZE && m.chunkCount == ChunkCount(|content|, m.chunkSize)
    ensures IsValid(m)
  {
    CutHasChunkCount(content, m.chunkSize);
  }

  // ---------------------------------------------------------------- any schedule

  ghost function StateAt(digest: Bytes -> string, start: Client, run: seq<Event>, k: nat): Client
    requires k <= |run|
  {
    if k == 0 then start else Handle(digest, StateAt(digest, start, run, k - 1), run[k - 1]).0
  }

  ghost function ReplyAt(digest: Bytes -> string, start: Client, run: seq<Event>, k: nat): Reply
    requires k < |run|
  {
    Handle(digest, StateAt(digest, start, run, k), run[k]).1
  }

  // While the last chunk is outstanding, every accepted chunk was a full one.
  ghost predicate Counts(r: Receiver) {
    && 1 <= r.chunkSize && 0 <= r.chunkCount
    && (r.nextIndex < r.chunkCount || r.nextIndex == 0 ==> r.received == r.nextIndex * r.chunkSize)
    && (r.nextIndex == r.chunkCount && r.nextIndex > 0 ==>
          (r.chunkCount - 1) * r.chunkSize <= r.received <= r.chunkCount * r.chunkSize)
  }

  ghost predicate Inv(c: Client) {
    c.receiver.Some? ==>
      var r := c.receiver.value;
      Counts(r) && (r.nextIndex == 0 ==> r.slotId !in c.disk.partials)
  }

  lemma ChunkKeepsCounts(r: Receiver, index: int, data: Bytes)
    requires Counts(r) && ChunkFault(r, index, data) == None
    ensures Counts(r.(nextIndex := r.nextIndex + 1, received := r.received + |data|))
  {
    assert (r.nextIndex + 1) * r.chunkSize == r.nextIndex * r.chunkSize + r.chunkSize;
  }

  lemma StepKeepsInv(digest: Bytes -> string, c: Client, e: Event)
    requires Inv(c)
    ensures Inv(Handle(digest, c, e).0)
  {
    if e.GotChunk? && c.receiver.Some? && e.data.Some? && ChunkFault(c.receiver.value, e.index, e.data.value) == None {
      ChunkKeepsCounts(c.receiver.value, e.index, e.data.value);
    }
  }

  lemma {:induction false} InvHolds(digest: Bytes -> string, start: Client, run: seq<Event>, k: nat)
    requires k <= |run| && start.receiver == None
    ensures Inv(StateAt(digest, start, run, k))
  {
    if k > 0 {
      InvHolds(digest, start, run, k - 1);
      StepKeepsInv(digest, StateAt(digest, start, run, k - 1), run[k - 1]);
    }
  }

  lemma CountIsCeilingOrOneMore(total: nat, size: int, count: int)
    requires size >= 1 && count >= 1 && (count - 1) * size <= total <= count * size
    ensures count == ChunkCount(total, size) || count == ChunkCount(total, size) + 1
  {
    assert count * size == (count - 1) * size + size;
    if total == (count - 1) * size {
      assert size * (count - 1) == total;
      Quotient(total + size - 1, size, count - 1);
    } else {
      assert size * count == count * size;
      assert size * (count - 1) == (count - 1) * size;
      Quotient(total + size - 1, size, count);
    }
  }

  // A transfer is acknowledged only when all its bytes arrived; its chunk count is then the
  // size divided by the chunk size, rounded up, or one more (for an empty last chunk).
  lemma AcknowledgedTransferIsComplete(digest: Bytes -> string, start: Client, run: seq<Event>, k: nat)
    requires k < |run| && start.receiver == None && ReplyAt(digest, start, run, k).Ack?
    ensures var r := StateAt(digest, start, run, k).receiver;
            && r.Some? && r.value.received == r.value.total && r.value.nextIndex == r.value.chunkCount >= 1
            && r.value.chunkSize >= 1
            && var least := ChunkCount(r.value.total, r.value.chunkSize);
               r.value.chunkCount == least || r.value.chunkCount == least + 1
  {
    InvHolds(digest, start, run, k);
    var r := StateAt(digest, start, run, k).receiver.value;
    CountIsCeilingOrOneMore(r.total, r.chunkSize, r.chunkCount);
  }

  // ------------------------------------------------------------- commit safety

  // The final files change only when a transfer is acknowledged, and then one file does: it
  // becomes the partial file, whose digest is the manifest's, after the old one was copied to
  // the backup named by session, slot and second.
  lemma FinalsChangeOnlyOnCommit(digest: Bytes -> string, c: Client, e: Event)
    ensures var (d, reply) := Handle(digest, c, e);
            if reply.Ack? then
              && e.GotEnd? && c.receiver.Some? && c.receiver.value.slotId in c.disk.partials
              && var r, content := c.receiver.value, c.disk.partials[c.receiver.value.slotId];
                 && digest(content) == r.expectedHash
                 && d.disk.finals == c.disk.finals[r.slotId := content]
                 && d.disk.backups == WithBackup(c.disk, r.slotId, e.session, e.second)
            else d.disk.finals == c.disk.finals && d.disk.backups == c.disk.backups
  {
  }

  // ------------------------------------------------------------ what becomes of a save

  // The content is the slot's final file, or one of its backups.
  ghost predicate Survives(d: Disk, slotId: string, content: Bytes) {
    (slotId in d.finals && d.finals[slotId] == content) || exists name :: Holds(d, name, slotId, content)
  }

  ghost predicate Holds(d: Disk, name: BackupName, slotId: string, content: Bytes) {
    name.slotId == slotId && name in d.backups && d.backups[name] == content
  }

  // The event commits a file of this slot, and backs up the old one under this name.
  ghost predicate BacksUpTo(digest: Bytes -> string, c: Client, e: Event, name: BackupName) {
    && Handle(digest, c, e).1.Ack? && e.GotEnd?
    && c.receiver.value.slotId in c.disk.finals
    && name == NameOfBackup(e.session, c.receiver.value.slotId, e.second)
  }

  // The event makes this content the final file of the slot.
  ghost predicate Installs(digest: Bytes -> string, c: Client, e: Event, slotId: string, content: Bytes) {
    Handle(digest, c, e).1.Ack? && c.receiver.value.slotId == slotId && PartialOf(c.disk, slotId) == content
  }

  // The name is new, or the backup it replaces is also kept elsewhere: it is the file being
  // backed up or the one being committed, or has another name too.
  ghost predicate NameIsSafe(digest: Bytes -> string, c: Client, e: Event, name: BackupName)
    requires BacksUpTo(digest, c, e, name)
  {
    name in c.disk.backups ==>
      var replaced := c.disk.backups[name];
      || replaced == c.disk.finals[name.slotId] || replaced == PartialOf(c.disk, name.slotId)
      || exists other :: other != name && Holds(c.disk, other, name.slotId, replaced)
  }

  ghost predicate IsSafe(digest: Bytes -> string, c: Client, e: Event) {
    forall name | BacksUpTo(digest, c, e, name) :: NameIsSafe(digest, c, e, name)
  }

  lemma SafeKeeps(digest: Bytes -> string, c: Client, e: Event, slotId: string, content: Bytes)
    requires IsSafe(digest, c, e) && Survives(c.disk, slotId, content)
    ensures Survives(Handle(digest, c, e).0.disk, slotId, content)
  {
    FinalsChangeOnlyOnCommit(digest, c, e);
    var d := Handle(digest, c, e).0.disk;
    if Handle(digest, c, e).1.Ack? && c.receiver.value.slotId == slotId && slotId in c.disk.finals {
      var name := NameOfBackup(e.session, slotId, e.second);
      assert BacksUpTo(digest, c, e, name);
      assert Holds(d, name, slotId, c.disk.finals[slotId]);
      if c.disk.finals[slotId] != content {
        var kept :| Holds(c.disk, kept, slotId, content);
        if kept != name {
          assert Holds(d, kept, slotId, content);
        } else if content != PartialOf(c.disk, slotId) {
          var other :| other != name && Holds(c.disk, other, slotId, content);
          assert Holds(d, other, slotId, content);
        }
      }
    } else if !(slotId in c.disk.finals && c.disk.finals[slotId] == content) {
      var kept :| Holds(c.disk, kept, slotId, content);
      assert Holds(d, kept, slotId, content);
    }
  }

  lemma UnsafeLoses(digest: Bytes -> string, c: Client, e: Event, name: BackupName)
    requires BacksUpTo(digest, c, e, name) && !NameIsSafe(digest, c, e, name)
    ensures Survives(c.disk, name.slotId, c.disk.backups[name])
    ensures !Survives(Handle(digest, c, e).0.disk, name.slotId, c.disk.backups[name])
  {
    FinalsChangeOnlyOnCommit(digest, c, e);
    var replaced := c.disk.backups[name];
    assert Holds(c.disk, name, name.slotId, replaced);
    OthersStay(digest, c, e, name.slotId, replaced);
  }

  // Only the backup that the event makes can differ.
  lemma OthersStay(digest: Bytes -> string, c: Client, e: Event, slotId: string, content: Bytes)
    ensures forall name | !BacksUpTo(digest, c, e, name) ::
              Holds(Handle(digest, c, e).0.disk, name, slotId, content) <==> Holds(c.disk, name, slotId, content)
  {
    FinalsChangeOnlyOnCommit(digest, c, e);
  }

  // An event keeps every save that there is if and only if the backup it makes, if it makes
  // one, has a safe name.
  lemma KeepsAllIff(digest: Bytes -> string, c: Client, e: Event)
    ensures (forall slotId, content | Survives(c.disk, slotId, content) ::
               Survives(Handle(digest, c, e).0.disk, slotId, content)) <==>
            IsSafe(digest, c, e)
  {
    if IsSafe(digest, c, e) {
      forall slotId, content | Survives(c.disk, slotId, content)
        ensures Survives(Handle(digest, c, e).0.disk, slotId, content)
      {
        SafeKeeps(digest, c, e, slotId, content);
      }
    } else {
      var name :| BacksUpTo(digest, c, e, name) && !NameIsSafe(digest, c, e, name);
      UnsafeLoses(digest, c, e, name);
    }
  }

  ghost predicate SafeAt(digest: Bytes -> string, start: Client, run: seq<Event>, k: nat) {
    k < |run| && IsSafe(digest, StateAt(digest, start, run, k), run[k])
  }

  // While every backup has a safe name, no save is ever lost, whatever manifests, chunks good
  // and bad, and ends are received.
  lemma {:induction false} NothingIsLost(
    digest: Bytes -> string, start: Client, run: seq<Event>, i: nat, k: nat, slotId: string, content: Bytes)
    requires i <= k <= |run| && Survives(StateAt(digest, start, run, i).disk, slotId, content)
    requires forall j | i <= j < k :: SafeAt(digest, start, run, j)
    ensures Survives(StateAt(digest, start, run, k).disk, slotId, content)
    decreases k
  {
    if i < k {
      NothingIsLost(digest, start, run, i, k - 1, slotId, content);
      assert SafeAt(digest, start, run, k - 1);
      SafeKeeps(digest, StateAt(digest, start, run, k - 1), run[k - 1], slotId, content);
    }
  }

  // ---- the only copy of a save

  ghost predicate OnlyCopy(d: Disk, name: BackupName, content: Bytes) {
    && Holds(d, name, name.slotId, content)
    && !(name.slotId in d.finals && d.finals[name.slotId] == content)
    && forall other | Holds(d, other, name.slotId, content) :: other == name
  }

  lemma OnlyCopyStays(digest: Bytes -> string, c: Client, e: Event, name: BackupName, content: Bytes)
    requires OnlyCopy(c.disk, name, content) && !Installs(digest, c, e, name.slotId, content)
    ensures var d := Handle(digest, c, e).0.disk;
            if BacksUpTo(digest, c, e, name) then !Survives(d, name.slotId, content) else OnlyCopy(d, name, content)
  {
    FinalsChangeOnlyOnCommit(digest, c, e);
    OthersStay(digest, c, e, name.slotId, content);
  }

  lemma LostStaysLost(digest: Bytes -> string, c: Client, e: Event, slotId: string, content: Bytes)
    requires !Survives(c.disk, slotId, content) && !Installs(digest, c, e, slotId, content)
    ensures !Survives(Handle(digest, c, e).0.disk, slotId, content)
  {
    FinalsChangeOnlyOnCommit(digest, c, e);
    OthersStay(digest, c, e, slotId, content);
  }

  ghost predicate BacksUpAt(digest: Bytes -> string, start: Client, run: seq<Event>, k: nat, name: BackupName) {
    k < |run| && BacksUpTo(digest, StateAt(digest, start, run, k), run[k], name)
  }

  ghost predicate InstallsAt(
    digest: Bytes -> string, start: Client, run: seq<Event>, k: nat, slotId: string, content: Bytes)
  {
    k < |run| && Installs(digest, StateAt(digest, start, run, k), run[k], slotId, content)
  }

  ghost predicate ReusedIn(digest: Bytes -> string, start: Client, run: seq<Event>, i: nat, k: nat, name: BackupName) {
    exists j :: i <= j < k && BacksUpAt(digest, start, run, j, name)
  }

  // What has become of the copy after k events, given whether its name was reused.
  ghost predicate FateAt(
    digest: Bytes -> string, start: Client, run: seq<Event>, k: nat, name: BackupName, content: Bytes, reused: bool)
  {
    k <= |run| &&
    var d := StateAt(digest, start, run, k).disk;
    if reused then !Survives(d, name.slotId, content) else OnlyCopy(d, name, content)
  }

  lemma FateStep(
    digest: Bytes -> string, start: Client, run: seq<Event>, k: nat, name: BackupName, content: Bytes, reused: bool)
    requires k < |run| && FateAt(digest, start, run, k, name, content, reused)
    requires !InstallsAt(digest, start, run, k, name.slotId, content)
    ensures FateAt(digest, start, run, k + 1, name, content, reused || BacksUpAt(digest, start, run, k, name))
  {
    var c := StateAt(digest, start, run, k);
    if reused {
      LostStaysLost(digest, c, run[k], name.slotId, content);
    } else {
      OnlyCopyStays(digest, c, run[k], name, content);
    }
  }

  lemma {:induction false} FateOfOnlyCopy(
    digest: Bytes -> string, start: Client, run: seq<Event>, i: nat, k: nat, name: BackupName, content: Bytes)
    requires i <= k <= |run| && FateAt(digest, start, run, i, name, content, false)
    requires forall j | i <= j < k :: !InstallsAt(digest, start, run, j, name.slotId, content)
    ensures FateAt(digest, start, run, k, name, content, ReusedIn(digest, start, run, i, k, name))
    decreases k
  {
    if i < k {
      FateOfOnlyCopy(digest, start, run, i, k - 1, name, content);
      FateStep(digest, start, run, k - 1, name, content, ReusedIn(digest, start, run, i, k - 1, name));
    }
  }

  // A save whose only copy is a backup, and which is not sent again, survives if and only if no
  // later commit of its slot reuses the session and second of that backup.
  lemma OnlyCopySurvivesIff(
    digest: Bytes -> string, start: Client, run: seq<Event>, i: nat, k: nat, name: BackupName, content: Bytes)
    requires i <= k <= |run| && OnlyCopy(StateAt(digest, start, run, i).disk, name, content)
    requires forall j | i <= j < k :: !InstallsAt(digest, start, run, j, name.slotId, content)
    ensures Survives(StateAt(digest, start, run, k).disk, name.slotId, content) <==>
            !ReusedIn(digest, start, run, i, k, name)
  {
    FateOfOnlyCopy(digest, start, run, i, k, name, content);
    var d := StateAt(digest, start, run, k).disk;
    assert OnlyCopy(d, name, content) ==> Survives(d, name.slotId, content);
  }

  // ---- a save that is lost

  // Two transfers of a slot that end in the same session and second lose the file that was in
  // place before them, if it has no older backup.
  lemma SecondTransferLosesTheFirst(
    digest: Bytes -> string, c: Client, slotId: string, first: Bytes, second: Bytes, session: string, now: int)
    requires IsSlotId(slotId) && first != [] && second != []
    requires |digest(first)| == |digest(second)| == HASH_LENGTH
    requires slotId in c.disk.finals && c.disk.finals[slotId] != first && c.disk.finals[slotId] != second
    requires !exists name :: Holds(c.disk, name, slotId, c.disk.finals[slotId])
    ensures var m := ManifestOf(slotId, first, 1, digest(first)).value;
            var n := ManifestOf(slotId, second, 1, digest(second)).value;
            var (d, _, firstReply) := Transfer(digest, c, m, first, session, now);
            var (e, _, secondReply) := Transfer(digest, d, n, second, session, now);
            && firstReply.Ack? && secondReply.Ack?
            && Survives(d.disk, slotId, c.disk.finals[slotId]) && !Survives(e.disk, slotId, c.disk.finals[slotId])
  {
    var before := c.disk.finals[slotId];
    var m, n := ManifestOf(slotId, first, 1, digest(first)).value, ManifestOf(slotId, second, 1, digest(second)).value;
    TransferSucceedsIffNotEmpty(digest, c, slotId, first, 1, session, now);
    var d := Transfer(digest, c, m, first, session, now).0;
    TransferSucceedsIffNotEmpty(digest, d, slotId, second, 1, session, now);
    var e := Transfer(digest, d, n, second, session, now).0;
    var name := NameOfBackup(session, slotId, now);
    assert Holds(d.disk, name, slotId, before);
    assert e.disk.backups == c.disk.backups[name := before][name := first];
    forall kept | kept != name
      ensures Holds(e.disk, kept, slotId, before) <==> Holds(c.disk, kept, slotId, before)
    {
    }
  }

  const SLOT := "Slot_1"
  const ONE_SAVE := Client(Disk(map[], map[SLOT := [1]], map[]), None)

  // There is such a run: save 1 is in place, and saves 2 and 3 arrive within a second.
  lemma TwoTransfersWithinASecond(digest: Bytes -> string)
    requires |digest([2])| == |digest([3])| == HASH_LENGTH
    ensures var m := ManifestOf(SLOT, [2], 1, digest([2])).value;
            var n := ManifestOf(SLOT, [3], 1, digest([3])).value;
            var d := Transfer(digest, ONE_SAVE, m, [2], "lan", 0).0;
            var e := Transfer(digest, d, n, [3], "lan", 0).0;
            Survives(ONE_SAVE.disk, SLOT, [1]) && !Survives(e.disk, SLOT, [1])
  {
    assert |SLOT| == 6 && "Slot_" <= SLOT && SLOT[5] == '1';
    SecondTransferLosesTheFirst(digest, ONE_SAVE, SLOT, [2], [3], "lan", 0);
  }

  // ------------------------------------------------------------- verified content

  // A valid manifest for this slot, with this hash, was received before step k.
  ghost predicate Announced(run: seq<Event>, k: nat, slotId: string, hash: string)
    requires k <= |run|
  {
    exists j :: 0 <= j < k && run[j].GotManifest? && IsValid(run[j].manifest) &&
                run[j].manifest.slotId == slotId && run[j].manifest.sha256 == hash
  }

  lemma {:induction false} ReceiverWasAnnounced(digest: Bytes -> string, start: Client, run: seq<Event>, k: nat)
    requires k <= |run| && start.receiver == None && StateAt(digest, start, run, k).receiver.Some?
    ensures var r := StateAt(digest, start, run, k).receiver.value; Announced(run, k, r.slotId, r.expectedHash)
  {
    var before := StateAt(digest, start, run, k - 1);
    if !(run[k - 1].GotManifest? && IsValid(run[k - 1].manifest)) {
      ReceiverWasAnnounced(digest, start, run, k - 1);
      var r := before.receiver.value;
      var j :| 0 <= j < k - 1 && run[j].GotManifest? && IsValid(run[j].manifest) &&
               run[j].manifest.slotId == r.slotId && run[j].manifest.sha256 == r.expectedHash;
    } else {
      assert run[k - 1].manifest.slotId == StateAt(digest, start, run, k).receiver.value.slotId;
    }
  }

  // Every final file is the one the run started with, or has the digest of a manifest received
  // for its slot: the sender's file, if digests do not collide.
  lemma {:induction false} FinalsAreOldOrVerified(
    digest: Bytes -> string, start: Client, run: seq<Event>, k: nat, slotId: string)
    requires k <= |run| && start.receiver == None && slotId in StateAt(digest, start, run, k).disk.finals
    ensures var content := StateAt(digest, start, run, k).disk.finals[slotId];
            (slotId in start.disk.finals && start.disk.finals[slotId] == content) ||
            Announced(run, k, slotId, digest(content))
  {
    if k > 0 {
      var before, after := StateAt(digest, start, run, k - 1), StateAt(digest, start, run, k);
      FinalsChangeOnlyOnCommit(digest, before, run[k - 1]);
      if slotId in before.disk.finals && before.disk.finals[slotId] == after.disk.finals[slotId] {
        FinalsAreOldOrVerified(digest, start, run, k - 1, slotId);
        AnnouncedStays(run, k - 1, slotId, digest(after.disk.finals[slotId]));
      } else {
        ReceiverWasAnnounced(digest, start, run, k - 1);
        AnnouncedStays(run, k - 1, slotId, before.receiver.value.expectedHash);
      }
    }
  }

  lemma AnnouncedStays(run: seq<Event>, k: nat, slotId: string, hash: string)
    requires k < |run|
    ensures Announced(run, k, slotId, hash) ==> Announced(run, k + 1, slotId, hash)
  {
  }
}
