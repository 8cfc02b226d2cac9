// Chunked save transfer: kermp/save_sync.py, the sending loop in kermp/net.py and the save
// handlers of ClientRuntime in kermp/runtime.py.
module SaveSync {
  import opened Common

  type Bytes = seq<bv8>

  const MAX_CHUNK_SIZE := 256 * 1024
  const HASH_LENGTH := 64

  datatype Manifest = Manifest(slotId: string, totalBytes: int, chunkSize: int, chunkCount: int, sha256: string)

  datatype SaveFault = InvalidChunkSize | InvalidManifest | NotStarted | BadEncoding
    | OutOfOrder | Oversized | Short | HashMismatch | NoPartialFile

  // ------------------------------------------------------------------ the sender

  // How many chunks a file of this size takes: size / chunkSize, rounded up.
  function ChunkCount(size: nat, chunkSize: int): nat
    requires chunkSize >= 1
  {
    (size + chunkSize - 1) / chunkSize
  }

  function ManifestOf(slotId: string, content: Bytes, chunkSize: int, sha256: string): Result<Manifest, SaveFault> {
    if !(1 <= chunkSize <= MAX_CHUNK_SIZE) then Err(InvalidChunkSize)
    else Ok(Manifest(slotId, |content|, chunkSize, ChunkCount(|content|, chunkSize), sha256))
  }

  // The file cut into full chunks and a last one.
  function Cut(content: Bytes, chunkSize: int): seq<Bytes>
    requires chunkSize >= 1
  {
    if content == [] then []
    else if |content| <= chunkSize then [content]
    else [content[..chunkSize]] + Cut(content[chunkSize..], chunkSize)
  }

  lemma Multiples(d: int, q: int, p: int)
    requires d >= 1 && q < p
    ensures d * q + d <= d * p
  {
    assert d * p - (d * q + d) == d * (p - q - 1);
  }

  // Quotient and remainder are unique.
  lemma Quotient(n: int, d: int, q: int)
    requires d >= 1 && d * q <= n < d * q + d
    ensures n / d == q
  {
    var p := n / d;
    assert d * p <= n < d * p + d;
    if q < p {
      Multiples(d, q, p);
    } else if p < q {
      Multiples(d, p, q);
    }
  }

  lemma DivideStep(n: int, d: int)
    requires d >= 1
    ensures (n + d) / d == n / d + 1
  {
    var p := n / d;
    assert d * (p + 1) == d * p + d;
    Quotient(n + d, d, p + 1);
  }

  lemma {:induction false} CutHasChunkCount(content: Bytes, chunkSize: int)
    requires chunkSize >= 1
    ensures |Cut(content, chunkSize)| == ChunkCount(|content|, chunkSize)
    decreases |content|
  {
    var n := |content|;
    if n == 0 {
    } else if n <= chunkSize {
      DivideStep(n - 1, chunkSize);
    } else {
      CutHasChunkCount(content[chunkSize..], chunkSize);
      DivideStep(n - 1, chunkSize);
    }
  }

  // The sending loop: read up to chunkSize bytes, chunkCount times.
  method ReadChunks(content: Bytes, chunkSize: int) returns (chunks: seq<Bytes>)
    requires chunkSize >= 1
    ensures chunks == Cut(content, chunkSize)
  {
    chunks := [];
    var position := 0;
    CutHasChunkCount(content, chunkSize);
    for i := 0 to ChunkCount(|content|, chunkSize)
      invariant 0 <= position <= |content|
      invariant chunks + Cut(content[position..], chunkSize) == Cut(content, chunkSize)
      invariant |chunks| == i
    {
      var stop := if position + chunkSize <= |content| then position + chunkSize else |content|;
      var raw := content[position..stop];
      var rest := content[position..];
      assert rest != [] by {
        assert |chunks + Cut(rest, chunkSize)| == ChunkCount(|content|, chunkSize);
      }
      if chunkSize < |rest| {
        assert rest[..chunkSize] == raw && rest[chunkSize..] == content[stop..];
      } else {
        assert rest == raw && content[stop..] == [];
      }
      assert Cut(rest, chunkSize) == [raw] + Cut(content[stop..], chunkSize);
      chunks := chunks + [raw];
      position := stop;
    }
    assert |Cut(content[position..], chunkSize)| == 0;
  }

  // ---------------------------------------------------------------- the receiver

  // A backup is kept in the folder of its session, under the name of its slot and the second
  // in which it was made.
  datatype BackupName = BackupName(session: string, slotId: string, second: int)

  // The saves folder: partial and final files by slot, and backups by name.
  datatype Disk = Disk(partials: map<string, Bytes>, finals: map<string, Bytes>, backups: map<BackupName, Bytes>)

  function NameOfBackup(session: string, slotId: string, second: int): BackupName {
    BackupName(if session == "" then "unknown" else session, slotId, second)
  }

  datatype Receiver = Receiver(
    slotId: string, total: int, chunkSize: int, chunkCount: int, expectedHash: string,
    nextIndex: nat, received: nat)

  predicate IsHexDigit(c: char) {
    '0' <= c <= '9' || 'A' <= c <= 'F' || 'a' <= c <= 'f'
  }

  predicate IsSlotId(s: string) {
    "Slot_" <= s && |s| > 5 && forall i | 5 <= i < |s| :: IsHexDigit(s[i])
  }

  predicate IsValid(m: Manifest) {
    IsSlotId(m.slotId) && m.totalBytes >= 0 && 1 <= m.chunkSize <= MAX_CHUNK_SIZE && m.chunkCount >= 0 &&
    |m.sha256| == HASH_LENGTH
  }

  function NewReceiver(m: Manifest): Receiver {
    Receiver(m.slotId, m.totalBytes, m.chunkSize, m.chunkCount, m.sha256, 0, 0)
  }

  function Unlink(d: Disk, slotId: string): Disk {
    d.(partials := d.partials - {slotId})
  }

  function PartialOf(d: Disk, slotId: string): Bytes {
    if slotId in d.partials then d.partials[slotId] else []
  }

  function ChunkFault(r: Receiver, index: int, data: Bytes): Option<SaveFault> {
    if index != r.nextIndex then Some(OutOfOrder)
    else if |data| > r.chunkSize || r.received + |data| > r.total then Some(Oversized)
    else if index != r.chunkCount - 1 && |data| != r.chunkSize then Some(Short)
    else None
  }

  function Written(d: Disk, r: Receiver, data: Bytes): (Disk, Receiver) {
    (d.(partials := d.partials[r.slotId := PartialOf(d, r.slotId) + data]),
     r.(nextIndex := r.nextIndex + 1, received := r.received + |data|))
  }

  // Commits the partial file, or says why not. The second component tells whether the old
  // final file was backed up. `second` is the clock reading for the backup's name.
  function Finalize(digest: Bytes -> string, d: Disk, r: Receiver, session: string, second: int)
    : (Disk, Result<bool, SaveFault>)
  {
    if r.nextIndex != r.chunkCount || r.received != r.total then (Unlink(d, r.slotId), Err(HashMismatch))
    else if r.slotId !in d.partials then (d, Err(NoPartialFile))
    else if digest(d.partials[r.slotId]) != r.expectedHash then (Unlink(d, r.slotId), Err(HashMismatch))
    else
      var existed := r.slotId in d.finals;
      (Disk(d.partials - {r.slotId}, d.finals[r.slotId := d.partials[r.slotId]],
            if existed then d.backups[NameOfBackup(session, r.slotId, second) := d.finals[r.slotId]] else d.backups),
       Ok(existed))
  }

  // ------------------------------------------------------------- the client's handlers

  datatype Client = Client(disk: Disk, receiver: Option<Receiver>)

  datatype Event =
    | GotManifest(manifest: Manifest)
    | GotChunk(index: int, data: Option<Bytes>)      // None: the base64 text does not decode
    | GotEnd(session: string, second: int)

  datatype Reply =
    | Progress(received: nat)
    | Fault(fault: SaveFault)
    | Ack(slotId: string, sha256: string, total: int, backedUp: bool)

  function Handle(digest: Bytes -> string, c: Client, e: Event): (Client, Reply) {
    match e
    case GotManifest(m) =>
      if !IsValid(m) then (c, Fault(InvalidManifest))
      else (Client(Unlink(c.disk, m.slotId), Some(NewReceiver(m))), Progress(0))
    case GotChunk(index, data) =>
      if c.receiver.None? then (c, Fault(NotStarted)) else
      var r := c.receiver.value;
      if data.None? then (c.(disk := Unlink(c.disk, r.slotId)), Fault(BadEncoding)) else
      var fault := ChunkFault(r, index, data.value);
      if fault.Some? then (c.(disk := Unlink(c.disk, r.slotId)), Fault(fault.value)) else
      var (d, s) := Written(c.disk, r, data.value);
      (Client(d, Some(s)), Progress(s.received))
    case GotEnd(session, second) =>
      if c.receiver.None? then (c, Fault(NotStarted)) else
      var r := c.receiver.value;
      var (d, outcome) := Finalize(digest, c.disk, r, session, second);
      var reply :=
        match outcome
        case Ok(existed) => Ack(r.slotId, r.expectedHash, r.total, existed)
        case Err(fault) => Fault(fault);
      (Client(d, None), reply)
  }

  // ----------------------------------------------------------- the objects themselves

  // The folder as the file system holds it.
  class SavesFolder {
    var partials: map<string, Bytes>
    var finals: map<string, Bytes>
    var backups: map<BackupName, Bytes>

    function State(): Disk
      reads this
    {
      Disk(partials, finals, backups)
    }

    constructor (finals: map<string, Bytes>)
      ensures State() == Disk(map[], finals, map[])
    {
      this.partials, this.finals, this.backups := map[], finals, map[];
    }
  }

  class SaveReceiver {
    const folder: SavesFolder
    const manifest: Manifest
    var nextIndex: nat
    var received: nat

    ghost function State(): Receiver
      reads this
    {
      NewReceiver(manifest).(nextIndex := nextIndex, received := received)
    }

    constructor (folder: SavesFolder, manifest: Manifest)
      requires IsValid(manifest)
      modifies folder
      ensures State() == NewReceiver(manifest) && this.folder == folder
      ensures folder.State() == Unlink(old(folder.State()), manifest.slotId)
    {
      this.folder, this.manifest := folder, manifest;
      nextIndex, received := 0, 0;
      new;
      folder.partials := folder.partials - {manifest.slotId};
    }

    method WriteChunk(index: int, data: Bytes) returns (fault: Option<SaveFault>)
      modifies this, folder
      ensures fault == ChunkFault(old(State()), index, data)
      ensures (folder.State(), State()) ==
              if fault.None? then Written(old(folder.State()), old(State()), data)
              else (old(folder.State()), old(State()))
    {
      if index != nextIndex {
        return Some(OutOfOrder);
      }
      if |data| > manifest.chunkSize || received + |data| > manifest.totalBytes {
        return Some(Oversized);
      }
      var expectedFinal := index == manifest.chunkCount - 1;
      if !expectedFinal && |data| != manifest.chunkSize {
        return Some(Short);
      }
      folder.partials := folder.partials[manifest.slotId := PartialOf(folder.State(), manifest.slotId) + data];
      nextIndex := nextIndex + 1;
      received := received + |data|;
      return None;
    }

    method Abort()
      modifies folder
      ensures folder.State() == Unlink(old(folder.State()), manifest.slotId)
    {
      folder.partials := folder.partials - {manifest.slotId};
    }

    method Commit(digest: Bytes -> string, session: string, second: int) returns (outcome: Result<bool, SaveFault>)
      modifies folder
      ensures (folder.State(), outcome) == Finalize(digest, old(folder.State()), State(), session, second)
    {
      if nextIndex != manifest.chunkCount || received != manifest.totalBytes {
        Abort();
        return Err(HashMismatch);
      }
      var slotId := manifest.slotId;
      if slotId !in folder.partials {
        return Err(NoPartialFile);
      }
      if digest(folder.partials[slotId]) != manifest.sha256 {
        Abort();
        return Err(HashMismatch);
      }
      var existed := slotId in folder.finals;
      if existed {
        folder.backups := folder.backups[NameOfBackup(session, slotId, second) := folder.finals[slotId]];
      }
      folder.finals := folder.finals[slotId := folder.partials[slotId]];
      folder.partials := folder.partials - {slotId};
      return Ok(existed);
    }
  }

  class SaveClient {
    const folder: SavesFolder
    const digest: Bytes -> string
    var receiver: SaveReceiver?

    ghost predicate Valid()
      reads this, receiver
    {
      receiver != null ==> receiver.folder == folder
    }

    ghost function State(): Client
      reads this, folder, receiver
    {
      Client(folder.State(), if receiver == null then None else Some(receiver.State()))
    }

    constructor (folder: SavesFolder, digest: Bytes -> string)
      ensures Valid() && this.folder == folder && this.digest == digest
      ensures State() == Client(folder.State(), None)
    {
      this.folder, this.digest, receiver := folder, digest, null;
    }

    method OnManifest(m: Manifest) returns (reply: Reply)
      requires Valid()
      modifies this, folder
      ensures Valid() && (State(), reply) == Handle(digest, old(State()), GotManifest(m))
    {
      if !IsValid(m) {
        return Fault(InvalidManifest);
      }
      receiver := new SaveReceiver(folder, m);
      return Progress(0);
    }

    method OnChunk(index: int, data: Option<Bytes>) returns (reply: Reply)
      requires Valid()
      modifies this, folder, receiver
      ensures Valid() && (State(), reply) == Handle(digest, old(State()), GotChunk(index, data))
    {
      if receiver == null {
        return Fault(NotStarted);
      }
      if data.None? {
        receiver.Abort();
        return Fault(BadEncoding);
      }
      var fault := receiver.WriteChunk(index, data.value);
      if fault.Some? {
        receiver.Abort();
        return Fault(fault.value);
      }
      return Progress(receiver.received);
    }

    method OnEnd(session: string, second: int) returns (reply: Reply)
      requires Valid()
      modifies this, folder
      ensures Valid() && (State(), reply) == Handle(digest, old(State()), GotEnd(session, second))
    {
      if receiver == null {
        return Fault(NotStarted);
      }
      var outcome := receiver.Commit(digest, session, second);
      if outcome.Ok? {
        reply := Ack(receiver.manifest.slotId, receiver.manifest.sha256, receiver.manifest.totalBytes, outcome.value);
      } else {
        reply := Fault(outcome.error);
      }
      receiver := null;
    }
  }
}
