// What the client's answers during a save transfer mean, over any schedule of messages.
module SaveLaws {
  import opened Common
  import opened SaveSync
  import opened SaveRuns

  // The sender announces a file exactly for chunk sizes from one to the maximum, and then says
  // truly what it will send: the slot, the length, and as many chunks as it cuts.
  lemma AnnouncedTruly(slotId: string, content: Bytes, chunkSize: int, sha256: string)
    ensures var m := ManifestOf(slotId, content, chunkSize, sha256);
            && (m.Ok? <==> 1 <= chunkSize <= MAX_CHUNK_SIZE)
            && (m.Ok? ==>
                  && m.value.slotId == slotId && m.value.sha256 == sha256 && m.value.chunkSize == chunkSize
                  && m.value.totalBytes == |content| && m.value.chunkCount == |Cut(content, chunkSize)|)
  {
    if 1 <= chunkSize {
      CutHasChunkCount(content, chunkSize);
    }
  }

  // Event j is a valid manifest, and no later event before k starts or ends a transfer.
  ghost predicate TransferSince(run: seq<Event>, j: nat, k: nat) {
    && j < k <= |run| && run[j].GotManifest? && IsValid(run[j].manifest)
    && forall i | j < i < k :: !run[i].GotEnd? && !(run[i].GotManifest? && IsValid(run[i].manifest))
  }

  ghost predicate TakenAt(digest: Bytes -> string, start: Client, run: seq<Event>, i: nat) {
    i < |run| && run[i].GotChunk? && run[i].data.Some? && ReplyAt(digest, start, run, i).Progress?
  }

  ghost predicate RefusedAt(digest: Bytes -> string, start: Client, run: seq<Event>, i: nat) {
    i < |run| && run[i].GotChunk? && !ReplyAt(digest, start, run, i).Progress?
  }

  // The bytes of the chunks that were accepted from event i up to k, one after the other.
  ghost function Taken(digest: Bytes -> string, start: Client, run: seq<Event>, i: nat, k: nat): Bytes
    requires i <= k <= |run|
  {
    if k == i then []
    else if TakenAt(digest, start, run, k - 1) then Taken(digest, start, run, i, k - 1) + run[k - 1].data.value
    else Taken(digest, start, run, i, k - 1)
  }

  ghost function HowManyTaken(digest: Bytes -> string, start: Client, run: seq<Event>, i: nat, k: nat): nat
    requires i <= k <= |run|
  {
    if k == i then 0
    else HowManyTaken(digest, start, run, i, k - 1) + (if TakenAt(digest, start, run, k - 1) then 1 else 0)
  }

  // The receiver of a transfer under this manifest.
  ghost predicate Receives(c: Client, m: Manifest, partial: Bytes, count: nat, received: nat) {
    && c.receiver == Some(NewReceiver(m).(nextIndex := count, received := received))
    && PartialOf(c.disk, m.slotId) == partial
  }

  // What one event does to it: a chunk is accepted exactly if it is the next one, fits, and is
  // full unless it is the last; every other chunk costs the bytes kept so far, but not the count.
  lemma EventReceives(
    digest: Bytes -> string, c: Client, e: Event, m: Manifest, partial: Bytes, count: nat, received: nat)
    requires Receives(c, m, partial, count, received)
    requires !e.GotEnd? && !(e.GotManifest? && IsValid(e.manifest))
    ensures var (d, reply) := Handle(digest, c, e);
            if e.GotManifest? then Receives(d, m, partial, count, received)
            else if e.data.Some? && e.index == count && |e.data.value| <= m.chunkSize
                    && received + |e.data.value| <= m.totalBytes
                    && (count == m.chunkCount - 1 || |e.data.value| == m.chunkSize) then
              && reply == Progress(received + |e.data.value|)
              && Receives(d, m, partial + e.data.value, count + 1, received + |e.data.value|)
            else
              && reply == Fault(WhyRefused(m, e, count, received))
              && Receives(d, m, [], count, received)
  {
  }

  function WhyRefused(m: Manifest, e: Event, count: nat, received: nat): SaveFault
    requires e.GotChunk?
  {
    if e.data.None? then BadEncoding
    else if e.index != count then OutOfOrder
    else if |e.data.value| > m.chunkSize || received + |e.data.value| > m.totalBytes then Oversized
    else Short
  }

  // A valid manifest begins a transfer at nothing, dropping any other; nothing else begins one.
  lemma ManifestBegins(
    digest: Bytes -> string, c: Client, m: Manifest, index: int, data: Option<Bytes>, session: string, now: int)
    ensures var (d, reply) := Handle(digest, c, GotManifest(m));
            && d.disk.finals == c.disk.finals && d.disk.backups == c.disk.backups
            && (if IsValid(m) then reply == Progress(0) && Receives(d, m, [], 0, 0)
                else d == c && reply == Fault(InvalidManifest))
    ensures c.receiver == None ==>
              && Handle(digest, c, GotChunk(index, data)) == (c, Fault(NotStarted))
              && Handle(digest, c, GotEnd(session, now)) == (c, Fault(NotStarted))
  {
  }

  // Why the end of a transfer is refused, and that it costs the partial file alone.
  lemma EndIsRefused(
    digest: Bytes -> string, c: Client, m: Manifest, partial: Bytes, count: nat, received: nat, session: string,
    now: int)
    requires Receives(c, m, partial, count, received) && !Handle(digest, c, GotEnd(session, now)).1.Ack?
    ensures var (d, reply) := Handle(digest, c, GotEnd(session, now));
            && d.receiver == None && d.disk.finals == c.disk.finals && d.disk.backups == c.disk.backups
            && m.slotId !in d.disk.partials
            && reply == Fault(if count == m.chunkCount && received == m.totalBytes && m.slotId !in c.disk.partials
                              then NoPartialFile else HashMismatch)
            && (count == m.chunkCount && received == m.totalBytes && partial != [] ==> digest(partial) != m.sha256)
  {
  }

  // The receiver after event k - 1 of the transfer begun by event j. Its partial file holds the
  // chunks accepted since i, which is the start of the transfer or follows its last refusal;
  // but it counts all that were accepted.
  ghost predicate ReceivesSince(digest: Bytes -> string, start: Client, run: seq<Event>, j: nat, i: nat, k: nat) {
    && TransferSince(run, j, k) && j < i <= k
    && (i == j + 1 || RefusedAt(digest, start, run, i - 1))
    && (forall n | i <= n < k :: !RefusedAt(digest, start, run, n))
    && Receives(StateAt(digest, start, run, k), run[j].manifest, Taken(digest, start, run, i, k),
                HowManyTaken(digest, start, run, j + 1, k), |Taken(digest, start, run, j + 1, k)|)
  }

  lemma ReceivesFirst(digest: Bytes -> string, start: Client, run: seq<Event>, j: nat)
    requires TransferSince(run, j, j + 1)
    ensures ReceivesSince(digest, start, run, j, j + 1, j + 1)
  {
  }

  lemma ReceivesNext(digest: Bytes -> string, start: Client, run: seq<Event>, j: nat, i: nat, k: nat)
    requires ReceivesSince(digest, start, run, j, i, k) && TransferSince(run, j, k + 1)
    ensures ReceivesSince(digest, start, run, j, if RefusedAt(digest, start, run, k) then k + 1 else i, k + 1)
  {
    EventReceives(digest, StateAt(digest, start, run, k), run[k], run[j].manifest, Taken(digest, start, run, i, k),
                  HowManyTaken(digest, start, run, j + 1, k), |Taken(digest, start, run, j + 1, k)|);
  }

  lemma {:induction false} ReceiverKeepsWhatItTook(
    digest: Bytes -> string, start: Client, run: seq<Event>, j: nat, k: nat)
    returns (i: nat)
    requires TransferSince(run, j, k)
    ensures ReceivesSince(digest, start, run, j, i, k)
    decreases k
  {
    if k == j + 1 {
      ReceivesFirst(digest, start, run, j);
      i := k;
    } else {
      var before := ReceiverKeepsWhatItTook(digest, start, run, j, k - 1);
      ReceivesNext(digest, start, run, j, before, k - 1);
      i := if RefusedAt(digest, start, run, k - 1) then k else before;
    }
  }

  // A receiver there is only while a transfer is under way.
  lemma {:induction false} TransferBegan(digest: Bytes -> string, start: Client, run: seq<Event>, k: nat)
    returns (j: nat)
    requires k <= |run| && start.receiver == None && StateAt(digest, start, run, k).receiver.Some?
    ensures TransferSince(run, j, k)
    decreases k
  {
    if run[k - 1].GotManifest? && IsValid(run[k - 1].manifest) {
      j := k - 1;
    } else {
      j := TransferBegan(digest, start, run, k - 1);
    }
  }

  // What an acknowledgement reports, when event k is the end of the transfer begun by event j.
  ghost predicate Reports(c: Client, d: Client, m: Manifest, reply: Reply, digest: Bytes -> string) {
    && reply.Ack? && reply.slotId == m.slotId && reply.sha256 == m.sha256 && reply.total == m.totalBytes
    && reply.slotId in d.disk.finals && digest(d.disk.finals[reply.slotId]) == reply.sha256
    && d.disk.finals - {reply.slotId} == c.disk.finals - {reply.slotId}
    && (reply.backedUp <==> reply.slotId in c.disk.finals)
  }

  lemma AckReportsOf(
    digest: Bytes -> string, c: Client, e: Event, m: Manifest, partial: Bytes, count: nat, received: nat)
    requires Receives(c, m, partial, count, received) && Handle(digest, c, e).1.Ack?
    ensures var (d, reply) := Handle(digest, c, e);
            && Reports(c, d, m, reply, digest) && received == m.totalBytes && count == m.chunkCount
            && d.disk.finals[m.slotId] == partial && d.receiver == None
  {
  }

  // An acknowledgement names the slot, digest and size of the manifest that began the transfer;
  // the slot's final file then has that digest and is what was accepted since the last refusal;
  // all that was accepted is as long as reported; no other final file has changed; and it says
  // truly whether there was one to back up.
  lemma AckReports(digest: Bytes -> string, start: Client, run: seq<Event>, k: nat) returns (j: nat, i: nat)
    requires k < |run| && start.receiver == None && ReplyAt(digest, start, run, k).Ack?
    ensures TransferSince(run, j, k) && ReceivesSince(digest, start, run, j, i, k)
    ensures var c, d := StateAt(digest, start, run, k), StateAt(digest, start, run, k + 1);
            var reply := ReplyAt(digest, start, run, k);
            && Reports(c, d, run[j].manifest, reply, digest)
            && d.disk.finals[reply.slotId] == Taken(digest, start, run, i, k)
            && |Taken(digest, start, run, j + 1, k)| == reply.total
            && HowManyTaken(digest, start, run, j + 1, k) == run[j].manifest.chunkCount
  {
    j := TransferBegan(digest, start, run, k);
    i := ReceiverKeepsWhatItTook(digest, start, run, j, k);
    AckReportsOf(digest, StateAt(digest, start, run, k), run[k], run[j].manifest, Taken(digest, start, run, i, k),
                 HowManyTaken(digest, start, run, j + 1, k), |Taken(digest, start, run, j + 1, k)|);
  }

  lemma {:induction false} TakenSplits(
    digest: Bytes -> string, start: Client, run: seq<Event>, j: nat, i: nat, k: nat)
    requires j <= i <= k <= |run|
    ensures Taken(digest, start, run, j, k) == Taken(digest, start, run, j, i) + Taken(digest, start, run, i, k)
    decreases k
  {
    if i < k {
      TakenSplits(digest, start, run, j, i, k - 1);
      if TakenAt(digest, start, run, k - 1) {
        var data := run[k - 1].data.value;
        assert Taken(digest, start, run, j, i) + (Taken(digest, start, run, i, k - 1) + data) ==
               Taken(digest, start, run, j, i) + Taken(digest, start, run, i, k - 1) + data;
      }
    }
  }

  // The reported size is that of the final file if and only if nothing had been accepted before
  // the transfer's last refused chunk.
  lemma SizeIsTrueIff(digest: Bytes -> string, start: Client, run: seq<Event>, k: nat, reply: Reply, d: Client)
    returns (j: nat, i: nat)
    requires k < |run| && start.receiver == None && reply.Ack?
    requires reply == ReplyAt(digest, start, run, k) && d == StateAt(digest, start, run, k + 1)
    ensures TransferSince(run, j, k) && ReceivesSince(digest, start, run, j, i, k)
    ensures reply.slotId in d.disk.finals
    ensures |d.disk.finals[reply.slotId]| == reply.total <==> Taken(digest, start, run, j + 1, i) == []
  {
    j, i := AckReports(digest, start, run, k);
    TakenSplits(digest, start, run, j + 1, i, k);
  }

  // There is an untrue report: a manifest of two bytes whose digest is that of the second one,
  // the first byte, a chunk that does not decode, the second byte.
  ghost function OneByteLost(digest: Bytes -> string, a: bv8, b: bv8): seq<Event> {
    [GotManifest(Manifest(SLOT, 2, 1, 2, digest([b]))), GotChunk(0, Some([a])), GotChunk(1, None),
     GotChunk(1, Some([b])), GotEnd("lan", 0)]
  }

  lemma OneByteIsReportedAsTwo(digest: Bytes -> string, a: bv8, b: bv8)
    requires |digest([b])| == HASH_LENGTH
    ensures var run := OneByteLost(digest, a, b);
            && ReplyAt(digest, NO_SAVES, run, 4) == Ack(SLOT, digest([b]), 2, false)
            && StateAt(digest, NO_SAVES, run, 5).disk.finals == map[SLOT := [b]]
  {
    var m := Manifest(SLOT, 2, 1, 2, digest([b]));
    assert |SLOT| == 6 && "Slot_" <= SLOT && SLOT[5] == '1';
    var run := OneByteLost(digest, a, b);
    var s1 := Handle(digest, NO_SAVES, run[0]).0;
    var s2 := Handle(digest, s1, run[1]).0;
    var s3 := Handle(digest, s2, run[2]).0;
    var s4 := Handle(digest, s3, run[3]).0;
    AtEvent(digest, run, 0);
    AtEvent(digest, run, 1);
    AtEvent(digest, run, 2);
    AtEvent(digest, run, 3);
    AtEvent(digest, run, 4);
    assert Receives(s1, m, [], 0, 0);
    EventReceives(digest, s1, run[1], m, [], 0, 0);
    EventReceives(digest, s2, run[2], m, [] + [a], 1, 1);
    EventReceives(digest, s3, run[3], m, [], 1, 1);
    assert [] + [b] == [b];
    EndsWell(digest, s4, run[4], m, [b]);
  }

  lemma AtEvent(digest: Bytes -> string, run: seq<Event>, k: nat)
    requires k < |run|
    ensures StateAt(digest, NO_SAVES, run, 0) == NO_SAVES
    ensures StateAt(digest, NO_SAVES, run, k + 1) == Handle(digest, StateAt(digest, NO_SAVES, run, k), run[k]).0
    ensures ReplyAt(digest, NO_SAVES, run, k) == Handle(digest, StateAt(digest, NO_SAVES, run, k), run[k]).1
  {
  }

  lemma EndsWell(digest: Bytes -> string, c: Client, e: Event, m: Manifest, partial: Bytes)
    requires m.chunkCount >= 0 && m.totalBytes >= 0 && e.GotEnd?
    requires Receives(c, m, partial, m.chunkCount, m.totalBytes) && partial != [] && digest(partial) == m.sha256
    ensures var (d, reply) := Handle(digest, c, e);
            && reply == Ack(m.slotId, m.sha256, m.totalBytes, m.slotId in c.disk.finals)
            && d.disk.finals == c.disk.finals[m.slotId := partial]
  {
  }

  const NO_SAVES := Client(Disk(map[], map[], map[]), None)
}
