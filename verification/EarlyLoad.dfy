// A run that the discipline rules out: the host's game finishes loading a zone after its
// prepare and before its commit, and the resume does not release the guest.
module EarlyLoad {
  import opened Common
  import opened Wire
  import opened HostSide
  import opened HostRuns
  import opened World
  import T = Travel
  import C = ClientStream
  import opened Resume
  import opened GuestRuns

  const RUN: seq<Step> := PREPARING + [
    SpinUp,                            // too early: announces the end of the batch, and the zone
    HostTakes(""),                     // the host's ready is counted
    HostTakes(""),                     // the end is broadcast
    NetReady(GUEST, "txn", 1),         // everybody is ready: begin and commit are broadcast
    HostTakes(""),                     // the host's early zone-ready is counted
    NetZoneReady(GUEST, "txn", 1),     // everybody has arrived: resume is broadcast
    Deliver(GUEST), Deliver(GUEST), Deliver(GUEST), Deliver(GUEST),
    Deliver(GUEST)]                    // the guest reads the resume

  const LOG := [PROPOSAL, ViewBatch(1, End), ViewBatch(1, Begin), COMMIT, Message.Resume(1)]

  const BOTH: set<PlayerId> := {HOST, GUEST}

  const EARLY: seq<GameEvent> := [GameBatch(1, End), GameZoneReady("txn", 1)]

  lemma LoadsEarly(w: World)
    requires Prepared(w)
    ensures Looks(Next(w, SpinUp), BOTH, Txn(BOTH, T.WaitingReady, {}, {}), [PROPOSAL],
                  [GameReady("txn", 1)] + EARLY, JOINED)
  {
  }

  lemma EndSent(w: World)
    requires Looks(w, BOTH, Txn(BOTH, T.WaitingReady, {HOST}, {}), [PROPOSAL], EARLY, JOINED)
    ensures Looks(Next(w, HostTakes("")), BOTH, Txn(BOTH, T.WaitingReady, {HOST}, {}), LOG[..2],
                  [GameZoneReady("txn", 1)], JOINED)
  {
    assert w.fromGame[1..] == [GameZoneReady("txn", 1)];
    assert LOG[..2] == [PROPOSAL] + [ViewBatch(1, End)];
  }

  lemma HostArrives(w: World)
    requires Looks(w, BOTH, Txn(BOTH, T.WaitingZoneReady, BOTH, {}), LOG[..4], [GameZoneReady("txn", 1)], JOINED)
    ensures Looks(Next(w, HostTakes("")), BOTH, Txn(BOTH, T.WaitingZoneReady, BOTH, {HOST}), LOG[..4], [], JOINED)
  {
    assert w.fromGame[1..] == [];
    assert |HOST| != |GUEST|;
    assert GUEST !in {HOST} && {} + {HOST} == {HOST};
    assert OnZoneReady(w.host, HOST, "txn", 1).travel == Txn(BOTH, T.WaitingZoneReady, BOTH, {HOST});
  }

  lemma Resumes(w: World)
    requires Looks(w, BOTH, Txn(BOTH, T.WaitingZoneReady, BOTH, {HOST}), LOG[..4], [], JOINED)
    ensures HasRead(Next(w, NetZoneReady(GUEST, "txn", 1)), LOG, 0, C.FRESH)
  {
    assert {HOST} + {GUEST} == BOTH;
    assert LOG[..4] + [Message.Resume(1)] == LOG;
  }

  lemma UntilSpinUp()
    ensures Prepared(WorldAt(RUN, 3))
    ensures Looks(WorldAt(RUN, 4), BOTH, Txn(BOTH, T.WaitingReady, {}, {}), [PROPOSAL],
                  [GameReady("txn", 1)] + EARLY, JOINED)
  {
    UntilPrepared(RUN);
    AtStep(RUN, 3);
    LoadsEarly(WorldAt(RUN, 3));
  }

  lemma UntilCommit()
    ensures Looks(WorldAt(RUN, 7), BOTH, Txn(BOTH, T.WaitingZoneReady, BOTH, {}), LOG[..4],
                  [GameZoneReady("txn", 1)], JOINED)
  {
    UntilSpinUp();
    AtStep(RUN, 4);
    AtStep(RUN, 5);
    AtStep(RUN, 6);
    HostReady(WorldAt(RUN, 4), EARLY);
    EndSent(WorldAt(RUN, 5));
    GuestReady(WorldAt(RUN, 6), LOG[..2], [GameZoneReady("txn", 1)]);
    assert LOG[..4] == LOG[..2] + [ViewBatch(1, Begin)] + [COMMIT];
  }

  lemma UntilResume()
    ensures HasRead(WorldAt(RUN, 9), LOG, 0, C.FRESH)
  {
    UntilCommit();
    AtStep(RUN, 7);
    AtStep(RUN, 8);
    HostArrives(WorldAt(RUN, 7));
    Resumes(WorldAt(RUN, 8));
  }

  lemma {:induction false} WhileReading(n: nat) returns (c: C.Client)
    requires n <= 4
    ensures ReadAt(RUN, 9 + n, LOG, n, c)
  {
    if n == 0 {
      UntilResume();
      c := C.FRESH;
    } else {
      var b := WhileReading(n - 1);
      c := ReadsOne(RUN, 8 + n, LOG, n - 1, b);
    }
  }

  // The guest, in epoch 1, reads Resume(1) and goes on buffering.
  lemma EarlyLoadLeavesTheGuestBuffering()
    ensures RUN[13] == Deliver(GUEST) && ResumeIsNext(WorldAt(RUN, 13), GUEST)
    ensures GUEST in WorldAt(RUN, 14).clients && WorldAt(RUN, 14).clients[GUEST].client.buffering
    ensures HostStays(RUN, |RUN|) && !Disciplined(RUN, 4)
  {
    var c := WhileReading(4);
    MarksOfTheLog();
    KeepsBuffering(RUN, 13, LOG, 4, c);
    LoadsTooEarly();
    NobodyLeaves();
  }

  lemma NobodyLeaves()
    ensures HostStays(RUN, |RUN|)
  {
    assert forall i | 0 <= i < |RUN| :: !RUN[i].Leave?;
  }

  lemma LoadsTooEarly()
    ensures !Disciplined(RUN, 4)
  {
    UntilSpinUp();
    assert !LoadsInTime(RUN, 3);
  }

  lemma MarksOfTheLog()
    ensures !BatchDone(LOG[..4])
  {
    assert LOG[..4][..3] == LOG[..3];
    assert !BatchDone(LOG[..3]);
  }
}
