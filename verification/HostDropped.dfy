// A disciplined run in which the host's own player is dropped: somebody asks to join under the
// host's name, is refused, and the name is removed from the session. The resume then does not
// wait for the host's zone, and does not release the guest.
module HostDropped {
  import opened Common
  import opened Wire
  import opened HostRuns
  import opened World
  import T = Travel
  import C = ClientStream
  import opened Resume
  import opened GuestRuns

  const RUN: seq<Step> := PREPARING + [
    HostTakes(""),                     // the host's ready is counted
    NetReady(GUEST, "txn", 1),         // everybody is ready: begin and commit are broadcast
    Leave(HOST),                       // the refused join drops the host's own player
    NetZoneReady(GUEST, "txn", 1),     // everybody listed has arrived: resume is broadcast
    Deliver(GUEST), Deliver(GUEST), Deliver(GUEST),
    Deliver(GUEST)]                    // the guest reads the resume

  const LOG := [PROPOSAL, ViewBatch(1, Begin), COMMIT, Message.Resume(1)]

  const BOTH: set<PlayerId> := {HOST, GUEST}

  lemma HostLeaves(w: World)
    requires Looks(w, BOTH, Txn(BOTH, T.WaitingZoneReady, BOTH, {}), LOG[..3], [], JOINED)
    ensures Looks(Next(w, Leave(HOST)), {GUEST}, Txn({GUEST}, T.WaitingZoneReady, {GUEST}, {}), LOG[..3], [], JOINED)
  {
    assert |HOST| != |GUEST|;
    assert BOTH - {HOST} == {GUEST} && {} - {HOST} == {};
    assert JOINED - {HOST} == JOINED;
  }

  lemma Resumes(w: World)
    requires Looks(w, {GUEST}, Txn({GUEST}, T.WaitingZoneReady, {GUEST}, {}), LOG[..3], [], JOINED)
    ensures HasRead(Next(w, NetZoneReady(GUEST, "txn", 1)), LOG, 0, C.FRESH)
  {
    assert |HOST| != |GUEST|;
    assert {} + {GUEST} == {GUEST};
    assert LOG[..3] + [Message.Resume(1)] == LOG;
  }

  lemma UntilCommit()
    ensures Looks(WorldAt(RUN, 5), BOTH, Txn(BOTH, T.WaitingZoneReady, BOTH, {}), LOG[..3], [], JOINED)
  {
    UntilPrepared(RUN);
    AtStep(RUN, 3);
    AtStep(RUN, 4);
    assert [GameReady("txn", 1)] + [] == [GameReady("txn", 1)];
    HostReady(WorldAt(RUN, 3), []);
    GuestReady(WorldAt(RUN, 4), [PROPOSAL], []);
    assert LOG[..3] == [PROPOSAL] + [ViewBatch(1, Begin)] + [COMMIT];
  }

  lemma UntilResume()
    ensures HasRead(WorldAt(RUN, 7), LOG, 0, C.FRESH)
  {
    UntilCommit();
    AtStep(RUN, 5);
    AtStep(RUN, 6);
    HostLeaves(WorldAt(RUN, 5));
    Resumes(WorldAt(RUN, 6));
  }

  lemma {:induction false} WhileReading(n: nat) returns (c: C.Client)
    requires n <= 3
    ensures ReadAt(RUN, 7 + n, LOG, n, c)
  {
    if n == 0 {
      UntilResume();
      c := C.FRESH;
    } else {
      var b := WhileReading(n - 1);
      c := ReadsOne(RUN, 6 + n, LOG, n - 1, b);
    }
  }

  // No zone loads early, and still the guest, in epoch 1, reads Resume(1) and goes on buffering.
  lemma DroppedHostLeavesTheGuestBuffering()
    ensures RUN[10] == Deliver(GUEST) && ResumeIsNext(WorldAt(RUN, 10), GUEST)
    ensures GUEST in WorldAt(RUN, 11).clients && WorldAt(RUN, 11).clients[GUEST].client.buffering
    ensures Disciplined(RUN, |RUN|) && !HostStays(RUN, 6)
  {
    var c := WhileReading(3);
    MarksOfTheLog();
    KeepsBuffering(RUN, 10, LOG, 3, c);
    NeverLoads();
    assert RUN[5] == Leave(HOST);
  }

  lemma NeverLoads()
    ensures Disciplined(RUN, |RUN|)
  {
    assert forall i | 0 <= i < |RUN| :: RUN[i] != SpinUp;
  }

  lemma MarksOfTheLog()
    ensures !BatchDone(LOG[..3])
  {
    assert LOG[..3][..2] == LOG[..2];
    assert !BatchDone(LOG[..2]);
  }
}
