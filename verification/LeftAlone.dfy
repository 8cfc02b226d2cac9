// The run in which a departure opens the first barrier: the host is ready, the guest leaves,
// and no commit is ever broadcast.
module LeftAlone {
  import opened Common
  import opened HostSide
  import opened HostRuns
  import opened World
  import T = Travel
  import opened Departures
  import opened GuestRuns

  const RUN: seq<Step> := PREPARING + [
    HostTakes(""),                     // the host's ready is counted
    Leave(GUEST)]                      // nobody is missing any more

  const BOTH: set<PlayerId> := {HOST, GUEST}

  lemma GuestLeaves(w: World)
    requires Looks(w, BOTH, Txn(BOTH, T.WaitingReady, {HOST}, {}), [PROPOSAL], [], JOINED)
    ensures Looks(Next(w, Leave(GUEST)), {HOST}, Txn({HOST}, T.Committed, {HOST}, {}), [PROPOSAL], [], map[])
    ensures LastUnreadyLeaves(w.host, PlayerLeft(GUEST), 1)
  {
    assert |HOST| != |GUEST|;
    assert BOTH - {GUEST} == {HOST} && {HOST} - {GUEST} == {HOST} && {} - {GUEST} == {};
    assert JOINED - {GUEST} == map[];
  }

  lemma UntilDeparture()
    ensures Looks(WorldAt(RUN, 4), BOTH, Txn(BOTH, T.WaitingReady, {HOST}, {}), [PROPOSAL], [], JOINED)
  {
    UntilPrepared(RUN);
    AtStep(RUN, 3);
    assert [GameReady("txn", 1)] + [] == [GameReady("txn", 1)];
    HostReady(WorldAt(RUN, 3), []);
  }

  // After it the travel is committed, only the proposal has been broadcast, and however the
  // run goes on, no commit of this travel will be.
  lemma DepartureCommitsInSilence(more: seq<Step>)
    ensures Looks(WorldAt(RUN, 5), {HOST}, Txn({HOST}, T.Committed, {HOST}, {}), [PROPOSAL], [], map[])
    ensures NoCommit(WorldAt(RUN + more, 5 + |more|).host.log, 1)
  {
    UntilDeparture();
    AtStep(RUN, 4);
    GuestLeaves(WorldAt(RUN, 4));
    SameStart(RUN, more, 4);
    NothingIsAnnounced(RUN + more, 4, 5 + |more|, 1, true);
  }

  lemma {:induction false} SameStart(run: seq<Step>, more: seq<Step>, k: nat)
    requires k <= |run|
    ensures WorldAt(run + more, k) == WorldAt(run, k)
  {
    if k > 0 {
      SameStart(run, more, k - 1);
    }
  }
}
