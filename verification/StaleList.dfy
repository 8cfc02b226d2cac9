// A run that leaves a controller list stale: a player plays Sim "1", selects Sim "2", and stays
// listed for "1".
module StaleList {
  import opened Common
  import opened Session
  import opened SessionRuns
  import B = BuildSync

  const ROSTER := [Listing("1", "Ada"), Listing("2", "Bob")]
  const MOVING: seq<Event> := [Join("p"), Sims(ROSTER), Select("p", "1"), Select("p", "2")]

  const JOINED := EMPTY.(order := ["p"], active := map["p" := None])
  const LISTED := JOINED.(sims := map["1" := Sim("Ada", []), "2" := Sim("Bob", [])])
  const PLAYING := Selected(LISTED, "1")
  const MOVED := Selected(PLAYING, "2")

  // What a selection by the only player makes of the session.
  function Selected(s: State, sim: string): State
    requires sim in s.sims
  {
    s.(active := s.active["p" := Some(sim)], sims := s.sims[sim := s.sims[sim].(controllers := ["p"])])
  }

  lemma OnlyPlayer(active: map<PlayerId, Option<string>>, sim: string)
    ensures ControllersOf(["p"], active, sim) == if Plays(active, "p", sim) then ["p"] else []
  {
    assert ["p"][..0] == [];
  }

  lemma Selects(s: State, sim: string)
    requires s.order == ["p"] && "p" in s.active && sim in s.sims
    ensures SelectSim(s, "p", sim).0 == Selected(s, sim)
  {
    OnlyPlayer(s.active["p" := Some(sim)], sim);
  }

  lemma RosterIsListed()
    ensures UpdateSims(JOINED, ROSTER) == LISTED
  {
    assert ROSTER[..1] == [ROSTER[0]] && ROSTER[..1][..0] == [];
    assert "1"[0] != "2"[0];
    assert Roster(map[], ROSTER[..1]) == map["1" := Sim("Ada", [])];
    assert Roster(map[], ROSTER) == LISTED.sims;
    OnlyPlayer(JOINED.active, "1");
    OnlyPlayer(JOINED.active, "2");
    assert UpdateSims(JOINED, ROSTER).sims == LISTED.sims;
  }

  lemma MovingIsARun(cfg: B.Config)
    ensures Step(cfg, EMPTY, MOVING[0]) == JOINED && Step(cfg, JOINED, MOVING[1]) == LISTED
    ensures Step(cfg, LISTED, MOVING[2]) == PLAYING && Step(cfg, PLAYING, MOVING[3]) == MOVED
  {
    RosterIsListed();
    Selects(LISTED, "1");
    Selects(PLAYING, "2");
  }

  lemma StillListed()
    ensures MOVED.active["p"] == Some("2") && MOVED.sims["1"].controllers == ["p"] && !Exact(MOVED, "1")
  {
    assert "1"[0] != "2"[0];
    OnlyPlayer(MOVED.active, "1");
  }

  const STATES: seq<State> := [EMPTY, JOINED, LISTED, PLAYING, MOVED]

  lemma StepFollows(cfg: B.Config, k: nat)
    requires k < 4
    ensures Follows(cfg, MOVING, STATES, k)
  {
    MovingIsARun(cfg);
  }

  lemma CallerHasJoined(k: nat)
    requires k < 4
    ensures JoinedAt(MOVING, STATES, k)
  {
  }

  // It is a run by joined callers, at whose end player "p" plays Sim "2" and Sim "1" lists it.
  lemma MovingLeavesAStaleList(cfg: B.Config)
    ensures History(cfg, MOVING, STATES) && forall i | 0 <= i < |MOVING| :: JoinedAt(MOVING, STATES, i)
    ensures STATES[4].active["p"] == Some("2") && STATES[4].sims["1"].controllers == ["p"] && !Exact(STATES[4], "1")
  {
    forall k: nat | k < 4
      ensures Follows(cfg, MOVING, STATES, k) && JoinedAt(MOVING, STATES, k)
    {
      StepFollows(cfg, k);
      CallerHasJoined(k);
    }
    StillListed();
  }
}
