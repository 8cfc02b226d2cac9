// When the session takes up what a player asks for, and what it then holds, over every run.
// Everything is read from the events and the states before and after them.
module SessionLaws {
  import opened Common
  import opened Session
  import opened SessionRuns
  import B = BuildSync

  // The Sim is in the roster and the player's active one.
  predicate Controls(s: State, p: PlayerId, sim: string) {
    p in s.active && s.active[p] == Some(sim) && sim in s.sims
  }

  // ------------------------------------------------------------------ requests

  // What a request has to be: new under a nonempty id, for the player's own active Sim, which is
  // the one it names, if it names one, and for an affordance.
  ghost predicate IsProper(s: State, id: string, p: PlayerId, named: string, affordance: string) {
    && id != "" && id !in s.requests && affordance != ""
    && exists sim :: Controls(s, p, sim) && (named == "" || named == sim)
  }

  ghost predicate Entered(states: seq<State>, j: nat, id: string) {
    j + 1 < |states| && id !in states[j].requests && id in states[j + 1].requests
  }

  lemma RequestIs(cfg: B.Config, s: State, e: Event, t: State)
    requires e.Request? && t == Step(cfg, s, e)
    ensures if IsProper(s, e.requestId, e.player, e.named, e.affordance) then
              && s.active[e.player].Some?
              && t == s.(requests := s.requests[e.requestId :=
                   Record(e.player, s.active[e.player].value, Some(e.affordance), "accepted", None)])
            else t == s
  {
    if e.player in s.active && s.active[e.player].Some? {
      var sim := s.active[e.player].value;
      assert Controls(s, e.player, sim) <==> sim in s.sims;
    }
  }

  // In every run a request is entered if and only if it is proper; its record is for the very
  // Sim that it names, if it names one, and otherwise for the player's active one; and a refused
  // request changes nothing.
  lemma RequestEntersIff(cfg: B.Config, run: seq<Event>, states: seq<State>, j: nat)
    requires History(cfg, run, states) && j < |run| && run[j].Request?
    ensures var s, t, e := states[j], states[j + 1], run[j];
            && (Entered(states, j, e.requestId) <==> IsProper(s, e.requestId, e.player, e.named, e.affordance))
            && (Entered(states, j, e.requestId) ==>
                  var r := t.requests[e.requestId];
                  && r.player == e.player && r.affordance == Some(e.affordance) && r.status == "accepted"
                  && Controls(s, e.player, r.sim) && (e.named != "" ==> r.sim == e.named)
                  && t == s.(requests := s.requests[e.requestId := r]))
            && (!Entered(states, j, e.requestId) ==> t == s)
  {
    assert Follows(cfg, run, states, j);
    RequestIs(cfg, states[j], run[j], states[j + 1]);
  }

  // The refusal names the first thing wrong.
  lemma RequestRefusal(s: State, id: string, p: PlayerId, named: string, affordance: string)
    ensures var refusal := ValidateInteraction(s, id, p, named, affordance).1;
            var isOwn := p in s.active && s.active[p].Some? && (named == "" || Some(named) == s.active[p]);
            && (refusal.None? <==> IsProper(s, id, p, named, affordance))
            && (refusal == Some(MissingRequestId) <==> id == "")
            && (refusal == Some(DuplicateRequestId) <==> id != "" && id in s.requests)
            && (refusal == Some(SimNotOwned) <==> id != "" && id !in s.requests && !isOwn)
            && (refusal == Some(InvalidSim) <==>
                  id != "" && id !in s.requests && isOwn && s.active[p].value !in s.sims)
            && (refusal == Some(MissingAffordance) <==>
                  id != "" && id !in s.requests && isOwn && s.active[p].value in s.sims && affordance == "")
  {
    if p in s.active && s.active[p].Some? {
      assert Controls(s, p, s.active[p].value) <==> s.active[p].value in s.sims;
    }
  }

  // ----------------------------------------------------------------- cancellations

  // The player's active Sim is the one named, and the interaction is named too.
  predicate MayCancel(s: State, p: PlayerId, sim: string, interactionId: string) {
    p in s.active && s.active[p] == Some(sim) && interactionId != "" && interactionId != "0"
  }

  // A cancellation is taken up if and only if it comes from a player whose active Sim it names
  // and says which interaction; then the record under its id, whoever's it is, is marked, or made
  // if there is none, and nothing else changes.
  lemma CancelIs(cfg: B.Config, s: State, e: Event, t: State)
    requires e.Cancel? && t == Step(cfg, s, e)
    ensures if MayCancel(s, e.player, e.sim, e.interactionId)
            then
              var id := if e.requestId != "" then e.requestId else "cancel-" + e.player + "-" + e.interactionId;
              && t == s.(requests := t.requests) && t.requests.Keys == s.requests.Keys + {id}
              && t.requests[id].status == "cancel_requested"
              && (id !in s.requests ==> t.requests[id] == Record(e.player, e.sim, None, "cancel_requested", None))
              && (id in s.requests ==> SameOrigin(t.requests[id], s.requests[id]) &&
                                       t.requests[id].interactionId == s.requests[id].interactionId)
              && forall other | other in s.requests && other != id :: t.requests[other] == s.requests[other]
            else t == s
  {
  }

  lemma CancelTakesEffectIff(cfg: B.Config, run: seq<Event>, states: seq<State>, j: nat, id: string)
    requires History(cfg, run, states) && j < |run| && run[j].Cancel? && run[j].requestId == id != ""
    ensures var s, t, e := states[j], states[j + 1], run[j];
            if MayCancel(s, e.player, e.sim, e.interactionId)
            then id in t.requests && t.requests[id].status == "cancel_requested"
            else t == s
  {
    assert Follows(cfg, run, states, j);
    CancelIs(cfg, states[j], run[j], states[j + 1]);
  }

  // A status report changes status and, if it brings one, interaction id of a known record.
  lemma ReportIs(cfg: B.Config, s: State, e: Event, t: State)
    requires e.Status? && t == Step(cfg, s, e)
    ensures if e.requestId in s.requests then
              && t == s.(requests := t.requests) && t.requests.Keys == s.requests.Keys
              && SameOrigin(t.requests[e.requestId], s.requests[e.requestId])
              && t.requests[e.requestId].status == e.status
              && t.requests[e.requestId].interactionId ==
                 (if e.reported.Some? then e.reported else s.requests[e.requestId].interactionId)
              && forall other | other in s.requests && other != e.requestId :: t.requests[other] == s.requests[other]
            else t == s
  {
  }

  // ------------------------------------------------------------------ dialogs

  // A pending dialog is closed by an answer of its owner and by nobody else's; nothing but that
  // and its owner's departure closes it, and until then it keeps its owner.
  lemma DialogClosesIff(cfg: B.Config, run: seq<Event>, states: seq<State>, j: nat, d: string)
    requires History(cfg, run, states) && j < |run| && d in states[j].dialogs
    ensures var owner := states[j].dialogs[d];
            && (d !in states[j + 1].dialogs <==> run[j] == AnswerDialog(owner, d) || run[j] == Leave(owner))
            && (d in states[j + 1].dialogs && !(run[j].OpenDialog? && run[j].dialogId == d) ==>
                  states[j + 1].dialogs[d] == owner)
  {
    assert Follows(cfg, run, states, j);
    DialogsAre(cfg, states[j], run[j], d);
  }

  lemma DialogsAre(cfg: B.Config, s: State, e: Event, d: string)
    requires d in s.dialogs
    ensures var t, owner := Step(cfg, s, e), s.dialogs[d];
            && (d !in t.dialogs <==> e == AnswerDialog(owner, d) || e == Leave(owner))
            && (d in t.dialogs && !(e.OpenDialog? && e.dialogId == d) ==> t.dialogs[d] == owner)
  {
  }

  lemma AnswerIs(dialogs: map<string, PlayerId>, p: PlayerId, d: string)
    ensures var (rest, refusal) := Respond(dialogs, p, d);
            && (refusal.None? <==> d in dialogs && dialogs[d] == p)
            && (refusal == Some(DialogNotOwned) <==> d in dialogs && dialogs[d] != p)
            && (refusal.None? ==> rest == dialogs - {d}) && (refusal.Some? ==> rest == dialogs)
  {
  }

  // ------------------------------------------------------------------ Sims and players

  // A selection is taken up if and only if player and Sim are known; then the Sim is the
  // player's, and nobody else's choice has changed.
  lemma SelectIs(cfg: B.Config, s: State, e: Event, t: State)
    requires e.Select? && t == Step(cfg, s, e)
    ensures if e.player in s.active && e.sim in s.sims then
              && t.active == s.active[e.player := Some(e.sim)] && t.sims.Keys == s.sims.Keys
              && (e.player in s.order ==> e.player in t.sims[e.sim].controllers)
              && t == s.(active := t.active, sims := t.sims)
              && forall sim | sim in s.sims && sim != e.sim :: t.sims[sim] == s.sims[sim]
            else t == s
  {
  }

  // A departure takes away the player, and with it its lease and its dialogs, and nothing of
  // anybody else.
  lemma LeaveIs(cfg: B.Config, s: State, p: PlayerId, t: State)
    requires t == Step(cfg, s, Leave(p))
    ensures t.active == s.active - {p} && t.sims.Keys == s.sims.Keys && t.requests == s.requests
    ensures forall q :: q in t.order <==> q in s.order && q != p
    ensures forall d :: d in t.dialogs <==> d in s.dialogs && s.dialogs[d] != p
    ensures forall d | d in t.dialogs :: t.dialogs[d] == s.dialogs[d]
    ensures t.build.lock == (if s.build.lock.Some? && s.build.lock.value.owner == p then None else s.build.lock)
    ensures forall sim | sim in s.sims :: t.sims[sim].name == s.sims[sim].name
  {
  }

  // The roster holds exactly the listed Sims that have an id, under the name listed last.
  lemma {:induction false} RosterIs(previous: map<string, Sim>, list: seq<Listing>, sim: string)
    ensures sim in Roster(previous, list) <==> sim != "" && exists i :: 0 <= i < |list| && list[i].simId == sim
    ensures forall i | 0 <= i < |list| && list[i].simId == sim != "" && NotListed(list[i + 1..], sim) ::
              sim in Roster(previous, list) && Roster(previous, list)[sim].name == list[i].name
  {
    if list != [] {
      var front, last := list[..|list| - 1], list[|list| - 1];
      RosterIs(previous, front, sim);
      assert forall i | 0 <= i < |front| :: list[i] == front[i];
      forall i | 0 <= i < |list| && list[i].simId == sim != "" && NotListed(list[i + 1..], sim)
        ensures sim in Roster(previous, list) && Roster(previous, list)[sim].name == list[i].name
      {
        if i < |front| {
          assert list[i + 1..][|list| - i - 2] == last;
          assert front[i + 1..] == list[i + 1..][..|list| - i - 2];
        }
      }
    }
  }

  ghost predicate NotListed(list: seq<Listing>, sim: string) {
    forall i | 0 <= i < |list| :: list[i].simId != sim
  }

  // ---- players who come back

  // Player p left at event i, playing this Sim, and has not joined again before event k.
  ghost predicate AwayWith(run: seq<Event>, states: seq<State>, i: nat, k: nat, p: PlayerId, sim: string) {
    && i < k <= |run| && |run| < |states| && run[i] == Leave(p)
    && p in states[i].active && states[i].active[p] == Some(sim) && sim != ""
    && forall j | i < j < k :: run[j] != Join(p)
  }

  lemma RemembersNext(cfg: B.Config, s: State, e: Event, p: PlayerId)
    requires p !in s.active && e != Join(p)
    ensures p !in Step(cfg, s, e).active
    ensures p in s.reconnect ==> p in Step(cfg, s, e).reconnect && Step(cfg, s, e).reconnect[p] == s.reconnect[p]
  {
  }

  lemma RemembersFirst(cfg: B.Config, s: State, p: PlayerId, sim: string)
    requires p in s.active && s.active[p] == Some(sim) && sim != ""
    ensures var t := Step(cfg, s, Leave(p)); p !in t.active && p in t.reconnect && t.reconnect[p] == sim
  {
  }

  lemma {:induction false} Remembers(
    cfg: B.Config, run: seq<Event>, states: seq<State>, i: nat, k: nat, p: PlayerId, sim: string)
    requires History(cfg, run, states) && AwayWith(run, states, i, k, p, sim)
    ensures p !in states[k].active && p in states[k].reconnect && states[k].reconnect[p] == sim
    decreases k
  {
    assert Follows(cfg, run, states, k - 1);
    if k == i + 1 {
      RemembersFirst(cfg, states[i], p, sim);
    } else {
      Remembers(cfg, run, states, i, k - 1, p, sim);
      RemembersNext(cfg, states[k - 1], run[k - 1], p);
    }
  }

  lemma ComesBack(s: State, p: PlayerId, sim: string)
    requires p !in s.active && p in s.reconnect && s.reconnect[p] == sim
    ensures var t := AddPlayer(s, p);
            && t.active == s.active[p := if sim in s.sims then Some(sim) else None]
            && (sim in s.sims ==> sim in t.sims && p in t.sims[sim].controllers)
  {
  }

  // In every run a player who left while playing a Sim, and comes back, plays it again if and
  // only if it is still in the roster, and is then listed for it; otherwise it plays none.
  lemma ReturningPlayerGetsItsSim(
    cfg: B.Config, run: seq<Event>, states: seq<State>, i: nat, k: nat, p: PlayerId, sim: string)
    requires History(cfg, run, states) && AwayWith(run, states, i, k, p, sim) && k < |run| && run[k] == Join(p)
    ensures var s, t := states[k], states[k + 1];
            && t.active == s.active[p := if sim in s.sims then Some(sim) else None]
            && (sim in s.sims ==> sim in t.sims && p in t.sims[sim].controllers)
  {
    assert Follows(cfg, run, states, k);
    Remembers(cfg, run, states, i, k, p, sim);
    ComesBack(states[k], p, sim);
  }

  // A player who never played a Sim comes in playing none.
  lemma NewPlayerPlaysNone(s: State, p: PlayerId)
    requires p !in s.reconnect
    ensures AddPlayer(s, p).active == s.active[p := None] && AddPlayer(s, p).sims == s.sims
  {
  }
}
