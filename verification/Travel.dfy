// The host-side travel barrier: kermp/travel.py.
module Travel {
  import opened Common

  datatype Phase = WaitingReady | Committed | WaitingZoneReady | Complete | Aborted

  // The value of one transaction object at one moment.
  datatype Txn = Txn(
    epoch: nat, txnId: string, zoneId: string, actorIds: seq<string>,
    participants: set<PlayerId>, phase: Phase, ready: set<PlayerId>, zoneReady: set<PlayerId>)
  {
    predicate Live() {
      phase != Complete && phase != Aborted
    }
  }

  datatype Coordinator = Coordinator(current: Option<Txn>, epoch: nat)

  const INITIAL := Coordinator(None, 0)

  datatype TravelError = InProgress | NoParticipants | UnknownTxn | NotCommitted

  // One call to the coordinator. `txnId` of a proposal is the fresh uuid drawn for it.
  datatype Call =
    | Propose(zoneId: string, actorIds: seq<string>, participants: set<PlayerId>, txnId: string)
    | MarkReady(player: PlayerId, txnId: string, epoch: Option<int>)
    | BeginZoneWait(txnId: string)
    | MarkZoneReady(player: PlayerId, txnId: string, epoch: Option<int>)
    | Abort(txnId: string)
    | RemoveParticipant(player: PlayerId)

  // What the call gives back: nothing, a truth value, or an exception.
  datatype Reply = Done | Flag(flag: bool) | Raised(error: TravelError)

  // The specification of every coordinator method.
  function Step(s: Coordinator, call: Call): (Coordinator, Reply) {
    match call
    case Propose(zoneId, actorIds, participants, txnId) =>
      if s.current.Some? && s.current.value.Live() then (s, Raised(InProgress))
      else if participants == {} then (s, Raised(NoParticipants))
      else
        var t := Txn(s.epoch + 1, txnId, zoneId, actorIds, participants, WaitingReady, {}, {});
        (Coordinator(Some(t), s.epoch + 1), Done)
    case MarkReady(player, txnId, epoch) =>
      if !Known(s, txnId) then (s, Raised(UnknownTxn))
      else
        var t := s.current.value;
        if !EpochMatches(t, epoch) || t.phase != WaitingReady then (s, Flag(false))
        else
          var ready := if player in t.participants then t.ready + {player} else t.ready;
          var phase := if ready == t.participants then Committed else WaitingReady;
          (s.(current := Some(t.(ready := ready, phase := phase))), Flag(ready == t.participants))
    case BeginZoneWait(txnId) =>
      if !Known(s, txnId) then (s, Raised(UnknownTxn))
      else if s.current.value.phase != Committed then (s, Raised(NotCommitted))
      else (s.(current := Some(s.current.value.(phase := WaitingZoneReady))), Done)
    case MarkZoneReady(player, txnId, epoch) =>
      if !Known(s, txnId) then (s, Raised(UnknownTxn))
      else
        var t := s.current.value;
        if !EpochMatches(t, epoch) || !AwaitsZones(t.phase) then (s, Flag(false))
        else
          var zoneReady := if player in t.participants then t.zoneReady + {player} else t.zoneReady;
          var phase := if zoneReady == t.participants then Complete else WaitingZoneReady;
          (s.(current := Some(t.(zoneReady := zoneReady, phase := phase))), Flag(zoneReady == t.participants))
    case Abort(txnId) =>
      if !Known(s, txnId) then (s, Raised(UnknownTxn))
      else (s.(current := Some(s.current.value.(phase := Aborted))), Done)
    case RemoveParticipant(player) =>
      if s.current.None? || !s.current.value.Live() then (s, Flag(false))
      else
        var t := s.current.value.(
          participants := s.current.value.participants - {player},
          ready := s.current.value.ready - {player},
          zoneReady := s.current.value.zoneReady - {player});
        var phase :=
          if t.phase == WaitingReady && t.ready == t.participants then Committed
          else if t.phase == WaitingZoneReady && t.zoneReady == t.participants then Complete
          else t.phase;
        (s.(current := Some(t.(phase := phase))), Flag(true))
  }

  predicate Known(s: Coordinator, txnId: string) {
    s.current.Some? && s.current.value.txnId == txnId
  }

  predicate EpochMatches(t: Txn, epoch: Option<int>) {
    epoch.None? || epoch.value == t.epoch
  }

  predicate AwaitsZones(p: Phase) {
    p == Committed || p == WaitingZoneReady
  }

  // The mutable transaction record.
  class TravelTxn {
    const epoch: nat
    const txnId: string
    const zoneId: string
    const actorIds: seq<string>
    var participants: set<PlayerId>
    var phase: Phase
    var ready: set<PlayerId>
    var zoneReady: set<PlayerId>

    ghost function Value(): Txn
      reads this
    {
      Txn(epoch, txnId, zoneId, actorIds, participants, phase, ready, zoneReady)
    }

    constructor (epoch: nat, txnId: string, zoneId: string, actorIds: seq<string>, participants: set<PlayerId>)
      ensures Value() == Txn(epoch, txnId, zoneId, actorIds, participants, WaitingReady, {}, {})
    {
      this.epoch, this.txnId, this.zoneId, this.actorIds := epoch, txnId, zoneId, actorIds;
      this.participants := participants;
      phase, ready, zoneReady := WaitingReady, {}, {};
    }
  }

  class TravelCoordinator {
    var current: TravelTxn?
    var epoch: nat

    ghost function State(): Coordinator
      reads this, current
    {
      Coordinator(if current == null then None else Some(current.Value()), epoch)
    }

    constructor ()
      ensures State() == INITIAL && current == null
    {
      current, epoch := null, 0;
    }

    method Propose(zoneId: string, actorIds: seq<string>, participants: set<PlayerId>, txnId: string)
      returns (reply: Reply)
      modifies this
      ensures (State(), reply) == Step(old(State()), Call.Propose(zoneId, actorIds, participants, txnId))
      ensures reply == Done ==> current != null && fresh(current)
      ensures reply != Done ==> current == old(current)
    {
      if current != null && current.phase != Complete && current.phase != Aborted {
        return Raised(InProgress);
      }
      if participants == {} {
        return Raised(NoParticipants);
      }
      epoch := epoch + 1;
      current := new TravelTxn(epoch, txnId, zoneId, actorIds, participants);
      return Done;
    }

    method MarkReady(player: PlayerId, txnId: string, epoch: Option<int>) returns (reply: Reply)
      modifies current
      ensures (State(), reply) == Step(old(State()), Call.MarkReady(player, txnId, epoch))
    {
      if current == null || current.txnId != txnId {
        return Raised(UnknownTxn);
      }
      if epoch.Some? && epoch.value != current.epoch {
        return Flag(false);
      }
      if current.phase != WaitingReady {
        return Flag(false);
      }
      if player in current.participants {
        current.ready := current.ready + {player};
      }
      if current.ready == current.participants {
        current.phase := Committed;
        return Flag(true);
      }
      return Flag(false);
    }

    method BeginZoneWait(txnId: string) returns (reply: Reply)
      modifies current
      ensures (State(), reply) == Step(old(State()), Call.BeginZoneWait(txnId))
    {
      if current == null || current.txnId != txnId {
        return Raised(UnknownTxn);
      }
      if current.phase != Committed {
        return Raised(NotCommitted);
      }
      current.phase := WaitingZoneReady;
      return Done;
    }

    method MarkZoneReady(player: PlayerId, txnId: string, epoch: Option<int>) returns (reply: Reply)
      modifies current
      ensures (State(), reply) == Step(old(State()), Call.MarkZoneReady(player, txnId, epoch))
    {
      if current == null || current.txnId != txnId {
        return Raised(UnknownTxn);
      }
      if epoch.Some? && epoch.value != current.epoch {
        return Flag(false);
      }
      if current.phase != Committed && current.phase != WaitingZoneReady {
        return Flag(false);
      }
      current.phase := WaitingZoneReady;
      if player in current.participants {
        current.zoneReady := current.zoneReady + {player};
      }
      if current.zoneReady == current.participants {
        current.phase := Complete;
        return Flag(true);
      }
      return Flag(false);
    }

    method AbortTxn(txnId: string) returns (reply: Reply)
      modifies current
      ensures (State(), reply) == Step(old(State()), Abort(txnId))
    {
      if current == null || current.txnId != txnId {
        return Raised(UnknownTxn);
      }
      current.phase := Aborted;
      return Done;
    }

    method RemoveParticipant(player: PlayerId) returns (reply: Reply)
      modifies current
      ensures (State(), reply) == Step(old(State()), Call.RemoveParticipant(player))
    {
      if current == null || current.phase == Complete || current.phase == Aborted {
        return Flag(false);
      }
      current.participants := current.participants - {player};
      current.ready := current.ready - {player};
      current.zoneReady := current.zoneReady - {player};
      if current.phase == WaitingReady && current.ready == current.participants {
        current.phase := Committed;
        return Flag(true);
      }
      if current.phase == WaitingZoneReady && current.zoneReady == current.participants {
        current.phase := Complete;
      }
      return Flag(true);
    }
  }
}
