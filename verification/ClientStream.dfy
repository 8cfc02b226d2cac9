// The client side of the view-update stream: the raw-message, view-batch and travel arms of
// ClientRuntime in kermp/runtime.py.
module ClientStream {
  import opened Common
  import opened Wire

  const MAX_BUFFERED := 256

  // What the sidecar hands to its own game.
  datatype ToGame =
    | Apply(update: Update)       // a view update to show
    | Prepare(proposal: Message)
    | Forward(message: Message)
    | SidecarError(reason: Reason)

  datatype Client = Client(
    lastSequence: int, travelEpoch: int, buffering: bool, buffer: seq<Update>,
    batchComplete: bool, zoneLoaded: bool, toGame: seq<ToGame>)

  const FRESH := Client(0, 0, false, [], false, false, [])

  // A message read from the host, or a local report that the zone finished loading.
  datatype Input = FromHost(message: Message) | ZoneLoaded(epoch: int)

  function Emit(c: Client, out: ToGame): Client {
    c.(toGame := c.toGame + [out])
  }

  function Applied(updates: seq<Update>): seq<ToGame> {
    seq(|updates|, i requires 0 <= i < |updates| => Apply(updates[i]))
  }

  function Flush(c: Client): Client {
    c.(toGame := c.toGame + Applied(SortBySequence(c.buffer)), buffer := [], buffering := false)
  }

  predicate EpochAgrees(travelEpoch: int, u: Update) {
    travelEpoch == 0 || u.epoch == Some(travelEpoch)
  }

  predicate Accepts(c: Client, u: Update) {
    c.lastSequence < u.sequence && Readable(u.payload) && EpochAgrees(c.travelEpoch, u)
  }

  function OnRaw(c: Client, u: Update): Client {
    if u.sequence <= c.lastSequence then c
    else if !Readable(u.payload) then Emit(c, SidecarError(RawInvalid))
    else if c.travelEpoch != 0 && u.epoch.None? then Emit(c, SidecarError(MissingEpoch))
    else if c.travelEpoch != 0 && u.epoch.value != c.travelEpoch then Emit(c, SidecarError(StaleEpoch))
    else
      var d := c.(lastSequence := u.sequence);
      if !d.buffering then Emit(d, Apply(u))
      else if |d.buffer| >= MAX_BUFFERED then Emit(d, SidecarError(BufferFull))
      else d.(buffer := SortBySequence(d.buffer + [u]))
  }

  function OnMessage(c: Client, m: Message): Client {
    match m
    case Raw(u) => OnRaw(c, u)
    case ViewBatch(epoch, kind) =>
      if epoch != c.travelEpoch then Emit(c, SidecarError(StaleEpoch)) else
      var d :=
        match kind
        case Begin => c.(buffering := true, batchComplete := false, buffer := [])
        case End =>
          var e := c.(batchComplete := true);
          if e.zoneLoaded then Flush(e) else e
        case OtherKind => c;
      Emit(d, Forward(m))
    case Propose(epoch, _, _, _) =>
      if epoch <= c.travelEpoch then c else
      var d := c.(travelEpoch := epoch, zoneLoaded := false, batchComplete := false, buffering := true, buffer := []);
      Emit(d, Prepare(m))
    case Resume(epoch) =>
      Emit(if epoch == c.travelEpoch && c.batchComplete then Flush(c) else c, Forward(m))
    case Commit(_, _, _, _) => Emit(c, Forward(m))
    case Abort(_) => Emit(c, Forward(m))
    case Failure(_) => Emit(c, Forward(m))
  }

  function OnZoneLoaded(c: Client, epoch: int): Client {
    if epoch != c.travelEpoch then c else
    var d := c.(zoneLoaded := true);
    if d.batchComplete then Flush(d) else d
  }

  function Step(c: Client, input: Input): Client {
    match input
    case FromHost(m) => OnMessage(c, m)
    case ZoneLoaded(epoch) => OnZoneLoaded(c, epoch)
  }

  // The object the sidecar keeps.
  class ClientRuntime {
    var lastSequence: int
    var travelEpoch: int
    var buffering: bool
    var buffer: seq<Update>
    var batchComplete: bool
    var zoneLoaded: bool
    var toGame: seq<ToGame>

    ghost function State(): Client
      reads this
    {
      Client(lastSequence, travelEpoch, buffering, buffer, batchComplete, zoneLoaded, toGame)
    }

    constructor ()
      ensures State() == FRESH
    {
      lastSequence, travelEpoch, buffering, buffer := 0, 0, false, [];
      batchComplete, zoneLoaded, toGame := false, false, [];
    }

    method Send(out: ToGame)
      modifies this`toGame
      ensures toGame == old(toGame) + [out]
    {
      toGame := toGame + [out];
    }

    method SendUpdates(items: seq<Update>)
      modifies this`toGame
      ensures toGame == old(toGame) + Applied(items)
    {
      for i := 0 to |items|
        invariant toGame == old(toGame) + Applied(items[..i])
      {
        assert Applied(items[..i + 1]) == Applied(items[..i]) + [Apply(items[i])];
        Send(Apply(items[i]));
      }
      assert items[..|items|] == items;
    }

    // Empties the buffer towards the game, one update at a time.
    method FinishLocalTravel()
      modifies this
      ensures State() == Flush(old(State()))
    {
      SendUpdates(SortBySequence(buffer));
      buffer := [];
      buffering := false;
    }

    method ReceiveRaw(u: Update)
      modifies this
      ensures State() == OnRaw(old(State()), u)
    {
      if u.sequence <= lastSequence {
        return;
      }
      if !Readable(u.payload) {
        Send(SidecarError(RawInvalid));
        return;
      }
      if travelEpoch != 0 && u.epoch.None? {
        Send(SidecarError(MissingEpoch));
        return;
      }
      if u.epoch.Some? && travelEpoch != 0 && u.epoch.value != travelEpoch {
        Send(SidecarError(StaleEpoch));
        return;
      }
      lastSequence := u.sequence;
      if buffering {
        if |buffer| >= MAX_BUFFERED {
          Send(SidecarError(BufferFull));
          return;
        }
        buffer := buffer + [u];
        buffer := SortBySequence(buffer);
      } else {
        Send(Apply(u));
      }
    }

    method ReceiveBatch(m: Message)
      requires m.ViewBatch?
      modifies this
      ensures State() == OnMessage(old(State()), m)
    {
      if m.epoch != travelEpoch {
        Send(SidecarError(StaleEpoch));
        return;
      }
      if m.kind == Begin {
        buffering := true;
        batchComplete := false;
        buffer := [];
      } else if m.kind == End {
        batchComplete := true;
        if zoneLoaded {
          FinishLocalTravel();
        }
      }
      Send(Forward(m));
    }

    method OnNetworkMessage(m: Message)
      modifies this
      ensures State() == OnMessage(old(State()), m)
    {
      match m {
        case Raw(u) =>
          ReceiveRaw(u);
        case ViewBatch(_, _) =>
          ReceiveBatch(m);
        case Propose(epoch, _, _, _) =>
          if epoch <= travelEpoch {
            return;
          }
          travelEpoch := epoch;
          zoneLoaded := false;
          batchComplete := false;
          buffering := true;
          buffer := [];
          Send(Prepare(m));
        case Resume(epoch) =>
          if epoch == travelEpoch && batchComplete {
            FinishLocalTravel();
          }
          Send(Forward(m));
        case _ =>
          Send(Forward(m));
      }
    }

    method MarkLocalZoneLoaded(epoch: int) returns (finished: bool)
      modifies this
      ensures State() == OnZoneLoaded(old(State()), epoch)
      ensures finished == (epoch == old(travelEpoch) && old(batchComplete))
    {
      if epoch != travelEpoch {
        return false;
      }
      zoneLoaded := true;
      if batchComplete {
        FinishLocalTravel();
        return true;
      }
      return false;
    }
  }
}
