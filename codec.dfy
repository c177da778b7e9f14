/**
 * The fields the container adds to its stream after the base container's own:
 * always the power flag, then a block that depends on the stream's direction.
 * The stream is modelled as a list of typed tokens.
 */
module Codec {
  import opened Wrappers
  import opened Geometry
  import opened Inventory
  import opened Blocks
  import opened Scheduler

  datatype Token = BoolToken(b: bool) | IntToken(i: int) | StringToken(s: string)

  /** The directions a stream is written in. */
  datatype WriteMode = WritePersistency | ToServer | ToClient

  /** The directions a stream is read in; each reads what the matching write mode wrote. */
  datatype ReadMode = ReadPersistency | FromServer | FromClient

  function ReceiverMode(mode: WriteMode): ReadMode
  {
    match mode
    case WritePersistency => ReadPersistency
    case ToServer => FromClient
    case ToClient => FromServer
  }

  /** The container's extension fields, one shape per direction. */
  datatype Extension =
    | Persisted(isOn: bool)
    | ClientReport(isOn: bool, accessing: bool)
    | ServerReport(isOn: bool, armed: bool, target: Vec3, missing: Option<ItemName>)

  function ModeOf(e: Extension): ReadMode
  {
    match e
    case Persisted(_) => ReadPersistency
    case ClientReport(_, _) => FromClient
    case ServerReport(_, _, _, _) => FromServer
  }

  function Encode(e: Extension): seq<Token>
  {
    match e
    case Persisted(on) => [BoolToken(on)]
    case ClientReport(on, accessing) => [BoolToken(on), BoolToken(accessing)]
    case ServerReport(on, armed, t, missing) =>
      [BoolToken(on), BoolToken(armed), IntToken(t.x), IntToken(t.y), IntToken(t.z), BoolToken(missing.Some?)]
      + (if missing.Some? then [StringToken(missing.value)] else [])
  }

  function ReadBool(ts: seq<Token>, at: nat): Result<(bool, nat)>
  {
    if at < |ts| && ts[at].BoolToken? then Ok((ts[at].b, at + 1)) else Err("expected a boolean")
  }

  function ReadInt(ts: seq<Token>, at: nat): Result<(int, nat)>
  {
    if at < |ts| && ts[at].IntToken? then Ok((ts[at].i, at + 1)) else Err("expected an integer")
  }

  function ReadString(ts: seq<Token>, at: nat): Result<(string, nat)>
  {
    if at < |ts| && ts[at].StringToken? then Ok((ts[at].s, at + 1)) else Err("expected a string")
  }

  datatype Decoded = Decoded(ext: Extension, rest: seq<Token>)

  /** Read the extension fields in the given direction, returning the tokens after them. */
  function Decode(mode: ReadMode, ts: seq<Token>): Result<Decoded>
  {
    var (on, p1) :- ReadBool(ts, 0);
    match mode
    case ReadPersistency => Ok(Decoded(Persisted(on), ts[p1..]))
    case FromClient =>
      var (accessing, p2) :- ReadBool(ts, p1);
      Ok(Decoded(ClientReport(on, accessing), ts[p2..]))
    case FromServer =>
      var (armed, p2) :- ReadBool(ts, p1);
      var (x, p3) :- ReadInt(ts, p2);
      var (y, p4) :- ReadInt(ts, p3);
      var (z, p5) :- ReadInt(ts, p4);
      var (hasMissing, p6) :- ReadBool(ts, p5);
      if hasMissing then
        var (name, p7) :- ReadString(ts, p6);
        Ok(Decoded(ServerReport(on, armed, Vec3(x, y, z), Some(name)), ts[p7..]))
      else Ok(Decoded(ServerReport(on, armed, Vec3(x, y, z), None), ts[p6..]))
  }

  /** Reading in the matching direction gives back exactly what was written, and only that. */
  lemma RoundTrip(e: Extension, rest: seq<Token>)
    ensures Decode(ModeOf(e), Encode(e) + rest) == Ok(Decoded(e, rest))
  {
  }

  /** Everything a read accepts is an encoding of what it returns, in that direction, followed by the rest. */
  lemma DecodeOnlyAcceptsEncodings(mode: ReadMode, ts: seq<Token>)
    requires Decode(mode, ts).Ok?
    ensures var d := Decode(mode, ts).value; ts == Encode(d.ext) + d.rest && ModeOf(d.ext) == mode
  {
  }

  /** A stream cut short inside the extension fields is rejected. */
  lemma TruncatedIsRejected(e: Extension, n: nat)
    requires n < |Encode(e)|
    ensures Decode(ModeOf(e), Encode(e)[..n]).Err?
  {
  }

  /** The extension the container writes in each direction. */
  function Outgoing(s: RepairState, mode: WriteMode): (e: Extension)
    ensures ModeOf(e) == ReceiverMode(mode)
  {
    match mode
    case WritePersistency => Persisted(s.isOn)
    case ToServer => ClientReport(s.isOn, s.userAccessing)
    case ToClient => ServerReport(s.isOn, s.repairBlock.btype != AirType, s.repairPosition, s.lastMissingItem)
  }

  /**
   * The state after reading the extension fields: the power flag goes through
   * the power setter; a server report sets the target position and the
   * advisory; a client report sets the remote-access flag and, when set, drops
   * the target. A stream the read rejects leaves the state as it was.
   */
  function ReadStep(s: RepairState, mode: ReadMode, ts: seq<Token>, origin: Vec3): RepairState
  {
    match Decode(mode, ts)
    case Err(_) => s
    case Ok(d) =>
      match d.ext
      case Persisted(on) => SetPower(s, on)
      case ServerReport(on, _, target, missing) => SetPower(s, on).(repairPosition := target, lastMissingItem := missing)
      case ClientReport(on, accessing) =>
        var t := SetPower(s, on).(isAccessed := accessing);
        if accessing then ResetAcquired(t, origin) else t
  }

  /** A client reading what the server wrote for it takes over the power flag, the target position and the advisory. */
  lemma ClientMirrorsServer(client: RepairState, server: RepairState, origin: Vec3)
    ensures var r := ReadStep(client, FromServer, Encode(Outgoing(server, ToClient)), origin);
      r.isOn == server.isOn && r.repairPosition == server.repairPosition
      && r.lastMissingItem == server.lastMissingItem && r.slots == client.slots
  {
    RoundTrip(Outgoing(server, ToClient), []);
    assert Encode(Outgoing(server, ToClient)) + [] == Encode(Outgoing(server, ToClient));
  }

  /** A server reading a client's report takes over its access flag; an open container loses its target. */
  lemma ServerMirrorsClient(server: RepairState, client: RepairState, origin: Vec3)
    requires TargetConsistent(server)
    ensures var r := ReadStep(server, FromClient, Encode(Outgoing(client, ToServer)), origin);
      r.isOn == client.isOn && r.isAccessed == client.userAccessing && TargetConsistent(r)
      && (client.userAccessing ==> !r.doRepair)
  {
  }

  /** Reading never arms a target, so an armed target stays consistent. */
  lemma ReadKeepsTargetConsistent(s: RepairState, mode: ReadMode, ts: seq<Token>, origin: Vec3)
    requires TargetConsistent(s)
    ensures TargetConsistent(ReadStep(s, mode, ts, origin))
  {
  }
}
