/** A client or replica connection on the master (src/net/Connection.cpp). */
module Connection {
  import opened Base
  import opened Decimal
  import opened Resp
  import RespParser
  import opened Text
  import opened ReplicationLink
  import opened Commands
  import opened AckStream
  import R = ReplicaRegistry

  datatype Mode = Undecided | Client | Replication

  datatype Handshake = NotStarted | Pinged | Replconf1 | Replconf2

  datatype Conn = Conn(mode: Mode, handshake: Handshake, replconfs: nat)

  const NewConn: Conn := Conn(Undecided, NotStarted, 0)

  /** What a valid command does to the connection's mode; `None` refuses it with an error. */
  function Decide(c: Conn, kind: Kind): Option<Conn> {
    if !c.mode.Undecided? then Some(c)
    else if kind == Ping then Some(c.(handshake := Pinged))
    else if kind == Replconf then
      if c.handshake.NotStarted? then None
      else Some(c.(replconfs := c.replconfs + 1, handshake := if c.replconfs + 1 >= 2 then Replconf2 else Replconf1))
    else if kind == Psync then
      if !c.handshake.Replconf2? then None else Some(c.(mode := Replication))
    else Some(c.(mode := Client))
  }

  /** The connection after a series of valid commands. */
  function After(kinds: seq<Kind>): Conn {
    if kinds == [] then NewConn
    else
      var before := After(kinds[..|kinds| - 1]);
      match Decide(before, kinds[|kinds| - 1])
      case None => before
      case Some(c) => c
  }

  // ---------------------------------------------------------------- the handshake, characterised

  predicate AllHandshake(kinds: seq<Kind>) {
    forall i :: 0 <= i < |kinds| ==> kinds[i] in {Ping, Replconf, Psync}
  }

  /** Position of the first PING, or the length when there is none. */
  function FirstPing(kinds: seq<Kind>): (n: nat)
    ensures n <= |kinds|
  {
    if kinds == [] || kinds[0] == Ping then 0 else 1 + FirstPing(kinds[1..])
  }

  function CountReplconf(kinds: seq<Kind>): nat {
    if kinds == [] then 0 else (if kinds[0] == Replconf then 1 else 0) + CountReplconf(kinds[1..])
  }

  /** The latest command that is a PING or a REPLCONF. */
  function LatestPingOrReplconf(kinds: seq<Kind>): Option<Kind> {
    if kinds == [] then None
    else
      var last := kinds[|kinds| - 1];
      if last == Ping || last == Replconf then Some(last) else LatestPingOrReplconf(kinds[..|kinds| - 1])
  }

  function ReplconfsAfterFirstPing(kinds: seq<Kind>): nat {
    CountReplconf(kinds[FirstPing(kinds)..])
  }

  /** The earlier commands after which a PSYNC makes the connection a replica. */
  predicate ReadyForPsync(kinds: seq<Kind>) {
    && AllHandshake(kinds)
    && ReplconfsAfterFirstPing(kinds) >= 2
    && LatestPingOrReplconf(kinds) == Some(Replconf)
  }

  lemma {:induction false} FirstPingSnoc(kinds: seq<Kind>, kind: Kind)
    ensures FirstPing(kinds + [kind]) ==
            if FirstPing(kinds) < |kinds| then FirstPing(kinds) else if kind == Ping then |kinds| else |kinds| + 1
  {
    if kinds == [] {
      assert [kind][1..] == [];
    } else if kinds[0] != Ping {
      assert (kinds + [kind])[1..] == kinds[1..] + [kind];
      FirstPingSnoc(kinds[1..], kind);
    }
  }

  lemma {:induction false} CountSnoc(kinds: seq<Kind>, kind: Kind)
    ensures CountReplconf(kinds + [kind]) == CountReplconf(kinds) + if kind == Replconf then 1 else 0
  {
    if kinds == [] {
      assert [kind][1..] == [];
    } else {
      assert (kinds + [kind])[1..] == kinds[1..] + [kind];
      CountSnoc(kinds[1..], kind);
    }
  }

  lemma SliceSnoc(kinds: seq<Kind>, kind: Kind, p: nat)
    requires p <= |kinds|
    ensures CountReplconf((kinds + [kind])[p..]) == CountReplconf(kinds[p..]) + if kind == Replconf then 1 else 0
  {
    assert (kinds + [kind])[p..] == kinds[p..] + [kind];
    CountSnoc(kinds[p..], kind);
  }

  lemma ReplconfsSnoc(kinds: seq<Kind>, kind: Kind)
    ensures FirstPing(kinds) < |kinds| ==>
              ReplconfsAfterFirstPing(kinds + [kind]) ==
              ReplconfsAfterFirstPing(kinds) + if kind == Replconf then 1 else 0
    ensures FirstPing(kinds) == |kinds| ==> ReplconfsAfterFirstPing(kinds + [kind]) == 0
  {
    FirstPingSnoc(kinds, kind);
    SliceSnoc(kinds, kind, FirstPing(kinds));
    assert FirstPing(kinds) == |kinds| ==> kinds[FirstPing(kinds)..] == [];
  }

  /** What the three handshake fields record about the commands so far, while the mode is open. */
  predicate Records(c: Conn, kinds: seq<Kind>) {
    && AllHandshake(kinds)
    && (c.handshake.NotStarted? <==> FirstPing(kinds) == |kinds|)
    && c.replconfs == ReplconfsAfterFirstPing(kinds)
    && (c.handshake.Pinged? <==> FirstPing(kinds) < |kinds| && LatestPingOrReplconf(kinds) == Some(Ping))
    && (c.handshake.Replconf2? <==> c.replconfs >= 2 && LatestPingOrReplconf(kinds) == Some(Replconf))
    && (FirstPing(kinds) < |kinds| ==> LatestPingOrReplconf(kinds).Some?)
    && (FirstPing(kinds) == |kinds| ==> c.replconfs == 0)
  }

  lemma {:induction false} HandshakeRecords(kinds: seq<Kind>)
    requires After(kinds).mode.Undecided?
    ensures Records(After(kinds), kinds)
  {
    if kinds != [] {
      var before, kind := kinds[..|kinds| - 1], kinds[|kinds| - 1];
      assert kinds == before + [kind];
      HandshakeRecords(before);
      FirstPingSnoc(before, kind);
      ReplconfsSnoc(before, kind);
      assert kind in {Ping, Replconf, Psync};
    }
  }

  /** A decided mode never changes again. */
  lemma {:induction false} ModeIsFinal(kinds: seq<Kind>, n: nat)
    requires n <= |kinds| && !After(kinds[..n]).mode.Undecided?
    ensures After(kinds) == After(kinds[..n])
    decreases |kinds|
  {
    if n < |kinds| {
      var before := kinds[..|kinds| - 1];
      assert before[..n] == kinds[..n];
      ModeIsFinal(before, n);
    } else {
      assert kinds[..n] == kinds;
    }
  }

  /** The command that decided a connection's mode. */
  lemma {:induction false} DecidingCommand(kinds: seq<Kind>) returns (n: nat)
    requires !After(kinds).mode.Undecided?
    ensures n < |kinds| && After(kinds[..n]).mode.Undecided? && !After(kinds[..n + 1]).mode.Undecided?
    ensures After(kinds) == After(kinds[..n + 1])
  {
    var before := kinds[..|kinds| - 1];
    if After(before).mode.Undecided? {
      n := |kinds| - 1;
      assert kinds[..n + 1] == kinds;
    } else {
      n := DecidingCommand(before);
      assert before[..n] == kinds[..n] && before[..n + 1] == kinds[..n + 1];
    }
  }

  lemma PsyncDecides(kinds: seq<Kind>, n: nat)
    requires n < |kinds| && After(kinds[..n]).mode.Undecided?
    ensures After(kinds[..n + 1]).mode.Replication? <==> kinds[n] == Psync && ReadyForPsync(kinds[..n])
  {
    assert kinds[..n + 1][..n] == kinds[..n];
    HandshakeRecords(kinds[..n]);
  }

  lemma ReadyMeansNotClient(kinds: seq<Kind>, n: nat)
    requires n < |kinds| && kinds[n] == Psync && ReadyForPsync(kinds[..n])
    ensures After(kinds[..n + 1]).mode.Replication?
  {
    var before := kinds[..n];
    if After(before).mode.Undecided? {
      PsyncDecides(kinds, n);
    } else {
      var d := DecidingCommand(before);
      assert before[d] in {Ping, Replconf, Psync};
      assert before[..d + 1][..d] == before[..d];
      assert kinds[..n + 1][..n] == before;
      ModeIsFinal(kinds[..n + 1], n);
    }
  }

  /**
   A connection is a replica exactly when some PSYNC came after nothing but PING, REPLCONF and PSYNC,
   with at least two REPLCONFs after the first PING and a REPLCONF after the last PING.
   */
  lemma ReplicaIffHandshakeComplete(kinds: seq<Kind>)
    ensures After(kinds).mode.Replication? <==>
            exists n :: 0 <= n < |kinds| && kinds[n] == Psync && ReadyForPsync(kinds[..n])
  {
    if After(kinds).mode.Replication? {
      var n := DecidingCommand(kinds);
      PsyncDecides(kinds, n);
    }
    if n :| 0 <= n < |kinds| && kinds[n] == Psync && ReadyForPsync(kinds[..n]) {
      ReadyMeansNotClient(kinds, n);
      ModeIsFinal(kinds, n + 1);
    }
  }

  /** How many times a connection has been added to the registry of replicas. */
  function Registrations(kinds: seq<Kind>): nat {
    if kinds == [] then 0
    else
      var before := kinds[..|kinds| - 1];
      Registrations(before) + if !After(before).mode.Replication? && After(kinds).mode.Replication? then 1 else 0
  }

  /** A replica is registered exactly once, and nobody else ever is. */
  lemma {:induction false} RegisteredOnce(kinds: seq<Kind>)
    ensures Registrations(kinds) == if After(kinds).mode.Replication? then 1 else 0
  {
    if kinds != [] {
      var before := kinds[..|kinds| - 1];
      RegisteredOnce(before);
      if !After(before).mode.Undecided? {
        ModeIsFinal(kinds, |before|);
      }
    }
  }

  // ---------------------------------------------------------------- one read on the master

  /** What a read leads to. */
  datatype Action =
    | ParseError
    | InvalidFormat
    | HandshakeError(message: string)
    | AckTaken(offset: Option<int>)
    | Dispatch(toReplication: bool)

  /** The offset of a `REPLCONF ACK <offset>` command. */
  predicate IsAck(cmd: Command) {
    cmd.kind == Replconf && cmd.args != [] && Lowercase(cmd.args[0]) == "ack"
  }

  function AckOffset(cmd: Command): Option<int> {
    if |cmd.args| < 2 then None
    else
      match FromChars(cmd.args[1], -INT64_MAX - 1, INT64_MAX)
      case None => None
      case Some(scanned) => Some(scanned.value)
  }

  lemma AckRequest(offset: nat)
    requires offset <= INT64_MAX
    ensures
      var request := Request(["REPLCONF", "ACK", IntText(offset)]);
      && IsRequest(request)
      && IsAck(ParseCommand(request)) && AckOffset(ParseCommand(request)) == Some(offset)
  {
    CommandOfRequest(["REPLCONF", "ACK", IntText(offset)]);
    assert Lowercase("REPLCONF") == "replconf";
    assert Lowercase("ACK") == "ack";
    assert IntText(offset) + "" == IntText(offset);
    FromCharsOfIntText(offset, "", -INT64_MAX - 1, INT64_MAX);
  }

  lemma ShortNumber(n: nat)
    requires n <= INT64_MAX
    ensures |IntText(n)| <= 20
  {
    assert TenTo(4) == 10_000 && TenTo(8) == 1_0000_0000 && TenTo(12) == 1_0000_0000_0000;
    assert TenTo(16) == 1_0000_0000_0000_0000 && TenTo(20) == 1_0000_0000_0000_0000_0000;
    NatTextLength(n, 20);
  }

  function TenTo(k: nat): nat {
    if k < 4 then [1, 10, 100, 1000][k] else 10_000 * TenTo(k - 4)
  }

  lemma TenTimes(k: nat)
    requires k > 0
    ensures TenTo(k) == 10 * TenTo(k - 1)
  {
    if k > 4 { TenTimes(k - 4); }
  }

  lemma {:induction false} NatTextLength(n: nat, k: nat)
    requires k > 0 && n < TenTo(k)
    ensures |NatText(n)| <= k
  {
    if n >= 10 {
      TenTimes(k);
      NatTextLength(n / 10, k - 1);
    }
  }

  const NOT_STARTED: string := "-ERR replication handshake not started\r\n"
  const NOT_COMPLETE: string := "-ERR replication handshake not complete\r\n"

  /** What one read does: the new state and what becomes of the request. */
  function React(c: Conn, request: string): (Conn, Action) {
    match Parse(request)
    case None => (c, ParseError)
    case Some(parsed) =>
      if !IsRequest(parsed.value) then (c, InvalidFormat)
      else
        var cmd := ParseCommand(parsed.value);
        match Decide(c, cmd.kind)
        case None =>
          (c, HandshakeError(if cmd.kind == Replconf then NOT_STARTED else NOT_COMPLETE))
        case Some(next) =>
          if next.mode.Replication? && IsAck(cmd) then (next, AckTaken(AckOffset(cmd)))
          else (next, Dispatch(next.mode.Replication? || (next.mode.Undecided? && cmd.kind in {Replconf, Psync})))
  }

  // ---------------------------------------------------------------- who handles a request

  /** Some PSYNC came when everything before it was ready for it. */
  ghost predicate HandshakeComplete(kinds: seq<Kind>) {
    exists n :: 0 <= n < |kinds| && kinds[n] == Psync && ReadyForPsync(kinds[..n])
  }

  /** A connection is undecided exactly while only handshake commands have come and the handshake is not complete. */
  lemma UndecidedIff(kinds: seq<Kind>)
    ensures After(kinds).mode.Undecided? <==> AllHandshake(kinds) && !HandshakeComplete(kinds)
  {
    ReplicaIffHandshakeComplete(kinds);
    if After(kinds).mode.Undecided? {
      HandshakeRecords(kinds);
    } else {
      var n := DecidingCommand(kinds);
      assert kinds[..n + 1][..n] == kinds[..n];
    }
  }

  lemma {:induction false} NoPingYet(kinds: seq<Kind>)
    ensures FirstPing(kinds) == |kinds| <==> Ping !in kinds
  {
    if kinds != [] {
      NoPingYet(kinds[1..]);
      assert Ping in kinds <==> kinds[0] == Ping || Ping in kinds[1..];
    }
  }

  lemma AfterSnoc(kinds: seq<Kind>, kind: Kind)
    ensures After(kinds + [kind]) == match Decide(After(kinds), kind) { case None => After(kinds) case Some(c) => c }
  {
    assert (kinds + [kind])[..|kinds|] == kinds;
  }

  /**
   A request is refused if and only if the handshake is still open and it is a REPLCONF before any PING, or a PSYNC
   that nothing prepared.
   */
  lemma RefusedIff(kinds: seq<Kind>, bytes: string)
    requires Parse(bytes).Some? && IsRequest(Parse(bytes).value.value)
    ensures
      var kind := ParseCommand(Parse(bytes).value.value).kind;
      React(After(kinds), bytes).1.HandshakeError? <==>
      && AllHandshake(kinds) && !HandshakeComplete(kinds)
      && ((kind == Replconf && Ping !in kinds) || (kind == Psync && !ReadyForPsync(kinds)))
  {
    UndecidedIff(kinds);
    NoPingYet(kinds);
    if After(kinds).mode.Undecided? { HandshakeRecords(kinds); }
  }

  /**
   A request that is dispatched goes to the replication handler if and only if the handshake is complete, with this
   request, or the request belongs to a handshake that is still open. All others go to the client handler.
   */
  lemma ReplicationHandlesIff(kinds: seq<Kind>, bytes: string)
    requires Parse(bytes).Some? && IsRequest(Parse(bytes).value.value) && React(After(kinds), bytes).1.Dispatch?
    ensures
      var kind := ParseCommand(Parse(bytes).value.value).kind;
      React(After(kinds), bytes).1.toReplication <==>
      HandshakeComplete(kinds + [kind]) || (AllHandshake(kinds) && kind in {Replconf, Psync})
  {
    var kind := ParseCommand(Parse(bytes).value.value).kind;
    AfterSnoc(kinds, kind);
    ReplicaIffHandshakeComplete(kinds + [kind]);
    UndecidedIff(kinds);
    UndecidedIff(kinds + [kind]);
    if AllHandshake(kinds) && kind in {Replconf, Psync} {
      assert AllHandshake(kinds + [kind]);
    }
    if AllHandshake(kinds + [kind]) {
      assert forall i :: 0 <= i < |kinds| ==> kinds[i] == (kinds + [kind])[i];
    }
  }

  /** The connection of a synced replica. */
  const Synced: Conn := Conn(Replication, Replconf2, 2)

  const PARSE_ERROR: string := "-ERR parse error\r\n"
  const INVALID_FORMAT: string := "-ERR invalid command format\r\n"

  /** What comes of a read from a synced replica: an offset for the registry, or an error reply on its socket. */
  function TakeIn(bytes: string): Intake {
    match React(Synced, bytes).1
    case AckTaken(Some(offset)) => Recorded(offset)
    case AckTaken(None) => Other
    case ParseError => Complaint(PARSE_ERROR)
    case InvalidFormat => Complaint(INVALID_FORMAT)
    case HandshakeError(message) => Complaint(message)
    case Dispatch(_) => Other
  }

  /**
   On a synced replica's connection a read takes the whole buffer as one request: the first ACK in it
   is recorded and any that arrived with it are lost.
   */
  lemma AckReadRecordsFirst(offset: nat, later: string)
    requires offset <= INT64_MAX
    ensures React(Synced, AckMessage(offset) + later) == (Synced, AckTaken(Some(offset)))
    ensures TakeIn(AckMessage(offset) + later) == Recorded(offset)
  {
    var request := Request(["REPLCONF", "ACK", IntText(offset)]);
    ShortNumber(offset);
    RoundTrip(request, later);
    AckRequest(offset);
  }

  /** A read that ends before the ACK does is a parse error. */
  lemma PartOfAckIsParseError(offset: nat, n: nat)
    requires offset <= INT64_MAX && n < |AckMessage(offset)|
    ensures TakeIn(AckMessage(offset)[..n]) == Complaint(PARSE_ERROR)
  {
    ShortNumber(offset);
    StrictPrefixDoesNotParse(Request(["REPLCONF", "ACK", IntText(offset)]), n);
  }

  lemma OnlyStarBeginsArray(bytes: string)
    requires bytes != "" && bytes[0] != '*'
    ensures Parse(bytes).Some? ==> !Parse(bytes).value.value.Array?
  {}

  /** A read that begins inside an ACK cannot be taken for a command. */
  lemma InsideAckIsComplaint(bytes: string)
    requires bytes != "" && bytes[0] != '*'
    ensures TakeIn(bytes) == Complaint(PARSE_ERROR) || TakeIn(bytes) == Complaint(INVALID_FORMAT)
  {
    OnlyStarBeginsArray(bytes);
  }

  predicate NoStar(s: string) {
    forall i :: 0 <= i < |s| ==> s[i] != '*'
  }

  lemma NoStarInNumber(n: nat)
    ensures NoStar(IntText(n))
  {
    NatTextRoundTrip(n);
  }

  lemma NoStarInBulk(str: string)
    requires NoStar(str)
    ensures NoStar(Serialize(BulkString(str)))
  {
    NoStarInNumber(|str|);
    SerializeLayout(BulkString(str));
  }

  lemma {:induction false} NoStarInBulks(parts: seq<string>)
    requires forall i :: 0 <= i < |parts| ==> NoStar(parts[i])
    ensures NoStar(SerializeAll(Bulks(parts)))
  {
    if parts != [] {
      NoStarInBulk(parts[0]);
      NoStarInBulks(parts[1..]);
      assert Bulks(parts)[0] == BulkString(parts[0]) && Bulks(parts)[1..] == Bulks(parts[1..]);
    }
  }

  /** A star begins the ACK and occurs nowhere else in it. */
  lemma StarOnlyInFront(offset: nat)
    ensures AckMessage(offset) != "" && NoStar(AckMessage(offset)[1..])
  {
    var parts := ["REPLCONF", "ACK", IntText(offset)];
    NoStarInNumber(offset);
    NoStarInBulks(parts);
    NoStarInNumber(3);
    SerializeLayout(Request(parts));
    assert AckMessage(offset)[1..] == (IntText(3) + CRLF) + SerializeAll(Bulks(parts));
  }

  /** What the cutting of the ACK stream into reads comes down to. */
  lemma AcksAreTakenIn()
    ensures TakesMessages(AckMessage, TakeIn)
  {
    forall offset ensures AckMessage(offset) != "" {
      StarOnlyInFront(offset);
    }
    forall offset: nat, later: string | offset <= INT64_MAX
      ensures TakeIn(AckMessage(offset) + later) == Recorded(offset)
    {
      AckReadRecordsFirst(offset, later);
    }
    forall offset: nat, n: nat | offset <= INT64_MAX && n < |AckMessage(offset)|
      ensures Refused(TakeIn(AckMessage(offset)[..n]))
    {
      PartOfAckIsParseError(offset, n);
    }
    forall offset: nat, i: nat, bytes: string
      | 0 < i < |AckMessage(offset)| && bytes != "" && bytes[0] == AckMessage(offset)[i]
      ensures Refused(TakeIn(bytes))
    {
      StarOnlyInFront(offset);
      assert AckMessage(offset)[i] == AckMessage(offset)[1..][i - 1];
      InsideAckIsComplaint(bytes);
    }
  }

  class Connection {
    var mode: Mode
    var handshake: Handshake
    var replconfs: nat
    var registered: bool
    var replicaId: nat
    const registry: R.ReplicaRegistry

    ghost predicate Valid()
      reads this
    {
      registered == mode.Replication?
    }

    ghost function State(): Conn
      reads this
    {
      Conn(mode, handshake, replconfs)
    }

    constructor (registry: R.ReplicaRegistry)
      ensures Valid() && State() == NewConn && this.registry == registry
    {
      this.registry := registry;
      mode, handshake, replconfs, registered, replicaId := Undecided, NotStarted, 0, false, 0;
    }

    /** Moves the handshake on; a PSYNC that completes it adds this connection to the registry. */
    method DecideMode(kind: Kind) returns (ok: bool)
      requires Valid()
      modifies this, registry
      ensures Valid()
      ensures if ok then Decide(old(State()), kind) == Some(State())
              else Decide(old(State()), kind) == None && State() == old(State())
      ensures if registered && !old(registered) then
                replicaId == old(registry.nextId) && registry.State() == R.Added(old(registry.State()))
              else replicaId == old(replicaId) && registry.State() == old(registry.State())
      ensures kind != Psync ==> registered == old(registered)
    {
      if !mode.Undecided? { return true; }
      if kind == Ping {
        handshake := Pinged;
      } else if kind == Replconf {
        if handshake.NotStarted? { return false; }
        replconfs := replconfs + 1;
        handshake := if replconfs >= 2 then Replconf2 else Replconf1;
      } else if kind == Psync {
        if !handshake.Replconf2? { return false; }
        mode := Replication;
        if !registered {
          registered := true;
          replicaId := registry.Add();
        }
      } else {
        mode := Client;
      }
      return true;
    }

    /**
     The completion handler of a read, up to the dispatch to the store thread. The replica is added to
     the registry in the read that decides its mode, and an ACK goes to the registry entry of this socket.
     */
    method OnRead(request: string) returns (action: Action)
      requires Valid()
      modifies this, registry
      ensures Valid()
      ensures (State(), action) == React(old(State()), request)
      ensures
        if registered && !old(registered) then
          replicaId == old(registry.nextId) && registry.State() == R.Added(old(registry.State()))
        else if action.AckTaken? && action.offset.Some? then
          replicaId == old(replicaId) &&
          registry.State() == R.AckRecorded(old(registry.State()), replicaId, action.offset.value)
        else
          replicaId == old(replicaId) && registry.State() == old(registry.State())
    {
      var value, _ := RespParser.ParseIterative(request);
      if value.None? { return ParseError; }
      if !IsRequest(value.value) { return InvalidFormat; }
      var cmd := ParseCommand(value.value);
      var ok := DecideMode(cmd.kind);
      if !ok { return HandshakeError(if cmd.kind == Replconf then NOT_STARTED else NOT_COMPLETE); }
      if mode.Replication? && IsAck(cmd) {
        var offset := AckOffset(cmd);
        if offset.Some? { registry.RecordAck(replicaId, offset.value); }
        return AckTaken(offset);
      }
      return Dispatch(mode.Replication? || (mode.Undecided? && cmd.kind in {Replconf, Psync}));
    }
  }
}
