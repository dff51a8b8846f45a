/** The UDP side of the server: the 32-byte request codec, the filter that
    decides which decoded requests reach the match coordinator, the two
    outbound packet layouts, and the sender's player-id -> address table. */
module UdpServer {

  import opened Bytes
  import opened Wrappers

  /** Every inbound request is exactly this long. */
  const PACKET_LEN: nat := 32
  /** The six bytes every inbound request starts with: ":):P:D". */
  const MAGIC: seq<Byte> := [58, 41, 58, 80, 58, 68]
  /** The four bytes the address/board assignment packet starts with. */
  const IDS_MAGIC: seq<Byte> := [12, 64, 13, 56]
  /** Size of the receive buffer handed to `recv_from`. */
  const RECV_BUFFER_LEN: nat := 32

  /** A peer's network address (`SocketAddr`), compared by value. */
  datatype SocketAddr = SocketAddr(host: seq<Byte>, port: U16)

  /** A datagram, with the peer it came from or goes to. */
  datatype Datagram = Datagram(peer: SocketAddr, payload: seq<Byte>)

  datatype Key = Left(pressed: bool) | Right(pressed: bool) | Jump

  /** The requests the coordinator accepts from a player. */
  datatype MsgIn = GameRequest(playerId: U64) | Input(playerId: U64, boardId: U64, key: Key)

  /** Every request the codec can decode. */
  datatype PacketMsg =
    | PlayerIdRequest
    | GameRequest(playerId: U64)
    | Input(playerId: U64, boardId: U64, key: Key)
    | Ping(playerId: U64, boardId: U64)

  datatype ParseError = ParseError

  /** Decodes one inbound request. Anything but a 32-byte buffer that starts
      with MAGIC and carries a known opcode pair at bytes 6..8 is an error;
      the player id is bytes 8..16 and the board id bytes 16..24, both
      little-endian; bytes 24..32 are never looked at. */
  function ParsePacket(data: seq<Byte>): (r: Result<PacketMsg, ParseError>)
    ensures r.Ok? ==> |data| == PACKET_LEN && data[..6] == MAGIC
  {
    if |data| != PACKET_LEN || data[..6] != MAGIC then Err(ParseError)
    else
      var playerId := U64FromLE(data[8..16]);
      var boardId := U64FromLE(data[16..24]);
      match (data[6], data[7])
      case (11, 13) => Ok(PacketMsg.GameRequest(playerId))
      case (13, 22) => Ok(PlayerIdRequest)
      case (17, 23) => Ok(PacketMsg.Input(playerId, boardId, Left(true)))
      case (25, 99) => Ok(PacketMsg.Input(playerId, boardId, Left(false)))
      case (37, 31) => Ok(PacketMsg.Input(playerId, boardId, Right(true)))
      case (67, 58) => Ok(PacketMsg.Input(playerId, boardId, Right(false)))
      case (97, 33) => Ok(PacketMsg.Input(playerId, boardId, Jump))
      case (96, 22) => Ok(Ping(playerId, boardId))
      case _ => Err(ParseError)
  }

  // ---------------------------------------------------------------------
  // The request format as a client writes it: an independent description
  // of the codec, against which ParsePacket is proved in both directions.

  /** The opcode pair a client puts at bytes 6..8 to send m. */
  function Opcode(m: PacketMsg): (r: seq<Byte>)
    ensures |r| == 2
  {
    match m
    case PlayerIdRequest => [13, 22]
    case GameRequest(_) => [11, 13]
    case Input(_, _, Left(true)) => [17, 23]
    case Input(_, _, Left(false)) => [25, 99]
    case Input(_, _, Right(true)) => [37, 31]
    case Input(_, _, Right(false)) => [67, 58]
    case Input(_, _, Jump) => [97, 33]
    case Ping(_, _) => [96, 22]
  }

  /** A request frame: magic, opcode pair, player id, board id, eight free bytes. */
  function Frame(opcode: seq<Byte>, playerId: U64, boardId: U64, tail: seq<Byte>): (r: seq<Byte>)
    requires |opcode| == 2 && |tail| == 8
    ensures |r| == PACKET_LEN
  {
    MAGIC + opcode + U64ToLE(playerId) + U64ToLE(boardId) + tail
  }

  /** The id fields of a frame match those m carries (a field m does not
      carry may hold anything). */
  predicate Carries(m: PacketMsg, playerId: U64, boardId: U64)
  {
    match m
    case PlayerIdRequest => true
    case GameRequest(p) => p == playerId
    case Input(p, b, _) => p == playerId && b == boardId
    case Ping(p, b) => p == playerId && b == boardId
  }

  /** Every frame a client builds for m decodes to m, whatever it holds in
      the fields m does not use and in its last eight bytes. */
  lemma ParseFrame(m: PacketMsg, playerId: U64, boardId: U64, tail: seq<Byte>)
    requires |tail| == 8 && Carries(m, playerId, boardId)
    ensures ParsePacket(Frame(Opcode(m), playerId, boardId, tail)) == Ok(m)
  {
    var data := Frame(Opcode(m), playerId, boardId, tail);
    assert data[..6] == MAGIC;
    assert data[6..8] == Opcode(m);
    assert data[8..16] == U64ToLE(playerId);
    assert data[16..24] == U64ToLE(boardId);
    U64RoundTrip(playerId);
    U64RoundTrip(boardId);
  }

  /** Conversely, whatever decodes to m is a frame a client builds for m: the
      opcode pair is m's, and the ids m carries are the ones in the packet. */
  lemma ParsedIsFrame(data: seq<Byte>, m: PacketMsg)
    requires ParsePacket(data) == Ok(m)
    ensures data == Frame(Opcode(m), U64FromLE(data[8..16]), U64FromLE(data[16..24]), data[24..])
    ensures Carries(m, U64FromLE(data[8..16]), U64FromLE(data[16..24]))
    ensures data[6..8] == Opcode(m)
  {
    assert data[6..8] == Opcode(m) by {
      assert data[6..8] == [data[6], data[7]];
    }
    ToFromLE(data[8..16]);
    ToFromLE(data[16..24]);
    assert data == data[..6] + data[6..8] + data[8..16] + data[16..24] + data[24..];
  }

  /** A 32-byte buffer with the right magic but an opcode pair that belongs
      to no message is rejected. */
  lemma ParseRejectsUnknownOpcode(data: seq<Byte>)
    requires |data| == PACKET_LEN && data[..6] == MAGIC
    requires forall m: PacketMsg :: Opcode(m) != data[6..8]
    ensures ParsePacket(data) == Err(ParseError)
  {
    if ParsePacket(data).Ok? {
      var m := ParsePacket(data).value;
      ParsedIsFrame(data, m);
      assert false;
    }
  }

  /** Bytes 24..32 never affect the result. */
  lemma ParseIgnoresTail(data: seq<Byte>, other: seq<Byte>)
    requires |data| == PACKET_LEN && |other| == PACKET_LEN && data[..24] == other[..24]
    ensures ParsePacket(data) == ParsePacket(other)
  {
    assert data[..6] == data[..24][..6] && other[..6] == other[..24][..6];
    assert data[8..16] == data[..24][8..16] && other[8..16] == other[..24][8..16];
    assert data[16..24] == data[..24][16..24] && other[16..24] == other[..24][16..24];
    assert data[6] == data[..24][6] && data[7] == data[..24][7];
    assert other[6] == other[..24][6] && other[7] == other[..24][7];
  }

  /** The rejected cases of the repository's own unit test of the parser. */
  lemma ParsePacketRejectExamples()
    ensures ParsePacket([13, 14]) == Err(ParseError)
    ensures ParsePacket([13, 14, 31, 43, 53]) == Err(ParseError)
    ensures ParsePacket([]) == Err(ParseError)
    ensures ParsePacket(MAGIC + [11, 13]) == Err(ParseError)
  {
  }

  /** The accepted cases of the same unit test whose ids are zero or one. */
  lemma ParsePacketAcceptExamples()
    ensures ParsePacket(MAGIC + [11, 13] + U64ToLE(0) + U64ToLE(0) + Zeros(8)) == Ok(PacketMsg.GameRequest(0))
    ensures ParsePacket(MAGIC + [13, 22] + U64ToLE(0) + U64ToLE(0) + Zeros(8)) == Ok(PlayerIdRequest)
    ensures ParsePacket(MAGIC + [17, 23] + U64ToLE(1) + U64ToLE(1) + Zeros(8))
         == Ok(PacketMsg.Input(1, 1, Left(true)))
  {
    ParseFrame(PacketMsg.GameRequest(0), 0, 0, Zeros(8));
    ParseFrame(PlayerIdRequest, 0, 0, Zeros(8));
    ParseFrame(PacketMsg.Input(1, 1, Left(true)), 1, 1, Zeros(8));
  }

  /** The ping frame of the same unit test, whose player id is written as
      the single byte 197 followed by seven zero bytes. */
  lemma PingTestFrame()
    ensures Frame([96, 22], 197, 1, Zeros(8)) == MAGIC + [96, 22] + [197] + Zeros(7) + U64ToLE(1) + Zeros(8)
  {
    ToLEZero(7);
    assert U64ToLE(197) == [197] + ToLE(0, 7);
  }

  /** The accepted cases of the same unit test with larger ids. */
  lemma ParsePacketIdExamples()
    ensures ParsePacket(MAGIC + [25, 99] + U64ToLE(99) + U64ToLE(1) + Zeros(8))
         == Ok(PacketMsg.Input(99, 1, Left(false)))
    ensures ParsePacket(MAGIC + [37, 31] + U64ToLE(99) + U64ToLE(1) + Zeros(8))
         == Ok(PacketMsg.Input(99, 1, Right(true)))
    ensures ParsePacket(MAGIC + [96, 22] + [197] + Zeros(7) + U64ToLE(1) + Zeros(8)) == Ok(Ping(197, 1))
  {
    ParseFrame(PacketMsg.Input(99, 1, Left(false)), 99, 1, Zeros(8));
    ParseFrame(PacketMsg.Input(99, 1, Right(true)), 99, 1, Zeros(8));
    PingTestFrame();
    ParseFrame(Ping(197, 1), 197, 1, Zeros(8));
  }

  /** The release-right frame of the same unit test, byte by byte: ids 258
      and 1, least significant byte first. */
  lemma ReleaseRightTestFrame()
    ensures Frame([67, 58], 258, 1, Zeros(8))
         == [58, 41, 58, 80, 58, 68, 67, 58, 2, 1, 0, 0, 0, 0, 0, 0,
             1, 0, 0, 0, 0, 0, 0, 0, 0, 0, 0, 0, 0, 0, 0, 0]
  {
    assert Frame([67, 58], 258, 1, Zeros(8))
        == MAGIC + [67, 58] + [2, 1, 0, 0, 0, 0, 0, 0] + [1, 0, 0, 0, 0, 0, 0, 0] + [0, 0, 0, 0, 0, 0, 0, 0] by {
      ReleaseRightTestIds();
      assert Zeros(8) == [0, 0, 0, 0, 0, 0, 0, 0];
    }
    ReleaseRightTestLayout();
  }

  /** The two ids of the release-right frame, least significant byte first. */
  lemma ReleaseRightTestIds()
    ensures U64ToLE(258) == [2, 1, 0, 0, 0, 0, 0, 0]
    ensures U64ToLE(1) == [1, 0, 0, 0, 0, 0, 0, 0]
  {
    ToLEZero(6);
    ToLEZero(7);
    assert ToLE(258, 8) == [2] + ToLE(1, 7);
    assert ToLE(1, 7) == [1] + ToLE(0, 6);
    assert ToLE(1, 8) == [1] + ToLE(0, 7);
  }

  /** The release-right frame's fields laid end to end. */
  lemma ReleaseRightTestLayout()
    ensures MAGIC + [67, 58] + [2, 1, 0, 0, 0, 0, 0, 0] + [1, 0, 0, 0, 0, 0, 0, 0] + [0, 0, 0, 0, 0, 0, 0, 0]
         == [58, 41, 58, 80, 58, 68, 67, 58, 2, 1, 0, 0, 0, 0, 0, 0,
             1, 0, 0, 0, 0, 0, 0, 0, 0, 0, 0, 0, 0, 0, 0, 0]
  {
  }

  /** The jump frame of the same unit test, byte by byte: ids 65543 and
      78243, least significant byte first. */
  lemma JumpTestFrame()
    ensures Frame([97, 33], 65543, 78243, Zeros(8))
         == [58, 41, 58, 80, 58, 68, 97, 33, 7, 0, 1, 0, 0, 0, 0, 0,
             163, 49, 1, 0, 0, 0, 0, 0, 0, 0, 0, 0, 0, 0, 0, 0]
  {
    assert Frame([97, 33], 65543, 78243, Zeros(8))
        == MAGIC + [97, 33] + [7, 0, 1, 0, 0, 0, 0, 0] + [163, 49, 1, 0, 0, 0, 0, 0] + [0, 0, 0, 0, 0, 0, 0, 0] by {
      JumpTestIds();
      assert Zeros(8) == [0, 0, 0, 0, 0, 0, 0, 0];
    }
    JumpTestLayout();
  }

  /** The jump frame's fields laid end to end. */
  lemma JumpTestLayout()
    ensures MAGIC + [97, 33] + [7, 0, 1, 0, 0, 0, 0, 0] + [163, 49, 1, 0, 0, 0, 0, 0] + [0, 0, 0, 0, 0, 0, 0, 0]
         == [58, 41, 58, 80, 58, 68, 97, 33, 7, 0, 1, 0, 0, 0, 0, 0,
             163, 49, 1, 0, 0, 0, 0, 0, 0, 0, 0, 0, 0, 0, 0, 0]
  {
  }

  /** The two ids of the jump frame, least significant byte first. */
  lemma JumpTestIds()
    ensures U64ToLE(65543) == [7, 0, 1, 0, 0, 0, 0, 0]
    ensures U64ToLE(78243) == [163, 49, 1, 0, 0, 0, 0, 0]
  {
    ToLEZero(5);
    assert ToLE(65543, 8) == [7] + ToLE(256, 7);
    assert ToLE(256, 7) == [0] + ToLE(1, 6);
    assert ToLE(78243, 8) == [163] + ToLE(305, 7);
    assert ToLE(305, 7) == [49] + ToLE(1, 6);
    assert ToLE(1, 6) == [1] + ToLE(0, 5);
  }

  /** The two cases of the same unit test that are written out as literal
      32-byte buffers. */
  lemma ParsePacketByteExamples()
    ensures ParsePacket([58, 41, 58, 80, 58, 68, 67, 58, 2, 1, 0, 0, 0, 0, 0, 0,
                         1, 0, 0, 0, 0, 0, 0, 0, 0, 0, 0, 0, 0, 0, 0, 0])
         == Ok(PacketMsg.Input(258, 1, Right(false)))
    ensures ParsePacket([58, 41, 58, 80, 58, 68, 97, 33, 7, 0, 1, 0, 0, 0, 0, 0,
                         163, 49, 1, 0, 0, 0, 0, 0, 0, 0, 0, 0, 0, 0, 0, 0])
         == Ok(PacketMsg.Input(65543, 78243, Jump))
  {
    ReleaseRightTestFrame();
    ParseFrame(PacketMsg.Input(258, 1, Right(false)), 258, 1, Zeros(8));
    JumpTestFrame();
    ParseFrame(PacketMsg.Input(65543, 78243, Jump), 65543, 78243, Zeros(8));
  }

  // ---------------------------------------------------------------------
  // The receive path.

  /** The decoded packet a forwarded message stands for. */
  function AsPacket(m: MsgIn): (r: PacketMsg)
    ensures r.GameRequest? || r.Input?
  {
    match m
    case GameRequest(p) => PacketMsg.GameRequest(p)
    case Input(p, b, k) => PacketMsg.Input(p, b, k)
  }

  /** What the receive loop makes of one buffer: join requests and inputs
      go on to the coordinator, everything else (id requests, pings,
      parse failures) is logged and dropped. */
  function Dispatch(data: seq<Byte>): (r: Option<MsgIn>)
    ensures r.Some? <==> ParsePacket(data).Ok? && (ParsePacket(data).value.GameRequest? || ParsePacket(data).value.Input?)
    ensures r.Some? ==> AsPacket(r.value) == ParsePacket(data).value
  {
    match ParsePacket(data)
    case Ok(Input(p, b, k)) => Some(MsgIn.Input(p, b, k))
    case Ok(GameRequest(p)) => Some(MsgIn.GameRequest(p))
    case Ok(_) => None
    case Err(_) => None
  }

  /** What `recv_from` leaves in the 32-byte receive buffer: the datagram,
      cut off at the buffer's size. */
  function Received(payload: seq<Byte>): (r: seq<Byte>)
    ensures |r| <= RECV_BUFFER_LEN && |r| <= |payload|
    ensures r == payload[..|r|]
    ensures |payload| <= RECV_BUFFER_LEN ==> r == payload
    ensures |payload| > RECV_BUFFER_LEN ==> r == payload[..RECV_BUFFER_LEN]
  {
    if |payload| <= RECV_BUFFER_LEN then payload else payload[..RECV_BUFFER_LEN]
  }

  /** The (sender, message) pairs that reach the coordinator's queue for a
      run of received datagrams, in arrival order. */
  function Forwarded(ds: seq<Datagram>): (r: seq<(SocketAddr, MsgIn)>)
    ensures |r| <= |ds|
  {
    if ds == [] then []
    else
      var last := ds[|ds| - 1];
      Forwarded(ds[..|ds| - 1])
      + match Dispatch(Received(last.payload))
        case Some(m) => [(last.peer, m)]
        case None => []
  }

  /** Everything forwarded came from a received datagram: same sender, and
      the message is what that datagram's buffer decodes to. */
  lemma {:induction false} ForwardedSound(ds: seq<Datagram>, k: nat)
    requires k < |Forwarded(ds)|
    ensures exists j :: 0 <= j < |ds| && ds[j].peer == Forwarded(ds)[k].0
                   && ParsePacket(Received(ds[j].payload)) == Ok(AsPacket(Forwarded(ds)[k].1))
  {
    var init := ds[..|ds| - 1];
    if k < |Forwarded(init)| {
      ForwardedSound(init, k);
      var j :| 0 <= j < |init| && init[j].peer == Forwarded(init)[k].0
            && ParsePacket(Received(init[j].payload)) == Ok(AsPacket(Forwarded(init)[k].1));
      assert ds[j] == init[j];
    } else {
      assert ds[|ds| - 1].peer == Forwarded(ds)[k].0;
    }
  }

  /** Conversely, every received datagram whose buffer is a join request or
      an input reaches the coordinator's queue, with its sender. */
  lemma {:induction false} ForwardedComplete(ds: seq<Datagram>, j: nat)
    requires j < |ds| && Dispatch(Received(ds[j].payload)).Some?
    ensures (ds[j].peer, Dispatch(Received(ds[j].payload)).value) in Forwarded(ds)
  {
    var init := ds[..|ds| - 1];
    if j < |ds| - 1 {
      assert init[j] == ds[j];
      ForwardedComplete(init, j);
    }
  }

  /** The receive loop of `start`, over a finite run of datagrams. */
  method ReceiveLoop(ds: seq<Datagram>) returns (forwarded: seq<(SocketAddr, MsgIn)>)
    ensures forwarded == Forwarded(ds)
  {
    forwarded := [];
    var i := 0;
    while i < |ds|
      invariant 0 <= i <= |ds|
      invariant forwarded == Forwarded(ds[..i])
    {
      var d := ds[i];
      var buf := Received(d.payload);
      match ParsePacket(buf) {
        case Ok(Input(p, b, k)) =>
          forwarded := forwarded + [(d.peer, MsgIn.Input(p, b, k))];
        case Ok(GameRequest(p)) =>
          forwarded := forwarded + [(d.peer, MsgIn.GameRequest(p))];
        case Ok(_) =>
        case Err(_) =>
      }
      assert ds[..i + 1][..i] == ds[..i];
      i := i + 1;
    }
    assert ds[..|ds|] == ds;
  }

  // ---------------------------------------------------------------------
  // Outbound packets.

  /** The assignment packet: IDS_MAGIC, the player id, the board id, twelve zero bytes. */
  function IdsPacket(clientId: U64, boardId: U64): (r: seq<Byte>)
    ensures |r| == 32
  {
    IDS_MAGIC + U64ToLE(clientId) + U64ToLE(boardId) + Zeros(12)
  }

  /** A client reading bytes 4..12 and 12..20 of an assignment packet gets
      back the two ids; the packet starts with IDS_MAGIC and ends in zeros. */
  lemma IdsPacketDecodes(clientId: U64, boardId: U64)
    ensures IdsPacket(clientId, boardId)[..4] == IDS_MAGIC
    ensures U64FromLE(IdsPacket(clientId, boardId)[4..12]) == clientId
    ensures U64FromLE(IdsPacket(clientId, boardId)[12..20]) == boardId
    ensures forall i :: 20 <= i < 32 ==> IdsPacket(clientId, boardId)[i] == 0
  {
    var r := IdsPacket(clientId, boardId);
    assert r[4..12] == U64ToLE(clientId);
    assert r[12..20] == U64ToLE(boardId);
    U64RoundTrip(clientId);
    U64RoundTrip(boardId);
  }

  /** An f32 field, kept as its IEEE-754 bit pattern: `f32::to_le_bytes`
      is the little-endian encoding of those bits. */
  datatype F32 = F32(bits: U32)

  /** The per-frame snapshot of one board (declared beside the coordinator). */
  datatype GameStateSerialized = GameStateSerialized(
    ballPos: (F32, F32),
    ballRadius: F32,
    playerRadius: F32,
    player1Pos: (F32, F32),
    player2Pos: (F32, F32),
    score1: U32,
    score2: U32,
    gameOver: bool)

  /** The first 32 bytes of a snapshot packet: the eight float fields. */
  function SnapshotFloats(s: GameStateSerialized): (r: seq<Byte>)
    ensures |r| == 32
  {
    U32ToLE(s.ballRadius.bits) + U32ToLE(s.ballPos.0.bits) + U32ToLE(s.ballPos.1.bits)
    + U32ToLE(s.playerRadius.bits)
    + U32ToLE(s.player1Pos.0.bits) + U32ToLE(s.player1Pos.1.bits)
    + U32ToLE(s.player2Pos.0.bits) + U32ToLE(s.player2Pos.1.bits)
  }

  /** The 64-byte snapshot packet: eight floats, the two scores, the game-over
      byte, zero padding. */
  function SnapshotPacket(s: GameStateSerialized): (r: seq<Byte>)
    ensures |r| == 64
  {
    SnapshotFloats(s) + U32ToLE(s.score1) + U32ToLE(s.score2) + [if s.gameOver then 1 else 0] + Zeros(23)
  }

  /** A client reading the snapshot gets back both scores and the game-over
      flag, and the tail after byte 40 is all zero. */
  lemma SnapshotDecodes(s: GameStateSerialized)
    ensures FromLE(SnapshotPacket(s)[32..36]) == s.score1
    ensures FromLE(SnapshotPacket(s)[36..40]) == s.score2
    ensures SnapshotPacket(s)[40] == 1 <==> s.gameOver
    ensures SnapshotPacket(s)[40] == 0 <==> !s.gameOver
    ensures forall i :: 41 <= i < 64 ==> SnapshotPacket(s)[i] == 0
  {
    var r := SnapshotPacket(s);
    assert r[32..36] == U32ToLE(s.score1);
    assert r[36..40] == U32ToLE(s.score2);
    U32RoundTrip(s.score1);
    U32RoundTrip(s.score2);
  }

  /** The float fields sit in the first 32 bytes in the order ball radius,
      ball x, ball y, player radius, player 1 x, player 1 y, player 2 x,
      player 2 y, four bytes each. */
  lemma SnapshotFloatLayout(s: GameStateSerialized)
    ensures SnapshotPacket(s)[0..4] == U32ToLE(s.ballRadius.bits)
    ensures SnapshotPacket(s)[4..8] == U32ToLE(s.ballPos.0.bits)
    ensures SnapshotPacket(s)[8..12] == U32ToLE(s.ballPos.1.bits)
    ensures SnapshotPacket(s)[12..16] == U32ToLE(s.playerRadius.bits)
    ensures SnapshotPacket(s)[16..20] == U32ToLE(s.player1Pos.0.bits)
    ensures SnapshotPacket(s)[20..24] == U32ToLE(s.player1Pos.1.bits)
    ensures SnapshotPacket(s)[24..28] == U32ToLE(s.player2Pos.0.bits)
    ensures SnapshotPacket(s)[28..32] == U32ToLE(s.player2Pos.1.bits)
  {
    var r, f := SnapshotPacket(s), SnapshotFloats(s);
    var lo := U32ToLE(s.ballRadius.bits) + U32ToLE(s.ballPos.0.bits) + U32ToLE(s.ballPos.1.bits)
              + U32ToLE(s.playerRadius.bits);
    var hi := U32ToLE(s.player1Pos.0.bits) + U32ToLE(s.player1Pos.1.bits)
              + U32ToLE(s.player2Pos.0.bits) + U32ToLE(s.player2Pos.1.bits);
    assert f == lo + hi;
    assert r[..32] == f;
    QuadSlots(lo);
    QuadSlots(hi);
    forall i, j | 0 <= i <= j <= 16 ensures r[i..j] == lo[i..j] && r[16 + i..16 + j] == hi[i..j] {
      assert r[i..j] == f[i..j];
      assert r[16 + i..16 + j] == f[16 + i..16 + j];
    }
  }

  /** A 16-byte string is four consecutive 4-byte slots. */
  lemma QuadSlots(q: seq<Byte>)
    requires |q| == 16
    ensures q == q[0..4] + q[4..8] + q[8..12] + q[12..16]
  {
  }

  /** `copy_from_slice` into buf[at..at + |src|]. */
  method CopyFromSlice(buf: array<Byte>, at: nat, src: seq<Byte>)
    requires at + |src| <= buf.Length
    modifies buf
    ensures buf[..] == old(buf[..at]) + src + old(buf[at + |src|..])
  {
    var i := 0;
    while i < |src|
      invariant 0 <= i <= |src|
      invariant forall k :: 0 <= k < buf.Length ==> buf[k] == if at <= k < at + i then src[k - at] else old(buf[k])
    {
      buf[at + i] := src[i];
      i := i + 1;
    }
    assert buf[..] == old(buf[..at]) + src + old(buf[at + |src|..]);
  }

  /** `copy_from_slice` into a buffer whose bytes from `at` on are still
      zero, where the bytes before `at` are already `done`. */
  method FillNext(buf: array<Byte>, at: nat, src: seq<Byte>, ghost done: seq<Byte>)
    requires |done| == at && at + |src| <= buf.Length
    requires buf[..] == done + Zeros(buf.Length - at)
    modifies buf
    ensures buf[..] == done + src + Zeros(buf.Length - at - |src|)
  {
    CopyFromSlice(buf, at, src);
    assert old(buf[..at]) == done;
    assert old(buf[at + |src|..]) == Zeros(buf.Length - at - |src|);
  }

  /** `parse_ids_to_packet`: fills a zeroed 32-byte buffer. */
  method ParseIdsToPacket(clientId: U64, boardId: U64) returns (packet: seq<Byte>)
    ensures packet == IdsPacket(clientId, boardId)
  {
    var buf := new Byte[32](_ => 0);
    assert buf[..] == [] + Zeros(32);
    FillNext(buf, 0, IDS_MAGIC, []);
    FillNext(buf, 4, U64ToLE(clientId), IDS_MAGIC);
    FillNext(buf, 12, U64ToLE(boardId), IDS_MAGIC + U64ToLE(clientId));
    packet := buf[..];
  }

  /** `parse_to_packet`: fills a zeroed 64-byte buffer. */
  method ParseToPacket(state: GameStateSerialized) returns (packet: seq<Byte>)
    ensures packet == SnapshotPacket(state)
  {
    var buf := new Byte[64](_ => 0);
    assert buf[..] == [] + Zeros(64);
    FillFloats(buf, state);
    ghost var done := SnapshotFloats(state);
    FillNext(buf, 32, U32ToLE(state.score1), done);
    done := done + U32ToLE(state.score1);
    FillNext(buf, 36, U32ToLE(state.score2), done);
    done := done + U32ToLE(state.score2);
    FillNext(buf, 40, [if state.gameOver then 1 else 0], done);
    packet := buf[..];
  }

  /** The float half of `parse_to_packet`: bytes 0..32 of the buffer. */
  method FillFloats(buf: array<Byte>, state: GameStateSerialized)
    requires buf.Length == 64 && buf[..] == [] + Zeros(64)
    modifies buf
    ensures buf[..] == SnapshotFloats(state) + Zeros(32)
  {
    FillBall(buf, state);
    FillPlayerPositions(buf, state, U32ToLE(state.ballRadius.bits) + U32ToLE(state.ballPos.0.bits)
                                    + U32ToLE(state.ballPos.1.bits) + U32ToLE(state.playerRadius.bits));
  }

  /** Bytes 0..16 of `parse_to_packet`: the ball and the player radius. */
  method FillBall(buf: array<Byte>, state: GameStateSerialized)
    requires buf.Length == 64 && buf[..] == [] + Zeros(64)
    modifies buf
    ensures buf[..] == U32ToLE(state.ballRadius.bits) + U32ToLE(state.ballPos.0.bits)
                      + U32ToLE(state.ballPos.1.bits) + U32ToLE(state.playerRadius.bits) + Zeros(48)
  {
    ghost var done: seq<Byte> := [];
    FillNext(buf, 0, U32ToLE(state.ballRadius.bits), done);
    done := done + U32ToLE(state.ballRadius.bits);
    FillNext(buf, 4, U32ToLE(state.ballPos.0.bits), done);
    done := done + U32ToLE(state.ballPos.0.bits);
    FillNext(buf, 8, U32ToLE(state.ballPos.1.bits), done);
    done := done + U32ToLE(state.ballPos.1.bits);
    FillNext(buf, 12, U32ToLE(state.playerRadius.bits), done);
    assert [] + U32ToLE(state.ballRadius.bits) == U32ToLE(state.ballRadius.bits);
  }

  /** Bytes 16..32 of `parse_to_packet`: the two player positions. */
  method FillPlayerPositions(buf: array<Byte>, state: GameStateSerialized, ghost done: seq<Byte>)
    requires buf.Length == 64 && |done| == 16 && buf[..] == done + Zeros(48)
    modifies buf
    ensures buf[..] == done + U32ToLE(state.player1Pos.0.bits) + U32ToLE(state.player1Pos.1.bits)
                      + U32ToLE(state.player2Pos.0.bits) + U32ToLE(state.player2Pos.1.bits) + Zeros(32)
  {
    ghost var d := done;
    FillNext(buf, 16, U32ToLE(state.player1Pos.0.bits), d);
    d := d + U32ToLE(state.player1Pos.0.bits);
    FillNext(buf, 20, U32ToLE(state.player1Pos.1.bits), d);
    d := d + U32ToLE(state.player1Pos.1.bits);
    FillNext(buf, 24, U32ToLE(state.player2Pos.0.bits), d);
    d := d + U32ToLE(state.player2Pos.0.bits);
    FillNext(buf, 28, U32ToLE(state.player2Pos.1.bits), d);
  }

  // ---------------------------------------------------------------------
  // The sender thread.

  datatype SenderMsg =
    | SetAddress(playerId: U64, boardId: U64, addr: SocketAddr)
    | GameLogicState(playerId: U64, state: GameStateSerialized)
    | ForgetAddress(playerId: U64)

  /** The state of `start_sender`: the address table, and every datagram
      written to the socket so far. */
  class UdpSender {
    var addresses: map<U64, SocketAddr>
    var sent: seq<Datagram>

    constructor ()
      ensures addresses == map[] && sent == []
    {
      addresses := map[];
      sent := [];
    }

    /** One message from the sender's queue. */
    method Handle(msg: SenderMsg)
      modifies this
      ensures msg.SetAddress? ==>
        addresses == old(addresses)[msg.playerId := msg.addr]
        && sent == old(sent) + [Datagram(msg.addr, IdsPacket(msg.playerId, msg.boardId))]
      ensures msg.GameLogicState? ==>
        addresses == old(addresses)
        && sent == old(sent) + (if msg.playerId in addresses
                                then [Datagram(addresses[msg.playerId], SnapshotPacket(msg.state))]
                                else [])
      ensures msg.ForgetAddress? ==>
        addresses == old(addresses) - {msg.playerId} && sent == old(sent)
    {
      match msg
      case SetAddress(playerId, boardId, addr) =>
        addresses := addresses[playerId := addr];
        var packet := ParseIdsToPacket(playerId, boardId);
        sent := sent + [Datagram(addr, packet)];
      case GameLogicState(id, state) =>
        if id in addresses {
          var packet := ParseToPacket(state);
          sent := sent + [Datagram(addresses[id], packet)];
        }
      case ForgetAddress(playerId) =>
        addresses := addresses - {playerId};
    }
  }

  /** Registering an address, then forgetting it, leaves no trace of the
      player in the table and keeps every other entry. */
  method RegisterThenForget(s: UdpSender, p: U64, b: U64, a: SocketAddr)
    modifies s
    ensures p !in s.addresses
    ensures s.addresses == old(s.addresses) - {p}
    ensures s.sent == old(s.sent) + [Datagram(a, IdsPacket(p, b))]
  {
    s.Handle(SetAddress(p, b, a));
    s.Handle(ForgetAddress(p));
  }
}
