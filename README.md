# rust_volleyball: a Dafny model of the server core

The server of rust_volleyball runs two-player volleyball matches. Clients join over TCP, then
send key events over UDP. The server sends back a snapshot of each match after every
simulation step. This project models and proves the sequential core of that server:

- **Wire codec and UDP sender** (`bytes.dfy`, `udp_server.dfy`, modules `Bytes` and `UdpServer`):
  - `parse_packet` decodes a 32-byte inbound datagram (magic, opcode pair, little-endian ids).
  - The receive loop forwards only join requests and inputs to the coordinator.
  - `parse_ids_to_packet` and `parse_to_packet` fill zeroed byte buffers in place; here they are
    methods over an `array`, proved equal to a reference layout.
  - The sender thread keeps a table from player id to address. It is a class whose `Handle`
    method updates that table and logs each datagram it writes.
- **Match coordinator** (`server_logic.dfy`, module `ServerLogic`):
  - The single loop that owns the lobby, the board table and the players' TCP mailboxes.
  - It is a `Coordinator` class with one method per logic message.
  - A board's game is abstract: the coordinator records each call it makes on it.
    `add_force`, `reset_force`, `apply_impulse` and `step` are the recorded calls.
  - Every send goes to an event log: a TCP mailbox message, or a command to the UDP sender.
  - These come in as arguments: the random board id, which boards' `step()` produced a frame,
    and the visiting order of the board table's `retain`.
- **Per-board input table and movement rule** (`physics.dfy`, module `Physics`):
  - `GameState` is a class with the handles, the `player_input` table and the bodies.
    `new`, `add_force` and `reset_force` are its constructor and methods.
  - `control_player` is the rule that turns held keys into a force and a clamped velocity.
  - `apply_impulse` is the jump guarded by ground contact.
  - A body is reduced to the values this logic reads and writes, as `real`.
- `wrappers.dfy` holds `Option` and `Result`.

The packet codec is proved in both directions:
- every frame a client builds decodes to its message;
- whatever decodes is such a frame;
- unknown opcode pairs, wrong lengths and wrong magic are rejected;
- the last eight bytes never matter;
- the repository's own unit-test vectors decode as its test expects.

The coordinator's handlers are each specified by their whole new state and log. Lemmas state what
those logs contain:
- `CalculateBoard` sends snapshots only to members of kept boards, and sends every kept,
  stepped board's snapshot to both members in two consecutive events; it sends exactly two
  snapshots per such board.
- A disconnect sends `DisconnectPlayer` only to ids that still had a mailbox, at most once per id.

## Model

| member | source | states |
|---|---|---|
| Bytes.FromToLE | rust_volleyball/src/udp_server.rs:98-99 | decoding the n-byte little-endian encoding of any x below 256^n gives back x |
| Bytes.ToFromLE | rust_volleyball/src/udp_server.rs:98-99 | re-encoding a decoded byte string at its own width gives back the bytes |
| Bytes.U64RoundTrip | rust_volleyball/src/udp_server.rs:117-118 | `u64::from_le_bytes(x.to_le_bytes()) == x` |
| Bytes.U32RoundTrip | rust_volleyball/src/udp_server.rs:132-133 | the u32 little-endian round trip |
| UdpServer.ParsePacket | rust_volleyball/src/udp_server.rs:91-112 | a decode succeeds only on exactly 32 bytes that start with the magic `[58,41,58,80,58,68]`; any other length or magic is an error |
| UdpServer.ParseFrame | rust_volleyball/src/udp_server.rs:98-110 | every frame (magic, the message's opcode pair, LE player id, LE board id, any 8 trailing bytes) decodes to that message, for each of the eight opcode pairs |
| UdpServer.ParsedIsFrame | rust_volleyball/src/udp_server.rs:93-110 | whatever decodes to m is exactly m's frame: bytes 6..8 are m's opcode pair, and m's player and board ids are the LE values of bytes 8..16 and 16..24 |
| UdpServer.ParseRejectsUnknownOpcode | rust_volleyball/src/udp_server.rs:100-109 | a 32-byte buffer with the right magic but an opcode pair of no message is an error |
| UdpServer.ParseIgnoresTail | rust_volleyball/src/udp_server.rs:98-99 | two 32-byte buffers that agree on bytes 0..24 decode alike |
| UdpServer.ParsePacketRejectExamples | rust_volleyball/src/udp_server.rs:145-148 | the test's 2-, 5-, 0- and 8-byte inputs are errors |
| UdpServer.ParsePacketAcceptExamples | rust_volleyball/src/udp_server.rs:149-151 | the test's GameRequest(0), PlayerIdRequest and Input(1,1,Left(true)) vectors decode as expected |
| UdpServer.ParsePacketIdExamples | rust_volleyball/src/udp_server.rs:152-153 | Input(99,1,Left(false)), Input(99,1,Right(true)); and Ping(197,1) from line 156, whose player id is written as the byte 197 then seven zero bytes |
| UdpServer.PingTestFrame | rust_volleyball/src/udp_server.rs:156 | the ping frame for ids 197 and 1 is the test's buffer: 197 as its own byte followed by seven zeros, so the low byte comes first |
| UdpServer.ReleaseRightTestFrame | rust_volleyball/src/udp_server.rs:154 | the release-right frame for ids 258 and 1 is exactly the test's literal 32-byte buffer (258 as bytes 2, 1, then zeros) |
| UdpServer.ReleaseRightTestIds | rust_volleyball/src/udp_server.rs:154 | 258 and 1 encode as [2,1,0,...] and [1,0,...], least significant byte first |
| UdpServer.JumpTestIds | rust_volleyball/src/udp_server.rs:155 | 65543 and 78243 encode as [7,0,1,0,...] and [163,49,1,0,...], least significant byte first |
| UdpServer.JumpTestFrame | rust_volleyball/src/udp_server.rs:155 | the jump frame for ids 65543 and 78243 is exactly the test's literal 32-byte buffer |
| UdpServer.ParsePacketByteExamples | rust_volleyball/src/udp_server.rs:154-155 | the test's two literal 32-byte buffers decode to Input(258,1,Right(false)) and Input(65543,78243,Jump) |
| UdpServer.Dispatch | rust_volleyball/src/udp_server.rs:14-25 | a buffer is forwarded iff it decodes to a GameRequest or an Input, and then as that message; id requests, pings and failures are dropped |
| UdpServer.Received | rust_volleyball/src/udp_server.rs:8-14 | the parsed slice is the datagram's prefix of at most 32 bytes: the whole datagram when it fits, exactly its first 32 bytes when it is longer |
| UdpServer.ReceiveLoop | rust_volleyball/src/udp_server.rs:9-29 | the loop forwards exactly `Forwarded(ds)`, in arrival order |
| UdpServer.ForwardedSound | rust_volleyball/src/udp_server.rs:11-25 | every forwarded pair comes from a received datagram with the same sender whose buffer decodes to that message |
| UdpServer.ForwardedComplete | rust_volleyball/src/udp_server.rs:11-25 | every received datagram that dispatches to a message is forwarded with its sender |
| UdpServer.IdsPacketDecodes | rust_volleyball/src/udp_server.rs:114-120 | the assignment packet starts with `[12,64,13,56]`; bytes 4..12 and 12..20 decode to the client and board ids; bytes 20..32 are zero |
| UdpServer.ParseIdsToPacket | rust_volleyball/src/udp_server.rs:114-120 | filling the zeroed 32-byte buffer yields exactly the assignment packet |
| UdpServer.SnapshotDecodes | rust_volleyball/src/udp_server.rs:132-135 | bytes 32..36 and 36..40 decode to score1 and score2; byte 40 is 1 iff game over and 0 otherwise; bytes 41..64 are zero |
| UdpServer.SnapshotFloatLayout | rust_volleyball/src/udp_server.rs:124-131 | the eight float fields' LE bytes sit at 0..32 in the source's order, starting with the ball radius |
| UdpServer.ParseToPacket | rust_volleyball/src/udp_server.rs:122-136 | filling the zeroed 64-byte buffer yields exactly the snapshot packet |
| UdpServer.CopyFromSlice | rust_volleyball/src/udp_server.rs:116-118 | `copy_from_slice` replaces exactly `buf[at..at+|src|]` by src and keeps every other byte |
| UdpServer.UdpSender.constructor | rust_volleyball/src/udp_server.rs:40 | the sender starts with an empty address table |
| UdpServer.UdpSender.Handle | rust_volleyball/src/udp_server.rs:43-61 | SetAddress overwrites p's entry and sends the assignment packet to the address; GameLogicState keeps the table and sends the snapshot to p's address, or nothing if p is unknown; ForgetAddress removes only p and sends nothing |
| UdpServer.RegisterThenForget | rust_volleyball/src/udp_server.rs:44-60 | registering then forgetting a player leaves the rest of the table as it was |
| Physics.ControlBody | rust_volleyball/src/lib.rs:224-250 | angular velocity is zeroed. vx beyond ±3.0 is clamped to ±3.0 by sign, and below 0.001 in size snapped to 0, both judged on the velocity before the call; vy is kept. Forces are reset when clamping or with no key held. Otherwise ±10.0 is added only to a zero force, right winning, so force never accumulates |
| Physics.GameState.constructor | rust_volleyball/src/lib.rs:48-154 | after `new` the input table holds exactly the two player bodies, both with no key held |
| Physics.GameState.ControlPlayer | rust_volleyball/src/lib.rs:224-227 | the rule is applied to that player's body under that player's entry; no other body changes |
| Physics.GameState.ApplyImpulse | rust_volleyball/src/lib.rs:252-268 | a jump adds (0, 5.0) to that player's body only if its collider touches the ground, and otherwise changes nothing; the strong impulse adds (0, 1.0) to the ball |
| Physics.GameState.AddForce | rust_volleyball/src/lib.rs:270-281 | sets that player's right (or left) flag, keeps the other flag and the other player's entry |
| Physics.GameState.ResetForce | rust_volleyball/src/lib.rs:283-294 | clears that player's right (or left) flag, keeps the other flag and the other player's entry |
| Physics.PressTwice | rust_volleyball/src/lib.rs:270-281 | pressing the same key twice gives the table of pressing it once |
| Physics.ReleaseTwice | rust_volleyball/src/lib.rs:283-294 | releasing the same key twice gives the table of releasing it once |
| ServerLogic.TcpSend | rust_volleyball/src/server_logic.rs:133-140 | a message is logged to the player's mailbox iff the player has one, and never more than once |
| ServerLogic.Coordinator.constructor | rust_volleyball/src/server_logic.rs:34-36 | empty lobby, board table and mailbox table |
| ServerLogic.Coordinator.CalculateBoard | rust_volleyball/src/server_logic.rs:43-67 | exactly the boards with a member holding a mailbox remain, each stepped once; the log grows by `StepEvents`; mailboxes and lobby are kept |
| ServerLogic.Coordinator.RetainAll | rust_volleyball/src/server_logic.rs:43-67 | the `retain` pass leaves the table `Retained(order, ...)` |
| ServerLogic.Coordinator.Retain | rust_volleyball/src/server_logic.rs:44-66 | the closure drops a board with no member mailbox; it steps any other board and logs its snapshot to player 1 then player 2 when the step reports a frame |
| ServerLogic.RetainedSpec | rust_volleyball/src/server_logic.rs:43-67 | a pass over distinct keys drops exactly the visited boards with no member mailbox, steps the other visited ones and leaves unvisited ones as they were |
| ServerLogic.RetainedUntouched | rust_volleyball/src/server_logic.rs:43 | a board not yet visited is still present and unchanged |
| ServerLogic.StepEventsSound | rust_volleyball/src/server_logic.rs:48-64 | every event of the pass is a GameLogicState to a member of a kept board, carrying that board's frame |
| ServerLogic.StepEventsCount | rust_volleyball/src/server_logic.rs:48-64 | a pass logs exactly two snapshots per visited board that is kept and reports a frame, and nothing else |
| ServerLogic.KeyCall | rust_volleyball/src/server_logic.rs:97-103 | a press is add_force and a release reset_force on the key's side (right for Right, left for Left), and only Jump becomes apply_impulse(false, is_p1) |
| ServerLogic.StepEventsComplete | rust_volleyball/src/server_logic.rs:48-64 | each kept board whose step reports a frame sends it to player 1 and player 2 in two consecutive events |
| ServerLogic.Coordinator.SetChannel | rust_volleyball/src/server_logic.rs:69-71 | inserts or overwrites only that player's mailbox |
| ServerLogic.Coordinator.GameRequest | rust_volleyball/src/server_logic.rs:73-90 | empty lobby: the player waits on the fresh id, boards unchanged, SetAddress(p, fresh, addr) logged. Lobby (w, b): board b := (w, p) with no calls, lobby cleared; SetOpponent(w) to p and SetOpponent(p) to w, each only with a mailbox; then SetAddress(p, b, addr) |
| ServerLogic.Coordinator.Input | rust_volleyball/src/server_logic.rs:91-107 | an unknown board or a non-member changes nothing. A member's key is recorded on that board only: Left(true/false) as add/reset_force(false, is_p1), Right(true/false) as add/reset_force(true, is_p1), Jump as apply_impulse(false, is_p1) |
| ServerLogic.Coordinator.DisconnectPlayers | rust_volleyball/src/server_logic.rs:109-118 | over `[player] ++ opponent`, the ids' mailboxes are dropped and no others, and the lobby is emptied iff its waiting player is one of them; the log grows by `DisconnectEvents`; boards are kept |
| ServerLogic.Coordinator.DisconnectOne | rust_volleyball/src/server_logic.rs:111-117 | one id: DisconnectPlayer to its mailbox if any, mailbox removed, ForgetAddress logged, lobby emptied iff it is the waiting player |
| ServerLogic.DisconnectIds | rust_volleyball/src/server_logic.rs:111 | the ids acted on are the player, first, and then the opponent when there is one: two entries when an opponent is given (even one equal to the player), one otherwise |
| ServerLogic.AfterDisconnect | rust_volleyball/src/server_logic.rs:111-118 | handling ids one by one removes exactly their mailboxes and empties the lobby exactly when one of them is waiting |
| ServerLogic.DisconnectEventsExpanded | rust_volleyball/src/server_logic.rs:111-114 | for `Disconnect(p, None)` and `Disconnect(p, Some(o))`: DisconnectPlayer to each distinct id that had a mailbox, with none repeated when o == p, and ForgetAddress for every id |
| ServerLogic.DisconnectEventsSound | rust_volleyball/src/server_logic.rs:111-114 | every TCP event of a disconnect is DisconnectPlayer to one of its ids through that id's own mailbox; every UDP event is a ForgetAddress of one of its ids |
| ServerLogic.Coordinator.Handle | rust_volleyball/src/server_logic.rs:39-123 | one loop turn gives the whole new state for each message: a tick keeps the boards with a mailbox, steps them and logs `StepEvents`; SetChannel sets one mailbox; a join request waits in the lobby or creates the board and logs the SetOpponent/SetAddress sends; an input records `KeyCall` on a member's board or changes nothing; a disconnect drops the ids' mailboxes, clears the lobby if it held one of them and logs `DisconnectEvents`; every part a handler does not own stays as it was |
| ServerLogic.Matchmaking | rust_volleyball/src/server_logic.rs:74-89 | two requests on an empty lobby create board (p1, p2) under the first request's id and empty the lobby |
| ServerLogic.SelfPairing | rust_volleyball/src/server_logic.rs:80-86 | a waiting player who asks again is paired with itself |
| ServerLogic.WaitingPlayerLeaves | rust_volleyball/src/server_logic.rs:115-117 | after the waiting player disconnects, the next request waits in the lobby instead of joining |

## Left out

- The rigid-body engine (rapier2d): body and collider construction, geometry, the physics step, and how an impulse becomes velocity through the body's mass. A body keeps only velocity, user force, angular velocity and its accumulated impulse. The engine's contact information is a given set of collider pairs, looked up in either order.
- `GameState::step`: its f32 time accumulator, and its two `control_player` calls per tick. In `CalculateBoard`, whether a board's step produced a frame, and that frame's contents, are an input (`frames`). The coordinator calls `step()` with no argument while `lib.rs` declares `step(frame_time)`. `points()` is not defined in `lib.rs`. Scores and the game-over flag are therefore fields of the snapshot the step supplies; no scoring, reset or game-over state machine is modelled, because the code has none.
- f32 values: snapshot floats are kept as their 32-bit patterns (`F32`), and only their byte layout is proved. The movement rule works on `real`, so f32 rounding is not modelled.
- Socket I/O and logging. `recv_from` is the `Received` truncation to the 32-byte buffer. A failed `send`, on a mailbox or a socket, is logged as the attempted send: the model does not tell sends that fail from sends that succeed.
- Threads and queues: each thread's loop is modelled on its own, one message at a time. The coordinator's `Handle` is one turn of its loop; the infinite loop itself is not modelled.
- A board table `HashMap`'s iteration order is not modelled: `CalculateBoard` takes any duplicate-free enumeration `order` of the table's keys as an argument.
- Random board ids (`rng.random()`) are method arguments.
- Rapier handles: the arenas hand out indices in insertion order, and the constructor assigns them in the same order as `new`.
- `tcp_server.rs` is not part of this model: id issuance, ping timeouts and the TCP socket. Nor are the clients, the bot and `starter.rs`. Mailboxes are opaque `Channel` values.
- The matchmaking description asks for two distinct players. The code does not check this: a waiting player who requests again is paired with itself (`SelfPairing`), as written. The code does not enforce "a player belongs to at most one board" either: a player on a board can request again and join another.
- A session id in a join request is read from the packet but not carried by `GameRequest`, consistently with the description.
