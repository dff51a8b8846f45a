/** The match coordinator: the single loop that owns the lobby, the board
    table and the per-player TCP mailboxes, and reacts to the four kinds of
    logic message. A board's game state is abstract: the coordinator only
    records which calls it makes on it. Random board ids, the outcome of a
    simulation step and the board table's iteration order come in as
    arguments. Every send is appended to an event log. */
module ServerLogic {
  import opened Bytes
  import opened Wrappers
  import opened UdpServer

  /** Messages from the coordinator to a player's TCP task. */
  datatype TcpMessage = DisconnectPlayer | SetOpponent(opponent: U64)

  /** A player's TCP mailbox, identified only by which one it is. */
  datatype Channel = Channel(id: nat)

  datatype LogicMessage =
    | CalculateBoard
    | PlayerMsg(addr: SocketAddr, msg: MsgIn)
    | SetChannel(playerId: U64, channel: Channel)
    | Disconnect(player: U64, opponent: Option<U64>)

  /** A call the coordinator makes on a board's `GameState`. */
  datatype GameCall =
    | AddForce(rightForce: bool, isPlayer1: bool)
    | ResetForce(rightForce: bool, isPlayer1: bool)
    | ApplyImpulse(isStrong: bool, isPlayer1: bool)
    | Step

  /** A board-table entry `(player1, player2, game)`, the game reduced to
      the calls made on it since `GameState::new`. */
  datatype Board = Board(player1: U64, player2: U64, calls: seq<GameCall>)

  /** A send: a message put into a player's TCP mailbox, or a command to the UDP sender. */
  datatype Event = Tcp(to: U64, channel: Channel, msg: TcpMessage) | Udp(cmd: SenderMsg)

  /** `send_tcp_message`: a message goes into the player's mailbox if the
      player has one, and nowhere otherwise. */
  function TcpSend(channels: map<U64, Channel>, playerId: U64, msg: TcpMessage): (r: seq<Event>)
    ensures |r| <= 1
    ensures r != [] <==> playerId in channels
    ensures r != [] ==> r[0] == Tcp(playerId, channels[playerId], msg)
  {
    if playerId in channels then [Tcp(playerId, channels[playerId], msg)] else []
  }

  /** A board survives `CalculateBoard` while at least one member has a mailbox. */
  predicate Active(b: Board, channels: map<U64, Channel>)
  {
    b.player1 in channels || b.player2 in channels
  }

  /** `order` lists every key of the table exactly once: the order in which
      the table's `retain` visits the boards. */
  ghost predicate Enumerates(order: seq<U64>, keys: set<U64>)
  {
    && (forall j, k :: 0 <= j < k < |order| ==> order[j] != order[k])
    && (forall id :: id in keys <==> id in order)
  }

  /** What one board contributes to the log in `CalculateBoard`: when it is
      kept and its step produced a frame, one snapshot per member, the same
      snapshot for both, player 1 first. */
  function BoardEvents(id: U64, b: Board, channels: map<U64, Channel>, frames: map<U64, GameStateSerialized>): (r: seq<Event>)
  {
    if Active(b, channels) && id in frames
    then [Udp(GameLogicState(b.player1, frames[id])), Udp(GameLogicState(b.player2, frames[id]))]
    else []
  }

  /** The log a `CalculateBoard` pass over `order` produces. */
  function StepEvents(order: seq<U64>, boards: map<U64, Board>, channels: map<U64, Channel>,
                      frames: map<U64, GameStateSerialized>): (r: seq<Event>)
    requires forall k :: 0 <= k < |order| ==> order[k] in boards
  {
    if order == [] then []
    else
      var id := order[|order| - 1];
      StepEvents(order[..|order| - 1], boards, channels, frames) + BoardEvents(id, boards[id], channels, frames)
  }

  /** Every event of a `CalculateBoard` pass is a snapshot sent to a member
      of a kept board whose step produced that snapshot. */
  lemma {:induction false} StepEventsSound(order: seq<U64>, boards: map<U64, Board>, channels: map<U64, Channel>,
                                           frames: map<U64, GameStateSerialized>, k: nat)
    requires forall j :: 0 <= j < |order| ==> order[j] in boards
    requires k < |StepEvents(order, boards, channels, frames)|
    ensures exists id :: id in order && id in frames && Active(boards[id], channels)
              && (StepEvents(order, boards, channels, frames)[k] == Udp(GameLogicState(boards[id].player1, frames[id]))
                  || StepEvents(order, boards, channels, frames)[k] == Udp(GameLogicState(boards[id].player2, frames[id])))
  {
    var last := order[|order| - 1];
    var pre := order[..|order| - 1];
    var r := StepEvents(order, boards, channels, frames);
    var head := StepEvents(pre, boards, channels, frames);
    assert r == head + BoardEvents(last, boards[last], channels, frames);
    if k < |head| {
      StepEventsSound(pre, boards, channels, frames, k);
      var id :| id in pre && id in frames && Active(boards[id], channels)
                && (head[k] == Udp(GameLogicState(boards[id].player1, frames[id]))
                    || head[k] == Udp(GameLogicState(boards[id].player2, frames[id])));
      assert r[k] == head[k];
      assert id in order by { var j :| 0 <= j < |pre| && pre[j] == id; assert order[j] == id; }
    } else {
      assert last in order by { assert order[|order| - 1] == last; }
    }
  }

  /** `e1` immediately followed by `e2` occurs in the log `r`. */
  ghost predicate Consecutive(r: seq<Event>, e1: Event, e2: Event)
  {
    exists k :: 0 <= k < |r| - 1 && r[k] == e1 && r[k + 1] == e2
  }

  /** Every kept board whose step produced a frame sends that frame to both
      members, in two consecutive events. */
  lemma {:induction false} StepEventsComplete(order: seq<U64>, boards: map<U64, Board>, channels: map<U64, Channel>,
                                              frames: map<U64, GameStateSerialized>, id: U64)
    requires forall j :: 0 <= j < |order| ==> order[j] in boards
    requires id in order && id in frames && Active(boards[id], channels)
    ensures Consecutive(StepEvents(order, boards, channels, frames),
                        Udp(GameLogicState(boards[id].player1, frames[id])),
                        Udp(GameLogicState(boards[id].player2, frames[id])))
  {
    var e1, e2 := Udp(GameLogicState(boards[id].player1, frames[id])), Udp(GameLogicState(boards[id].player2, frames[id]));
    var last := order[|order| - 1];
    var pre := order[..|order| - 1];
    var r := StepEvents(order, boards, channels, frames);
    var head := StepEvents(pre, boards, channels, frames);
    assert r == head + BoardEvents(last, boards[last], channels, frames);
    if id == last {
      var k := |head|;
      assert BoardEvents(last, boards[last], channels, frames) == [e1, e2];
      assert r[k] == e1 && r[k + 1] == e2;
    } else {
      assert id in pre by {
        var j :| 0 <= j < |order| && order[j] == id;
        assert j < |order| - 1 && pre[j] == id;
      }
      StepEventsComplete(pre, boards, channels, frames, id);
      var k :| 0 <= k < |head| - 1 && head[k] == e1 && head[k + 1] == e2;
      assert r[k] == head[k] && r[k + 1] == head[k + 1];
    }
  }

  /** The visited boards whose step reports a frame to send: the kept ones
      that have a snapshot. */
  ghost function Reporting(order: seq<U64>, boards: map<U64, Board>, channels: map<U64, Channel>,
                           frames: map<U64, GameStateSerialized>): set<U64>
  {
    set id | id in order && id in boards && id in frames && Active(boards[id], channels)
  }

  /** A pass sends exactly two snapshots per reporting board and nothing
      else: one for each member. */
  lemma {:induction false} StepEventsCount(order: seq<U64>, boards: map<U64, Board>, channels: map<U64, Channel>,
                                           frames: map<U64, GameStateSerialized>)
    requires forall j, k :: 0 <= j < k < |order| ==> order[j] != order[k]
    requires forall j :: 0 <= j < |order| ==> order[j] in boards
    ensures |StepEvents(order, boards, channels, frames)| == 2 * |Reporting(order, boards, channels, frames)|
  {
    if order != [] {
      var pre := order[..|order| - 1];
      var last := order[|order| - 1];
      StepEventsCount(pre, boards, channels, frames);
      assert last !in pre by {
        forall j | 0 <= j < |pre| ensures pre[j] != last {
          assert pre[j] == order[j];
        }
      }
      forall id ensures id in order <==> id in pre || id == last {
        if id in order {
          var j :| 0 <= j < |order| && order[j] == id;
          if j < |order| - 1 { assert pre[j] == id; }
        }
      }
      var head := Reporting(pre, boards, channels, frames);
      if last in frames && Active(boards[last], channels) {
        assert Reporting(order, boards, channels, frames) == head + {last};
      } else {
        assert Reporting(order, boards, channels, frames) == head;
      }
    }
  }

  /** The ids a `Disconnect(player, opponent)` acts on, in order. */
  function DisconnectIds(player: U64, opponent: Option<U64>): (r: seq<U64>)
    ensures |r| == (if opponent.Some? then 2 else 1) && r[0] == player
    ensures opponent.Some? ==> r[1] == opponent.value
    ensures forall id :: id in r <==> id == player || opponent == Some(id)
  {
    [player] + (if opponent.Some? then [opponent.value] else [])
  }

  /** The (sub)set of ids that occurs in a sequence. */
  function Members(ids: seq<U64>): (r: set<U64>)
    ensures forall id :: id in r <==> id in ids
  {
    set id | id in ids
  }

  /** The mailbox table after a disconnect has handled `ids`, in turn. */
  function ChannelsAfter(ids: seq<U64>, channels: map<U64, Channel>): (r: map<U64, Channel>)
  {
    if ids == [] then channels else ChannelsAfter(ids[..|ids| - 1], channels) - {ids[|ids| - 1]}
  }

  /** The lobby after a disconnect has handled `ids`, in turn. */
  function LobbyAfter(ids: seq<U64>, lobby: Option<(U64, U64)>): (r: Option<(U64, U64)>)
  {
    if ids == [] then lobby
    else
      var l := LobbyAfter(ids[..|ids| - 1], lobby);
      if l.Some? && l.value.0 == ids[|ids| - 1] then None else l
  }

  /** A disconnect over `ids` drops exactly their mailboxes, and empties the
      lobby exactly when one of them is the player waiting there. */
  lemma {:induction false} AfterDisconnect(ids: seq<U64>, channels: map<U64, Channel>, lobby: Option<(U64, U64)>)
    ensures ChannelsAfter(ids, channels) == channels - Members(ids)
    ensures LobbyAfter(ids, lobby) == if lobby.Some? && lobby.value.0 in ids then None else lobby
  {
    if ids != [] {
      var pre, id := ids[..|ids| - 1], ids[|ids| - 1];
      AfterDisconnect(pre, channels, lobby);
      assert ids == pre + [id];
      assert Members(ids) == Members(pre) + {id};
    }
  }

  /** The log a `Disconnect` over `ids` produces: for each id in turn, a
      `DisconnectPlayer` if its mailbox is still there, then `ForgetAddress`. */
  function DisconnectEvents(ids: seq<U64>, channels: map<U64, Channel>): (r: seq<Event>)
  {
    if ids == [] then []
    else
      var pre := ids[..|ids| - 1];
      var id := ids[|ids| - 1];
      DisconnectEvents(pre, channels) + TcpSend(ChannelsAfter(pre, channels), id, DisconnectPlayer) + [Udp(ForgetAddress(id))]
  }

  /** A disconnect of a player alone, of two players, and of a player named
      twice: each distinct id gets at most one `DisconnectPlayer`, only if it had
      a mailbox, and every id gets its `ForgetAddress`. */
  lemma DisconnectEventsExpanded(p: U64, o: U64, channels: map<U64, Channel>)
    ensures DisconnectEvents(DisconnectIds(p, None), channels)
         == TcpSend(channels, p, DisconnectPlayer) + [Udp(ForgetAddress(p))]
    ensures DisconnectEvents(DisconnectIds(p, Some(o)), channels)
         == TcpSend(channels, p, DisconnectPlayer) + [Udp(ForgetAddress(p))]
          + (if o == p then [] else TcpSend(channels, o, DisconnectPlayer)) + [Udp(ForgetAddress(o))]
  {
    assert DisconnectIds(p, None) == [p];
    assert DisconnectIds(p, Some(o)) == [p, o];
    assert [p][..0] == [];
    assert [p, o][..1] == [p];
    assert ChannelsAfter([p], channels) == channels - {p};
    if o != p {
      assert o in channels - {p} <==> o in channels;
      assert o in channels ==> (channels - {p})[o] == channels[o];
    }
  }

  /** Every `DisconnectPlayer` of a disconnect goes to one of its ids that had
      a mailbox, through that mailbox. */
  lemma {:induction false} DisconnectEventsSound(ids: seq<U64>, channels: map<U64, Channel>, k: nat)
    requires k < |DisconnectEvents(ids, channels)|
    ensures match DisconnectEvents(ids, channels)[k]
            case Tcp(to, c, msg) => to in ids && to in channels && c == channels[to] && msg == DisconnectPlayer
            case Udp(cmd) => cmd.ForgetAddress? && cmd.playerId in ids
  {
    var pre := ids[..|ids| - 1];
    var id := ids[|ids| - 1];
    var r := DisconnectEvents(ids, channels);
    var head := DisconnectEvents(pre, channels);
    var t := TcpSend(ChannelsAfter(pre, channels), id, DisconnectPlayer);
    AfterDisconnect(pre, channels, None);
    assert r == head + t + [Udp(ForgetAddress(id))];
    assert id in ids by { assert ids[|ids| - 1] == id; }
    if k < |head| {
      DisconnectEventsSound(pre, channels, k);
      assert r[k] == head[k];
      forall x | x in pre ensures x in ids {
        var j :| 0 <= j < |pre| && pre[j] == x;
        assert ids[j] == x;
      }
    } else if k < |head| + |t| {
      assert r[k] == t[0];
    } else {
      assert r[k] == Udp(ForgetAddress(id));
    }
  }

  /** A stepped board: one more `step()` recorded on its game. */
  function Stepped(b: Board): (r: Board)
    ensures r.player1 == b.player1 && r.player2 == b.player2 && r.calls == b.calls + [Step]
  {
    b.(calls := b.calls + [Step])
  }

  /** The board table after a `retain` pass has visited the boards of
      `order`, in that order. */
  function Retained(order: seq<U64>, boards: map<U64, Board>, channels: map<U64, Channel>): (r: map<U64, Board>)
  {
    if order == [] then boards
    else
      var m := Retained(order[..|order| - 1], boards, channels);
      var id := order[|order| - 1];
      if id !in m then m
      else if Active(m[id], channels) then m[id := Stepped(m[id])]
      else m - {id}
  }

  /** A `retain` pass over distinct keys of the table drops exactly the
      visited boards neither of whose members has a mailbox, steps every
      other visited board, and leaves the unvisited ones as they were. */
  lemma {:induction false} RetainedSpec(order: seq<U64>, boards: map<U64, Board>, channels: map<U64, Channel>)
    requires forall j, k :: 0 <= j < k < |order| ==> order[j] != order[k]
    requires forall j :: 0 <= j < |order| ==> order[j] in boards
    ensures forall id :: id in Retained(order, boards, channels) <==>
              id in boards && (id !in order || Active(boards[id], channels))
    ensures forall id :: id in Retained(order, boards, channels) ==>
              Retained(order, boards, channels)[id] == if id in order then Stepped(boards[id]) else boards[id]
  {
    if order != [] {
      var pre := order[..|order| - 1];
      var last := order[|order| - 1];
      RetainedSpec(pre, boards, channels);
      forall id ensures id in order <==> id in pre || id == last {
        if id in order {
          var j :| 0 <= j < |order| && order[j] == id;
          if j < |order| - 1 { assert pre[j] == id; }
        }
      }
    }
  }

  /** A board the pass has not visited yet is still in the table, unchanged. */
  lemma {:induction false} RetainedUntouched(order: seq<U64>, boards: map<U64, Board>, channels: map<U64, Channel>, id: U64)
    requires id in boards && id !in order
    ensures id in Retained(order, boards, channels) && Retained(order, boards, channels)[id] == boards[id]
  {
    if order != [] {
      var pre := order[..|order| - 1];
      RetainedUntouched(pre, boards, channels, id);
    }
  }

  /** The call a key event becomes on its board, for player 1 or player 2:
      a press adds a force, a release resets it, on the right for the right
      key and on the left for the left key; a jump is a plain impulse. */
  function KeyCall(key: Key, isPlayer1: bool): (r: GameCall)
    ensures key.Jump? <==> r == ApplyImpulse(false, isPlayer1)
    ensures key.Left? ==> r == (if key.pressed then AddForce(false, isPlayer1) else ResetForce(false, isPlayer1))
    ensures key.Right? ==> r == (if key.pressed then AddForce(true, isPlayer1) else ResetForce(true, isPlayer1))
  {
    match key
    case Left(true) => AddForce(false, isPlayer1)
    case Left(false) => ResetForce(false, isPlayer1)
    case Right(true) => AddForce(true, isPlayer1)
    case Right(false) => ResetForce(true, isPlayer1)
    case Jump => ApplyImpulse(false, isPlayer1)
  }

  /** The coordinator's state: the one-slot lobby `(waiting player, board id)`,
      the board table, the mailbox table, and every send made so far. */
  class Coordinator {
    var lobby: Option<(U64, U64)>
    var boards: map<U64, Board>
    var channels: map<U64, Channel>
    var events: seq<Event>

    constructor ()
      ensures lobby == None && boards == map[] && channels == map[] && events == []
    {
      lobby := None;
      boards := map[];
      channels := map[];
      events := [];
    }

    /** `CalculateBoard`: drops the boards neither of whose members has a
        mailbox, steps every other board, and sends each stepped board's
        snapshot to both members. `frames` holds the snapshot of exactly the
        boards whose step reports a new frame. */
    method CalculateBoard(order: seq<U64>, frames: map<U64, GameStateSerialized>)
      requires Enumerates(order, boards.Keys)
      modifies this`boards, this`events
      ensures forall id :: id in boards <==> id in old(boards) && Active(old(boards)[id], channels)
      ensures forall id :: id in boards ==> boards[id] == Stepped(old(boards)[id])
      ensures events == old(events) + StepEvents(order, old(boards), channels, frames)
    {
      RetainAll(order, frames);
      RetainedSpec(order, old(boards), channels);
    }

    /** The `retain` pass itself: visits the boards of `order` in turn. */
    method RetainAll(order: seq<U64>, frames: map<U64, GameStateSerialized>)
      requires forall j, k :: 0 <= j < k < |order| ==> order[j] != order[k]
      requires forall j :: 0 <= j < |order| ==> order[j] in boards
      modifies this`boards, this`events
      ensures boards == Retained(order, old(boards), channels)
      ensures events == old(events) + StepEvents(order, old(boards), channels, frames)
    {
      var i := 0;
      while i < |order|
        invariant 0 <= i <= |order|
        invariant boards == Retained(order[..i], old(boards), channels)
        invariant events == old(events) + StepEvents(order[..i], old(boards), channels, frames)
      {
        var id := order[i];
        assert order[..i + 1][..i] == order[..i];
        assert order[..i + 1][i] == id;
        assert id !in order[..i];
        RetainedUntouched(order[..i], old(boards), channels, id);
        Retain(id, frames);
        i := i + 1;
      }
      assert order[..i] == order;
    }

    /** The `retain` closure on one board: a board neither of whose members
        has a mailbox is dropped; any other is stepped, and when its step
        reports a new frame both members are sent that snapshot. */
    method Retain(id: U64, frames: map<U64, GameStateSerialized>)
      requires id in boards
      modifies this`boards, this`events
      ensures boards == if Active(old(boards)[id], channels) then old(boards)[id := Stepped(old(boards)[id])]
                        else old(boards) - {id}
      ensures events == old(events) + BoardEvents(id, old(boards)[id], channels, frames)
    {
      var b := boards[id];
      if b.player1 !in channels && b.player2 !in channels {
        boards := boards - {id};
      } else {
        boards := boards[id := b.(calls := b.calls + [Step])];
        if id in frames {
          events := events + [Udp(GameLogicState(b.player1, frames[id])), Udp(GameLogicState(b.player2, frames[id]))];
        }
      }
    }

    /** `SetChannel`: registers (or replaces) one player's mailbox. */
    method SetChannel(playerId: U64, channel: Channel)
      modifies this`channels
      ensures channels == old(channels)[playerId := channel]
    {
      channels := channels[playerId := channel];
    }

    /** `GameRequest`: with an empty lobby the player waits there on the
        fresh board id; otherwise the waiting player and this one get a new
        board under the waiting board id, in that order, and learn each
        other's id. Either way the UDP sender learns the player's address. */
    method GameRequest(addr: SocketAddr, playerId: U64, freshId: U64)
      modifies this`lobby, this`boards, this`events
      ensures old(lobby).None? ==>
        lobby == Some((playerId, freshId)) && boards == old(boards)
        && events == old(events) + [Udp(SetAddress(playerId, freshId, addr))]
      ensures old(lobby).Some? ==>
        var (waiting, boardId) := old(lobby).value;
        lobby == None
        && boards == old(boards)[boardId := Board(waiting, playerId, [])]
        && events == old(events) + TcpSend(channels, playerId, SetOpponent(waiting))
                                 + TcpSend(channels, waiting, SetOpponent(playerId))
                                 + [Udp(SetAddress(playerId, boardId, addr))]
    {
      var newPlayerId, boardId;
      match lobby {
        case None =>
          lobby := Some((playerId, freshId));
          newPlayerId, boardId := playerId, freshId;
        case Some((waiting, waitingBoard)) =>
          boards := boards[waitingBoard := Board(waiting, playerId, [])];
          lobby := None;
          events := events + TcpSend(channels, playerId, SetOpponent(waiting));
          events := events + TcpSend(channels, waiting, SetOpponent(playerId));
          newPlayerId, boardId := playerId, waitingBoard;
      }
      events := events + [Udp(SetAddress(newPlayerId, boardId, addr))];
    }

    /** `Input`: a key event for a board is passed to that board's game as
        the matching call, for the member it comes from; an unknown board or
        a player who is not a member changes nothing. */
    method Input(playerId: U64, boardId: U64, key: Key)
      modifies this`boards
      ensures boardId !in old(boards) ==> boards == old(boards)
      ensures (boardId in old(boards) && playerId != old(boards)[boardId].player1
               && playerId != old(boards)[boardId].player2) ==> boards == old(boards)
      ensures boardId in old(boards) && (playerId == old(boards)[boardId].player1 || playerId == old(boards)[boardId].player2) ==>
        var b := old(boards)[boardId];
        var call := KeyCall(key, playerId == b.player1);
        boards == old(boards)[boardId := b.(calls := b.calls + [call])]
    {
      if boardId in boards {
        var b := boards[boardId];
        if playerId != b.player1 && playerId != b.player2 {
          // the player is not on this board: only logged
        } else {
          var player := playerId == b.player1;
          var call;
          match key {
            case Left(true) => call := AddForce(false, player);
            case Left(false) => call := ResetForce(false, player);
            case Right(true) => call := AddForce(true, player);
            case Right(false) => call := ResetForce(true, player);
            case Jump => call := ApplyImpulse(false, player);
          }
          boards := boards[boardId := b.(calls := b.calls + [call])];
        }
      }
    }

    /** `Disconnect(player, opponent)`: for the player and then the
        opponent, if any, as `DisconnectOne`. Boards are left alone. */
    method DisconnectPlayers(player: U64, opponent: Option<U64>)
      modifies this`channels, this`events, this`lobby
      ensures var ids := DisconnectIds(player, opponent);
        && channels == old(channels) - Members(ids)
        && lobby == (if old(lobby).Some? && old(lobby).value.0 in ids then None else old(lobby))
        && events == old(events) + DisconnectEvents(ids, old(channels))
    {
      var ids := DisconnectIds(player, opponent);
      var i := 0;
      while i < |ids|
        invariant 0 <= i <= |ids|
        invariant channels == ChannelsAfter(ids[..i], old(channels))
        invariant lobby == LobbyAfter(ids[..i], old(lobby))
        invariant events == old(events) + DisconnectEvents(ids[..i], old(channels))
      {
        var id := ids[i];
        assert ids[..i + 1][..i] == ids[..i];
        assert ids[..i + 1][i] == id;
        DisconnectOne(id);
        i := i + 1;
      }
      assert ids[..i] == ids;
      AfterDisconnect(ids, old(channels), old(lobby));
    }

    /** One id of a disconnect: tell its TCP task to disconnect, drop its
        mailbox, let the UDP sender forget its address, and empty the lobby
        if it is the one waiting there. */
    method DisconnectOne(id: U64)
      modifies this`channels, this`events, this`lobby
      ensures channels == old(channels) - {id}
      ensures events == old(events) + TcpSend(old(channels), id, DisconnectPlayer) + [Udp(ForgetAddress(id))]
      ensures lobby == if old(lobby).Some? && old(lobby).value.0 == id then None else old(lobby)
    {
      events := events + TcpSend(channels, id, DisconnectPlayer);
      channels := channels - {id};
      events := events + [Udp(ForgetAddress(id))];
      if lobby.Some? && id == lobby.value.0 {
        lobby := None;
      }
    }

    /** One turn of the coordinator's loop: the message goes to its handler,
        which gives the whole new state; each handler leaves the parts of
        the state it does not own as they were. */
    method Handle(m: LogicMessage, order: seq<U64>, frames: map<U64, GameStateSerialized>, freshId: U64)
      requires m.CalculateBoard? ==> Enumerates(order, boards.Keys)
      modifies this
      ensures m.CalculateBoard? ==>
        && lobby == old(lobby) && channels == old(channels)
        && (forall id :: id in boards <==> id in old(boards) && Active(old(boards)[id], channels))
        && (forall id :: id in boards ==> boards[id] == Stepped(old(boards)[id]))
        && events == old(events) + StepEvents(order, old(boards), channels, frames)
      ensures m.SetChannel? ==>
        && channels == old(channels)[m.playerId := m.channel]
        && lobby == old(lobby) && boards == old(boards) && events == old(events)
      ensures m.PlayerMsg? && m.msg.GameRequest? ==>
        var playerId := m.msg.playerId;
        && channels == old(channels)
        && (old(lobby).None? ==>
              lobby == Some((playerId, freshId)) && boards == old(boards)
              && events == old(events) + [Udp(SetAddress(playerId, freshId, m.addr))])
        && (old(lobby).Some? ==>
              var (waiting, boardId) := old(lobby).value;
              lobby == None
              && boards == old(boards)[boardId := Board(waiting, playerId, [])]
              && events == old(events) + TcpSend(channels, playerId, SetOpponent(waiting))
                                       + TcpSend(channels, waiting, SetOpponent(playerId))
                                       + [Udp(SetAddress(playerId, boardId, m.addr))])
      ensures m.PlayerMsg? && m.msg.Input? ==>
        var (playerId, boardId) := (m.msg.playerId, m.msg.boardId);
        && lobby == old(lobby) && channels == old(channels) && events == old(events)
        && (if boardId in old(boards) && (playerId == old(boards)[boardId].player1 || playerId == old(boards)[boardId].player2)
            then var b := old(boards)[boardId];
                 boards == old(boards)[boardId := b.(calls := b.calls + [KeyCall(m.msg.key, playerId == b.player1)])]
            else boards == old(boards))
      ensures m.Disconnect? ==>
        var ids := DisconnectIds(m.player, m.opponent);
        && boards == old(boards)
        && channels == old(channels) - Members(ids)
        && lobby == (if old(lobby).Some? && old(lobby).value.0 in ids then None else old(lobby))
        && events == old(events) + DisconnectEvents(ids, old(channels))
    {
      match m {
        case CalculateBoard => CalculateBoard(order, frames);
        case SetChannel(playerId, channel) => SetChannel(playerId, channel);
        case PlayerMsg(addr, msg) =>
          match msg {
            case GameRequest(playerId) => GameRequest(addr, playerId, freshId);
            case Input(playerId, boardId, key) => Input(playerId, boardId, key);
          }
        case Disconnect(player, opponent) => DisconnectPlayers(player, opponent);
      }
    }
  }

  /** Two requests on an empty lobby pair the players on the first one's
      board id, the first player as player 1. */
  method Matchmaking(c: Coordinator, addr1: SocketAddr, p1: U64, addr2: SocketAddr, p2: U64, boardId: U64, unused: U64)
    requires c.lobby == None
    modifies c
    ensures c.lobby == None
    ensures c.boards == old(c.boards)[boardId := Board(p1, p2, [])]
    ensures c.channels == old(c.channels)
    ensures c.events == old(c.events) + [Udp(SetAddress(p1, boardId, addr1))]
                      + TcpSend(c.channels, p2, SetOpponent(p1)) + TcpSend(c.channels, p1, SetOpponent(p2))
                      + [Udp(SetAddress(p2, boardId, addr2))]
  {
    c.GameRequest(addr1, p1, boardId);
    c.GameRequest(addr2, p2, unused);
  }

  /** A second request from the player already waiting is not told apart
      from another player's: the player is paired with itself. */
  method SelfPairing(c: Coordinator, addr: SocketAddr, p: U64, boardId: U64, unused: U64)
    requires c.lobby == None
    modifies c
    ensures c.lobby == None
    ensures c.boards == old(c.boards)[boardId := Board(p, p, [])]
  {
    c.GameRequest(addr, p, boardId);
    c.GameRequest(addr, p, unused);
  }

  /** A waiting player who disconnects leaves the lobby empty, so the next
      request waits instead of joining the dropped player. */
  method WaitingPlayerLeaves(c: Coordinator, addr: SocketAddr, p: U64, q: U64, boardId: U64, nextId: U64)
    requires c.lobby == Some((p, boardId))
    modifies c
    ensures c.lobby == Some((q, nextId))
    ensures c.boards == old(c.boards)
    ensures p !in c.channels
  {
    c.DisconnectPlayers(p, None);
    c.GameRequest(addr, q, nextId);
  }
}
