/** The host's handling of intents sent by the players (`handleRemoteIntent`,
    `colorOf`, `roleOf`, game.js:1067-1118).

    The host is the only peer that changes the game. An intent is applied
    only when its sender holds the colour whose turn it is (a reset only
    when the sender is the host); every applied intent is answered with a
    broadcast of the new state. */
module Authority {
  import opened Common
  import Board
  import Moves
  import Turn

  /** An intent as it arrives. `toId`, `nodeId` are absent when the message
      has none; `pieceIndex` is the number the message carries. */
  datatype Intent =
    | RollIntent
    | EndIntent
    | SkipIntent
    | ResetIntent
    | MoveIntent(toId: Option<string>, pieceIndex: int)
    | PlaceIntent(nodeId: Option<string>)
    | OtherIntent(kind: string)

  /** A roster entry: the colour and role a client holds, if any. */
  datatype RosterEntry = RosterEntry(color: Option<string>, role: Option<string>)

  type Roster = map<string, RosterEntry>

  /** What the host sends after an intent. */
  datatype Broadcast = NoBroadcast | StateMsg | SnapshotMsg

  /** `colorOf(id)`: the sender's colour when it has a non-empty one. */
  function ColorOf(roster: Roster, id: string): (r: Option<string>)
    ensures r.Some? <==> id in roster && Truthy(roster[id].color)
    ensures r.Some? ==> r == roster[id].color
  {
    if id in roster && Truthy(roster[id].color) then roster[id].color else None
  }

  /** `roleOf(id)`: the sender's role when it has a non-empty one. */
  function RoleOf(roster: Roster, id: string): (r: Option<string>)
    ensures r.Some? <==> id in roster && Truthy(roster[id].role)
    ensures r.Some? ==> r == roster[id].role
  {
    if id in roster && Truthy(roster[id].role) then roster[id].role else None
  }

  /** `mustBeTurnPlayer()`: the sender holds the colour whose turn it is. */
  predicate IsTurnPlayer(roster: Roster, sender: string, t: Turn.Table)
  {
    var c := ColorOf(roster, sender);
    c.Some? && c.value == ColorName(t.current)
  }

  /** The move a move intent selects: the first move of the piece's list
      with that target and the current colour. */
  function SelectedMove(t: Turn.Table, toId: string, idx: nat): (r: Option<Moves.Move>)
    requires Turn.Shape(t)
    ensures r.Some? ==> r.value in t.legal && r.value.index == idx && r.value.toId == toId && r.value.color == t.current
  {
    Moves.LookupByPiece(t.legal, idx);
    var r := Moves.FindMove(Moves.Lookup(t.byPiece, idx), toId, t.current);
    assert r.Some? ==> r.value in t.legal && r.value.index == idx by {
      if r.Some? {
        Moves.MovesOfPieceMember(t.legal, idx, r.value);
      }
    }
    r
  }

  /** `handleRemoteIntent(intent, sender)` with the roll `d` and the active
      colour names `active` a reset would start a game with. */
  function IntentSpec(g: Board.Graph, t: Turn.Table, roster: Roster, sender: string, intent: Intent, d: Die, active: seq<string>)
    : (Turn.Table, Broadcast)
    requires Turn.Shape(t)
  {
    var owner := IsTurnPlayer(roster, sender, t);
    match intent
    case RollIntent =>
      if !owner then (t, NoBroadcast) else (Turn.RollSpec(g, t, d), StateMsg)
    case EndIntent =>
      if !owner then (t, NoBroadcast) else (PassTurn(t), StateMsg)
    case SkipIntent =>
      if !owner then (t, NoBroadcast) else (PassTurn(t), StateMsg)
    case ResetIntent =>
      if RoleOf(roster, sender) != Some("host") then (t, NoBroadcast)
      else (Turn.NewGameSpec(g, active), SnapshotMsg)
    case MoveIntent(toId, idx) =>
      if !owner || t.phase != Turn.NeedMove then (t, NoBroadcast)
      else if !Truthy(toId) || !(0 <= idx < Moves.PieceCount) then (t, NoBroadcast)
      else ApplyMove(g, t, toId.value, idx)
    case PlaceIntent(nodeId) =>
      if !owner || t.phase != Turn.PlacingBarricade then (t, NoBroadcast)
      else if nodeId.None? then (t, StateMsg)
      else (Turn.PlaceSpec(g, t, nodeId.value), StateMsg)
    case OtherIntent(_) => (t, NoBroadcast)
  }

  /** A move intent past its checks: the selected move is made, if there is one. */
  function ApplyMove(g: Board.Graph, t: Turn.Table, toId: string, idx: nat): (Turn.Table, Broadcast)
    requires Turn.Shape(t) && idx < Moves.PieceCount
  {
    var m := SelectedMove(t, toId, idx);
    if m.None? then (t, NoBroadcast)
    else
      assert t.current in ElemSet(t.players);
      (Turn.MoveSpec(g, t, m.value), StateMsg)
  }

  /** A move intent past its checks is broadcast exactly when it selects a
      move, and then makes that move; otherwise nothing changes. */
  lemma ApplyMoveEffect(g: Board.Graph, t: Turn.Table, toId: string, idx: nat)
    requires Turn.Shape(t) && idx < Moves.PieceCount
    ensures var r := ApplyMove(g, t, toId, idx);
      && (r.1 != NoBroadcast <==> SelectedMove(t, toId, idx).Some?)
      && (r.1 != NoBroadcast ==> r == (Turn.MoveSpec(g, t, SelectedMove(t, toId, idx).value), StateMsg))
      && (r.1 == NoBroadcast ==> r.0 == t)
  {
  }

  /** The `end` and `skip` intents: the turn passes unless a barricade is
      being placed or the game is over. */
  function PassTurn(t: Turn.Table): Turn.Table
    requires |t.players| > 0
  {
    if t.phase != Turn.PlacingBarricade && t.phase != Turn.GameOver then Turn.NextPlayerSpec(t) else t
  }

  // =====================================================================
  // Properties

  /** Only the turn player changes the game: every intent of anyone else,
      except a reset, is ignored without a broadcast. */
  lemma OthersIgnored(g: Board.Graph, t: Turn.Table, roster: Roster, sender: string, intent: Intent, d: Die, active: seq<string>)
    requires Turn.Shape(t)
    requires !IsTurnPlayer(roster, sender, t) && !intent.ResetIntent?
    ensures IntentSpec(g, t, roster, sender, intent, d, active) == (t, NoBroadcast)
  {
  }

  /** A reset is applied exactly when the sender's role is "host", and it is
      answered with a snapshot of a new game. */
  lemma ResetOnlyByHost(g: Board.Graph, t: Turn.Table, roster: Roster, sender: string, d: Die, active: seq<string>)
    requires Turn.Shape(t)
    ensures var r := IntentSpec(g, t, roster, sender, ResetIntent, d, active);
      && (r.1 != NoBroadcast <==> sender in roster && roster[sender].role == Some("host"))
      && (r.1 != NoBroadcast ==> r == (Turn.NewGameSpec(g, active), SnapshotMsg))
      && (r.1 == NoBroadcast ==> r.0 == t)
  {
  }

  /** `end` and `skip` by the turn player: no effect while a barricade is
      being placed or after the game is over, the next player's turn
      otherwise; the state is broadcast either way. */
  lemma PassEffect(g: Board.Graph, t: Turn.Table, roster: Roster, sender: string, intent: Intent, d: Die, active: seq<string>)
    requires Turn.Shape(t)
    requires IsTurnPlayer(roster, sender, t) && (intent.EndIntent? || intent.SkipIntent?)
    ensures var r := IntentSpec(g, t, roster, sender, intent, d, active);
      && r.1 == StateMsg
      && (t.phase == Turn.PlacingBarricade || t.phase == Turn.GameOver ==> r.0 == t)
      && (t.phase != Turn.PlacingBarricade && t.phase != Turn.GameOver ==>
            r.0.current == Turn.Successor(t.players, t.current) && r.0.phase == Turn.NeedRoll && r.0.dice.None?)
  {
  }

  /** The phase guards: a move intent outside `need_move` and a placement
      intent outside `placing_barricade` are rejected without a broadcast,
      whoever sends them. */
  lemma PhaseGuards(g: Board.Graph, t: Turn.Table, roster: Roster, sender: string, intent: Intent, d: Die, active: seq<string>)
    requires Turn.Shape(t)
    ensures intent.MoveIntent? && t.phase != Turn.NeedMove ==>
      IntentSpec(g, t, roster, sender, intent, d, active) == (t, NoBroadcast)
    ensures intent.PlaceIntent? && t.phase != Turn.PlacingBarricade ==>
      IntentSpec(g, t, roster, sender, intent, d, active) == (t, NoBroadcast)
  {
  }

  /** A finished game is absorbing: once the phase is `game_over`, every
      intent except a reset leaves the game exactly as it is, winner
      included. */
  lemma GameOverAbsorbs(g: Board.Graph, t: Turn.Table, roster: Roster, sender: string, intent: Intent, d: Die, active: seq<string>)
    requires Turn.Shape(t) && t.phase == Turn.GameOver && !intent.ResetIntent?
    ensures IntentSpec(g, t, roster, sender, intent, d, active).0 == t
  {
    Turn.RollEffect(g, t, d);
  }

  /** A rejected intent changes nothing: whenever the host sends no
      broadcast, the game is as it was. */
  lemma RejectedKeeps(g: Board.Graph, t: Turn.Table, roster: Roster, sender: string, intent: Intent, d: Die, active: seq<string>)
    requires Turn.Shape(t)
    ensures IntentSpec(g, t, roster, sender, intent, d, active).1 == NoBroadcast ==>
      IntentSpec(g, t, roster, sender, intent, d, active).0 == t
  {
    if intent.MoveIntent? && Truthy(intent.toId) && 0 <= intent.pieceIndex < Moves.PieceCount {
      ApplyMoveEffect(g, t, intent.toId.value, intent.pieceIndex);
    }
  }

  /** An applied move intent carries out a legal move of the turn player for
      the current roll, one of the piece named by the intent, to the node it
      names. */
  lemma AppliedMoveIsLegal(g: Board.Graph, t: Turn.Table, roster: Roster, sender: string,
                           toId: Option<string>, idx: int, d: Die, active: seq<string>)
    requires Turn.Shape(t) && Turn.Consistent(g, t)
    requires IntentSpec(g, t, roster, sender, MoveIntent(toId, idx), d, active).1 != NoBroadcast
    ensures IsTurnPlayer(roster, sender, t) && t.phase == Turn.NeedMove
    ensures Truthy(toId) && 0 <= idx < Moves.PieceCount && t.dice.Some? && 1 <= t.dice.value <= 6
    ensures exists m :: && m in Moves.LegalMoves(g, t.barricades, t.pieces[t.current], t.current, t.dice.value)
                        && m.toId == toId.value && m.index == idx
                        && Moves.MoveOk(g, t.barricades, t.pieces[t.current], t.current, t.dice.value, m)
                        && IntentSpec(g, t, roster, sender, MoveIntent(toId, idx), d, active).0 == Turn.MoveSpec(g, t, m)
  {
    ApplyMoveEffect(g, t, toId.value, idx);
    var m := SelectedMove(t, toId.value, idx);
    assert m.Some?;
    var mv := m.value;
    assert t.legal != [];
    assert t.current in ElemSet(t.players);
    Moves.LegalMovesSound(g, t.barricades, t.pieces[t.current], t.current, t.dice.value, mv);
  }

  /** The turn player's well-formed move intent during `need_move` is decided
      by `ApplyMove` alone. */
  lemma MoveIntentDispatch(g: Board.Graph, t: Turn.Table, roster: Roster, sender: string,
                           toId: string, idx: nat, d: Die, active: seq<string>)
    requires Turn.Shape(t)
    requires IsTurnPlayer(roster, sender, t) && t.phase == Turn.NeedMove
    requires toId != "" && idx < Moves.PieceCount
    ensures IntentSpec(g, t, roster, sender, MoveIntent(Some(toId), idx), d, active) == ApplyMove(g, t, toId, idx)
  {
  }

  /** Conversely, the turn player's move intent is applied whenever the
      piece named has a legal move to the node named (a node whose id is
      non-empty: an empty target is rejected as missing). */
  lemma LegalMoveApplied(g: Board.Graph, t: Turn.Table, roster: Roster, sender: string,
                         m: Moves.Move, d: Die, active: seq<string>)
    requires Turn.Shape(t)
    requires IsTurnPlayer(roster, sender, t) && t.phase == Turn.NeedMove
    requires m in t.legal && m.color == t.current && m.index < Moves.PieceCount && m.toId != ""
    ensures IntentSpec(g, t, roster, sender, MoveIntent(Some(m.toId), m.index), d, active).1 == StateMsg
  {
    MoveIntentDispatch(g, t, roster, sender, m.toId, m.index, d, active);
    ApplyMoveEffect(g, t, m.toId, m.index);
    Moves.LookupByPiece(t.legal, m.index);
    Moves.MovesOfPieceMember(t.legal, m.index, m);
    assert m in Moves.Lookup(t.byPiece, m.index);
    assert SelectedMove(t, m.toId, m.index).Some?;
  }

  lemma ApplyMoveKeeps(g: Board.Graph, t: Turn.Table, toId: string, idx: nat)
    requires Turn.Shape(t) && Turn.Consistent(g, t) && idx < Moves.PieceCount
    ensures var r := ApplyMove(g, t, toId, idx).0;
      Turn.Shape(r) && Turn.Consistent(g, r)
  {
    ApplyMoveEffect(g, t, toId, idx);
    var m := SelectedMove(t, toId, idx);
    if m.Some? {
      assert m.value.color in ElemSet(t.players);
      Turn.MoveKeeps(g, t, m.value);
    }
  }

  /** Handling any intent keeps the table's shape and its cached legal moves
      consistent. */
  lemma IntentKeeps(g: Board.Graph, t: Turn.Table, roster: Roster, sender: string, intent: Intent, d: Die, active: seq<string>)
    requires Turn.Shape(t) && Turn.Consistent(g, t)
    ensures var r := IntentSpec(g, t, roster, sender, intent, d, active).0;
      Turn.Shape(r) && Turn.Consistent(g, r)
  {
    var r := IntentSpec(g, t, roster, sender, intent, d, active).0;
    var owner := IsTurnPlayer(roster, sender, t);
    match intent
    case RollIntent =>
      Turn.RollKeeps(g, t, d);
      assert r == if owner then Turn.RollSpec(g, t, d) else t;
    case EndIntent =>
      Turn.NextPlayerKeeps(g, t);
      assert r == if owner then PassTurn(t) else t;
    case SkipIntent =>
      Turn.NextPlayerKeeps(g, t);
      assert r == if owner then PassTurn(t) else t;
    case ResetIntent =>
      Turn.NewGameEffect(g, active);
      assert r == if RoleOf(roster, sender) == Some("host") then Turn.NewGameSpec(g, active) else t;
    case MoveIntent(toId, idx) =>
      if owner && t.phase == Turn.NeedMove && Truthy(toId) && 0 <= idx < Moves.PieceCount {
        MoveIntentDispatch(g, t, roster, sender, toId.value, idx, d, active);
        ApplyMoveKeeps(g, t, toId.value, idx);
      } else {
        assert r == t;
      }
    case PlaceIntent(nodeId) =>
      if owner && t.phase == Turn.PlacingBarricade && nodeId.Some? {
        Turn.PlaceKeeps(g, t, nodeId.value);
        assert r == Turn.PlaceSpec(g, t, nodeId.value);
      } else {
        assert r == t;
      }
    case OtherIntent(_) =>
      assert r == t;
  }
}
