/** The game as the source runs it: one object holding the board graph and
    the mutable game state, and the operations of game.js that change that
    state in place.

    The source keeps the state in the global object `state` (`players`,
    `currentPlayer`, `dice`, `pieces`, `barricades`, `winner`) and in the
    globals `phase`, `placingChoices`, `legalMovesAll` and
    `legalMovesByPiece`. Here all of them are the one field `table`, and an
    assignment such as `state.dice = null` is the update
    `table := table.(dice := None)`.

    Each operation is proved to leave `table` as the matching function of
    module `Turn` (or `Authority`, or `Wire`) gives for the table before it,
    and to keep `Valid()`. */
module Game {
  import opened Common
  import Board
  import Moves
  import Players
  import Turn
  import Authority
  import Wire

  class Game {
    /** The board graph built once by `buildGraph()`. */
    const graph: Board.Graph
    var table: Turn.Table

    /** A well-formed graph and table whose cached legal moves are those of
        the current roll. */
    ghost predicate Valid()
      reads this
    {
      && Board.GraphOk(graph)
      && Turn.Shape(table)
      && Turn.Consistent(graph, table)
      && Turn.Canonical(table.phase)
    }

    /** What turn passing needs: the shape, with no claim about the cached
        legal moves. */
    ghost predicate Shaped()
      reads this
    {
      Board.GraphOk(graph) && Turn.Shape(table) && Turn.Canonical(table.phase)
    }

    /** Building the graph and starting the first game. */
    constructor (g: Board.Graph, active: seq<string>)
      requires Board.GraphOk(g)
      ensures graph == g
      ensures Valid() && table == Turn.NewGameSpec(g, active)
    {
      graph := g;
      var ps := Players.SetPlayers(active);
      Turn.NewGameEffect(g, active);
      var barr := Board.RunBarricades(g);
      table := Turn.Table(ps, ps[0], None, Turn.NeedRoll, [], map c | c in ElemSet(ps) :: Turn.HouseRow(), barr, None, [], map[], None);
    }

    // -------------------------------------------------------------------
    // Turn passing

    /** `nextPlayer()`. */
    method NextPlayer()
      requires Shaped()
      modifies this
      ensures Valid() && table == Turn.NextPlayerSpec(old(table))
    {
      Turn.NextPlayerKeeps(graph, table);
      var idx := IndexOf(table.players, table.current);
      table := table.(current := table.players[NextIndex(idx, |table.players|)]);
      table := table.(dice := None, choices := [], legal := [], byPiece := map[], phase := Turn.NeedRoll);
    }

    /** `endTurn()`. */
    method EndTurn()
      requires Shaped()
      modifies this
      ensures Valid() && table == Turn.EndTurnSpec(old(table))
    {
      if table.dice == Some(6) && table.winner.None? {
        Turn.EndTurnKeeps(graph, table);
        table := table.(dice := None, choices := [], legal := [], byPiece := map[], phase := Turn.NeedRoll);
        return;
      }
      NextPlayer();
    }

    // -------------------------------------------------------------------
    // Rolling

    /** `rollDice()`, the roll being `d`. */
    method RollDice(d: Die)
      requires Valid()
      modifies this
      ensures Valid() && table == Turn.RollSpec(graph, old(table), d)
    {
      Turn.RollKeeps(graph, table, d);
      if table.phase != Turn.NeedRoll {
        return;
      }
      assert table.current in ElemSet(table.players);
      table := table.(dice := Some(d));
      var ms := Moves.ComputeLegalMoves(graph, table.barricades, table.pieces[table.current], table.current, d);
      var bp := Moves.GroupByPiece(ms);
      table := table.(legal := ms, byPiece := bp);
      if ms == [] {
        assert Turn.Shape(table);
        EndTurn();
        return;
      }
      table := table.(phase := Turn.NeedMove);
    }

    // -------------------------------------------------------------------
    // Moving

    /** The capture loop of `movePiece`: each occupant of `toId` of another
        colour than `color` is sent to its house. */
    method SendEnemiesHome(color: Color, toId: string)
      requires forall c :: c in table.players ==> c in table.pieces
      modifies this
      ensures table == old(table).(pieces := Turn.Capture(old(table).players, old(table).pieces, color, toId))
    {
      var occ := Moves.AnyPiecesAtNode(table.players, table.pieces, toId);
      var ps := Turn.SendEnemiesHome(table.pieces, occ, color);
      table := table.(pieces := ps);
    }

    /** `checkWin()`: the first colour, in turn order, with all five pieces in
        the goal wins; without one the winner stays as it was. */
    method CheckWin()
      requires forall c :: c in table.players ==> c in table.pieces
      modifies this
      ensures table == old(table).(winner := Turn.CheckWinSpec(old(table).players, old(table).pieces, old(table).winner))
    {
      var players, pieces := table.players, table.pieces;
      for i := 0 to |players|
        invariant forall j :: 0 <= j < i ==> Turn.GoalCount(pieces[players[j]]) != Moves.PieceCount
      {
        var c := players[i];
        if Turn.GoalCount(pieces[c]) == Moves.PieceCount {
          Turn.FirstCompleteAt(players, pieces, i);
          table := table.(winner := Some(c));
          return;
        }
      }
      Turn.FirstCompleteAt(players, pieces, |players|);
    }

    /** `movePiece(m)`. */
    method MovePiece(m: Moves.Move)
      requires Valid()
      requires m.color in table.pieces && m.index < |table.pieces[m.color]|
      modifies this
      ensures Valid() && table == Turn.MoveSpec(graph, old(table), m)
    {
      ghost var t := table;
      Turn.MoveKeeps(graph, t, m);
      var color, index, toId := m.color, m.index, m.toId;
      SendEnemiesHome(color, toId);
      var landsOnBarr := toId in table.barricades;
      table := table.(pieces := table.pieces[color := table.pieces[color][index := Moves.At(toId)]]);
      assert table.pieces == Turn.Moved(t, m);
      if graph.goal == Some(toId) {
        assert Turn.MoveSpec(graph, t, m) == Turn.EnterGoal(t, table.pieces, m);
        table := table.(pieces := table.pieces[color := table.pieces[color][index := Moves.Goal]]);
        CheckWin();
        if table.winner.Some? {
          table := table.(phase := Turn.GameOver);
          return;
        }
        assert Turn.Shape(table) && Turn.Canonical(table.phase);
        EndTurn();
        return;
      }
      if landsOnBarr {
        table := table.(barricades := table.barricades - {toId}, phase := Turn.PlacingBarricade);
        var ch := Moves.BarricadePlacements(graph, table.barricades);
        table := table.(choices := ch);
        return;
      }
      assert Turn.Shape(table);
      EndTurn();
    }

    // -------------------------------------------------------------------
    // Placing a barricade

    /** `placeBarricade(nodeId)`. */
    method PlaceBarricade(nodeId: string)
      requires Valid()
      modifies this
      ensures Valid() && table == Turn.PlaceSpec(graph, old(table), nodeId)
    {
      Turn.PlaceKeeps(graph, table, nodeId);
      if table.phase != Turn.PlacingBarricade {
        return;
      }
      if graph.goal == Some(nodeId) {
        return;
      }
      if nodeId !in table.choices {
        return;
      }
      table := table.(barricades := table.barricades + {nodeId}, choices := []);
      EndTurn();
    }

    // -------------------------------------------------------------------
    // A new game

    /** `newGame()`, `active` being what `getActiveColors()` returns. */
    method NewGame(active: seq<string>)
      requires Board.GraphOk(graph)
      modifies this
      ensures Valid() && table == Turn.NewGameSpec(graph, active)
    {
      var ps := Players.SetPlayers(active);
      Turn.NewGameEffect(graph, active);
      var barr := Board.RunBarricades(graph);
      table := Turn.Table(ps, ps[0], None, Turn.NeedRoll, [], map c | c in ElemSet(ps) :: Turn.HouseRow(), barr, None, [], map[], None);
    }

    // -------------------------------------------------------------------
    // The host's intent handling

    /** `handleRemoteIntent(intent, sender)`; returns what is broadcast. */
    method HandleRemoteIntent(roster: Authority.Roster, sender: string, intent: Authority.Intent, d: Die, active: seq<string>)
      returns (b: Authority.Broadcast)
      requires Valid()
      modifies this
      ensures Valid()
      ensures (table, b) == Authority.IntentSpec(graph, old(table), roster, sender, intent, d, active)
    {
      ghost var t := table;
      var senderColor := Authority.ColorOf(roster, sender);
      var owner := senderColor.Some? && senderColor.value == ColorName(table.current);
      match intent {
        case RollIntent =>
          if !owner { return Authority.NoBroadcast; }
          RollDice(d);
          return Authority.StateMsg;
        case EndIntent =>
          if !owner { return Authority.NoBroadcast; }
          if table.phase != Turn.PlacingBarricade && table.phase != Turn.GameOver {
            NextPlayer();
          }
          return Authority.StateMsg;
        case SkipIntent =>
          if !owner { return Authority.NoBroadcast; }
          if table.phase != Turn.PlacingBarricade && table.phase != Turn.GameOver {
            NextPlayer();
          }
          return Authority.StateMsg;
        case ResetIntent =>
          if Authority.RoleOf(roster, sender) != Some("host") { return Authority.NoBroadcast; }
          NewGame(active);
          return Authority.SnapshotMsg;
        case MoveIntent(toId, pieceIndex) =>
          if !owner || table.phase != Turn.NeedMove { return Authority.NoBroadcast; }
          if !Truthy(toId) || !(0 <= pieceIndex < Moves.PieceCount) { return Authority.NoBroadcast; }
          Authority.MoveIntentDispatch(graph, t, roster, sender, toId.value, pieceIndex, d, active);
          Authority.ApplyMoveEffect(graph, t, toId.value, pieceIndex);
          var list := Moves.Lookup(table.byPiece, pieceIndex);
          var m := Moves.FindMove(list, toId.value, table.current);
          assert m == Authority.SelectedMove(t, toId.value, pieceIndex);
          if m.None? { return Authority.NoBroadcast; }
          assert table.current in ElemSet(table.players);
          MovePiece(m.value);
          return Authority.StateMsg;
        case PlaceIntent(nodeId) =>
          if !owner || table.phase != Turn.PlacingBarricade { return Authority.NoBroadcast; }
          if nodeId.Some? {
            PlaceBarricade(nodeId.value);
          }
          return Authority.StateMsg;
        case OtherIntent(_) =>
          return Authority.NoBroadcast;
      }
    }

    // -------------------------------------------------------------------
    // Exchanging states

    /** The server-format branch of `applyRemoteState(raw)`. */
    method ApplyServerState(s: Wire.ServerSnapshot)
      requires Board.GraphOk(graph)
      requires Wire.IsServerFormat(s) && s.turnColor.value in {"red", "blue"}
      modifies this
      ensures Valid() && table == Wire.FromServer(s)
    {
      Wire.FromServerEffect(graph, s);
      var ps := Wire.MapServerPieces(s.pieces.value);
      var turn := if s.turnColor.value == "red" then Red else Blue;
      var barr := if s.barricades.Some? then ElemSet(s.barricades.value) else {};
      table := Turn.Table([Red, Blue], turn, s.rolled, Wire.ServerPhase(s.phase), [], ps, barr, None, [], map[], Some(Turn.ServerFlags(s.started, s.paused)));
    }

    /** `serializeState()`: the saved form of the current state. */
    method SerializeState() returns (snap: Wire.Saved)
      ensures Wire.Describes(snap, table)
    {
      var barr := Wire.SetToList(table.barricades);
      var ps := map c | c in table.pieces :: Wire.PosNames(table.pieces[c]);
      snap := Wire.Saved(table.players, table.current, table.dice, Turn.PhaseName(table.phase), table.choices, ps, barr, table.winner, table.flags);
    }
  }
}
