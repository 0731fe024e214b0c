/** The turn state machine of game.js as functions on a value.

    `Table` holds everything the rules read and write: the source's global
    `state` object together with the globals `phase`, `placingChoices`,
    `legalMovesAll` and `legalMovesByPiece`. Each function below gives the
    table after one operation (`endTurn`, `nextPlayer`, `rollDice`,
    `movePiece`, `placeBarricade`, `newGame`); the class in module `Game`
    performs the same operations in place and is proved to agree with them. */
module Turn {
  import opened Common
  import Board
  import Moves
  import Players

  /** `need_roll | need_move | placing_barricade | game_over`; a restored
      state may carry any other string. */
  datatype Phase = NeedRoll | NeedMove | PlacingBarricade | GameOver | Other(name: string)

  function PhaseName(p: Phase): string
  {
    match p
    case NeedRoll => "need_roll"
    case NeedMove => "need_move"
    case PlacingBarricade => "placing_barricade"
    case GameOver => "game_over"
    case Other(n) => n
  }

  /** Only strings outside the four names are `Other`. */
  predicate Canonical(p: Phase)
  {
    p.Other? ==> p.name !in {"need_roll", "need_move", "placing_barricade", "game_over"}
  }

  function PhaseOf(s: string): (r: Phase)
    ensures PhaseName(r) == s && Canonical(r)
  {
    if s == "need_roll" then NeedRoll
    else if s == "need_move" then NeedMove
    else if s == "placing_barricade" then PlacingBarricade
    else if s == "game_over" then GameOver
    else Other(s)
  }

  /** Phase names round-trip. */
  lemma PhaseRoundTrip(p: Phase)
    requires Canonical(p)
    ensures PhaseOf(PhaseName(p)) == p
  {
  }

  /** The `started` and `paused` flags a server snapshot adds to the state
      object; a state the rules create has neither. */
  datatype ServerFlags = ServerFlags(started: bool, paused: bool)

  datatype Table = Table(
    players: seq<Color>,
    current: Color,
    dice: Option<int>,
    phase: Phase,
    choices: seq<string>,
    pieces: map<Color, seq<Moves.Pos>>,
    barricades: set<string>,
    winner: Option<Color>,
    legal: seq<Moves.Move>,
    byPiece: map<nat, seq<Moves.Move>>,
    flags: Option<ServerFlags>)

  /** The shape every table the rules produce has. */
  predicate Shape(t: Table)
  {
    && |t.players| > 0 && Distinct(t.players)
    && t.current in t.players
    && t.pieces.Keys == ElemSet(t.players)
    && (forall c :: c in t.pieces ==> |t.pieces[c]| == Moves.PieceCount)
    && t.byPiece == Moves.ByPiece(t.legal)
  }

  /** The cached legal moves are the current player's legal moves for the
      current roll whenever a move is awaited. */
  predicate Consistent(g: Board.Graph, t: Table)
    requires Shape(t)
  {
    t.phase == NeedMove && t.legal != [] ==>
      && t.dice.Some? && 1 <= t.dice.value <= 6
      && t.legal == Moves.LegalMoves(g, t.barricades, t.pieces[t.current], t.current, t.dice.value)
  }

  /** The goal never carries a barricade. */
  predicate GoalFree(g: Board.Graph, t: Table)
  {
    g.goal.Some? ==> g.goal.value !in t.barricades
  }

  // ---------------------------------------------------------------------
  // Turn passing

  /** `order[(order.indexOf(current) + 1) % order.length]`. */
  function Successor(players: seq<Color>, c: Color): Color
    requires |players| > 0
  {
    players[NextIndex(IndexOf(players, c), |players|)]
  }

  /** `nextPlayer()`. */
  function NextPlayerSpec(t: Table): Table
    requires |t.players| > 0
  {
    t.(current := Successor(t.players, t.current), dice := None, choices := [],
       legal := [], byPiece := map[], phase := NeedRoll)
  }

  /** `endTurn()`: a 6 without a winner lets the same player roll again. */
  function EndTurnSpec(t: Table): Table
    requires |t.players| > 0
  {
    if t.dice == Some(6) && t.winner.None? then
      t.(dice := None, choices := [], legal := [], byPiece := map[], phase := NeedRoll)
    else NextPlayerSpec(t)
  }

  // ---------------------------------------------------------------------
  // Rolling

  /** `rollDice()` with the rolled value `d`. */
  function RollSpec(g: Board.Graph, t: Table, d: Die): Table
    requires Shape(t)
  {
    if t.phase != NeedRoll then t
    else
      var legal := Moves.LegalMoves(g, t.barricades, t.pieces[t.current], t.current, d);
      var t1 := t.(dice := Some(d), legal := legal, byPiece := Moves.ByPiece(legal));
      if legal == [] then EndTurnSpec(t1) else t1.(phase := NeedMove)
  }

  // ---------------------------------------------------------------------
  // Moving

  /** The pieces of other colours than `color` among `occ`. */
  function Enemies(occ: seq<(Color, nat)>, color: Color): seq<(Color, nat)>
  {
    if occ == [] then []
    else Enemies(occ[..|occ| - 1], color) + (if occ[|occ| - 1].0 != color then [occ[|occ| - 1]] else [])
  }

  lemma {:induction false} EnemiesMember(occ: seq<(Color, nat)>, color: Color, e: (Color, nat))
    ensures e in Enemies(occ, color) <==> e in occ && e.0 != color
  {
    if occ != [] {
      EnemiesMember(occ[..|occ| - 1], color, e);
      assert occ == occ[..|occ| - 1] + [occ[|occ| - 1]];
    }
  }

  /** Sends each listed piece to its house. */
  function SendHome(pieces: map<Color, seq<Moves.Pos>>, occ: seq<(Color, nat)>): (r: map<Color, seq<Moves.Pos>>)
    ensures r.Keys == pieces.Keys
    ensures forall c :: c in r ==> |r[c]| == |pieces[c]|
  {
    if occ == [] then pieces
    else
      var prev := SendHome(pieces, occ[..|occ| - 1]);
      var e := occ[|occ| - 1];
      if e.0 in prev && e.1 < |prev[e.0]| then prev[e.0 := prev[e.0][e.1 := Moves.House]] else prev
  }

  lemma {:induction false} SendHomeAt(pieces: map<Color, seq<Moves.Pos>>, occ: seq<(Color, nat)>, c: Color, i: nat)
    requires c in pieces && i < |pieces[c]|
    ensures SendHome(pieces, occ)[c][i] == if (c, i) in occ then Moves.House else pieces[c][i]
  {
    if occ != [] {
      SendHomeAt(pieces, occ[..|occ| - 1], c, i);
      assert occ == occ[..|occ| - 1] + [occ[|occ| - 1]];
    }
  }

  lemma EnemiesStep(occ: seq<(Color, nat)>, k: nat, color: Color)
    requires k < |occ|
    ensures Enemies(occ[..k + 1], color) == Enemies(occ[..k], color) + (if occ[k].0 != color then [occ[k]] else [])
  {
    assert occ[..k + 1][..k] == occ[..k];
  }

  lemma SendHomeStep(pieces: map<Color, seq<Moves.Pos>>, en: seq<(Color, nat)>, e: (Color, nat))
    ensures var prev := SendHome(pieces, en);
      SendHome(pieces, en + [e]) ==
        if e.0 in prev && e.1 < |prev[e.0]| then prev[e.0 := prev[e.0][e.1 := Moves.House]] else prev
  {
    assert (en + [e])[..|en|] == en;
  }

  /** The capture loop of `movePiece` over the occupants `occ` of the target. */
  method SendEnemiesHome(pieces: map<Color, seq<Moves.Pos>>, occ: seq<(Color, nat)>, color: Color)
    returns (ps: map<Color, seq<Moves.Pos>>)
    requires forall e :: e in occ ==> e.0 in pieces && e.1 < |pieces[e.0]|
    ensures ps == SendHome(pieces, Enemies(occ, color))
  {
    ps := pieces;
    for k := 0 to |occ|
      invariant ps == SendHome(pieces, Enemies(occ[..k], color))
    {
      var e := occ[k];
      EnemiesStep(occ, k, color);
      ghost var en := Enemies(occ[..k], color);
      if e.0 == color {
        assert en + [] == en;
        continue;
      }
      SendHomeStep(pieces, en, e);
      assert e in occ;
      assert e.0 in ps && e.1 < |ps[e.0]|;
      ps := ps[e.0 := ps[e.0][e.1 := Moves.House]];
    }
    assert occ[..|occ|] == occ;
  }

  /** The capture step of `movePiece`: every piece of another colour on
      `toId` goes back to its house. */
  function Capture(players: seq<Color>, pieces: map<Color, seq<Moves.Pos>>, color: Color, toId: string): map<Color, seq<Moves.Pos>>
    requires forall c :: c in players ==> c in pieces
  {
    SendHome(pieces, Enemies(Moves.Occupants(players, pieces, toId), color))
  }

  /** Sets the position of one piece. */
  function Place(pieces: map<Color, seq<Moves.Pos>>, c: Color, i: nat, p: Moves.Pos): map<Color, seq<Moves.Pos>>
    requires c in pieces && i < |pieces[c]|
  {
    pieces[c := pieces[c][i := p]]
  }

  /** The number of pieces of a colour in the goal. */
  function GoalCount(s: seq<Moves.Pos>): (r: nat)
    ensures r <= |s|
    ensures r == |s| <==> forall i :: 0 <= i < |s| ==> s[i] == Moves.Goal
  {
    if s == [] then 0
    else
      var k := GoalCount(s[1..]);
      assert forall i :: 1 <= i < |s| ==> s[i] == s[1..][i - 1];
      (if s[0] == Moves.Goal then 1 else 0) + k
  }

  /** The first colour of `players` with all its pieces in the goal. */
  function FirstComplete(players: seq<Color>, pieces: map<Color, seq<Moves.Pos>>): (r: Option<Color>)
    requires forall c :: c in players ==> c in pieces
    ensures r.Some? ==> r.value in players && GoalCount(pieces[r.value]) == Moves.PieceCount
    ensures r.None? <==> forall c :: c in players ==> GoalCount(pieces[c]) != Moves.PieceCount
  {
    if players == [] then None
    else if GoalCount(pieces[players[0]]) == Moves.PieceCount then Some(players[0])
    else
      assert forall c :: c in players ==> c == players[0] || c in players[1..];
      FirstComplete(players[1..], pieces)
  }

  /** The colour `FirstComplete` picks is the first complete one. */
  lemma {:induction false} FirstCompleteAt(players: seq<Color>, pieces: map<Color, seq<Moves.Pos>>, i: nat)
    requires forall c :: c in players ==> c in pieces
    requires i <= |players|
    requires forall j :: 0 <= j < i ==> GoalCount(pieces[players[j]]) != Moves.PieceCount
    ensures i < |players| && GoalCount(pieces[players[i]]) == Moves.PieceCount ==> FirstComplete(players, pieces) == Some(players[i])
    ensures i == |players| ==> FirstComplete(players, pieces).None?
  {
    if i > 0 {
      assert GoalCount(pieces[players[0]]) != Moves.PieceCount;
      assert forall c :: c in players[1..] ==> c in players;
      FirstCompleteAt(players[1..], pieces, i - 1);
    }
  }

  /** `checkWin()`: an existing winner stays when no colour is complete. */
  function CheckWinSpec(players: seq<Color>, pieces: map<Color, seq<Moves.Pos>>, winner: Option<Color>): Option<Color>
    requires forall c :: c in players ==> c in pieces
  {
    var f := FirstComplete(players, pieces);
    if f.Some? then f else winner
  }

  /** The pieces after the capture and after the mover steps onto `toId`. */
  function Moved(t: Table, m: Moves.Move): (r: map<Color, seq<Moves.Pos>>)
    requires Shape(t)
    requires m.color in t.pieces && m.index < |t.pieces[m.color]|
    ensures r.Keys == t.pieces.Keys && forall c :: c in r ==> |r[c]| == |t.pieces[c]|
  {
    assert forall c :: c in t.players ==> c in ElemSet(t.players);
    Place(Capture(t.players, t.pieces, m.color, m.toId), m.color, m.index, Moves.At(m.toId))
  }

  /** The goal branch of `movePiece(m)`, from the pieces `p2` after the
      capture and the step onto the goal: the mover leaves the board for the
      goal, then `checkWin()`; a winner ends the game, otherwise the turn
      ends. */
  function EnterGoal(t: Table, p2: map<Color, seq<Moves.Pos>>, m: Moves.Move): Table
    requires |t.players| > 0 && forall c :: c in t.players ==> c in p2
    requires m.color in p2 && m.index < |p2[m.color]|
  {
    var p3 := Place(p2, m.color, m.index, Moves.Goal);
    var w := CheckWinSpec(t.players, p3, t.winner);
    var t3 := t.(pieces := p3, winner := w);
    if w.Some? then t3.(phase := GameOver) else EndTurnSpec(t3)
  }

  /** `movePiece(m)`. */
  function MoveSpec(g: Board.Graph, t: Table, m: Moves.Move): Table
    requires Shape(t)
    requires m.color in t.pieces && m.index < |t.pieces[m.color]|
  {
    var toId := m.toId;
    var landsOnBarr := toId in t.barricades;
    var p2 := Moved(t, m);
    assert forall c :: c in t.players ==> c in ElemSet(t.players);
    if g.goal == Some(toId) then EnterGoal(t, p2, m)
    else if landsOnBarr then
      var b := t.barricades - {toId};
      t.(pieces := p2, barricades := b, phase := PlacingBarricade, choices := Moves.Placements(g.order, g.goal, b))
    else EndTurnSpec(t.(pieces := p2))
  }

  // ---------------------------------------------------------------------
  // Placing a barricade

  /** `placeBarricade(nodeId)`. */
  function PlaceSpec(g: Board.Graph, t: Table, nodeId: string): Table
    requires |t.players| > 0
  {
    if t.phase != PlacingBarricade then t
    else if g.goal == Some(nodeId) then t
    else if nodeId !in t.choices then t
    else EndTurnSpec(t.(barricades := t.barricades + {nodeId}, choices := []))
  }

  // ---------------------------------------------------------------------
  // A new game

  function HouseRow(): seq<Moves.Pos>
  {
    [Moves.House, Moves.House, Moves.House, Moves.House, Moves.House]
  }

  /** `newGame()` for the active colour names `active` (what
      `getActiveColors()` returns). */
  function NewGameSpec(g: Board.Graph, active: seq<string>): Table
  {
    var players := Players.PlayersOf(active);
    Table(players, players[0], None, NeedRoll, [],
          map c | c in ElemSet(players) :: HouseRow(),
          g.runNodes - (if g.goal.Some? then {g.goal.value} else {}),
          None, [], map[], None)
  }

  // =====================================================================
  // Properties

  /** Turn passing goes to the next colour of the cyclic order. */
  lemma NextPlayerCycles(t: Table)
    requires |t.players| > 0 && Distinct(t.players) && t.current in t.players
    ensures NextPlayerSpec(t).current in t.players
    ensures IndexOf(t.players, NextPlayerSpec(t).current) == NextIndex(IndexOf(t.players, t.current), |t.players|)
    ensures |t.players| > 1 ==> NextPlayerSpec(t).current != t.current
  {
    CyclicNext(t.players, t.current);
  }

  /** A 6 without a winner: the same player rolls again. Otherwise the turn
      passes. Either way the dice, the choices and the legal moves are
      cleared and a roll is awaited. */
  lemma EndTurnEffect(t: Table)
    requires |t.players| > 0
    ensures var r := EndTurnSpec(t);
      && r.dice.None? && r.choices == [] && r.legal == [] && r.byPiece == map[] && r.phase == NeedRoll
      && r.current == (if t.dice == Some(6) && t.winner.None? then t.current else Successor(t.players, t.current))
      && r.pieces == t.pieces && r.barricades == t.barricades && r.winner == t.winner && r.players == t.players
      && r.flags == t.flags
  {
  }

  /** A roll outside `need_roll` changes nothing; a roll with moves awaits a
      move among exactly the legal moves; a roll without moves ends the turn
      (so a 6 without moves still grants another roll). */
  lemma RollEffect(g: Board.Graph, t: Table, d: Die)
    requires Shape(t)
    ensures t.phase != NeedRoll ==> RollSpec(g, t, d) == t
    ensures t.phase == NeedRoll ==>
      var legal := Moves.LegalMoves(g, t.barricades, t.pieces[t.current], t.current, d);
      var r := RollSpec(g, t, d);
      && (legal != [] ==> r.phase == NeedMove && r.dice == Some(d) && r.legal == legal && r.current == t.current)
      && (legal == [] ==>
            && r.phase == NeedRoll && r.dice.None?
            && r.current == (if d == 6 && t.winner.None? then t.current else Successor(t.players, t.current)))
      && r.pieces == t.pieces && r.barricades == t.barricades
  {
  }

  /** The pieces `movePiece` leaves behind. */
  lemma MovePieces(g: Board.Graph, t: Table, m: Moves.Move)
    requires Shape(t)
    requires m.color in t.pieces && m.index < |t.pieces[m.color]|
    ensures MoveSpec(g, t, m).pieces ==
      if g.goal == Some(m.toId) then Place(Moved(t, m), m.color, m.index, Moves.Goal) else Moved(t, m)
  {
    assert m.color in ElemSet(t.players);
    assert forall c :: c in t.players ==> c in ElemSet(t.players);
    if g.goal == Some(m.toId) {
      assert MoveSpec(g, t, m) == EnterGoal(t, Moved(t, m), m);
      EnterGoalEffect(t, Moved(t, m), m);
    } else if m.toId !in t.barricades {
      EndTurnEffect(t.(pieces := Moved(t, m)));
    }
  }

  lemma MovedAt(t: Table, m: Moves.Move, c: Color, i: nat)
    requires Shape(t)
    requires m.color in t.pieces && m.index < |t.pieces[m.color]|
    requires c in t.pieces && i < |t.pieces[c]|
    ensures Moved(t, m)[c][i] ==
         if c == m.color && i == m.index then Moves.At(m.toId)
         else if c != m.color && t.pieces[c][i] == Moves.At(m.toId) then Moves.House
         else t.pieces[c][i]
  {
    assert forall x :: x in t.players ==> x in ElemSet(t.players);
    var occ := Moves.Occupants(t.players, t.pieces, m.toId);
    var en := Enemies(occ, m.color);
    EnemiesMember(occ, m.color, (c, i));
    Moves.OccupantsMember(t.players, t.pieces, m.toId, c, i);
    SendHomeAt(t.pieces, en, c, i);
    assert c in ElemSet(t.players);
  }

  /** Capture: after a move to `toId`, every piece of another colour that
      stood on `toId` is in its house; the mover is on `toId` (or in the goal);
      every other piece is where it was. */
  lemma CaptureEffect(g: Board.Graph, t: Table, m: Moves.Move, c: Color, i: nat)
    requires Shape(t)
    requires m.color in t.pieces && m.index < |t.pieces[m.color]|
    requires c in t.pieces && i < |t.pieces[c]|
    ensures var r := MoveSpec(g, t, m).pieces;
      && r.Keys == t.pieces.Keys && |r[c]| == |t.pieces[c]|
      && r[c][i] ==
         if c == m.color && i == m.index then (if g.goal == Some(m.toId) then Moves.Goal else Moves.At(m.toId))
         else if c != m.color && t.pieces[c][i] == Moves.At(m.toId) then Moves.House
         else t.pieces[c][i]
  {
    MovePieces(g, t, m);
    MovedAt(t, m, c, i);
  }

  /** Barricade pickup: landing on a barricaded node other than the goal
      removes that barricade and asks for a placement, offering exactly the
      graph nodes that are neither the goal nor barricaded. */
  lemma PickupEffect(g: Board.Graph, t: Table, m: Moves.Move)
    requires Shape(t) && Board.GraphOk(g)
    requires m.color in t.pieces && m.index < |t.pieces[m.color]|
    requires m.toId in t.barricades && g.goal != Some(m.toId)
    ensures var r := MoveSpec(g, t, m);
      && r.barricades == t.barricades - {m.toId}
      && r.phase == PlacingBarricade
      && ElemSet(r.choices) == g.adj.Keys - r.barricades - (if g.goal.Some? then {g.goal.value} else {})
      && Distinct(r.choices)
      && r.current == t.current && r.dice == t.dice
  {
    var b := t.barricades - {m.toId};
    var ch := Moves.Placements(g.order, g.goal, b);
    assert forall x :: x in ElemSet(ch) <==> x in g.order && g.goal != Some(x) && x !in b;
  }

  /** The goal branch on its own: the mover is in the goal, the winner is
      the first complete colour if there is one, and the game is over
      exactly when there is a winner. */
  lemma EnterGoalEffect(t: Table, p2: map<Color, seq<Moves.Pos>>, m: Moves.Move)
    requires |t.players| > 0 && forall c :: c in t.players ==> c in p2
    requires m.color in t.players && m.index < |p2[m.color]|
    ensures var r := EnterGoal(t, p2, m);
      && r.pieces == Place(p2, m.color, m.index, Moves.Goal)
      && r.pieces[m.color][m.index] == Moves.Goal
      && (GoalCount(r.pieces[m.color]) == Moves.PieceCount ==> r.winner.Some? && r.phase == GameOver)
      && r.winner == CheckWinSpec(t.players, r.pieces, t.winner)
      && (r.winner.Some? <==> r.phase == GameOver)
      && (r.winner.None? ==> r.phase == NeedRoll && r == EndTurnSpec(t.(pieces := r.pieces)))
      && r.barricades == t.barricades
  {
    GoalPlacement(t.players, p2, m.color, m.index, t.winner);
  }

  /** Putting a piece in the goal: it is there, and a colour it completes
      gives a winner. */
  lemma GoalPlacement(players: seq<Color>, pieces: map<Color, seq<Moves.Pos>>, c: Color, i: nat, winner: Option<Color>)
    requires forall d :: d in players ==> d in pieces
    requires c in players && i < |pieces[c]|
    ensures var p := Place(pieces, c, i, Moves.Goal);
      && p[c][i] == Moves.Goal
      && (GoalCount(p[c]) == Moves.PieceCount ==> CheckWinSpec(players, p, winner).Some?)
  {
  }

  /** Goal entry: the mover goes to the goal. If that completes a colour the
      game is over with a winner (the first complete colour in turn order);
      otherwise the winner is unchanged and the turn ends as `endTurn()`
      ends it: a 6 rolls again, any other roll passes to the successor, and
      the dice are cleared. */
  lemma GoalEntryEffect(g: Board.Graph, t: Table, m: Moves.Move)
    requires Shape(t)
    requires m.color in t.pieces && m.index < |t.pieces[m.color]|
    requires g.goal == Some(m.toId)
    ensures var r := MoveSpec(g, t, m);
      && r.pieces[m.color][m.index] == Moves.Goal
      && (GoalCount(r.pieces[m.color]) == Moves.PieceCount ==> r.winner.Some? && r.phase == GameOver)
      && r.winner == CheckWinSpec(t.players, r.pieces, t.winner)
      && (r.winner.Some? <==> r.phase == GameOver)
      && (r.winner.None? ==> r.phase == NeedRoll && r == EndTurnSpec(t.(pieces := r.pieces)))
      && (r.winner.None? ==>
            r.dice.None? && r.current == (if t.dice == Some(6) then t.current else Successor(t.players, t.current)))
      && r.barricades == t.barricades
  {
    assert m.color in ElemSet(t.players);
    assert forall c :: c in t.players ==> c in ElemSet(t.players);
    assert MoveSpec(g, t, m) == EnterGoal(t, Moved(t, m), m);
    EnterGoalEffect(t, Moved(t, m), m);
    var r := MoveSpec(g, t, m);
    if r.winner.None? {
      EndTurnEffect(t.(pieces := r.pieces));
    }
  }

  /** A move removes the barricade it lands on, unless it lands on the
      goal; no other barricade changes. */
  lemma MoveBarricades(g: Board.Graph, t: Table, m: Moves.Move)
    requires Shape(t)
    requires m.color in t.pieces && m.index < |t.pieces[m.color]|
    ensures MoveSpec(g, t, m).barricades ==
      if g.goal != Some(m.toId) && m.toId in t.barricades then t.barricades - {m.toId} else t.barricades
  {
    if g.goal == Some(m.toId) {
      GoalEntryEffect(g, t, m);
    } else if m.toId !in t.barricades {
      PlainMoveEffect(g, t, m);
    }
  }

  /** A move that reaches neither the goal nor a barricade just ends the
      turn as `endTurn()` ends it: after a 6 without a winner the mover rolls
      again, otherwise the successor is on turn, and the dice are cleared. */
  lemma PlainMoveEffect(g: Board.Graph, t: Table, m: Moves.Move)
    requires Shape(t)
    requires m.color in t.pieces && m.index < |t.pieces[m.color]|
    requires g.goal != Some(m.toId) && m.toId !in t.barricades
    ensures var r := MoveSpec(g, t, m);
      && r == EndTurnSpec(t.(pieces := r.pieces))
      && r.pieces == Moved(t, m)
      && r.phase == NeedRoll && r.dice.None? && r.choices == []
      && r.current == (if t.dice == Some(6) && t.winner.None? then t.current else Successor(t.players, t.current))
      && r.barricades == t.barricades && r.winner == t.winner
  {
    EndTurnEffect(t.(pieces := Moved(t, m)));
  }

  /** Placement: outside the placement phase, on the goal, or off the offered
      choices nothing changes; otherwise the node is barricaded, the choices
      are cleared and the turn ends. */
  lemma PlaceEffect(g: Board.Graph, t: Table, nodeId: string)
    requires |t.players| > 0
    ensures t.phase != PlacingBarricade ==> PlaceSpec(g, t, nodeId) == t
    ensures g.goal == Some(nodeId) ==> PlaceSpec(g, t, nodeId) == t
    ensures nodeId !in t.choices ==> PlaceSpec(g, t, nodeId) == t
    ensures t.phase == PlacingBarricade && g.goal != Some(nodeId) && nodeId in t.choices ==>
      var r := PlaceSpec(g, t, nodeId);
      && r.barricades == t.barricades + {nodeId}
      && r.choices == [] && r.phase == NeedRoll
      && r == EndTurnSpec(t.(barricades := r.barricades, choices := []))
  {
  }

  /** A new game: every piece in its house, the first active colour to roll,
      and a barricade on every run node except the goal. */
  lemma NewGameEffect(g: Board.Graph, active: seq<string>)
    ensures var r := NewGameSpec(g, active);
      && Shape(r) && r.current == r.players[0] && r.phase == NeedRoll && r.winner.None?
      && (forall c, i :: c in r.pieces && 0 <= i < |r.pieces[c]| ==> r.pieces[c][i] == Moves.House)
      && GoalFree(g, r)
      && r.barricades == g.runNodes - (if g.goal.Some? then {g.goal.value} else {})
      && r.flags.None?
  {
    var r := NewGameSpec(g, active);
    assert Moves.ByPiece([]) == map[];
  }

  // ---------------------------------------------------------------------
  // Invariants

  /** Every operation keeps the shape of the table, and keeps the cached
      legal moves consistent with it. */
  lemma EndTurnKeeps(g: Board.Graph, t: Table)
    requires Shape(t)
    ensures Shape(EndTurnSpec(t)) && Consistent(g, EndTurnSpec(t))
  {
    NextPlayerCycles(t);
    assert Moves.ByPiece([]) == map[];
  }

  lemma NextPlayerKeeps(g: Board.Graph, t: Table)
    requires Shape(t)
    ensures Shape(NextPlayerSpec(t)) && Consistent(g, NextPlayerSpec(t))
  {
    NextPlayerCycles(t);
    assert Moves.ByPiece([]) == map[];
  }

  lemma RollKeeps(g: Board.Graph, t: Table, d: Die)
    requires Shape(t) && Consistent(g, t)
    ensures Shape(RollSpec(g, t, d)) && Consistent(g, RollSpec(g, t, d))
  {
    if t.phase == NeedRoll {
      var legal := Moves.LegalMoves(g, t.barricades, t.pieces[t.current], t.current, d);
      var t1 := t.(dice := Some(d), legal := legal, byPiece := Moves.ByPiece(legal));
      assert Shape(t1);
      if legal == [] {
        EndTurnKeeps(g, t1);
      }
    }
  }

  lemma MoveKeeps(g: Board.Graph, t: Table, m: Moves.Move)
    requires Shape(t)
    requires m.color in t.pieces && m.index < |t.pieces[m.color]|
    ensures Shape(MoveSpec(g, t, m)) && Consistent(g, MoveSpec(g, t, m))
  {
    var p2 := Moved(t, m);
    var t2 := t.(pieces := p2);
    assert Shape(t2);
    if g.goal == Some(m.toId) {
      assert m.color in ElemSet(t.players);
      var p3 := Place(p2, m.color, m.index, Moves.Goal);
      var w := CheckWinSpec(t.players, p3, t.winner);
      var t3 := t.(pieces := p3, winner := w);
      assert Shape(t3);
      if w.None? {
        EndTurnKeeps(g, t3);
      }
    } else if m.toId !in t.barricades {
      EndTurnKeeps(g, t2);
    }
  }

  lemma PlaceKeeps(g: Board.Graph, t: Table, nodeId: string)
    requires Shape(t) && Consistent(g, t)
    ensures Shape(PlaceSpec(g, t, nodeId)) && Consistent(g, PlaceSpec(g, t, nodeId))
  {
    if t.phase == PlacingBarricade && g.goal != Some(nodeId) && nodeId in t.choices {
      EndTurnKeeps(g, t.(barricades := t.barricades + {nodeId}, choices := []));
    }
  }

  /** The goal stays free of barricades under every rule. */
  lemma GoalStaysFree(g: Board.Graph, t: Table, d: Die, nodeId: string)
    requires Shape(t) && GoalFree(g, t)
    ensures GoalFree(g, EndTurnSpec(t)) && GoalFree(g, RollSpec(g, t, d)) && GoalFree(g, PlaceSpec(g, t, nodeId))
  {
  }

  lemma GoalStaysFreeOnMove(g: Board.Graph, t: Table, m: Moves.Move)
    requires Shape(t) && GoalFree(g, t)
    requires m.color in t.pieces && m.index < |t.pieces[m.color]|
    ensures GoalFree(g, MoveSpec(g, t, m))
  {
    MoveBarricades(g, t, m);
  }
}
