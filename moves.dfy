/** Legal move generation (`computeLegalMoves`, game.js:599-631) and the
    small board queries around it (`pieceAtBoardNode`, `anyPiecesAtNode`,
    `computeBarricadePlacements`, and the per-piece grouping `rollDice`
    builds).

    A piece on a board node may take every path of exactly `dice` moves
    from its node. A piece in the house may leave through its colour's
    start node, which costs one pip, provided the start node exists and
    carries no barricade. Candidates that agree on colour, piece index,
    destination and origin kind are reported once, the first one winning. */
module Moves {
  import opened Common
  import Paths
  import Board

  /** A piece position: in the house, in the goal, or on a board node. */
  datatype Pos = House | Goal | At(node: string)

  /** One candidate move as the source builds it. */
  datatype Move = Move(color: Color, index: nat, path: seq<string>, toId: string, fromHouse: bool)

  /** The de-duplication key `color:index->toId:H/B`, as a tuple. */
  datatype MoveKey = MoveKey(color: Color, index: nat, toId: string, fromHouse: bool)

  function KeyOf(m: Move): MoveKey
  {
    MoveKey(m.color, m.index, m.toId, m.fromHouse)
  }

  function KeySet(ms: seq<Move>): set<MoveKey>
  {
    set m | m in ms :: KeyOf(m)
  }

  predicate KeysDistinct(ms: seq<Move>)
  {
    forall i, j :: 0 <= i < j < |ms| ==> KeyOf(ms[i]) != KeyOf(ms[j])
  }

  /** The number of pieces per colour. */
  const PieceCount := 5

  // ---------------------------------------------------------------------
  // Reference definition, in the order the source builds the candidates

  /** One move per path, ending at the path's last node. */
  function PathMoves(color: Color, i: nat, paths: seq<seq<string>>, fromHouse: bool): seq<Move>
    requires forall p :: p in paths ==> |p| > 0
  {
    if paths == [] then []
    else
      var init := paths[..|paths| - 1];
      assert forall p :: p in init ==> p in paths;
      PathMoves(color, i, init, fromHouse) + [Move(color, i, paths[|paths| - 1], Last(paths[|paths| - 1]), fromHouse)]
  }

  /** One move per path, ending at the path's last node. */
  lemma {:induction false} PathMovesAt(color: Color, i: nat, paths: seq<seq<string>>, fromHouse: bool)
    requires forall p :: p in paths ==> |p| > 0
    ensures var r := PathMoves(color, i, paths, fromHouse);
      && |r| == |paths|
      && forall j :: 0 <= j < |paths| ==> r[j] == Move(color, i, paths[j], Last(paths[j]), fromHouse)
  {
    if paths != [] {
      var init := paths[..|paths| - 1];
      assert forall p :: p in init ==> p in paths;
      PathMovesAt(color, i, init, fromHouse);
      forall j | 0 <= j < |init| ensures init[j] == paths[j] { }
    }
  }

  /** The board moves of piece `i`: every path of `dice` moves from its node,
      if it stands on a node of the graph. */
  function PieceMoves(g: Board.Graph, barr: set<string>, pcs: seq<Pos>, color: Color, dice: Die, i: nat): seq<Move>
    requires i < |pcs|
  {
    if pcs[i].At? && pcs[i].node in g.adj then
      Paths.PathsFromShape(g.adj, barr, pcs[i].node, dice);
      PathMoves(color, i, Paths.PathsFrom(g.adj, barr, [pcs[i].node], dice), false)
    else []
  }

  /** The board moves of pieces `0 .. n-1`, piece by piece. */
  function BoardCandidates(g: Board.Graph, barr: set<string>, pcs: seq<Pos>, color: Color, dice: Die, n: nat): seq<Move>
    requires n <= |pcs|
  {
    if n == 0 then []
    else BoardCandidates(g, barr, pcs, color, dice, n - 1) + PieceMoves(g, barr, pcs, color, dice, n - 1)
  }

  /** `start && !state.barricades.has(start)` for the colour's start node. */
  predicate StartOpen(g: Board.Graph, barr: set<string>, color: Color)
  {
    color in g.starts && g.starts[color] != "" && g.starts[color] !in barr
  }

  /** The house moves of pieces `0 .. n-1` over the exit paths `paths`. */
  function HouseMoves(color: Color, pcs: seq<Pos>, paths: seq<seq<string>>, n: nat): seq<Move>
    requires n <= |pcs|
    requires forall p :: p in paths ==> |p| > 0
  {
    if n == 0 then []
    else HouseMoves(color, pcs, paths, n - 1) + (if pcs[n - 1] == House then PathMoves(color, n - 1, paths, true) else [])
  }

  /** The exit paths from the start node: `dice - 1` further moves. */
  function ExitPaths(g: Board.Graph, barr: set<string>, color: Color, dice: Die): (r: seq<seq<string>>)
    requires color in g.starts
    ensures forall p :: p in r ==> |p| == dice
  {
    Paths.PathsFromShape(g.adj, barr, g.starts[color], dice - 1);
    Paths.PathsFrom(g.adj, barr, [g.starts[color]], dice - 1)
  }

  function HouseCandidates(g: Board.Graph, barr: set<string>, pcs: seq<Pos>, color: Color, dice: Die): seq<Move>
    requires |pcs| == PieceCount
  {
    if House in pcs && StartOpen(g, barr, color) then
      HouseMoves(color, pcs, ExitPaths(g, barr, color, dice), PieceCount)
    else []
  }

  lemma KeySetAppend(ms: seq<Move>, m: Move)
    ensures KeySet(ms + [m]) == KeySet(ms) + {KeyOf(m)}
  {
    assert forall x :: x in ms + [m] <==> x in ms || x == m;
  }

  /** Keeps the first move of each key. */
  function Dedup(ms: seq<Move>): (r: seq<Move>)
    ensures forall m :: m in r ==> m in ms
    ensures KeySet(r) == KeySet(ms)
    ensures KeysDistinct(r)
  {
    if ms == [] then []
    else
      var prev := Dedup(ms[..|ms| - 1]);
      var m := ms[|ms| - 1];
      assert ms == ms[..|ms| - 1] + [m];
      KeySetAppend(ms[..|ms| - 1], m);
      KeySetAppend(prev, m);
      if KeyOf(m) in KeySet(prev) then prev else prev + [m]
  }

  /** The legal moves of `color` for the roll `dice`, piece positions `pcs`
      and barricades `barr`. */
  function LegalMoves(g: Board.Graph, barr: set<string>, pcs: seq<Pos>, color: Color, dice: Die): seq<Move>
    requires |pcs| == PieceCount
  {
    Dedup(BoardCandidates(g, barr, pcs, color, dice, PieceCount) + HouseCandidates(g, barr, pcs, color, dice))
  }

  // ---------------------------------------------------------------------
  // What a legal move is

  /** A board move: the piece stands on a graph node and follows a legal path
      of exactly `dice` moves from it. */
  ghost predicate BoardMoveOk(g: Board.Graph, barr: set<string>, pcs: seq<Pos>, color: Color, dice: Die, m: Move)
  {
    && !m.fromHouse && m.color == color && m.index < |pcs|
    && pcs[m.index].At? && pcs[m.index].node in g.adj
    && Paths.IsPath(g.adj, barr, pcs[m.index].node, dice, m.path)
    && m.toId == Last(m.path)
  }

  /** A house exit: the piece is in the house, the start node is open, and
      the piece follows a legal path of `dice - 1` moves from the start node. */
  ghost predicate HouseMoveOk(g: Board.Graph, barr: set<string>, pcs: seq<Pos>, color: Color, dice: Die, m: Move)
  {
    && m.fromHouse && m.color == color && m.index < |pcs|
    && pcs[m.index] == House && StartOpen(g, barr, color)
    && Paths.IsPath(g.adj, barr, g.starts[color], dice - 1, m.path)
    && m.toId == Last(m.path)
  }

  ghost predicate MoveOk(g: Board.Graph, barr: set<string>, pcs: seq<Pos>, color: Color, dice: Die, m: Move)
  {
    BoardMoveOk(g, barr, pcs, color, dice, m) || HouseMoveOk(g, barr, pcs, color, dice, m)
  }

  /** Piece `i`'s board list holds only moves of piece `i`. */
  lemma PieceMovesIndex(g: Board.Graph, barr: set<string>, pcs: seq<Pos>, color: Color, dice: Die, i: nat, m: Move)
    requires i < |pcs|
    requires m in PieceMoves(g, barr, pcs, color, dice, i)
    ensures m.index == i
  {
    var ps := Paths.PathsFrom(g.adj, barr, [pcs[i].node], dice);
    Paths.PathsFromShape(g.adj, barr, pcs[i].node, dice);
    PathMovesMember(color, i, ps, false, m);
  }

  lemma {:induction false} BoardCandidatesMember(g: Board.Graph, barr: set<string>, pcs: seq<Pos>, color: Color, dice: Die, n: nat, m: Move)
    requires n <= |pcs|
    ensures m in BoardCandidates(g, barr, pcs, color, dice, n) <==>
            m.index < n && m in PieceMoves(g, barr, pcs, color, dice, m.index)
  {
    if n > 0 {
      var prev := BoardCandidates(g, barr, pcs, color, dice, n - 1);
      var pm := PieceMoves(g, barr, pcs, color, dice, n - 1);
      assert BoardCandidates(g, barr, pcs, color, dice, n) == prev + pm;
      BoardCandidatesMember(g, barr, pcs, color, dice, n - 1, m);
      if m in pm {
        PieceMovesIndex(g, barr, pcs, color, dice, n - 1, m);
        assert m in prev + pm;
      } else if m in prev {
        assert m in prev + pm;
      } else {
        assert m !in prev + pm;
        assert !(m.index < n - 1 && m in PieceMoves(g, barr, pcs, color, dice, m.index));
        assert !(m.index == n - 1 && m in PieceMoves(g, barr, pcs, color, dice, m.index));
      }
    }
  }

  lemma {:induction false} HouseMovesMember(color: Color, pcs: seq<Pos>, paths: seq<seq<string>>, n: nat, m: Move)
    requires n <= |pcs|
    requires forall p :: p in paths ==> |p| > 0
    ensures m in HouseMoves(color, pcs, paths, n) <==>
            exists i :: 0 <= i < n && pcs[i] == House && m in PathMoves(color, i, paths, true)
  {
    if n > 0 {
      HouseMovesMember(color, pcs, paths, n - 1, m);
    }
  }

  lemma PathMovesMember(color: Color, i: nat, paths: seq<seq<string>>, fromHouse: bool, m: Move)
    requires forall p :: p in paths ==> |p| > 0
    ensures m in PathMoves(color, i, paths, fromHouse) <==>
            (m.color == color && m.index == i && m.fromHouse == fromHouse &&
             m.path in paths && m.toId == Last(m.path))
  {
    var r := PathMoves(color, i, paths, fromHouse);
    PathMovesAt(color, i, paths, fromHouse);
    if m.color == color && m.index == i && m.fromHouse == fromHouse && m.path in paths && m.toId == Last(m.path) {
      var j :| 0 <= j < |paths| && paths[j] == m.path;
      assert r[j] == m;
    }
  }

  /** A move of piece `i`'s board list is a legal board move. */
  lemma PieceMoveSound(g: Board.Graph, barr: set<string>, pcs: seq<Pos>, color: Color, dice: Die, i: nat, m: Move)
    requires i < |pcs|
    requires m in PieceMoves(g, barr, pcs, color, dice, i)
    ensures BoardMoveOk(g, barr, pcs, color, dice, m)
  {
    var ps := Paths.PathsFrom(g.adj, barr, [pcs[i].node], dice);
    Paths.PathsFromShape(g.adj, barr, pcs[i].node, dice);
    PathMovesMember(color, i, ps, false, m);
    Paths.PathsFromExact(g.adj, barr, pcs[i].node, dice, m.path);
  }

  /** A house candidate is a move of a housed piece along an exit path. */
  lemma HouseCandidateOrigin(g: Board.Graph, barr: set<string>, pcs: seq<Pos>, color: Color, dice: Die, m: Move)
    requires |pcs| == PieceCount
    requires m in HouseCandidates(g, barr, pcs, color, dice)
    ensures StartOpen(g, barr, color)
    ensures m.fromHouse && m.color == color && m.index < |pcs| && pcs[m.index] == House
    ensures m.path in ExitPaths(g, barr, color, dice) && m.toId == Last(m.path)
  {
    var ps := ExitPaths(g, barr, color, dice);
    HouseMovesMember(color, pcs, ps, PieceCount, m);
    var i :| 0 <= i < PieceCount && pcs[i] == House && m in PathMoves(color, i, ps, true);
    PathMovesMember(color, i, ps, true, m);
  }

  /** A move of the house list is a legal house exit. */
  lemma HouseMoveSound(g: Board.Graph, barr: set<string>, pcs: seq<Pos>, color: Color, dice: Die, m: Move)
    requires |pcs| == PieceCount
    requires m in HouseCandidates(g, barr, pcs, color, dice)
    ensures HouseMoveOk(g, barr, pcs, color, dice, m)
  {
    HouseCandidateOrigin(g, barr, pcs, color, dice, m);
    Paths.PathsFromExact(g.adj, barr, g.starts[color], dice - 1, m.path);
  }

  /** Soundness: every reported move is a legal board move of one of the
      colour's pieces or a legal house exit. */
  lemma LegalMovesSound(g: Board.Graph, barr: set<string>, pcs: seq<Pos>, color: Color, dice: Die, m: Move)
    requires |pcs| == PieceCount
    requires m in LegalMoves(g, barr, pcs, color, dice)
    ensures MoveOk(g, barr, pcs, color, dice, m)
  {
    var b := BoardCandidates(g, barr, pcs, color, dice, PieceCount);
    if m in b {
      BoardCandidatesMember(g, barr, pcs, color, dice, PieceCount, m);
      PieceMoveSound(g, barr, pcs, color, dice, m.index, m);
    } else {
      HouseMoveSound(g, barr, pcs, color, dice, m);
    }
  }

  /** A legal board move is in its piece's board list. */
  lemma PieceMoveComplete(g: Board.Graph, barr: set<string>, pcs: seq<Pos>, color: Color, dice: Die, m: Move)
    requires BoardMoveOk(g, barr, pcs, color, dice, m)
    ensures m in PieceMoves(g, barr, pcs, color, dice, m.index)
  {
    var i := m.index;
    var ps := Paths.PathsFrom(g.adj, barr, [pcs[i].node], dice);
    Paths.PathsFromShape(g.adj, barr, pcs[i].node, dice);
    Paths.PathsFromExact(g.adj, barr, pcs[i].node, dice, m.path);
    PathMovesMember(color, i, ps, false, m);
  }

  /** A legal house exit is in the house list. */
  lemma HouseMoveComplete(g: Board.Graph, barr: set<string>, pcs: seq<Pos>, color: Color, dice: Die, m: Move)
    requires |pcs| == PieceCount
    requires HouseMoveOk(g, barr, pcs, color, dice, m)
    ensures m in HouseCandidates(g, barr, pcs, color, dice)
  {
    var i := m.index;
    var ps := ExitPaths(g, barr, color, dice);
    Paths.PathsFromExact(g.adj, barr, g.starts[color], dice - 1, m.path);
    PathMovesMember(color, i, ps, true, m);
    assert pcs[i] in pcs;
    HouseMovesMember(color, pcs, ps, PieceCount, m);
  }

  /** Completeness: for every legal board move and every legal house exit, a
      move with the same key (colour, piece, destination, origin kind) is
      reported. */
  lemma LegalMovesComplete(g: Board.Graph, barr: set<string>, pcs: seq<Pos>, color: Color, dice: Die, m: Move)
    requires |pcs| == PieceCount
    requires MoveOk(g, barr, pcs, color, dice, m)
    ensures exists m' :: m' in LegalMoves(g, barr, pcs, color, dice) && KeyOf(m') == KeyOf(m)
  {
    var b := BoardCandidates(g, barr, pcs, color, dice, PieceCount);
    var h := HouseCandidates(g, barr, pcs, color, dice);
    if BoardMoveOk(g, barr, pcs, color, dice, m) {
      PieceMoveComplete(g, barr, pcs, color, dice, m);
      BoardCandidatesMember(g, barr, pcs, color, dice, PieceCount, m);
      assert m in b + h;
    } else {
      HouseMoveComplete(g, barr, pcs, color, dice, m);
      assert m in b + h;
    }
    assert KeyOf(m) in KeySet(b + h);
  }

  /** House exits are offered only when the colour has a piece in the house
      and its start node exists and is free of barricades; on a roll of 1
      the exit lands on the start node itself. */
  lemma HouseExitConditions(g: Board.Graph, barr: set<string>, pcs: seq<Pos>, color: Color, dice: Die, m: Move)
    requires |pcs| == PieceCount
    requires m in LegalMoves(g, barr, pcs, color, dice) && m.fromHouse
    ensures m.index < PieceCount && pcs[m.index] == House && House in pcs
    ensures color in g.starts && g.starts[color] != "" && g.starts[color] !in barr
    ensures dice == 1 ==> m.path == [g.starts[color]] && m.toId == g.starts[color]
  {
    LegalMovesSound(g, barr, pcs, color, dice, m);
    assert BoardMoveOk(g, barr, pcs, color, dice, m) ==> !m.fromHouse;
    assert pcs[m.index] in pcs;
    if dice == 1 {
      assert |m.path| == 1;
      assert m.path == [m.path[0]];
    }
  }

  /** No two reported moves share a key. */
  lemma LegalMovesDistinct(g: Board.Graph, barr: set<string>, pcs: seq<Pos>, color: Color, dice: Die)
    requires |pcs| == PieceCount
    ensures KeysDistinct(LegalMoves(g, barr, pcs, color, dice))
  {
  }

  // ---------------------------------------------------------------------
  // The generator itself

  /** The inner loop pushing one move per path. */
  method PushPathMoves(moves: seq<Move>, color: Color, i: nat, ps: seq<seq<string>>, fromHouse: bool)
    returns (r: seq<Move>)
    requires forall p :: p in ps ==> |p| > 0
    ensures r == moves + PathMoves(color, i, ps, fromHouse)
  {
    r := moves;
    for k := 0 to |ps|
      invariant r == moves + PathMoves(color, i, ps[..k], fromHouse)
    {
      assert ps[..k + 1][..k] == ps[..k];
      r := r + [Move(color, i, ps[k], ps[k][|ps[k]| - 1], fromHouse)];
    }
    assert ps[..|ps|] == ps;
  }

  /** The board-piece loop of `computeLegalMoves`. */
  method CollectBoardMoves(g: Board.Graph, barr: set<string>, pcs: seq<Pos>, color: Color, dice: Die)
    returns (moves: seq<Move>)
    requires |pcs| == PieceCount
    ensures moves == BoardCandidates(g, barr, pcs, color, dice, PieceCount)
  {
    moves := [];
    for i := 0 to PieceCount
      invariant moves == BoardCandidates(g, barr, pcs, color, dice, i)
    {
      var pc := pcs[i];
      if pc.At? && pc.node in g.adj {
        var ps := Paths.EnumeratePaths(g.adj, barr, pc.node, dice);
        Paths.PathsFromShape(g.adj, barr, pc.node, dice);
        moves := PushPathMoves(moves, color, i, ps, false);
      }
    }
  }

  /** The exit paths of `computeLegalMoves`: the start node alone on a 1,
      otherwise the search from the start node. */
  method ExitPathsOf(g: Board.Graph, barr: set<string>, color: Color, dice: Die) returns (paths: seq<seq<string>>)
    requires color in g.starts
    ensures paths == ExitPaths(g, barr, color, dice)
  {
    var start := g.starts[color];
    var remaining := dice - 1;
    if remaining == 0 {
      paths := [[start]];
    } else {
      paths := Paths.EnumeratePaths(g.adj, barr, start, remaining);
    }
  }

  /** The house-piece part of `computeLegalMoves`. */
  method CollectHouseMoves(g: Board.Graph, barr: set<string>, pcs: seq<Pos>, color: Color, dice: Die)
    returns (moves: seq<Move>)
    requires |pcs| == PieceCount
    ensures moves == HouseCandidates(g, barr, pcs, color, dice)
  {
    moves := [];
    var hasHouse := House in pcs;
    if !(hasHouse && color in g.starts && g.starts[color] != "" && g.starts[color] !in barr) {
      return;
    }
    var paths := ExitPathsOf(g, barr, color, dice);
    for i := 0 to PieceCount
      invariant moves == HouseMoves(color, pcs, paths, i)
    {
      if pcs[i] == House {
        moves := PushPathMoves(moves, color, i, paths, true);
      }
    }
  }

  /** The de-duplication loop of `computeLegalMoves`. */
  method Dedupe(moves: seq<Move>) returns (uniq: seq<Move>)
    ensures uniq == Dedup(moves)
  {
    var seen: set<MoveKey> := {};
    uniq := [];
    for j := 0 to |moves|
      invariant uniq == Dedup(moves[..j])
      invariant seen == KeySet(uniq)
    {
      var m := moves[j];
      assert moves[..j + 1][..j] == moves[..j];
      var k := MoveKey(m.color, m.index, m.toId, m.fromHouse);
      if k in seen {
        continue;
      }
      KeySetAppend(uniq, m);
      seen := seen + {k};
      uniq := uniq + [m];
    }
    assert moves[..|moves|] == moves;
  }

  /** `computeLegalMoves(color, dice)`. */
  method ComputeLegalMoves(g: Board.Graph, barr: set<string>, pcs: seq<Pos>, color: Color, dice: Die)
    returns (moves: seq<Move>)
    requires |pcs| == PieceCount
    ensures moves == LegalMoves(g, barr, pcs, color, dice)
    ensures KeysDistinct(moves)
    ensures forall m :: m in moves ==> MoveOk(g, barr, pcs, color, dice, m)
  {
    var b := CollectBoardMoves(g, barr, pcs, color, dice);
    var h := CollectHouseMoves(g, barr, pcs, color, dice);
    moves := Dedupe(b + h);
    forall m | m in moves ensures MoveOk(g, barr, pcs, color, dice, m) {
      LegalMovesSound(g, barr, pcs, color, dice, m);
    }
  }

  // ---------------------------------------------------------------------
  // Board queries

  /** `pieceAtBoardNode(nodeId, color)`: the first piece of the colour on
      the node. */
  method PieceAtBoardNode(arr: seq<Pos>, nodeId: string) returns (r: Option<nat>)
    ensures r.Some? ==> r.value < |arr| && arr[r.value] == At(nodeId)
    ensures r.Some? ==> forall j :: 0 <= j < r.value ==> arr[j] != At(nodeId)
    ensures r.None? <==> At(nodeId) !in arr
  {
    for i := 0 to |arr|
      invariant forall j :: 0 <= j < i ==> arr[j] != At(nodeId)
    {
      if arr[i] == At(nodeId) {
        return Some(i);
      }
    }
    return None;
  }

  /** The pieces of colour `c` standing on `node`, by index. */
  function OccupantsOf(c: Color, arr: seq<Pos>, node: string): seq<(Color, nat)>
  {
    if arr == [] then []
    else
      OccupantsOf(c, arr[..|arr| - 1], node)
      + (if arr[|arr| - 1] == At(node) then [(c, |arr| - 1)] else [])
  }

  /** The pieces of every colour in `players` standing on `node`. */
  function Occupants(players: seq<Color>, pieces: map<Color, seq<Pos>>, node: string): seq<(Color, nat)>
    requires forall c :: c in players ==> c in pieces
  {
    if players == [] then []
    else
      var c := players[|players| - 1];
      Occupants(players[..|players| - 1], pieces, node) + OccupantsOf(c, pieces[c], node)
  }

  lemma {:induction false} OccupantsOfMember(c: Color, arr: seq<Pos>, node: string, d: Color, i: nat)
    ensures (d, i) in OccupantsOf(c, arr, node) <==> d == c && i < |arr| && arr[i] == At(node)
  {
    if arr != [] {
      var init := arr[..|arr| - 1];
      OccupantsOfMember(c, init, node, d, i);
      if i < |arr| - 1 {
        assert arr[i] == init[i];
      }
    }
  }

  /** `anyPiecesAtNode` lists exactly the pieces on the node. */
  lemma {:induction false} OccupantsMember(players: seq<Color>, pieces: map<Color, seq<Pos>>, node: string, d: Color, i: nat)
    requires forall c :: c in players ==> c in pieces
    ensures (d, i) in Occupants(players, pieces, node) <==>
            d in players && i < |pieces[d]| && pieces[d][i] == At(node)
  {
    if players != [] {
      var init := players[..|players| - 1];
      var c := players[|players| - 1];
      assert forall x :: x in init ==> x in players;
      OccupantsMember(init, pieces, node, d, i);
      OccupantsOfMember(c, pieces[c], node, d, i);
      assert players == init + [c];
    }
  }

  /** `anyPiecesAtNode(nodeId)`. */
  method AnyPiecesAtNode(players: seq<Color>, pieces: map<Color, seq<Pos>>, nodeId: string)
    returns (res: seq<(Color, nat)>)
    requires forall c :: c in players ==> c in pieces
    ensures res == Occupants(players, pieces, nodeId)
    ensures forall d: Color, i: nat :: (d, i) in res <==> d in players && i < |pieces[d]| && pieces[d][i] == At(nodeId)
  {
    res := [];
    for k := 0 to |players|
      invariant res == Occupants(players[..k], pieces, nodeId)
    {
      var c := players[k];
      var arr := pieces[c];
      assert players[..k + 1][..k] == players[..k];
      ghost var before := res;
      for i := 0 to |arr|
        invariant res == before + OccupantsOf(c, arr[..i], nodeId)
      {
        assert arr[..i + 1][..i] == arr[..i];
        if arr[i] == At(nodeId) {
          res := res + [(c, i)];
        }
      }
      assert arr[..|arr|] == arr;
    }
    assert players[..|players|] == players;
    forall d: Color, i: nat ensures (d, i) in res <==> d in players && i < |pieces[d]| && pieces[d][i] == At(nodeId) {
      OccupantsMember(players, pieces, nodeId, d, i);
    }
  }

  /** The barricade choices: the nodes of `order` that are neither the goal
      nor barricaded, in key order. */
  function Placements(order: seq<string>, goal: Option<string>, barr: set<string>): (r: seq<string>)
    ensures forall x :: x in r <==> x in order && goal != Some(x) && x !in barr
    ensures Distinct(order) ==> Distinct(r)
  {
    if order == [] then []
    else
      var init := order[..|order| - 1];
      var id := order[|order| - 1];
      assert order == init + [id];
      var prev := Placements(init, goal, barr);
      if goal == Some(id) || id in barr then prev else prev + [id]
  }

  /** `computeBarricadePlacements()`: every board node except the goal and
      the nodes that already carry a barricade, each once. */
  method BarricadePlacements(g: Board.Graph, barr: set<string>) returns (choices: seq<string>)
    requires Board.GraphOk(g)
    ensures choices == Placements(g.order, g.goal, barr)
    ensures ElemSet(choices) == g.adj.Keys - barr - (if g.goal.Some? then {g.goal.value} else {})
    ensures Distinct(choices)
  {
    choices := [];
    for k := 0 to |g.order|
      invariant choices == Placements(g.order[..k], g.goal, barr)
    {
      var id := g.order[k];
      assert g.order[..k + 1][..k] == g.order[..k];
      if g.goal == Some(id) {
        continue;
      }
      if id in barr {
        continue;
      }
      choices := choices + [id];
    }
    assert g.order[..|g.order|] == g.order;
  }

  // ---------------------------------------------------------------------
  // The per-piece index of the legal moves (`legalMovesByPiece`)

  /** The moves of piece `i`, in order. */
  function MovesOfPiece(ms: seq<Move>, i: nat): seq<Move>
  {
    if ms == [] then []
    else MovesOfPiece(ms[..|ms| - 1], i) + (if ms[|ms| - 1].index == i then [ms[|ms| - 1]] else [])
  }

  /** The list of piece `i` holds exactly the moves of that piece. */
  lemma {:induction false} MovesOfPieceMember(ms: seq<Move>, i: nat, m: Move)
    ensures m in MovesOfPiece(ms, i) <==> m in ms && m.index == i
  {
    if ms != [] {
      var init := ms[..|ms| - 1];
      MovesOfPieceMember(init, i, m);
      assert ms == init + [ms[|ms| - 1]];
    }
  }

  function IndexSet(ms: seq<Move>): set<nat>
  {
    set m | m in ms :: m.index
  }

  lemma NoMovesOfPiece(ms: seq<Move>, i: nat)
    requires i !in IndexSet(ms)
    ensures MovesOfPiece(ms, i) == []
  {
  }

  /** Appending a move adds its piece to the index set. */
  lemma AppendIndex(init: seq<Move>, m: Move)
    ensures IndexSet(init + [m]) == IndexSet(init) + {m.index}
  {
    var ms := init + [m];
    assert forall x :: x in ms <==> x in init || x == m;
  }

  /** Appending a move adds it to its piece's list. */
  lemma AppendMoves(init: seq<Move>, m: Move, i: nat)
    ensures MovesOfPiece(init + [m], i) == MovesOfPiece(init, i) + (if m.index == i then [m] else [])
  {
    var ms := init + [m];
    assert ms[..|ms| - 1] == init;
  }

  /** The grouping `rollDice` builds: one entry per piece that has a move,
      holding its moves in order. */
  function ByPiece(ms: seq<Move>): map<nat, seq<Move>>
  {
    map i | i in IndexSet(ms) :: MovesOfPiece(ms, i)
  }

  /** Grouping one more move appends it to its piece's entry. */
  lemma ByPieceAppend(init: seq<Move>, m: Move)
    ensures ByPiece(init + [m]) == ByPiece(init)[m.index := Lookup(ByPiece(init), m.index) + [m]]
  {
    var a := ByPiece(init + [m]);
    var b := ByPiece(init)[m.index := Lookup(ByPiece(init), m.index) + [m]];
    AppendIndex(init, m);
    assert a.Keys == b.Keys;
    forall i | i in a
      ensures a[i] == b[i]
    {
      AppendMoves(init, m, i);
      if i == m.index && m.index !in IndexSet(init) {
        NoMovesOfPiece(init, m.index);
      }
    }
  }

  /** `legalMovesByPiece.get(i) || []`. */
  function Lookup(byPiece: map<nat, seq<Move>>, i: nat): seq<Move>
  {
    if i in byPiece then byPiece[i] else []
  }

  /** Looking a piece up in the grouping gives exactly its moves. */
  lemma LookupByPiece(ms: seq<Move>, i: nat)
    ensures Lookup(ByPiece(ms), i) == MovesOfPiece(ms, i)
  {
  }

  /** The grouping loop of `rollDice`. */
  method GroupByPiece(ms: seq<Move>) returns (byPiece: map<nat, seq<Move>>)
    ensures byPiece == ByPiece(ms)
    ensures forall i :: Lookup(byPiece, i) == MovesOfPiece(ms, i)
  {
    byPiece := map[];
    for k := 0 to |ms|
      invariant byPiece == ByPiece(ms[..k])
    {
      var m := ms[k];
      assert ms[..k + 1] == ms[..k] + [m];
      ByPieceAppend(ms[..k], m);
      if m.index !in byPiece {
        byPiece := byPiece[m.index := []];
      }
      byPiece := byPiece[m.index := byPiece[m.index] + [m]];
    }
    assert ms[..|ms|] == ms;
    forall i ensures Lookup(byPiece, i) == MovesOfPiece(ms, i) {
      LookupByPiece(ms, i);
    }
  }

  predicate NoMatchBefore(list: seq<Move>, toId: string, color: Color, j: int)
    requires j <= |list|
  {
    forall k :: 0 <= k < j ==> !(list[k].toId == toId && list[k].color == color)
  }

  /** `list.find(x => x.toId === toId && x.piece.color === color)`. */
  function FindMove(list: seq<Move>, toId: string, color: Color): (r: Option<Move>)
    ensures r.Some? ==> r.value in list && r.value.toId == toId && r.value.color == color
    ensures r.None? <==> forall m :: m in list ==> !(m.toId == toId && m.color == color)
    ensures r.Some? ==> exists j :: 0 <= j < |list| && list[j] == r.value && NoMatchBefore(list, toId, color, j)
  {
    if list == [] then None
    else if list[0].toId == toId && list[0].color == color then Some(list[0])
    else
      var r := FindMove(list[1..], toId, color);
      assert forall m :: m in list ==> m == list[0] || m in list[1..];
      if r.Some? then
        var j :| 0 <= j < |list[1..]| && list[1..][j] == r.value && NoMatchBefore(list[1..], toId, color, j);
        assert list[j + 1] == r.value;
        assert forall k :: 1 <= k < j + 1 ==> list[k] == list[1..][k - 1];
        assert NoMatchBefore(list, toId, color, j + 1);
        r
      else r
  }
}
