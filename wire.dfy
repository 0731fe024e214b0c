/** The two data formats the game exchanges: the server's authoritative
    snapshot, read by the first branch of `applyRemoteState`
    (game.js:305-350), and the format `serializeState` writes
    (game.js:376-383).

    A server snapshot knows only red and blue. Each of its pieces names its
    colour, a 1-based `label` and its position kind; a piece the snapshot
    does not mention stays in its house, and a later entry for the same
    slot overrides an earlier one. */
module Wire {
  import opened Common
  import Board
  import Moves
  import Turn

  // ---------------------------------------------------------------------
  // Server snapshots

  /** A piece of a server snapshot (`{id, label, color, posKind, nodeId}`). */
  datatype ServerPiece = ServerPiece(id: string, pieceLabel: Option<int>, color: string, posKind: string, nodeId: Option<string>)

  /** The fields of a server snapshot the mapping reads. An absent field is
      `None`; a `pieces` entry that is `null` is `None`. `started` and
      `paused` are the truthiness of the snapshot's two flags (`!!raw.started`,
      `!!raw.paused`), so an absent flag is `false`. */
  datatype ServerSnapshot = ServerSnapshot(
    started: bool,
    paused: bool,
    turnColor: Option<string>,
    phase: Option<string>,
    rolled: Option<int>,
    pieces: Option<seq<Option<ServerPiece>>>,
    barricades: Option<seq<string>>)

  /** `raw.turnColor && Array.isArray(raw.pieces)`: the snapshot is in the
      server's format. */
  predicate IsServerFormat(s: ServerSnapshot)
  {
    Truthy(s.turnColor) && s.pieces.Some?
  }

  /** `Math.max(1, Number(p.label || 1)) - 1`: the 0-based slot of a label;
      a missing, zero or negative label gives slot 0. */
  function LabelIndex(lbl: Option<int>): (r: nat)
    ensures lbl.Some? && lbl.value >= 1 ==> r == lbl.value - 1
    ensures lbl.None? || lbl.value < 1 ==> r == 0
  {
    var n := if lbl.Some? && lbl.value != 0 then lbl.value else 1;
    (if n > 1 then n else 1) - 1
  }

  /** The slot a snapshot entry writes: none for `null`, for a colour other
      than red and blue, or for a slot past the fifth. */
  function Slot(p: Option<ServerPiece>): (r: Option<(Color, nat)>)
    ensures r.Some? ==> r.value.0 in {Red, Blue} && r.value.1 < Moves.PieceCount
  {
    if p.None? then None
    else if p.value.color != "red" && p.value.color != "blue" then None
    else
      var idx := LabelIndex(p.value.pieceLabel);
      if idx >= Moves.PieceCount then None
      else Some((if p.value.color == "red" then Red else Blue, idx))
  }

  /** Where a snapshot entry puts its piece: on its node when it is on the
      board with a non-empty node id, in its house otherwise. */
  function ServerPos(p: ServerPiece): (r: Moves.Pos)
    ensures r != Moves.Goal
    ensures r.At? <==> p.posKind == "board" && Truthy(p.nodeId)
  {
    if p.posKind == "board" && Truthy(p.nodeId) then Moves.At(p.nodeId.value) else Moves.House
  }

  /** The pieces before any entry is read: red and blue, all in the house. */
  function Fresh(): map<Color, seq<Moves.Pos>>
  {
    map[Red := Turn.HouseRow(), Blue := Turn.HouseRow()]
  }

  /** The pieces after the entries `ps` are read, in order. */
  function ServerPieces(ps: seq<Option<ServerPiece>>): (r: map<Color, seq<Moves.Pos>>)
    ensures r.Keys == {Red, Blue}
    ensures |r[Red]| == Moves.PieceCount && |r[Blue]| == Moves.PieceCount
  {
    if ps == [] then Fresh()
    else
      var prev := ServerPieces(ps[..|ps| - 1]);
      var p := ps[|ps| - 1];
      var s := Slot(p);
      if s.None? then prev
      else prev[s.value.0 := prev[s.value.0][s.value.1 := ServerPos(p.value)]]
  }

  /** The last entry of `ps` that writes slot `i` of colour `c`, or -1. */
  function LastWriter(ps: seq<Option<ServerPiece>>, c: Color, i: nat): (r: int)
    ensures -1 <= r < |ps|
    ensures r >= 0 ==> Slot(ps[r]) == Some((c, i))
    ensures forall j :: r < j < |ps| ==> Slot(ps[j]) != Some((c, i))
  {
    if ps == [] then -1
    else if Slot(ps[|ps| - 1]) == Some((c, i)) then |ps| - 1
    else LastWriter(ps[..|ps| - 1], c, i)
  }

  /** Each slot holds what the last entry for it says, and a slot no entry
      names stays in the house. */
  lemma {:induction false} ServerPiecesAt(ps: seq<Option<ServerPiece>>, c: Color, i: nat)
    requires c in {Red, Blue} && i < Moves.PieceCount
    ensures var w := LastWriter(ps, c, i);
      ServerPieces(ps)[c][i] == if w < 0 then Moves.House else ServerPos(ps[w].value)
  {
    if ps != [] {
      var init := ps[..|ps| - 1];
      ServerPiecesAt(init, c, i);
      if Slot(ps[|ps| - 1]) != Some((c, i)) {
        var w := LastWriter(init, c, i);
        assert LastWriter(ps, c, i) == w;
        if w >= 0 {
          assert init[w] == ps[w];
        }
      }
    }
  }

  /** No piece of a server snapshot is in the goal. */
  lemma ServerPiecesNeverGoal(ps: seq<Option<ServerPiece>>, c: Color, i: nat)
    requires c in {Red, Blue} && i < Moves.PieceCount
    ensures ServerPieces(ps)[c][i] != Moves.Goal
  {
    ServerPiecesAt(ps, c, i);
  }

  /** The piece loop of `applyRemoteState`. */
  method MapServerPieces(ps: seq<Option<ServerPiece>>) returns (pieces: map<Color, seq<Moves.Pos>>)
    ensures pieces == ServerPieces(ps)
  {
    pieces := map[Red := Turn.HouseRow(), Blue := Turn.HouseRow()];
    for k := 0 to |ps|
      invariant pieces == ServerPieces(ps[..k])
    {
      var p := ps[k];
      assert ps[..k + 1][..k] == ps[..k];
      if p.None? || (p.value.color != "red" && p.value.color != "blue") {
        continue;
      }
      var idx := LabelIndex(p.value.pieceLabel);
      if idx >= Moves.PieceCount {
        continue;
      }
      var c := if p.value.color == "red" then Red else Blue;
      if p.value.posKind == "board" && Truthy(p.value.nodeId) {
        pieces := pieces[c := pieces[c][idx := Moves.At(p.value.nodeId.value)]];
      } else {
        pieces := pieces[c := pieces[c][idx := Moves.House]];
      }
    }
    assert ps[..|ps|] == ps;
  }

  /** The phase a server snapshot sets: the server's `place_barricade` is
      renamed, and a missing or empty phase means `need_roll`. */
  function ServerPhase(p: Option<string>): (r: Turn.Phase)
    ensures !Truthy(p) ==> r == Turn.NeedRoll
    ensures p == Some("place_barricade") ==> r == Turn.PlacingBarricade
    ensures Truthy(p) && p != Some("place_barricade") ==> Turn.PhaseName(r) == p.value
    ensures Turn.Canonical(r)
  {
    if !Truthy(p) then Turn.NeedRoll
    else if p.value == "place_barricade" then Turn.PlacingBarricade
    else Turn.PhaseOf(p.value)
  }

  /** The table `applyRemoteState` installs for a server snapshot whose turn
      colour is red or blue. */
  function FromServer(s: ServerSnapshot): Turn.Table
    requires IsServerFormat(s) && s.turnColor.value in {"red", "blue"}
  {
    Turn.Table(
      [Red, Blue],
      if s.turnColor.value == "red" then Red else Blue,
      s.rolled,
      ServerPhase(s.phase),
      [],
      ServerPieces(s.pieces.value),
      if s.barricades.Some? then ElemSet(s.barricades.value) else {},
      None,
      [],
      map[],
      Some(Turn.ServerFlags(s.started, s.paused)))
  }

  /** A server snapshot gives a well-shaped table for red and blue, with the
      named colour to move, the listed barricades, no winner, no pending
      placement choices, no cached legal moves, and the snapshot's
      `started` and `paused` flags on the state. */
  lemma FromServerEffect(g: Board.Graph, s: ServerSnapshot)
    requires IsServerFormat(s) && s.turnColor.value in {"red", "blue"}
    ensures var t := FromServer(s);
      && Turn.Shape(t) && Turn.Consistent(g, t)
      && t.players == [Red, Blue]
      && ColorName(t.current) == s.turnColor.value
      && t.barricades == (if s.barricades.Some? then ElemSet(s.barricades.value) else {})
      && t.winner.None? && t.choices == [] && t.legal == []
      && t.flags == Some(Turn.ServerFlags(s.started, s.paused))
  {
    var t := FromServer(s);
    assert ElemSet(t.players) == {Red, Blue};
    assert Moves.ByPiece([]) == map[];
  }

  // ---------------------------------------------------------------------
  // The saved form

  /** What `serializeState()` produces. Colours stay colours (their wire
      names are `ColorName`); positions are the strings the source stores.
      `flags` stands for the `started` and `paused` keys, which the copy of
      the state object carries exactly when a server snapshot put them
      there. */
  datatype Saved = Saved(
    players: seq<Color>,
    currentPlayer: Color,
    dice: Option<int>,
    phase: string,
    placingChoices: seq<string>,
    pieces: map<Color, seq<string>>,
    barricades: seq<string>,
    winner: Option<Color>,
    flags: Option<Turn.ServerFlags>)

  /** `Array.from(set)`: the elements of a set, each once, in some order. */
  method SetToList(s: set<string>) returns (r: seq<string>)
    ensures ElemSet(r) == s && Distinct(r)
  {
    r := [];
    var todo := s;
    while todo != {}
      invariant todo <= s && Distinct(r)
      invariant forall x :: x in r <==> x in s && x !in todo
      decreases |todo|
    {
      var x :| x in todo;
      r := r + [x];
      todo := todo - {x};
    }
    assert forall x :: x in ElemSet(r) <==> x in s;
  }

  /** The `pos` string of a position. */
  function PosName(p: Moves.Pos): string
  {
    match p
    case House => "house"
    case Goal => "goal"
    case At(n) => n
  }

  /** The position a `pos` string stands for. */
  function PosOf(s: string): (r: Moves.Pos)
    ensures PosName(r) == s
  {
    if s == "house" then Moves.House else if s == "goal" then Moves.Goal else Moves.At(s)
  }

  /** A position other than a node named "house" or "goal". */
  predicate Unreserved(p: Moves.Pos)
  {
    p.At? ==> p.node != "house" && p.node != "goal"
  }

  function PosNames(ps: seq<Moves.Pos>): (r: seq<string>)
    ensures |r| == |ps| && forall i :: 0 <= i < |ps| ==> r[i] == PosName(ps[i])
  {
    if ps == [] then [] else [PosName(ps[0])] + PosNames(ps[1..])
  }

  function PosesOf(ss: seq<string>): (r: seq<Moves.Pos>)
    ensures |r| == |ss| && forall i :: 0 <= i < |ss| ==> r[i] == PosOf(ss[i])
  {
    if ss == [] then [] else [PosOf(ss[0])] + PosesOf(ss[1..])
  }

  /** `s` is a saved form of the table `t`: every field copied (the server
      flags included), the phase
      by name, the positions by their strings, and the barricade set as a
      list of its elements, each once. */
  predicate Describes(s: Saved, t: Turn.Table)
  {
    && s.players == t.players && s.currentPlayer == t.current && s.dice == t.dice
    && s.phase == Turn.PhaseName(t.phase) && s.placingChoices == t.choices
    && s.pieces.Keys == t.pieces.Keys
    && (forall c :: c in t.pieces ==> s.pieces[c] == PosNames(t.pieces[c]))
    && ElemSet(s.barricades) == t.barricades && Distinct(s.barricades)
    && s.winner == t.winner && s.flags == t.flags
  }

  /** Reading a saved form back: the fields, the phase from its name, the
      positions from their strings and the barricades as a set. Cached legal
      moves are not part of the saved form. */
  function Restore(s: Saved): Turn.Table
  {
    Turn.Table(s.players, s.currentPlayer, s.dice, Turn.PhaseOf(s.phase), s.placingChoices,
               map c | c in s.pieces :: PosesOf(s.pieces[c]),
               ElemSet(s.barricades), s.winner, [], map[], s.flags)
  }

  /** The saved form determines the table: restoring it gives the table back,
      up to the cached legal moves. */
  lemma SavedRoundTrip(s: Saved, t: Turn.Table)
    requires Describes(s, t) && Turn.Canonical(t.phase)
    requires forall c, i :: c in t.pieces && 0 <= i < |t.pieces[c]| ==> Unreserved(t.pieces[c][i])
    ensures Restore(s) == t.(legal := [], byPiece := map[])
  {
    Turn.PhaseRoundTrip(t.phase);
    var r := Restore(s);
    forall c | c in t.pieces ensures r.pieces[c] == t.pieces[c] {
      var ps := t.pieces[c];
      assert r.pieces[c] == PosesOf(PosNames(ps));
      forall i | 0 <= i < |ps| ensures PosOf(PosName(ps[i])) == ps[i] {
        assert Unreserved(ps[i]);
      }
    }
    assert r.pieces == t.pieces;
  }
}
