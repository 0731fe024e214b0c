/** The online client of app.js: a thin view of the server's game. It only
    draws what the server sends and asks the server for actions; the parts
    modelled here are the ones that decide something.

    The source keeps the client state in the global object `STATE`. The
    fields that the gating logic reads or writes are the one field `view` of
    class `Client` (`STATE.net.connected` is `connected`, `STATE.anim` being
    set is `animating`, and the roll button being enabled is `rollEnabled`);
    the adjacency map built in `loadBoard` is the field `adj`. */
module Client {
  import opened Common

  /** A scalar JavaScript value as it arrives in a server message;
      `Undefined` is a field the message does not carry. */
  datatype Value = Undefined | Null | Bool(b: bool) | Num(n: int) | Str(s: string)

  /** JavaScript truthiness of a scalar value. */
  predicate IsTruthy(x: Value)
  {
    match x
    case Undefined => false
    case Null => false
    case Bool(b) => b
    case Num(n) => n != 0
    case Str(s) => s != ""
  }

  /** What the client draws of a piece; it never interprets these fields. */
  datatype PieceInfo = PieceInfo(id: string, color: string, posKind: string, nodeId: Option<string>)

  datatype View = View(
    connected: bool,
    started: bool,
    paused: bool,
    turnColor: Value,
    phase: Value,
    rolled: Value,
    carrying: Value,
    pieces: seq<PieceInfo>,
    barricades: set<string>,
    myColor: Value,
    selected: Option<string>,
    legalTargets: set<string>,
    animating: bool,
    rollEnabled: bool)

  /** The initial `STATE` (app.js:43-69): red to move, waiting for a roll. */
  const Initial: View := View(false, false, false, Str("red"), Str("need_roll"), Null, Null,
                              [], {}, Null, None, {}, false, false)

  // ---------------------------------------------------------------------
  // The action gate

  /** Why the client may not act, in the order `canAct` tests it. */
  datatype Reason = NotConnected | NotStarted | PausedNow | Spectator | NotYourTurn(turn: Value)

  datatype Verdict = Ok | Fail(reason: Reason)

  /** The position of a reason in the order of the checks. */
  function Step(r: Reason): nat
  {
    match r
    case NotConnected => 0
    case NotStarted => 1
    case PausedNow => 2
    case Spectator => 3
    case NotYourTurn(_) => 4
  }

  /** Check number `k` of `canAct` fails for `v`. */
  predicate Fails(v: View, k: nat)
  {
    if k == 0 then !v.connected
    else if k == 1 then !v.started
    else if k == 2 then v.paused
    else if k == 3 then !IsTruthy(v.myColor)
    else k == 4 && v.myColor != v.turnColor
  }

  /** `canAct()`: ok when every check passes, otherwise the first check that
      fails; the turn check reports whose turn it is. */
  function CanAct(v: View): (r: Verdict)
    ensures r.Ok? <==> v.connected && v.started && !v.paused && IsTruthy(v.myColor) && v.myColor == v.turnColor
    ensures r.Fail? && r.reason.NotYourTurn? ==> r.reason.turn == v.turnColor
  {
    if !v.connected then Fail(NotConnected)
    else if !v.started then Fail(NotStarted)
    else if v.paused then Fail(PausedNow)
    else if !IsTruthy(v.myColor) then Fail(Spectator)
    else if v.myColor != v.turnColor then Fail(NotYourTurn(v.turnColor))
    else Ok
  }

  /** `canAct` lists its checks in a fixed order: it is ok exactly when no
      check fails, and otherwise it reports the first check that fails. */
  lemma CanActFirstFailure(v: View)
    ensures CanAct(v).Ok? <==> forall k :: 0 <= k < 5 ==> !Fails(v, k)
    ensures var r := CanAct(v);
      r.Fail? ==> Fails(v, Step(r.reason)) && forall k :: 0 <= k < Step(r.reason) ==> !Fails(v, k)
  {
    if CanAct(v).Ok? {
      forall k | 0 <= k < 5 ensures !Fails(v, k) {
        assert k == 0 || k == 1 || k == 2 || k == 3 || k == 4;
      }
    } else {
      ghost var n := Step(CanAct(v).reason);
      assert Fails(v, n);
      forall k | 0 <= k < n ensures !Fails(v, k) {
        assert k == 0 || k == 1 || k == 2 || k == 3;
      }
    }
  }

  /** The client acts only as the player whose turn it is. */
  lemma ActingPlayerIsOnTurn(v: View)
    requires CanAct(v).Ok?
    ensures v.myColor == v.turnColor && IsTruthy(v.turnColor)
  {
  }

  // ---------------------------------------------------------------------
  // Applying a server snapshot

  /** The fields of a server snapshot the client reads; `pieces` and
      `barricades` are `None` when the snapshot does not hold an array
      there. */
  datatype Snapshot = Snapshot(
    started: Value,
    paused: Value,
    turnColor: Value,
    phase: Value,
    rolled: Value,
    carrying: Value,
    pieces: Option<seq<PieceInfo>>,
    barricades: Option<seq<string>>)

  /** `msg.state || {}` for a message without a state. */
  const EmptySnapshot: Snapshot := Snapshot(Undefined, Undefined, Undefined, Undefined, Undefined, Undefined, None, None)

  /** JavaScript `x || d` on scalars. */
  function Or(x: Value, d: Value): (r: Value)
    ensures IsTruthy(x) ==> r == x
    ensures !IsTruthy(x) ==> r == d
  {
    if IsTruthy(x) then x else d
  }

  /** JavaScript `x ?? null`. */
  function OrNull(x: Value): (r: Value)
    ensures x.Undefined? || x.Null? ==> r == Null
    ensures !(x.Undefined? || x.Null?) ==> r == x
  {
    if x.Undefined? || x.Null? then Null else x
  }

  /** `Array.isArray(x) ? x : d`. */
  function ArrayOr<T>(x: Option<seq<T>>, d: seq<T>): seq<T>
  {
    if x.Some? then x.value else d
  }

  /** The view after `applySnapshot(s)`. */
  function ApplySnapshotSpec(v: View, s: Snapshot): View
  {
    var w := View(v.connected, IsTruthy(s.started), IsTruthy(s.paused), Or(s.turnColor, v.turnColor),
                  Or(s.phase, v.phase), OrNull(s.rolled), Or(s.carrying, Null), ArrayOr(s.pieces, v.pieces),
                  ElemSet(ArrayOr(s.barricades, [])), v.myColor, v.selected, v.legalTargets, v.animating, false);
    w.(rollEnabled := CanAct(w).Ok? && w.phase == Str("need_roll"))
  }

  /** What `applySnapshot(s)` does to each field: `started` and `paused`
      become booleans, a missing turn colour or phase keeps the old one, a
      missing roll becomes null, pieces that are not an array keep the old
      pieces, the barricades are exactly the listed ones, and the roll button
      is enabled exactly when the client may act and a roll is due. The
      connection, the own colour, the selection and the animation are left
      alone. */
  lemma ApplySnapshotEffect(v: View, s: Snapshot)
    ensures var r := ApplySnapshotSpec(v, s);
      && r.started == IsTruthy(s.started) && r.paused == IsTruthy(s.paused)
      && (IsTruthy(s.turnColor) ==> r.turnColor == s.turnColor)
      && (!IsTruthy(s.turnColor) ==> r.turnColor == v.turnColor)
      && (IsTruthy(s.phase) ==> r.phase == s.phase)
      && (!IsTruthy(s.phase) ==> r.phase == v.phase)
      && (s.rolled.Undefined? || s.rolled.Null? ==> r.rolled == Null)
      && (!(s.rolled.Undefined? || s.rolled.Null?) ==> r.rolled == s.rolled)
      && (IsTruthy(s.carrying) ==> r.carrying == s.carrying)
      && (!IsTruthy(s.carrying) ==> r.carrying == Null)
      && (s.pieces.Some? ==> r.pieces == s.pieces.value)
      && (s.pieces.None? ==> r.pieces == v.pieces)
      && (forall x :: x in r.barricades <==> s.barricades.Some? && x in s.barricades.value)
      && (r.rollEnabled <==> CanAct(r).Ok? && r.phase == Str("need_roll"))
      && r.connected == v.connected && r.myColor == v.myColor && r.selected == v.selected
      && r.legalTargets == v.legalTargets && r.animating == v.animating
  {
  }

  /** Applying the same snapshot twice leaves the view as applying it once. */
  lemma {:induction false} ApplySnapshotIdempotent(v: View, s: Snapshot)
    ensures ApplySnapshotSpec(ApplySnapshotSpec(v, s), s) == ApplySnapshotSpec(v, s)
  {
    var r1 := ApplySnapshotSpec(v, s);
    var r2 := ApplySnapshotSpec(r1, s);
    assert r2.barricades == r1.barricades;
  }

  /** A snapshot decides everything it carries: two views that agree on the
      fields a snapshot never touches agree after it whenever the snapshot
      holds a truthy turn colour and phase and a pieces array. */
  lemma {:induction false} FullSnapshotDecides(v1: View, v2: View, s: Snapshot)
    requires IsTruthy(s.turnColor) && IsTruthy(s.phase) && s.pieces.Some?
    requires v1.connected == v2.connected && v1.myColor == v2.myColor && v1.selected == v2.selected
    requires v1.legalTargets == v2.legalTargets && v1.animating == v2.animating
    ensures ApplySnapshotSpec(v1, s) == ApplySnapshotSpec(v2, s)
  {
    var r1, r2 := ApplySnapshotSpec(v1, s), ApplySnapshotSpec(v2, s);
    assert r1.barricades == r2.barricades;
  }

  /** A message without a state stops the game view and clears the
      barricades, and keeps the turn, the phase and the pieces. */
  lemma EmptySnapshotEffect(v: View)
    ensures var r := ApplySnapshotSpec(v, EmptySnapshot);
      && !r.started && !r.paused && !r.rollEnabled
      && r.turnColor == v.turnColor && r.phase == v.phase && r.pieces == v.pieces
      && r.barricades == {} && r.rolled == Null
  {
    var r := ApplySnapshotSpec(v, EmptySnapshot);
    assert forall x :: x !in r.barricades;
  }

  // ---------------------------------------------------------------------
  // The `legal` message

  /** The view after a `legal` message whose `targets` are `targets`
      (`None` for a missing list). */
  function OnLegalSpec(v: View, targets: Option<seq<string>>): (r: View)
    ensures forall x :: x in r.legalTargets <==> targets.Some? && x in targets.value
    ensures r == v.(legalTargets := r.legalTargets)
  {
    v.(legalTargets := if targets.Some? then ElemSet(targets.value) else {})
  }

  // ---------------------------------------------------------------------
  // Clicking on the board

  /** What a click asks the server for. */
  datatype Outbound =
    | PlaceRequest(nodeId: string)
    | LegalRequest(pieceId: string)
    | MoveRequest(pieceId: string, targetId: string)

  /** `onClick` for a click that hits the own piece `pieceHit` and the node
      `nodeHit` (hit-testing itself is geometry and not modelled): the new
      view and the message sent, if any. */
  function ClickSpec(v: View, pieceHit: Option<string>, nodeHit: Option<string>): (r: (View, Option<Outbound>))
    ensures r.1.Some? ==> !v.animating && CanAct(v).Ok?
    ensures (exists n :: r.1 == Some(PlaceRequest(n))) <==>
      !v.animating && CanAct(v).Ok? && v.phase == Str("place_barricade") && nodeHit.Some?
    ensures r.1.Some? && r.1.value.PlaceRequest? ==> Some(r.1.value.nodeId) == nodeHit
    ensures (exists p :: r.1 == Some(LegalRequest(p))) <==>
      !v.animating && CanAct(v).Ok? && v.phase == Str("need_move") && pieceHit.Some?
    ensures r.1.Some? && r.1.value.LegalRequest? ==>
      Some(r.1.value.pieceId) == pieceHit && r.0 == v.(selected := pieceHit, legalTargets := {})
    ensures forall p, n :: r.1 == Some(MoveRequest(p, n)) <==>
      && !v.animating && CanAct(v).Ok? && v.phase == Str("need_move")
      && pieceHit.None? && nodeHit == Some(n) && Truthy(v.selected) && v.selected == Some(p)
      && n in v.legalTargets
    ensures r.1.Some? && r.1.value.MoveRequest? ==> r.0 == v.(legalTargets := {})
    ensures r.1.None? || r.1.value.PlaceRequest? ==> r.0 == v
  {
    if v.animating || !CanAct(v).Ok? then (v, None)
    else if v.phase == Str("place_barricade") then
      if nodeHit.None? then (v, None) else (v, Some(PlaceRequest(nodeHit.value)))
    else if v.phase != Str("need_move") then (v, None)
    else if pieceHit.Some? then
      (v.(selected := pieceHit, legalTargets := {}), Some(LegalRequest(pieceHit.value)))
    else if nodeHit.None? then (v, None)
    else if !Truthy(v.selected) then (v, None)
    else if nodeHit.value !in v.legalTargets then (v, None)
    else (v.(legalTargets := {}), Some(MoveRequest(v.selected.value, nodeHit.value)))
  }

  /** The round trip of a move on the client: clicking an own piece asks for
      its targets; once the server's `legal` answer lists `n`, clicking `n`
      asks to move that piece there. */
  lemma {:induction false} SelectThenMove(v: View, p: string, targets: seq<string>, n: string)
    requires !v.animating && CanAct(v).Ok? && v.phase == Str("need_move")
    requires p != "" && n in targets
    ensures var (v1, o1) := ClickSpec(v, Some(p), None);
      && o1 == Some(LegalRequest(p))
      && ClickSpec(OnLegalSpec(v1, Some(targets)), None, Some(n)).1 == Some(MoveRequest(p, n))
  {
    var (v1, o1) := ClickSpec(v, Some(p), None);
    assert v1 == v.(selected := Some(p), legalTargets := {});
    var v2 := OnLegalSpec(v1, Some(targets));
    assert CanAct(v2) == CanAct(v);
    assert n in v2.legalTargets;
  }

  /** A move request is sent at most once per `legal` answer: right after
      it, the same click sends nothing. */
  lemma {:induction false} MoveRequestConsumesTargets(v: View, n: string)
    requires ClickSpec(v, None, Some(n)).1.Some? && ClickSpec(v, None, Some(n)).1.value.MoveRequest?
    ensures ClickSpec(ClickSpec(v, None, Some(n)).0, None, Some(n)).1.None?
  {
    var v1 := ClickSpec(v, None, Some(n)).0;
    assert v1 == v.(legalTargets := {});
    assert CanAct(v1) == CanAct(v);
  }

  // ---------------------------------------------------------------------
  // The adjacency of `loadBoard`

  /** `a` is an endpoint of some edge of `es`. */
  ghost predicate IsEndpoint(es: seq<(string, string)>, a: string)
  {
    exists j :: 0 <= j < |es| && (es[j].0 == a || es[j].1 == a)
  }

  /** Some edge of `es` joins `a` and `b`, in either direction. */
  ghost predicate Linked(es: seq<(string, string)>, a: string, b: string)
  {
    exists j :: 0 <= j < |es| && (es[j] == (a, b) || es[j] == (b, a))
  }

  lemma LinkedEndpoints(es: seq<(string, string)>, a: string, b: string)
    ensures Linked(es, a, b) ==> IsEndpoint(es, a) && IsEndpoint(es, b)
  {
    if !Linked(es, a, b) { return; }
    var j :| 0 <= j < |es| && (es[j] == (a, b) || es[j] == (b, a));
    assert es[j].0 == a || es[j].1 == a;
    assert es[j].0 == b || es[j].1 == b;
  }

  lemma EndpointStep(es: seq<(string, string)>, k: nat, a: string)
    requires k < |es|
    ensures IsEndpoint(es[..k + 1], a) <==> IsEndpoint(es[..k], a) || es[k].0 == a || es[k].1 == a
  {
    if IsEndpoint(es[..k + 1], a) {
      var j :| 0 <= j < k + 1 && (es[..k + 1][j].0 == a || es[..k + 1][j].1 == a);
      if j < k { assert es[..k][j] == es[j]; }
    }
    if IsEndpoint(es[..k], a) {
      var j :| 0 <= j < k && (es[..k][j].0 == a || es[..k][j].1 == a);
      assert es[..k + 1][j] == es[j];
    }
    if es[k].0 == a || es[k].1 == a {
      assert es[..k + 1][k] == es[k];
    }
  }

  lemma LinkedStep(es: seq<(string, string)>, k: nat, a: string, b: string)
    requires k < |es|
    ensures Linked(es[..k + 1], a, b) <==> Linked(es[..k], a, b) || es[k] == (a, b) || es[k] == (b, a)
  {
    if Linked(es[..k + 1], a, b) {
      var j :| 0 <= j < k + 1 && (es[..k + 1][j] == (a, b) || es[..k + 1][j] == (b, a));
      if j < k { assert es[..k][j] == es[j]; }
    }
    if Linked(es[..k], a, b) {
      var j :| 0 <= j < k && (es[..k][j] == (a, b) || es[..k][j] == (b, a));
      assert es[..k + 1][j] == es[j];
    }
    if es[k] == (a, b) || es[k] == (b, a) {
      assert es[..k + 1][k] == es[k];
    }
  }

  /** The adjacency map of `loadBoard` (app.js:148-154): every endpoint of
      an edge is a key, whatever kind of node it is, and each edge is entered
      in both directions, so the map is symmetric. */
  method BuildAdjacency(edges: seq<(string, string)>) returns (adj: map<string, set<string>>)
    ensures forall a :: a in adj <==> IsEndpoint(edges, a)
    ensures forall a, b :: a in adj ==> (b in adj[a] <==> Linked(edges, a, b))
    ensures forall a, b :: a in adj && b in adj[a] ==> b in adj && a in adj[b]
  {
    adj := map[];
    for k := 0 to |edges|
      invariant forall a :: a in adj <==> IsEndpoint(edges[..k], a)
      invariant forall a, b :: a in adj ==> (b in adj[a] <==> Linked(edges[..k], a, b))
    {
      var x, y := edges[k].0, edges[k].1;
      ghost var prev := adj;
      if x !in adj { adj := adj[x := {}]; }
      if y !in adj { adj := adj[y := {}]; }
      adj := adj[x := adj[x] + {y}];
      adj := adj[y := adj[y] + {x}];
      forall a | true
        ensures a in adj <==> IsEndpoint(edges[..k + 1], a)
      {
        EndpointStep(edges, k, a);
      }
      forall a, b | a in adj
        ensures b in adj[a] <==> Linked(edges[..k + 1], a, b)
      {
        LinkedStep(edges, k, a, b);
        if a in prev {
          assert b in prev[a] <==> Linked(edges[..k], a, b);
        } else {
          LinkedEndpoints(edges[..k], a, b);
        }
      }
    }
    assert edges[..|edges|] == edges;
    forall a, b | a in adj && b in adj[a]
      ensures b in adj && a in adj[b]
    {
      var j :| 0 <= j < |edges| && (edges[j] == (a, b) || edges[j] == (b, a));
      assert IsEndpoint(edges, b);
      assert Linked(edges, b, a);
    }
  }

  // ---------------------------------------------------------------------
  // The client object

  class Client {
    var view: View
    /** `STATE.adj`. */
    var adj: map<string, set<string>>

    constructor ()
      ensures view == Initial && adj == map[]
    {
      view := Initial;
      adj := map[];
    }

    /** The adjacency part of `loadBoard()` for the fetched board's edges
        (`None` when the board has no edge list). */
    method LoadBoard(edges: Option<seq<(string, string)>>)
      modifies this
      ensures var es := if edges.Some? then edges.value else [];
        && (forall a :: a in adj <==> IsEndpoint(es, a))
        && (forall a, b :: a in adj ==> (b in adj[a] <==> Linked(es, a, b)))
      ensures view == old(view)
    {
      var es := if edges.Some? then edges.value else [];
      adj := BuildAdjacency(es);
    }

    /** `applySnapshot(s)`. */
    method ApplySnapshot(s: Snapshot)
      modifies this
      ensures view == ApplySnapshotSpec(old(view), s) && adj == old(adj)
    {
      var w := view;
      w := w.(started := IsTruthy(s.started));
      w := w.(paused := IsTruthy(s.paused));
      w := w.(turnColor := Or(s.turnColor, w.turnColor));
      w := w.(phase := Or(s.phase, w.phase));
      w := w.(rolled := OrNull(s.rolled));
      w := w.(carrying := Or(s.carrying, Null));
      w := w.(pieces := ArrayOr(s.pieces, w.pieces));
      w := w.(barricades := ElemSet(ArrayOr(s.barricades, [])));
      var act := CanAct(w);
      w := w.(rollEnabled := act.Ok? && w.phase == Str("need_roll"));
      view := w;
    }

    /** The `legal` branch of `handleMsg`. */
    method OnLegal(targets: Option<seq<string>>)
      modifies this
      ensures view == OnLegalSpec(old(view), targets) && adj == old(adj)
    {
      view := view.(legalTargets := if targets.Some? then ElemSet(targets.value) else {});
    }

    /** `onClick(ev)`; returns the message handed to `netSend`. */
    method OnClick(pieceHit: Option<string>, nodeHit: Option<string>) returns (out: Option<Outbound>)
      modifies this
      ensures (view, out) == ClickSpec(old(view), pieceHit, nodeHit) && adj == old(adj)
    {
      if view.animating { return None; }
      var act := CanAct(view);
      if !act.Ok? { return None; }
      if view.phase == Str("place_barricade") {
        if nodeHit.None? { return None; }
        return Some(PlaceRequest(nodeHit.value));
      }
      if view.phase != Str("need_move") { return None; }
      if pieceHit.Some? {
        view := view.(selected := pieceHit);
        view := view.(legalTargets := {});
        return Some(LegalRequest(pieceHit.value));
      }
      if nodeHit.None? { return None; }
      if !Truthy(view.selected) { return None; }
      if nodeHit.value !in view.legalTargets { return None; }
      out := Some(MoveRequest(view.selected.value, nodeHit.value));
      view := view.(legalTargets := {});
    }
  }
}
