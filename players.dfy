/** The player list (`setPlayers`, game.js:56-71).

    Given a list, the recognised colour names are kept once each, in the
    canonical order red, blue, green, yellow; an empty result falls back to
    red and blue. Given anything else, its numeric value picks the first
    two to four colours of the canonical order. */
module Players {
  import opened Common

  /** The colours `arg` names. */
  function NamedColors(arg: seq<string>): set<Color>
  {
    set c | c in DefaultPlayers && ColorName(c) in arg
  }

  lemma NamedStep(arg: seq<string>, i: nat)
    requires i < |arg|
    ensures NamedColors(arg[..i + 1]) ==
            NamedColors(arg[..i]) + (if ColorOfName(arg[i]).Some? then {ColorOfName(arg[i]).value} else {})
  {
    assert forall x :: x in arg[..i + 1] <==> x in arg[..i] || x == arg[i];
    assert forall d: Color :: ColorName(d) == arg[i] <==> ColorOfName(arg[i]) == Some(d);
  }

  /** Strictly increasing in the canonical order (hence without repeats). */
  predicate RankSorted(s: seq<Color>)
  {
    forall i, j :: 0 <= i < j < |s| ==> Rank(s[i]) < Rank(s[j])
  }

  /** The colours of `order` that lie in `s`, in the order of `order`. */
  function Keep(order: seq<Color>, s: set<Color>): (r: seq<Color>)
    ensures forall c :: c in r <==> c in order && c in s
    ensures forall i :: 0 <= i < |r| ==> exists j :: 0 <= j < |order| && order[j] == r[i]
  {
    if order == [] then []
    else
      var init := order[..|order| - 1];
      var c := order[|order| - 1];
      assert order == init + [c];
      var prev := Keep(init, s);
      if c in s then
        assert forall i :: 0 <= i < |prev| ==> exists j :: 0 <= j < |order| && order[j] == prev[i] by {
          forall i | 0 <= i < |prev| ensures exists j :: 0 <= j < |order| && order[j] == prev[i] {
            var j :| 0 <= j < |init| && init[j] == prev[i];
            assert order[j] == prev[i];
          }
        }
        assert order[|order| - 1] == c;
        prev + [c]
      else prev
  }

  /** The colours of `s` in canonical order. */
  function InCanonicalOrder(s: set<Color>): (r: seq<Color>)
    ensures ElemSet(r) == s
    ensures RankSorted(r)
  {
    var r := Keep(DefaultPlayers, s);
    forall c: Color ensures c in DefaultPlayers {
      assert DefaultPlayers[Rank(c)] == c;
    }
    KeepSorted(DefaultPlayers, s);
    r
  }

  /** Keeping a subset of a sorted list keeps it sorted. */
  lemma {:induction false} KeepSorted(order: seq<Color>, s: set<Color>)
    requires RankSorted(order)
    ensures RankSorted(Keep(order, s))
  {
    if order != [] {
      var init := order[..|order| - 1];
      var c := order[|order| - 1];
      KeepSorted(init, s);
      var prev := Keep(init, s);
      forall i | 0 <= i < |prev| ensures Rank(prev[i]) < Rank(c) {
        var j :| 0 <= j < |init| && init[j] == prev[i];
        assert order[j] == init[j];
      }
    }
  }

  /** The list branch of `setPlayers`: the named colours, or red and blue
      when there are none. */
  function PlayersOf(arg: seq<string>): (r: seq<Color>)
    ensures RankSorted(r) && Distinct(r) && |r| >= 1
    ensures ElemSet(r) == (if NamedColors(arg) == {} then {Red, Blue} else NamedColors(arg))
  {
    var named := NamedColors(arg);
    var r := if named == {} then [Red, Blue] else InCanonicalOrder(named);
    assert r != [] by {
      if named != {} {
        var c :| c in named;
        assert c in ElemSet(r);
      }
    }
    r
  }

  /** The list branch of `setPlayers(arg)`. The de-duplication loop is kept;
      the comparison sort is replaced by a pass over the canonical order,
      which yields the same list because the colours are distinct. */
  method SetPlayers(arg: seq<string>) returns (players: seq<Color>)
    ensures players == PlayersOf(arg)
  {
    var uniq: seq<Color> := [];
    var seen: set<Color> := {};
    for i := 0 to |arg|
      invariant ElemSet(uniq) == NamedColors(arg[..i]) && seen == ElemSet(uniq)
      invariant Distinct(uniq)
    {
      var c := ColorOfName(arg[i]);
      NamedStep(arg, i);
      if c.None? {
        continue;
      }
      if c.value in seen {
        continue;
      }
      seen := seen + {c.value};
      uniq := uniq + [c.value];
    }
    assert arg[..|arg|] == arg;
    if uniq == [] {
      players := [Red, Blue];
    } else {
      assert uniq[0] in ElemSet(uniq);
      players := SortByRank(uniq);
    }
  }

  /** Sorting a list of distinct colours by canonical rank. */
  method SortByRank(uniq: seq<Color>) returns (sorted: seq<Color>)
    ensures sorted == InCanonicalOrder(ElemSet(uniq))
  {
    sorted := [];
    for k := 0 to 4
      invariant sorted == Keep(DefaultPlayers[..k], ElemSet(uniq))
    {
      assert DefaultPlayers[..k + 1][..k] == DefaultPlayers[..k];
      if DefaultPlayers[k] in uniq {
        sorted := sorted + [DefaultPlayers[k]];
      }
    }
    assert DefaultPlayers[..4] == DefaultPlayers;
  }

  /** The count branch of `setPlayers(n)`: `n` clamped to 2..4 (a zero or
      non-numeric argument counts as 2) picks a prefix of the canonical order. */
  function PlayersForCount(n: int): (r: seq<Color>)
    ensures 2 <= |r| <= 4
    ensures r == DefaultPlayers[..|r|]
    ensures |r| == (if n <= 2 then 2 else if n >= 4 then 4 else n)
  {
    var k := if n == 0 then 2 else n;
    var clamped := if k < 2 then 2 else if k > 4 then 4 else k;
    DefaultPlayers[..clamped]
  }
}
