/** Small shared vocabulary: optional values, the four player colours and
    a few sequence helpers used by every other module. */
module Common {

  datatype Option<+T> = None | Some(value: T)

  /** The four player colours, in the source's canonical order. */
  datatype Color = Red | Blue | Green | Yellow

  /** The canonical colour order (`DEFAULT_PLAYERS`). */
  const DefaultPlayers: seq<Color> := [Red, Blue, Green, Yellow]

  /** A die value as produced by a roll. */
  type Die = d: int | 1 <= d <= 6 witness 1

  /** Position of a colour in the canonical order (`{red:0, blue:1, green:2, yellow:3}`). */
  function Rank(c: Color): (r: nat)
    ensures r < 4 && DefaultPlayers[r] == c
  {
    match c
    case Red => 0
    case Blue => 1
    case Green => 2
    case Yellow => 3
  }

  /** The wire name of a colour. */
  function ColorName(c: Color): string
  {
    match c
    case Red => "red"
    case Blue => "blue"
    case Green => "green"
    case Yellow => "yellow"
  }

  /** The colour a wire name stands for, if it is one of the four. */
  function ColorOfName(s: string): (r: Option<Color>)
    ensures r.Some? <==> s in {"red", "blue", "green", "yellow"}
    ensures r.Some? ==> ColorName(r.value) == s
  {
    if s == "red" then Some(Red)
    else if s == "blue" then Some(Blue)
    else if s == "green" then Some(Green)
    else if s == "yellow" then Some(Yellow)
    else None
  }

  lemma NameRoundTrip(c: Color)
    ensures ColorOfName(ColorName(c)) == Some(c)
  {
  }

  /** JavaScript truthiness of an optional string: present and non-empty. */
  predicate Truthy(s: Option<string>)
  {
    s.Some? && s.value != ""
  }

  predicate Distinct<T(==)>(s: seq<T>)
  {
    forall i, j :: 0 <= i < j < |s| ==> s[i] != s[j]
  }

  function ElemSet<T>(s: seq<T>): set<T>
  {
    set x | x in s
  }

  /** `Array.prototype.indexOf`: the first index holding `x`, or -1. */
  function IndexOf<T(==)>(s: seq<T>, x: T): (r: int)
    ensures -1 <= r < |s|
    ensures r >= 0 ==> s[r] == x && forall j :: 0 <= j < r ==> s[j] != x
    ensures r == -1 <==> x !in s
  {
    if s == [] then -1
    else if s[0] == x then 0
    else
      var k := IndexOf(s[1..], x);
      if k == -1 then -1 else k + 1
  }

  /** `(i + 1) % n` for an index `i` of a sequence of length `n`, or -1
      (`indexOf` not finding its element), written without the remainder. */
  function NextIndex(i: int, n: int): (r: int)
    requires 0 < n && -1 <= i < n
    ensures 0 <= r < n
  {
    if i + 1 < n then i + 1 else 0
  }

  /** `NextIndex` is the source's `(i + 1) % n`. */
  lemma NextIndexIsMod(i: int, n: int)
    requires 0 < n && -1 <= i < n
    ensures NextIndex(i, n) == (i + 1) % n
  {
    if i + 1 == n {
      assert (i + 1) % n == n % n == 0;
    }
  }

  /** In a sequence without repetitions, `indexOf` finds each element at
      its own position. */
  lemma {:induction false} IndexOfDistinct<T>(s: seq<T>, k: nat)
    requires Distinct(s) && k < |s|
    ensures IndexOf(s, s[k]) == k
  {
    if k > 0 {
      assert s[0] != s[k];
      assert Distinct(s[1..]) by {
        forall i, j | 0 <= i < j < |s| - 1 ensures s[1..][i] != s[1..][j] {
          assert s[1..][i] == s[i + 1] && s[1..][j] == s[j + 1];
        }
      }
      IndexOfDistinct(s[1..], k - 1);
      assert s[1..][k - 1] == s[k];
    }
  }

  /** The element after `x` in cyclic order is found at that position, and
      differs from `x` when there are at least two elements. */
  lemma CyclicNext<T>(s: seq<T>, x: T)
    requires Distinct(s) && x in s
    ensures var k := NextIndex(IndexOf(s, x), |s|);
      IndexOf(s, s[k]) == k && (|s| > 1 ==> s[k] != x)
  {
    IndexOfDistinct(s, NextIndex(IndexOf(s, x), |s|));
  }

  /** The last element of a non-empty sequence (`p[p.length-1]`). */
  function Last<T>(s: seq<T>): T
    requires |s| > 0
  {
    s[|s| - 1]
  }
}
