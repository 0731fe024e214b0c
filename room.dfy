/** Room codes (`normalizeRoomCode`, game.js:120-122): upper-cased, stripped
    of everything but `A-Z` and `0-9`, and cut to ten characters. */
module Room {
  import opened Common

  const MaxCodeLength := 10

  /** The modifier letters and combining marks that follow a capital in a
      several-character upper case. */
  const Marks: set<char> := {'\U{2BC}', '\U{2BE}', '\U{308}', '\U{30A}', '\U{30C}', '\U{331}'}

  /** The upper case `toUpperCase` gives a character, for every character
      whose upper case contains one of the letters `A-Z`: the ASCII letters,
      the dotless i and the long s, and the characters Unicode upper-cases
      to several characters (sharp s, the Latin ligatures, and the letters
      followed by a combining mark). Every other character is kept as it is;
      its upper case, if it has one, holds no letter `A-Z`. */
  function UpperChar(ch: char): (r: string)
    ensures 1 <= |r| <= 3
    ensures r == [ch] || forall i :: 0 <= i < |r| ==> 'A' <= r[i] <= 'Z' || r[i] in Marks
    ensures 'a' <= ch <= 'z' ==> r == [(ch as int - 32) as char]
    ensures CodeChar(ch) ==> r == [ch]
  {
    if 'a' <= ch <= 'z' then [(ch as int - 32) as char]
    else if ch == '\U{DF}' then "SS"                 // sharp s
    else if ch == '\U{131}' then "I"                 // dotless i
    else if ch == '\U{17F}' then "S"                 // long s
    else if ch == '\U{149}' then ['\U{2BC}', 'N']    // n preceded by apostrophe
    else if ch == '\U{1F0}' then ['J', '\U{30C}']    // j with caron
    else if ch == '\U{1E96}' then ['H', '\U{331}']   // h with line below
    else if ch == '\U{1E97}' then ['T', '\U{308}']   // t with diaeresis
    else if ch == '\U{1E98}' then ['W', '\U{30A}']   // w with ring above
    else if ch == '\U{1E99}' then ['Y', '\U{30A}']   // y with ring above
    else if ch == '\U{1E9A}' then ['A', '\U{2BE}']   // a with right half ring
    else if ch == '\U{FB00}' then "FF"
    else if ch == '\U{FB01}' then "FI"
    else if ch == '\U{FB02}' then "FL"
    else if ch == '\U{FB03}' then "FFI"
    else if ch == '\U{FB04}' then "FFL"
    else if ch == '\U{FB05}' || ch == '\U{FB06}' then "ST"
    else [ch]
  }

  /** `s.toUpperCase()`, character by character. */
  function Upper(s: string): (r: string)
    ensures |s| <= |r| <= 3 * |s|
  {
    if s == [] then [] else UpperChar(s[0]) + Upper(s[1..])
  }

  /** A character that survives `/[^A-Z0-9]/g`. */
  predicate CodeChar(ch: char)
  {
    'A' <= ch <= 'Z' || '0' <= ch <= '9'
  }

  predicate IsCode(s: string)
  {
    forall i :: 0 <= i < |s| ==> CodeChar(s[i])
  }

  /** The code characters of `s`, in order. */
  function KeepCode(s: string): (r: string)
    ensures IsCode(r) && |r| <= |s|
    ensures IsCode(s) ==> r == s
  {
    if s == [] then []
    else (if CodeChar(s[0]) then [s[0]] else []) + KeepCode(s[1..])
  }

  /** `normalizeRoomCode(s)`; a missing value normalises like the empty string. */
  function NormalizeRoomCode(s: Option<string>): (r: string)
    ensures IsCode(r) && |r| <= MaxCodeLength
    ensures s.None? ==> r == ""
  {
    var v := if s.Some? then s.value else "";
    var k := KeepCode(Upper(v));
    if |k| <= MaxCodeLength then k else k[..MaxCodeLength]
  }

  /** Upper-casing a string is upper-casing its parts. */
  lemma {:induction false} UpperAppend(a: string, b: string)
    ensures Upper(a + b) == Upper(a) + Upper(b)
  {
    if a == [] {
      assert a + b == b;
    } else {
      assert (a + b)[1..] == a[1..] + b;
      UpperAppend(a[1..], b);
    }
  }

  /** A string of characters that upper-case to themselves is its own
      upper case. */
  lemma {:induction false} UpperOfFixed(s: string)
    requires forall i :: 0 <= i < |s| ==> UpperChar(s[i]) == [s[i]]
    ensures Upper(s) == s
  {
    if s != [] {
      UpperOfFixed(s[1..]);
    }
  }

  /** An A-Z0-9 string is its own upper case. */
  lemma UpperOfCode(s: string)
    requires IsCode(s)
    ensures Upper(s) == s
  {
    UpperOfFixed(s);
  }

  /** The upper case of a character is already upper case. */
  lemma UpperCharFixed(ch: char)
    ensures Upper(UpperChar(ch)) == UpperChar(ch)
  {
    var r := UpperChar(ch);
    if r == [ch] {
      assert Upper(r) == UpperChar(ch) + Upper([]);
    } else {
      forall i | 0 <= i < |r|
        ensures UpperChar(r[i]) == [r[i]]
      {
        if r[i] !in Marks {
          assert CodeChar(r[i]);
        }
      }
      UpperOfFixed(r);
    }
  }

  /** A code that is already normal is left as it is. */
  lemma NormalCodeFixed(s: string)
    requires IsCode(s) && |s| <= MaxCodeLength
    ensures NormalizeRoomCode(Some(s)) == s
  {
    UpperOfCode(s);
  }

  /** Normalising twice is normalising once. */
  lemma NormalizeIdempotent(s: Option<string>)
    ensures NormalizeRoomCode(Some(NormalizeRoomCode(s))) == NormalizeRoomCode(s)
  {
    NormalCodeFixed(NormalizeRoomCode(s));
  }

  /** Upper-casing twice is upper-casing once. */
  lemma {:induction false} UpperTwice(s: string)
    ensures Upper(Upper(s)) == Upper(s)
  {
    if s != [] {
      UpperTwice(s[1..]);
      UpperCharFixed(s[0]);
      UpperAppend(UpperChar(s[0]), Upper(s[1..]));
    }
  }

  /** Codes are case-insensitive: a string normalises like its upper case,
      so lower-case letters, the sharp s and the ligatures normalise like the
      capitals they stand for. */
  lemma NormalizeIgnoresCase(s: string)
    ensures NormalizeRoomCode(Some(Upper(s))) == NormalizeRoomCode(Some(s))
  {
    UpperTwice(s);
  }

  /** A one-character string whose upper case is all code characters
      normalises to that upper case. */
  lemma NormalizeSingle(ch: char)
    requires IsCode(UpperChar(ch))
    ensures NormalizeRoomCode(Some([ch])) == UpperChar(ch)
  {
    assert Upper([ch]) == UpperChar(ch) + Upper([]);
  }

  /** Upper-casing can lengthen a code: the sharp s becomes two letters,
      a ligature spells out its letters, and the long s and the dotless i
      become `S` and `I`. */
  lemma NormalizeSpecialLetters()
    ensures NormalizeRoomCode(Some("\U{DF}")) == "SS"
    ensures NormalizeRoomCode(Some("\U{FB03}")) == "FFI"
    ensures NormalizeRoomCode(Some("\U{17F}")) == "S"
    ensures NormalizeRoomCode(Some("\U{131}")) == "I"
  {
    NormalizeSingle('\U{DF}');
    NormalizeSingle('\U{FB03}');
    NormalizeSingle('\U{17F}');
    NormalizeSingle('\U{131}');
  }
}
