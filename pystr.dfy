/** The three Python string built-ins the bot's message logic relies on:
    `str.isspace` on one character, `str.strip()` with no argument, and the
    substring test `needle in hay`. Strings are sequences of Unicode scalar
    values, so `|s|` is Python's `len(s)`. */
module PyStr {

  /** Python's `str.isspace()` on a single character: the C0 separators
      U+0009..U+000D and U+001C..U+001F, the space, U+0085, U+00A0, and the
      Unicode space separators and line/paragraph separators. */
  predicate IsSpace(c: char) {
    var n := c as int;
    (9 <= n <= 13) || (28 <= n <= 32) || n == 0x85 || n == 0xA0 || n == 0x1680
    || (0x2000 <= n <= 0x200A) || n == 0x2028 || n == 0x2029 || n == 0x202F
    || n == 0x205F || n == 0x3000
  }

  /** `needle` occurs in `hay` starting at position `i`. */
  ghost predicate OccursAt(hay: string, needle: string, i: int) {
    0 <= i && i + |needle| <= |hay| && hay[i..i + |needle|] == needle
  }

  /** Python's `needle in hay`: unanchored substring containment. The empty
      needle is contained in every string. */
  function Contains(hay: string, needle: string): (b: bool)
    ensures b <==> exists i :: OccursAt(hay, needle, i)
    decreases |hay|
  {
    if |needle| <= |hay| && hay[..|needle|] == needle then
      assert OccursAt(hay, needle, 0);
      true
    else if |hay| == 0 then
      false
    else
      var b := Contains(hay[1..], needle);
      assert b ==> exists i :: OccursAt(hay, needle, i) by {
        if b {
          var i :| OccursAt(hay[1..], needle, i);
          assert hay[1..][i..i + |needle|] == hay[i + 1..i + 1 + |needle|];
          assert OccursAt(hay, needle, i + 1);
        }
      }
      assert (exists i :: OccursAt(hay, needle, i)) ==> b by {
        if exists i :: OccursAt(hay, needle, i) {
          var i :| OccursAt(hay, needle, i);
          assert i != 0;
          assert hay[1..][i - 1..i - 1 + |needle|] == hay[i..i + |needle|];
          assert OccursAt(hay[1..], needle, i - 1);
        }
      }
      b
  }

  /** Python's `any(k in hay for k in keys)`: some key is a substring of
      `hay`. */
  function ContainsAny(hay: string, keys: seq<string>): (b: bool)
    ensures b <==> exists j :: 0 <= j < |keys| && Contains(hay, keys[j])
  {
    if keys == [] then false
    else if Contains(hay, keys[0]) then true
    else
      var b := ContainsAny(hay, keys[1..]);
      assert forall j :: 1 <= j < |keys| ==> keys[j] == keys[1..][j - 1];
      b
  }

  /** `s.lstrip()`: what is left after the leading whitespace. */
  function StripStart(s: string): string
    decreases |s|
  {
    if |s| > 0 && IsSpace(s[0]) then StripStart(s[1..]) else s
  }

  /** `s.rstrip()`: what is left after the trailing whitespace. */
  function StripEnd(s: string): string
    decreases |s|
  {
    if |s| > 0 && IsSpace(s[|s| - 1]) then StripEnd(s[..|s| - 1]) else s
  }

  /** `StripStart(s)` is a suffix of `s` that starts on non-whitespace, and
      everything cut off before it is whitespace. */
  lemma {:induction false} StripStartSpec(s: string)
    ensures |StripStart(s)| <= |s| && StripStart(s) == s[|s| - |StripStart(s)|..]
    ensures forall i :: 0 <= i < |s| - |StripStart(s)| ==> IsSpace(s[i])
    ensures StripStart(s) == [] || !IsSpace(StripStart(s)[0])
    decreases |s|
  {
    if |s| > 0 && IsSpace(s[0]) {
      StripStartSpec(s[1..]);
      assert s[1..][|s| - 1 - |StripStart(s)|..] == s[|s| - |StripStart(s)|..];
      forall i | 1 <= i < |s| - |StripStart(s)| ensures IsSpace(s[i]) {
        assert s[i] == s[1..][i - 1];
      }
    }
  }

  /** `StripEnd(s)` is a prefix of `s` that ends on non-whitespace, and
      everything cut off after it is whitespace. */
  lemma {:induction false} StripEndSpec(s: string)
    ensures |StripEnd(s)| <= |s| && StripEnd(s) == s[..|StripEnd(s)|]
    ensures forall i :: |StripEnd(s)| <= i < |s| ==> IsSpace(s[i])
    ensures StripEnd(s) == [] || !IsSpace(StripEnd(s)[|StripEnd(s)| - 1])
    decreases |s|
  {
    if |s| > 0 && IsSpace(s[|s| - 1]) {
      StripEndSpec(s[..|s| - 1]);
      assert s[..|s| - 1][..|StripEnd(s)|] == s[..|StripEnd(s)|];
      forall i | |StripEnd(s)| <= i < |s| - 1 ensures IsSpace(s[i]) {
        assert s[i] == s[..|s| - 1][i];
      }
    }
  }

  /** `r` is what remains of `s` once the whitespace before position `lo`
      and after position `lo + |r|` is cut off. */
  ghost predicate StrippedAt(s: string, r: string, lo: int) {
    0 <= lo <= |s| - |r| && r == s[lo..lo + |r|]
    && (forall i :: 0 <= i < lo ==> IsSpace(s[i]))
    && (forall i :: lo + |r| <= i < |s| ==> IsSpace(s[i]))
  }

  /** `s.strip()`: what is left of `s` without its leading and trailing
      whitespace (characterized by `StripSpec`). */
  function Strip(s: string): string {
    StripEnd(StripStart(s))
  }

  /** `Strip(s)` is the contiguous part of `s` between its leading and its
      trailing whitespace, and neither starts nor ends with whitespace. */
  lemma StripSpec(s: string)
    ensures exists lo :: StrippedAt(s, Strip(s), lo)
    ensures Strip(s) == [] || (!IsSpace(Strip(s)[0]) && !IsSpace(Strip(s)[|Strip(s)| - 1]))
  {
    var t := StripStart(s);
    var r := StripEnd(t);
    StripStartSpec(s);
    StripEndSpec(t);
    assert r == Strip(s);
    assert s[|s| - |t|..][..|r|] == s[|s| - |t|..|s| - |t| + |r|];
    assert StrippedAt(s, r, |s| - |t|);
  }

  /** A keyword in the sense of the bot's tables: non-empty, and neither its
      first nor its last character is whitespace. */
  predicate IsKeyword(t: string) {
    t != [] && !IsSpace(t[0]) && !IsSpace(t[|t| - 1])
  }

  /** Stripping never changes whether a keyword occurs: an occurrence starts
      and ends on non-whitespace, so it lies inside the stripped part. */
  lemma StripKeepsContains(s: string, t: string)
    requires IsKeyword(t)
    ensures Contains(Strip(s), t) <==> Contains(s, t)
  {
    var r := Strip(s);
    StripSpec(s);
    var lo :| StrippedAt(s, r, lo);
    if Contains(r, t) {
      var i :| OccursAt(r, t, i);
      OccurrenceInInfix(s, r, lo, t, i);
    }
    if Contains(s, t) {
      var i :| OccursAt(s, t, i);
      OccurrenceInsideStrip(s, r, lo, t, i);
    }
  }

  /** An occurrence inside a slice of `s` is an occurrence in `s`. */
  lemma OccurrenceInInfix(s: string, r: string, lo: int, t: string, i: int)
    requires 0 <= lo <= |s| - |r| && r == s[lo..lo + |r|] && OccursAt(r, t, i)
    ensures OccursAt(s, t, lo + i)
  {
    var inS, inR := s[lo + i..lo + i + |t|], r[i..i + |t|];
    forall k | 0 <= k < |t| ensures inS[k] == inR[k] {
      assert inR[k] == s[lo..lo + |r|][i + k];
    }
    assert inS == inR;
  }

  /** An occurrence of a keyword in `s` lies within the stripped part. */
  lemma OccurrenceInsideStrip(s: string, r: string, lo: int, t: string, i: int)
    requires StrippedAt(s, r, lo) && IsKeyword(t) && OccursAt(s, t, i)
    ensures OccursAt(r, t, i - lo)
  {
    assert s[i] == t[0];
    assert s[i + |t| - 1] == t[|t| - 1];
    assert lo <= i;
    assert i + |t| <= lo + |r|;
    var inR, inS := r[i - lo..i - lo + |t|], s[i..i + |t|];
    forall k | 0 <= k < |t| ensures inR[k] == inS[k] {
      assert inR[k] == s[lo..lo + |r|][i - lo + k];
    }
    assert inR == inS;
  }

  /** A string made only of whitespace strips to the empty string. */
  lemma StripBlank(s: string)
    requires forall i :: 0 <= i < |s| ==> IsSpace(s[i])
    ensures Strip(s) == []
  {
    StripSpec(s);
  }
}
