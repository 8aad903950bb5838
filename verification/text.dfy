/**
 * The string primitives the application leans on: JavaScript's `trim`,
 * `length` (in UTF-16 code units), `toLowerCase` (ASCII only) and `includes`.
 * Strings are sequences of Unicode code points.
 */
module Text {

  /** ECMAScript WhiteSpace and LineTerminator code points, the set `trim` removes. */
  predicate IsWhitespace(c: char)
  {
    var n := c as int;
    || 0x09 <= n <= 0x0D                     // tab, line feed, vertical tab, form feed, carriage return
    || n == 0x20 || n == 0xA0 || n == 0x1680  // space, no-break space, ogham space mark
    || 0x2000 <= n <= 0x200A                 // en quad .. hair space
    || n == 0x2028 || n == 0x2029             // line and paragraph separators
    || n == 0x202F || n == 0x205F || n == 0x3000
    || n == 0xFEFF                           // byte order mark
  }

  predicate AllWhitespace(s: string)
  {
    forall i :: 0 <= i < |s| ==> IsWhitespace(s[i])
  }

  /** Drops leading whitespace. */
  function TrimStart(s: string): (r: string)
    ensures |r| <= |s|
  {
    if |s| > 0 && IsWhitespace(s[0]) then TrimStart(s[1..]) else s
  }

  /** Drops trailing whitespace. */
  function TrimEnd(s: string): (r: string)
    ensures |r| <= |s|
  {
    if |s| > 0 && IsWhitespace(s[|s| - 1]) then TrimEnd(s[..|s| - 1]) else s
  }

  /** `s` contains `q` starting at position `i`. */
  predicate OccursAt(s: string, q: string, i: int)
  {
    0 <= i && i + |q| <= |s| && s[i..i + |q|] == q
  }

  /** TrimStart removes a whitespace prefix, and exactly the longest one. */
  lemma {:induction false} TrimStartSpec(s: string)
    ensures var r := TrimStart(s);
      && r == s[|s| - |r|..]
      && AllWhitespace(s[..|s| - |r|])
      && (r == [] || !IsWhitespace(r[0]))
  {
    if |s| > 0 && IsWhitespace(s[0]) {
      TrimStartSpec(s[1..]);
      var r := TrimStart(s[1..]);
      assert s[1..][..|s[1..]| - |r|] == s[1..|s| - |r|];
    }
  }

  /** TrimEnd removes a whitespace suffix, and exactly the longest one. */
  lemma {:induction false} TrimEndSpec(s: string)
    ensures var r := TrimEnd(s);
      && r == s[..|r|]
      && AllWhitespace(s[|r|..])
      && (r == [] || !IsWhitespace(r[|r| - 1]))
  {
    if |s| > 0 && IsWhitespace(s[|s| - 1]) {
      TrimEndSpec(s[..|s| - 1]);
      var r := TrimEnd(s[..|s| - 1]);
      assert s[..|s| - 1][|r|..] == s[|r|..|s| - 1];
    }
  }

  /** Where the trimmed text starts inside the original. */
  function TrimOffset(s: string): nat
  {
    |s| - |TrimStart(s)|
  }

  /** The trimmed text sits in the original at the offset TrimStart leaves. */
  lemma TrimPosition(s: string)
    ensures OccursAt(s, TrimEnd(TrimStart(s)), TrimOffset(s))
  {
    TrimStartSpec(s);
    TrimEndSpec(TrimStart(s));
    var a := TrimStart(s);
    var r := TrimEnd(a);
    var i := |s| - |a|;
    assert s[i..i + |r|] == r;
  }

  /** Everything after the trimmed text is whitespace. */
  lemma TrimTrailing(s: string)
    ensures AllWhitespace(s[TrimOffset(s) + |TrimEnd(TrimStart(s))|..])
  {
    TrimStartSpec(s);
    TrimEndSpec(TrimStart(s));
    var a := TrimStart(s);
    var r := TrimEnd(a);
    var i := |s| - |a|;
    assert s[i + |r|..] == a[|r|..];
  }

  /** Trimming leaves nothing exactly when the original is all whitespace. */
  lemma TrimEmpty(s: string)
    ensures TrimEnd(TrimStart(s)) == [] <==> AllWhitespace(s)
  {
    TrimStartSpec(s);
    TrimEndSpec(TrimStart(s));
    var a := TrimStart(s);
    var r := TrimEnd(a);
    var i := |s| - |a|;
    if r == [] {
      // TrimStart left nothing for TrimEnd to keep, so it left nothing at all
      assert a == [];
      forall k | 0 <= k < |s|
        ensures IsWhitespace(s[k])
      {
        assert s[k] == s[..i][k];
      }
    } else {
      assert s[i] == r[0];
    }
  }

  /** JavaScript's `String.prototype.trim`; TrimSpec characterises it. */
  function Trim(s: string): (r: string)
    ensures |r| <= |s|
  {
    TrimEnd(TrimStart(s))
  }

  /**
   * Trim keeps the infix of `s` between a whitespace prefix and a whitespace
   * suffix, neither starting nor ending with whitespace, and is empty exactly
   * when `s` is all whitespace.
   */
  lemma TrimSpec(s: string)
    ensures var r := Trim(s);
      && OccursAt(s, r, TrimOffset(s))
      && AllWhitespace(s[..TrimOffset(s)]) && AllWhitespace(s[TrimOffset(s) + |r|..])
      && (r == [] || (!IsWhitespace(r[0]) && !IsWhitespace(r[|r| - 1])))
      && (r == [] <==> AllWhitespace(s))
  {
    TrimStartSpec(s);
    TrimEndSpec(TrimStart(s));
    TrimPosition(s);
    TrimTrailing(s);
    TrimEmpty(s);
  }

  /** How many UTF-16 code units a code point takes: 2 above U+FFFF, otherwise 1. */
  function Utf16Units(c: char): nat
  {
    if c as int > 0xFFFF then 2 else 1
  }

  /** JavaScript's `length` of a string: its size in UTF-16 code units. */
  function Utf16Length(s: string): (n: nat)
    ensures |s| <= n <= 2 * |s|
    ensures n == 0 <==> s == []
  {
    if s == [] then 0 else Utf16Units(s[0]) + Utf16Length(s[1..])
  }

  /** A code point above U+FFFF is a surrogate pair, two units; any other is one. */
  lemma Utf16LengthOfChar(c: char)
    ensures Utf16Length([c]) == if c as int > 0xFFFF then 2 else 1
  {
    assert [c][1..] == [];
  }

  /** The UTF-16 length of a concatenation is the sum of the parts' lengths. */
  lemma {:induction false} Utf16LengthAppend(s: string, t: string)
    ensures Utf16Length(s + t) == Utf16Length(s) + Utf16Length(t)
  {
    if s == [] {
      assert s + t == t;
    } else {
      assert (s + t)[0] == s[0];
      assert (s + t)[1..] == s[1..] + t;
      Utf16LengthAppend(s[1..], t);
    }
  }

  /** JavaScript's `toLowerCase`, restricted to the ASCII letters. */
  function LowerChar(c: char): (d: char)
    ensures 'A' <= c <= 'Z' ==> d as int == c as int + 32
    ensures !('A' <= c <= 'Z') ==> d == c
  {
    if 'A' <= c <= 'Z' then (c as int + 32) as char else c
  }

  function Lower(s: string): (r: string)
    ensures |r| == |s|
    ensures forall i :: 0 <= i < |s| ==> r[i] == LowerChar(s[i])
  {
    seq(|s|, i requires 0 <= i < |s| => LowerChar(s[i]))
  }

  /**
   * JavaScript's `String.prototype.includes`: tries each starting position
   * in turn, and answers whether `q` occurs somewhere in `s`.
   */
  function Includes(s: string, q: string): (b: bool)
    ensures b <==> exists i :: OccursAt(s, q, i)
    decreases |s|
  {
    if OccursAt(s, q, 0) then true
    else if s == [] then false
    else
      OccursInTail(s, q);
      Includes(s[1..], q)
  }

  /** Past the first position, `q` occurs in `s` exactly where it occurs in the tail of `s`. */
  lemma OccursInTail(s: string, q: string)
    requires s != [] && !OccursAt(s, q, 0)
    ensures (exists i :: OccursAt(s, q, i)) <==> (exists j :: OccursAt(s[1..], q, j))
  {
    if exists i :: OccursAt(s, q, i) {
      var i :| OccursAt(s, q, i);
      assert s[1..][i - 1..i - 1 + |q|] == s[i..i + |q|];
      assert OccursAt(s[1..], q, i - 1);
    }
    if exists j :: OccursAt(s[1..], q, j) {
      var j :| OccursAt(s[1..], q, j);
      assert s[1..][j..j + |q|] == s[j + 1..j + 1 + |q|];
      assert OccursAt(s, q, j + 1);
    }
  }

  /** Lower-casing twice is lower-casing once. */
  lemma LowerIdempotent(s: string)
    ensures Lower(Lower(s)) == Lower(s)
  {
  }

  /** The empty string occurs in every string. */
  lemma IncludesEmpty(s: string)
    ensures Includes(s, "")
  {
    assert OccursAt(s, "", 0);
  }

  /** A string made only of whitespace trims to the empty string, and only such a string does. */
  lemma TrimEmptyIffWhitespace(s: string)
    ensures Trim(s) == "" <==> AllWhitespace(s)
  {
    TrimSpec(s);
  }
}
