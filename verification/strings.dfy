/**
 * The JavaScript string operations the listing and the client rely on:
 * `trim`, `includes`, `toLowerCase` and `split('/').pop()`.
 */
module Strings {

  /** The code points `String.prototype.trim` removes: WhiteSpace and LineTerminator. */
  predicate IsSpace(c: char) {
    var n := c as int;
    n == 0x09 || n == 0x0A || n == 0x0B || n == 0x0C || n == 0x0D || n == 0x20 ||
    n == 0xA0 || n == 0x1680 || (0x2000 <= n <= 0x200A) || n == 0x2028 || n == 0x2029 ||
    n == 0x202F || n == 0x205F || n == 0x3000 || n == 0xFEFF
  }

  /** Drops leading white space: what is left is a suffix, and it starts with a non-space. */
  function TrimStart(s: string): (r: string)
    ensures |r| <= |s| && r == s[|s| - |r|..]
    ensures forall i :: 0 <= i < |s| - |r| ==> IsSpace(s[i])
    ensures r != [] ==> !IsSpace(r[0])
  {
    if s != [] && IsSpace(s[0]) then TrimStart(s[1..]) else s
  }

  /** Drops trailing white space: what is left is a prefix, and it ends with a non-space. */
  function TrimEnd(s: string): (r: string)
    ensures |r| <= |s| && r == s[..|r|]
    ensures forall i :: |r| <= i < |s| ==> IsSpace(s[i])
    ensures r != [] ==> !IsSpace(r[|r| - 1])
  {
    if s != [] && IsSpace(s[|s| - 1]) then TrimEnd(s[..|s| - 1]) else s
  }

  /**
   * `s.trim()`. The result is empty exactly when `s` is all white space;
   * otherwise it neither starts nor ends with white space.
   */
  function Trim(s: string): (r: string)
    ensures |r| <= |s|
    ensures r == [] <==> forall i :: 0 <= i < |s| ==> IsSpace(s[i])
    ensures r != [] ==> !IsSpace(r[0]) && !IsSpace(r[|r| - 1])
  {
    TrimEnd(TrimStart(s))
  }

  /** `r` is the slice of `s` at offset `a`, with only white space before and after it. */
  predicate SurroundedBySpace(s: string, r: string, a: nat) {
    a + |r| <= |s| && r == s[a..a + |r|] &&
    (forall i :: 0 <= i < a ==> IsSpace(s[i])) &&
    (forall i :: a + |r| <= i < |s| ==> IsSpace(s[i]))
  }

  /** `s.trim()` is `s` with its surrounding white space removed. */
  lemma TrimIsSlice(s: string)
    ensures exists a :: SurroundedBySpace(s, Trim(s), a)
  {
    var start := TrimStart(s);
    TrimEndIsSlice(s, |s| - |start|, start);
    assert SurroundedBySpace(s, Trim(s), |s| - |start|);
  }

  /** Trimming the end of the suffix of `s` at `a`, all white space before it, leaves a surrounded slice. */
  lemma TrimEndIsSlice(s: string, a: nat, start: string)
    requires a <= |s| && start == s[a..]
    requires forall i :: 0 <= i < a ==> IsSpace(s[i])
    ensures SurroundedBySpace(s, TrimEnd(start), a)
  {
    var r := TrimEnd(start);
    assert r == s[a..a + |r|] by {
      assert r == start[..|r|];
    }
    forall i | a + |r| <= i < |s|
      ensures IsSpace(s[i])
    {
      assert s[i] == start[i - a];
    }
  }

  /** `s.includes(t)`: `t` occurs in `s` at some position. */
  predicate Includes(s: string, t: string): (b: bool)
    ensures t <= s ==> b
    ensures b ==> |t| <= |s|
  {
    t <= s || (s != [] && Includes(s[1..], t))
  }

  /** `Includes` agrees with the positional definition of a substring. */
  lemma {:induction false} IncludesAt(s: string, t: string)
    ensures Includes(s, t) <==> exists i :: 0 <= i <= |s| && t <= s[i..]
  {
    if s == [] {
      assert forall i :: 0 <= i <= |s| ==> s[i..] == s;
    } else {
      IncludesAt(s[1..], t);
      if Includes(s, t) {
        if t <= s {
          assert t <= s[0..];
        } else {
          var i :| 0 <= i <= |s[1..]| && t <= s[1..][i..];
          assert s[1..][i..] == s[i + 1..];
        }
      } else {
        forall i | 0 <= i <= |s| ensures !(t <= s[i..]) {
          if i > 0 {
            assert s[1..][i - 1..] == s[i..];
          }
        }
      }
    }
  }

  /** Whatever occurs in `s` still occurs after anything is put in front of it. */
  lemma {:induction false} IncludesAfterPrefix(prefix: string, s: string, t: string)
    requires Includes(s, t)
    ensures Includes(prefix + s, t)
  {
    if prefix == [] {
      assert prefix + s == s;
    } else {
      IncludesAfterPrefix(prefix[1..], s, t);
      assert (prefix + s)[1..] == prefix[1..] + s;
    }
  }

  /** `toLowerCase` on one character (ASCII letters only). */
  function LowerChar(c: char): char {
    if 'A' <= c <= 'Z' then (c as int + 32) as char else c
  }

  /**
   * `s.toLowerCase()`, character by character: no upper-case ASCII letter
   * is left, each one becomes its lower-case letter, and every other
   * character stays as it is.
   */
  function ToLower(s: string): (r: string)
    ensures |r| == |s|
    ensures forall i :: 0 <= i < |r| ==> !('A' <= r[i] <= 'Z')
    ensures forall i :: 0 <= i < |s| && 'A' <= s[i] <= 'Z' ==> r[i] as int == s[i] as int + 32
    ensures forall i :: 0 <= i < |s| && !('A' <= s[i] <= 'Z') ==> r[i] == s[i]
  {
    seq(|s|, i requires 0 <= i < |s| => LowerChar(s[i]))
  }

  /** Lower-casing twice is lower-casing once. */
  lemma ToLowerIdempotent(s: string)
    ensures ToLower(ToLower(s)) == ToLower(s)
  {
  }

  /**
   * `s.split('/').pop()`: the longest suffix of `s` without a slash, so
   * either all of `s` or what follows its last slash.
   */
  function LastSegment(s: string): (r: string)
    ensures '/' !in r
    ensures |r| <= |s| && r == s[|s| - |r|..]
    ensures |r| < |s| ==> s[|s| - |r| - 1] == '/'
  {
    if s == [] || s[|s| - 1] == '/' then [] else LastSegment(s[..|s| - 1]) + [s[|s| - 1]]
  }

  /**
   * A slash-free suffix `r` of `s` that is the whole of `s` or follows a
   * slash starts right after the last slash of `s`, at `p`.
   */
  lemma SuffixAfterLastSlash(s: string, r: string, p: nat)
    requires |r| <= |s| && r == s[|s| - |r|..] && '/' !in r
    requires |r| < |s| ==> s[|s| - |r| - 1] == '/'
    requires 0 < p <= |s| && s[p - 1] == '/'
    requires forall k :: p <= k < |s| ==> s[k] != '/'
    ensures r == s[p..]
  {
    var start := |s| - |r|;
    // r holds no slash, so it starts after the slash at p - 1
    assert p <= start by {
      forall k | start <= k < |s|
        ensures s[k] != '/'
      {
        assert s[k] == r[k - start];
      }
    }
  }

  /** A name appended after a slash-terminated prefix is recovered by `LastSegment`. */
  lemma LastSegmentAfterSlash(prefix: string, name: string)
    requires prefix != [] && prefix[|prefix| - 1] == '/'
    requires '/' !in name
    ensures LastSegment(prefix + name) == name
  {
    var s := prefix + name;
    forall k | |prefix| <= k < |s|
      ensures s[k] != '/'
    {
      assert s[k] == name[k - |prefix|];
    }
    SuffixAfterLastSlash(s, LastSegment(s), |prefix|);
    assert s[|prefix|..] == name;
  }
}
