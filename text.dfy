/**
  The JavaScript string built-ins the core relies on: `trim`, `toLowerCase`,
  `substring` and `split`. One `char` stands for one UTF-16 code unit, so
  lengths and positions count characters as JavaScript does for text
  without surrogate pairs.
*/
module Text {

  /** The characters `String.prototype.trim` removes: ECMAScript WhiteSpace and LineTerminator. */
  predicate IsWhite(c: char) {
    c == '\t' || c == '\n' || c == '\U{B}' || c == '\U{C}' || c == '\r' || c == ' ' ||
    c == '\U{A0}' || c == '\U{1680}' || ('\U{2000}' <= c <= '\U{200A}') ||
    c == '\U{2028}' || c == '\U{2029}' || c == '\U{202F}' || c == '\U{205F}' ||
    c == '\U{3000}' || c == '\U{FEFF}'
  }

  /** `s.trim()` is falsy: the string is empty or made only of white space. */
  predicate IsBlank(s: string) {
    forall k :: 0 <= k < |s| ==> IsWhite(s[k])
  }

  /** Neither end of `s` is white space. */
  predicate IsTrimmed(s: string) {
    s == [] || (!IsWhite(s[0]) && !IsWhite(s[|s| - 1]))
  }

  /** `s.trim()`: white space removed from both ends, nothing else touched. */
  function Trim(s: string): string
    decreases |s|
  {
    if s == [] then s
    else if IsWhite(s[0]) then Trim(s[1..])
    else if IsWhite(s[|s| - 1]) then Trim(s[..|s| - 1])
    else s
  }

  /**
    What trimming guarantees: the result is a slice of the text with only
    white space cut from either end; it has no white space at either end, is
    empty exactly for blank text, and is the text itself when already trimmed.
  */
  lemma TrimTrims(s: string)
    ensures exists i, j :: 0 <= i <= j <= |s| && Trim(s) == s[i..j] && IsBlank(s[..i]) && IsBlank(s[j..])
    ensures IsTrimmed(Trim(s))
    ensures Trim(s) == [] <==> IsBlank(s)
    ensures IsTrimmed(s) ==> Trim(s) == s
  {
    TrimIsSlice(s);
    TrimEnds(s);
  }

  /** The ends of `Trim(s)`: no white space there, empty exactly for blank text, no change to trimmed text. */
  lemma {:induction false} TrimEnds(s: string)
    ensures IsTrimmed(Trim(s))
    ensures Trim(s) == [] <==> IsBlank(s)
    ensures IsTrimmed(s) ==> Trim(s) == s
    decreases |s|
  {
    if s == [] {
    } else if IsWhite(s[0]) {
      TrimEnds(s[1..]);
      assert IsBlank(s) <==> IsBlank(s[1..]) by {
        if IsBlank(s[1..]) {
          forall k | 0 <= k < |s| ensures IsWhite(s[k]) {
            if k > 0 { assert s[k] == s[1..][k - 1]; }
          }
        }
      }
    } else if IsWhite(s[|s| - 1]) {
      TrimEnds(s[..|s| - 1]);
    }
  }

  /** `Trim(s)` is `s` with a blank prefix and a blank suffix cut off. */
  lemma {:induction false} TrimIsSlice(s: string)
    ensures exists i, j :: 0 <= i <= j <= |s| && Trim(s) == s[i..j] && IsBlank(s[..i]) && IsBlank(s[j..])
    decreases |s|
  {
    if s == [] {
      assert Trim(s) == s[0..0] && IsBlank(s[..0]) && IsBlank(s[0..]);
    } else if IsWhite(s[0]) {
      var t := s[1..];
      TrimIsSlice(t);
      var i, j :| 0 <= i <= j <= |t| && Trim(t) == t[i..j] && IsBlank(t[..i]) && IsBlank(t[j..]);
      assert Trim(s) == Trim(t);
      SliceAfterWhite(s, i, j);
    } else if IsWhite(s[|s| - 1]) {
      var t := s[..|s| - 1];
      TrimIsSlice(t);
      var i, j :| 0 <= i <= j <= |t| && Trim(t) == t[i..j] && IsBlank(t[..i]) && IsBlank(t[j..]);
      assert Trim(s) == Trim(t);
      SliceBeforeWhite(s, i, j);
    } else {
      assert Trim(s) == s[0..|s|] && IsBlank(s[..0]) && IsBlank(s[|s|..]);
    }
  }

  /** Trimming adds no character: whatever is in `Trim(s)` is in `s`. */
  lemma TrimKeepsOut(s: string, c: char)
    requires c !in s
    ensures c !in Trim(s)
  {
    TrimIsSlice(s);
    var i, j :| 0 <= i <= j <= |s| && Trim(s) == s[i..j] && IsBlank(s[..i]) && IsBlank(s[j..]);
    assert forall k :: 0 <= k < j - i ==> s[i..j][k] == s[i + k];
  }

  /** A cut of `s[1..]` with blank ends is a cut of `s` with blank ends when `s[0]` is white. */
  lemma SliceAfterWhite(s: string, i: int, j: int)
    requires s != [] && IsWhite(s[0]) && 0 <= i <= j <= |s| - 1
    requires IsBlank(s[1..][..i]) && IsBlank(s[1..][j..])
    ensures s[1..][i..j] == s[i + 1..j + 1] && IsBlank(s[..i + 1]) && IsBlank(s[j + 1..])
  {
    assert s[1..][j..] == s[j + 1..];
    assert s[1..][i..j] == s[i + 1..j + 1];
    var head, rest := s[..i + 1], s[1..][..i];
    assert head == [s[0]] + rest;
    forall k | 0 <= k < |head| ensures IsWhite(head[k]) {
      if k > 0 {
        assert head[k] == rest[k - 1];
      }
    }
  }

  /** A cut of `s[..|s| - 1]` with blank ends is a cut of `s` with blank ends when the last character is white. */
  lemma SliceBeforeWhite(s: string, i: int, j: int)
    requires s != [] && IsWhite(s[|s| - 1]) && 0 <= i <= j <= |s| - 1
    requires IsBlank(s[..|s| - 1][..i]) && IsBlank(s[..|s| - 1][j..])
    ensures s[..|s| - 1][i..j] == s[i..j] && IsBlank(s[..i]) && IsBlank(s[j..])
  {
    assert s[..|s| - 1][..i] == s[..i];
    forall k | 0 <= k < |s| - j ensures IsWhite(s[j..][k]) {
      if k < |s| - 1 - j {
        assert s[j..][k] == s[..|s| - 1][j..][k];
      }
    }
  }

  /**
    The capital letters `toLowerCase` maps to a single small letter, among
    Basic Latin, Latin-1, Latin Extended-A and the Vietnamese letters of
    Latin Extended Additional.
  */
  predicate IsUpper(c: char) {
    ('A' <= c <= 'Z') ||
    ('\U{C0}' <= c <= '\U{DE}' && c != '\U{D7}') ||
    ('\U{100}' <= c <= '\U{137}' && c != '\U{130}' && (c as int) % 2 == 0) ||
    ('\U{139}' <= c <= '\U{148}' && (c as int) % 2 == 1) ||
    ('\U{14A}' <= c <= '\U{177}' && (c as int) % 2 == 0) ||
    c == '\U{178}' ||
    ('\U{179}' <= c <= '\U{17E}' && (c as int) % 2 == 1) ||
    c == '\U{1A0}' || c == '\U{1AF}' ||
    ('\U{1EA0}' <= c <= '\U{1EF9}' && (c as int) % 2 == 0)
  }

  /** The one-character case mapping behind `toLowerCase`. */
  function LowerChar(c: char): (d: char)
    ensures IsUpper(c) ==> d != c
    ensures !IsUpper(c) ==> d == c
    ensures !IsUpper(d)
  {
    if 'A' <= c <= 'Z' || ('\U{C0}' <= c <= '\U{DE}' && c != '\U{D7}') then (c as int + 32) as char
    else if c == '\U{178}' then '\U{FF}'
    else if IsUpper(c) then (c as int + 1) as char
    else c
  }

  /** `s.toLowerCase()`, one character at a time. */
  function Lower(s: string): (r: string)
    ensures |r| == |s|
    ensures forall k :: 0 <= k < |s| ==> r[k] == LowerChar(s[k])
  {
    seq(|s|, k requires 0 <= k < |s| => LowerChar(s[k]))
  }

  lemma LowerIdempotent(s: string)
    ensures Lower(Lower(s)) == Lower(s)
  {
  }

  lemma LowerAppend(s: string, t: string)
    ensures Lower(s + t) == Lower(s) + Lower(t)
  {
  }

  lemma LowerPrefix(s: string, k: nat)
    requires k <= |s|
    ensures Lower(s[..k]) == Lower(s)[..k]
  {
  }

  function Clamp(x: int, n: nat): (r: nat)
    ensures r <= n
  {
    if x < 0 then 0 else if x > n then n else x
  }

  /**
    `s.substring(a, b)`: both arguments are clamped to `[0, |s|]` and swapped
    when the first exceeds the second.
  */
  function Substring(s: string, a: int, b: int): (r: string)
    ensures 0 <= a <= b <= |s| ==> r == s[a..b]
    ensures |r| <= |s|
  {
    var i, j := Clamp(a, |s|), Clamp(b, |s|);
    if i <= j then s[i..j] else s[j..i]
  }

  /** The pieces of a split, glued back together with `sep` between neighbours. */
  function JoinWith(parts: seq<string>, sep: char): string {
    if parts == [] then ""
    else if |parts| == 1 then parts[0]
    else parts[0] + [sep] + JoinWith(parts[1..], sep)
  }

  /** `s.split(sep)` for a one-character separator. */
  function Split(s: string, sep: char): (r: seq<string>)
    ensures |r| >= 1
    ensures forall k :: 0 <= k < |r| ==> sep !in r[k]
    ensures JoinWith(r, sep) == s
  {
    if s == [] then [""]
    else
      var rest := Split(s[1..], sep);
      if s[0] == sep then
        assert [""] + rest == [""] + rest;
        [""] + rest
      else
        var r := [[s[0]] + rest[0]] + rest[1..];
        assert r[1..] == rest[1..];
        assert JoinWith(r, sep) == [s[0]] + JoinWith(rest, sep) by {
          if |rest| == 1 {
          } else {
            assert JoinWith(rest, sep) == rest[0] + [sep] + JoinWith(rest[1..], sep);
          }
        }
        assert s == [s[0]] + s[1..];
        r
  }
}
