/**
 * The Python `str` primitives the core relies on: `isspace` (which is also what
 * `\s` matches in a `str` regular expression), `lower`, `strip`, `split()`,
 * `split(sep)` and `replace`.  Characters are Unicode code points.
 */
module PyText {

  /** `c.isspace()`: the ASCII and Unicode white-space code points. */
  predicate IsSpace(c: char)
  {
    var n := c as int;
    (9 <= n <= 13) || (28 <= n <= 32) || n == 0x85 || n == 0xA0 || n == 0x1680
    || (0x2000 <= n <= 0x200A) || n == 0x2028 || n == 0x2029 || n == 0x202F
    || n == 0x205F || n == 0x3000
  }

  predicate IsAscii(c: char) { (c as int) < 128 }

  predicate IsLowerLetter(c: char) { 'a' <= c <= 'z' }

  predicate IsDigit(c: char) { ('0' as int) <= (c as int) <= ('9' as int) }

  /** `str.lower()` on one ASCII character. */
  function AsciiLower(c: char): (r: char)
    requires IsAscii(c)
    ensures IsAscii(r) && !('A' <= r <= 'Z')
    ensures !('A' <= c <= 'Z') ==> r == c
  {
    if 'A' <= c <= 'Z' then ((c as int) + 32) as char else c
  }

  /**
   * `s.lower()`.  ASCII characters are mapped here; the Unicode case table for the
   * other code points is the parameter `table` (it may yield several characters, and
   * ASCII ones: U+212A KELVIN SIGN lowers to "k").
   */
  function Lower(s: string, table: char -> string): string
  {
    if s == [] then [] else
      (if IsAscii(s[0]) then [AsciiLower(s[0])] else table(s[0])) + Lower(s[1..], table)
  }

  /** A string already in lower case lowers to itself, whatever the table. */
  lemma {:induction false} LowerOfLowerAscii(s: string, table: char -> string)
    requires forall i :: 0 <= i < |s| ==> IsAscii(s[i]) && !('A' <= s[i] <= 'Z')
    ensures Lower(s, table) == s
  {
    if s != [] {
      LowerOfLowerAscii(s[1..], table);
    }
  }

  /** On ASCII text `lower()` works character by character, whatever the table. */
  lemma {:induction false} LowerAscii(s: string, table: char -> string)
    requires forall i :: 0 <= i < |s| ==> IsAscii(s[i])
    ensures |Lower(s, table)| == |s|
    ensures forall i :: 0 <= i < |s| ==> Lower(s, table)[i] == AsciiLower(s[i])
  {
    if s != [] {
      LowerAscii(s[1..], table);
      assert forall i :: 1 <= i < |s| ==> Lower(s, table)[i] == Lower(s[1..], table)[i - 1];
    }
  }

  /** ASCII strings that differ only in letter case lower to the same string. */
  lemma {:induction false} LowerCaseless(s: string, t: string, table: char -> string)
    requires |s| == |t|
    requires forall i :: 0 <= i < |s| ==> IsAscii(s[i]) && IsAscii(t[i]) && AsciiLower(s[i]) == AsciiLower(t[i])
    ensures Lower(s, table) == Lower(t, table)
  {
    LowerAscii(s, table);
    LowerAscii(t, table);
  }

  /** `s.lstrip()`: a suffix of `s` that starts with no white space. */
  function StripLeft(s: string): (r: string)
    ensures |r| <= |s| && r == s[|s| - |r|..]
    ensures r == [] || !IsSpace(r[0])
    ensures forall i :: 0 <= i < |s| - |r| ==> IsSpace(s[i])
  {
    if s != [] && IsSpace(s[0]) then StripLeft(s[1..]) else s
  }

  /** `s.rstrip()`: a prefix of `s` that ends with no white space. */
  function StripRight(s: string): (r: string)
    ensures |r| <= |s| && r == s[..|r|]
    ensures r == [] || !IsSpace(r[|r| - 1])
    ensures forall i :: |r| <= i < |s| ==> IsSpace(s[i])
  {
    if s != [] && IsSpace(s[|s| - 1]) then StripRight(s[..|s| - 1]) else s
  }

  /** `s.strip()`: white space cut from both ends, so that neither end is white. */
  function Strip(s: string): (r: string)
    ensures |r| <= |s|
    ensures r == [] || (!IsSpace(r[0]) && !IsSpace(r[|r| - 1]))
  {
    StripRight(StripLeft(s))
  }

  /** What `strip` cuts is white space, and what it keeps is the slice `s[i..j]`. */
  lemma StripSlice(s: string) returns (i: nat, j: nat)
    ensures i <= j <= |s| && Strip(s) == s[i..j]
    ensures forall k :: 0 <= k < i ==> IsSpace(s[k])
    ensures forall k :: j <= k < |s| ==> IsSpace(s[k])
  {
    var l := StripLeft(s);
    var r := StripRight(l);
    i := |s| - |l|;
    j := i + |r|;
    assert r == s[i..j];
    assert forall k :: j <= k < |s| ==> s[k] == l[k - i];
  }

  /** A string with no white space at either end strips to itself. */
  lemma StripUnchanged(s: string)
    requires s == [] || (!IsSpace(s[0]) && !IsSpace(s[|s| - 1]))
    ensures Strip(s) == s
  {
  }

  /** Index of the first white space at or after `i`, or `|s|`. */
  function WordEnd(s: string, i: nat): (r: nat)
    requires i <= |s|
    ensures i <= r <= |s|
    ensures forall k :: i <= k < r ==> !IsSpace(s[k])
    ensures r < |s| ==> IsSpace(s[r])
    decreases |s| - i
  {
    if i == |s| || IsSpace(s[i]) then i else WordEnd(s, i + 1)
  }

  /** `s.split()`: the maximal runs of non-white characters, in order. */
  function Words(s: string): (ws: seq<string>)
    ensures forall k :: 0 <= k < |ws| ==> ws[k] != [] && forall c :: c in ws[k] ==> !IsSpace(c)
    decreases |s|
  {
    if s == [] then []
    else if IsSpace(s[0]) then Words(s[1..])
    else
      var n := WordEnd(s, 0);
      [s[..n]] + Words(s[n..])
  }

  /** Leading white space does not change `split()`. */
  lemma {:induction false} WordsStripLeft(s: string)
    ensures Words(StripLeft(s)) == Words(s)
  {
    if s != [] && IsSpace(s[0]) {
      WordsStripLeft(s[1..]);
    }
  }

  /** A string that starts with a word splits into that word and the split of the rest. */
  lemma WordsFirst(s: string)
    requires s != [] && !IsSpace(s[0])
    ensures Words(s) == [s[..WordEnd(s, 0)]] + Words(s[WordEnd(s, 0)..])
  {
  }

  /** Joining after a first piece puts one separator after it, if anything follows. */
  lemma JoinCons(w: string, ws: seq<string>, sep: string)
    ensures Join([w] + ws, sep) == w + (if ws == [] then [] else sep + Join(ws, sep))
  {
    if ws != [] {
      assert ([w] + ws)[1..] == ws;
    }
  }

  /** A space in front of a string that starts with no white space is stripped off. */
  lemma StripAfterSpace(x: string)
    requires x == [] || !IsSpace(x[0])
    ensures Strip(" " + x) == StripRight(x)
  {
    StripLeftSpace(x);
  }

  lemma StripLeftSpace(x: string)
    requires x == [] || !IsSpace(x[0])
    ensures StripLeft(" " + x) == x
  {
    assert IsSpace(' ') && (" " + x)[1..] == x;
  }

  /** `rstrip` only cuts into the right operand while that keeps something. */
  lemma {:induction false} StripRightAppend(a: string, b: string)
    requires StripRight(b) != []
    ensures StripRight(a + b) == a + StripRight(b)
    decreases |b|
  {
    if IsSpace(b[|b| - 1]) {
      assert (a + b)[..|a + b| - 1] == a + b[..|b| - 1];
      StripRightAppend(a, b[..|b| - 1]);
    }
  }

  /** `s.split(sep)` for a one-character separator: never empty, pieces free of `sep`. */
  function SplitOn(s: string, sep: char): (r: seq<string>)
    ensures |r| >= 1
    ensures forall k :: 0 <= k < |r| ==> sep !in r[k]
  {
    if s == [] then [[]]
    else
      var rest := SplitOn(s[1..], sep);
      if s[0] == sep then [[]] + rest else [[s[0]] + rest[0]] + rest[1..]
  }

  /** `sep.join(pieces)`. */
  function Join(pieces: seq<string>, sep: string): string
  {
    if pieces == [] then []
    else if |pieces| == 1 then pieces[0]
    else pieces[0] + sep + Join(pieces[1..], sep)
  }

  /** Splitting on a separator and joining back with it restores the string. */
  lemma {:induction false} JoinSplitOn(s: string, sep: char)
    ensures Join(SplitOn(s, sep), [sep]) == s
  {
    if s != [] {
      var rest := SplitOn(s[1..], sep);
      JoinSplitOn(s[1..], sep);
      if s[0] != sep {
        if |rest| > 1 {
          assert ([[s[0]] + rest[0]] + rest[1..])[1..] == rest[1..];
          assert Join(rest, [sep]) == rest[0] + [sep] + Join(rest[1..], [sep]);
        }
      } else {
        assert ([[]] + rest)[1..] == rest;
      }
    }
  }

  /** Pieces that are free of the separator split back out of their join. */
  lemma {:induction false} SplitOnJoin(pieces: seq<string>, sep: char)
    requires |pieces| >= 1
    requires forall k :: 0 <= k < |pieces| ==> sep !in pieces[k]
    ensures SplitOn(Join(pieces, [sep]), sep) == pieces
    decreases |pieces|, |pieces[0]|
  {
    var p := pieces[0];
    if |pieces| == 1 {
      SplitOnFree(p, sep);
    } else if p == [] {
      var rest := Join(pieces[1..], [sep]);
      assert Join(pieces, [sep]) == [sep] + rest;
      assert ([sep] + rest)[1..] == rest;
      SplitOnJoin(pieces[1..], sep);
      assert pieces == [[]] + pieces[1..];
    } else {
      var shorter := [p[1..]] + pieces[1..];
      assert shorter[1..] == pieces[1..];
      assert Join(pieces, [sep]) == [p[0]] + Join(shorter, [sep]);
      assert ([p[0]] + Join(shorter, [sep]))[1..] == Join(shorter, [sep]);
      SplitOnJoin(shorter, sep);
      assert [p[0]] + p[1..] == p;
    }
  }

  /** A string free of the separator splits into itself alone. */
  lemma {:induction false} SplitOnFree(s: string, sep: char)
    requires sep !in s
    ensures SplitOn(s, sep) == [s]
  {
    if s != [] {
      SplitOnFree(s[1..], sep);
      assert [s[0]] + s[1..] == s;
    }
  }

  /**
   * `s.replace(pat, rep)`: non-overlapping occurrences of `pat`, found left to
   * right, each replaced by `rep`.
   */
  function Replace(s: string, pat: string, rep: string): string
    requires pat != []
    decreases |s|
  {
    if |s| < |pat| then s
    else if s[..|pat|] == pat then rep + Replace(s[|pat|..], pat, rep)
    else [s[0]] + Replace(s[1..], pat, rep)
  }

  /** A prefix holding no first character of the pattern passes through `replace` unchanged. */
  lemma {:induction false} ReplaceSkips(a: string, t: string, pat: string, rep: string)
    requires pat != [] && pat[0] !in a
    ensures Replace(a + t, pat, rep) == a + Replace(t, pat, rep)
  {
    if a != [] {
      var s := a + t;
      assert s[0] == a[0];
      assert s[1..] == a[1..] + t;
      if |s| >= |pat| {
        assert s[..|pat|][0] == a[0];
      } else {
        ReplaceShort(t, pat, rep);
      }
      ReplaceSkips(a[1..], t, pat, rep);
    } else {
      assert a + t == t;
    }
  }

  lemma ReplaceShort(t: string, pat: string, rep: string)
    requires pat != [] && |t| < |pat|
    ensures Replace(t, pat, rep) == t
  {
  }

  /** `replace` leaves alone a string without the first character of the pattern. */
  lemma ReplaceAbsent(s: string, pat: string, rep: string)
    requires pat != [] && pat[0] !in s
    ensures Replace(s, pat, rep) == s
  {
    ReplaceSkips(s, [], pat, rep);
    assert s + [] == s;
    ReplaceShort([], pat, rep);
  }

  /** The value of a string of decimal digits, most significant first. */
  function DigitsValue(s: string): nat
    requires forall c :: c in s ==> IsDigit(c)
  {
    if s == [] then 0
    else
      assert s[|s| - 1] in s && IsDigit(s[|s| - 1]);
      10 * DigitsValue(s[..|s| - 1]) + ((s[|s| - 1] as int) - ('0' as int))
  }

  /** `str(n)` for a natural number: its decimal digits, with no leading zero. */
  function Digits(n: nat): (s: string)
    ensures s != [] && forall c :: c in s ==> IsDigit(c)
  {
    var last := [(('0' as int) + n % 10) as char];
    if n < 10 then last else Digits(n / 10) + last
  }

  /** Reading back the decimal digits of a number gives the number. */
  lemma {:induction false} DigitsRoundTrip(n: nat)
    ensures DigitsValue(Digits(n)) == n
  {
    var s := Digits(n);
    if n >= 10 {
      DigitsRoundTrip(n / 10);
      assert s[..|s| - 1] == Digits(n / 10);
    }
  }
}
