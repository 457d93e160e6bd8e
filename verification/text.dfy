/**
 * The string operations the two quiz scripts rely on: `str.lower()`,
 * `str.split()` with no separator, and `" ".join(...)`.
 */
module Text {

  /**
   * One character of `str.lower()`: ASCII capitals and the Cyrillic capitals
   * used by Ukrainian (U+0400..U+042F and U+0490) are mapped to their small
   * letters; every other character is left unchanged.
   */
  function LowerChar(c: char): char
  {
    if 'A' <= c <= 'Z' then (c as int + 0x20) as char
    else if '\U{0410}' <= c <= '\U{042F}' then (c as int + 0x20) as char
    else if '\U{0400}' <= c <= '\U{040F}' then (c as int + 0x50) as char
    else if c == '\U{0490}' then '\U{0491}'
    else c
  }

  /** `s.lower()` */
  function Lower(s: string): (r: string)
    ensures |r| == |s|
  {
    seq(|s|, i requires 0 <= i < |s| => LowerChar(s[i]))
  }

  /** Lowering twice is lowering once, so comparing lowered strings ignores case. */
  lemma LowerIdempotent(s: string)
    ensures Lower(Lower(s)) == Lower(s)
  {
    forall i | 0 <= i < |s|
      ensures Lower(Lower(s))[i] == Lower(s)[i]
    {
      var c := s[i];
      assert LowerChar(LowerChar(c)) == LowerChar(c);
    }
  }

  /** The characters `str.split()` treats as separators (`str.isspace()`). */
  predicate IsSpace(c: char)
  {
    var n := c as int;
    n == 0x20 || 0x09 <= n <= 0x0D || 0x1C <= n <= 0x1F || n == 0x85 || n == 0xA0
    || n == 0x1680 || 0x2000 <= n <= 0x200A || n == 0x2028 || n == 0x2029
    || n == 0x202F || n == 0x205F || n == 0x3000
  }

  /** A piece `split()` can produce: non-empty and free of whitespace. */
  predicate IsToken(t: string)
  {
    |t| > 0 && forall i :: 0 <= i < |t| ==> !IsSpace(t[i])
  }

  /** Length of the run of non-space characters that starts `s`. */
  function TokenLength(s: string): (n: nat)
    ensures n <= |s|
    ensures forall i :: 0 <= i < n ==> !IsSpace(s[i])
    ensures n < |s| ==> IsSpace(s[n])
  {
    if s == [] || IsSpace(s[0]) then 0 else 1 + TokenLength(s[1..])
  }

  /** `s` with every whitespace character removed. */
  function RemoveSpaces(s: string): string
  {
    if s == [] then [] else (if IsSpace(s[0]) then [] else [s[0]]) + RemoveSpaces(s[1..])
  }

  /** `"".join(tokens)` */
  function Concat(tokens: seq<string>): string
  {
    if tokens == [] then [] else tokens[0] + Concat(tokens[1..])
  }

  /** A leading run of non-space characters survives `RemoveSpaces` unchanged. */
  lemma {:induction false} RemoveSpacesRun(s: string, n: nat)
    requires n <= |s|
    requires forall i :: 0 <= i < n ==> !IsSpace(s[i])
    ensures RemoveSpaces(s) == s[..n] + RemoveSpaces(s[n..])
    decreases n
  {
    if n > 0 {
      RemoveSpacesRun(s[1..], n - 1);
      assert s[1..][n - 1..] == s[n..];
      assert s[..n] == [s[0]] + s[1..][..n - 1];
    }
  }

  /**
   * `s.split()`: maximal runs of non-space characters, in order.  No
   * character is lost: the words, put back together, are `s` without its
   * whitespace.
   */
  function Split(s: string): (tokens: seq<string>)
    ensures forall k :: 0 <= k < |tokens| ==> IsToken(tokens[k])
    ensures Concat(tokens) == RemoveSpaces(s)
    decreases |s|
  {
    if s == [] then []
    else if IsSpace(s[0]) then Split(s[1..])
    else
      var n := TokenLength(s);
      var rest := Split(s[n..]);
      RemoveSpacesRun(s, n);
      assert ([s[..n]] + rest)[1..] == rest;
      [s[..n]] + rest
  }

  /** `" ".join(tokens)` */
  function Join(tokens: seq<string>): (r: string)
    ensures |tokens| == 0 ==> r == ""
    ensures |tokens| > 0 ==> |tokens[0]| <= |r| && r[..|tokens[0]|] == tokens[0]
    ensures |tokens| > 1 ==> |tokens[0]| < |r| && r[|tokens[0]|] == ' '
  {
    if |tokens| == 0 then ""
    else if |tokens| == 1 then tokens[0]
    else tokens[0] + " " + Join(tokens[1..])
  }

  /**
   * No whitespace at either end, and every whitespace character is a single
   * plain space between two non-space characters.
   */
  predicate SingleSpaced(s: string)
  {
    forall i :: 0 <= i < |s| && IsSpace(s[i]) ==>
      s[i] == ' ' && 0 < i < |s| - 1 && !IsSpace(s[i - 1]) && !IsSpace(s[i + 1])
  }

  lemma {:induction false} TokenLengthOfToken(t: string, rest: string)
    requires IsToken(t)
    requires rest == [] || IsSpace(rest[0])
    ensures TokenLength(t + rest) == |t|
    decreases |t|
  {
    var s := t + rest;
    assert s[0] == t[0];
    if |t| > 1 {
      assert s[1..] == t[1..] + rest;
      TokenLengthOfToken(t[1..], rest);
    } else {
      assert s[1..] == rest;
    }
  }

  lemma SplitOfToken(t: string)
    requires IsToken(t)
    ensures Split(t) == [t]
  {
    TokenLengthOfToken(t, []);
    assert t + [] == t;
    assert t[..|t|] == t;
    assert t[|t|..] == [];
  }

  /** Splitting what `" ".join` produced gives the tokens back. */
  lemma {:induction false} SplitJoin(tokens: seq<string>)
    requires forall k :: 0 <= k < |tokens| ==> IsToken(tokens[k])
    ensures Split(Join(tokens)) == tokens
    decreases |tokens|
  {
    if |tokens| == 0 {
    } else if |tokens| == 1 {
      SplitOfToken(tokens[0]);
    } else {
      var t, rest := tokens[0], Join(tokens[1..]);
      var s := t + " " + rest;
      assert Join(tokens) == s;
      TokenLengthOfToken(t, " " + rest);
      assert s == t + (" " + rest);
      assert s[..|t|] == t;
      assert s[|t|..] == " " + rest;
      assert (" " + rest)[1..] == rest;
      SplitJoin(tokens[1..]);
      assert Split(s) == [t] + Split(" " + rest);
    }
  }

  /** `" ".join` of tokens puts exactly one space between neighbours and none at the ends. */
  lemma {:induction false} JoinSingleSpaced(tokens: seq<string>)
    requires forall k :: 0 <= k < |tokens| ==> IsToken(tokens[k])
    ensures SingleSpaced(Join(tokens))
    decreases |tokens|
  {
    if |tokens| >= 2 {
      var t, rest := tokens[0], Join(tokens[1..]);
      var s := t + " " + rest;
      JoinSingleSpaced(tokens[1..]);
      assert |rest| > 0 && !IsSpace(rest[0]) by {
        assert IsToken(tokens[1..][0]);
        assert rest[0] == tokens[1][0];
      }
      forall i | 0 <= i < |s| && IsSpace(s[i])
        ensures s[i] == ' ' && 0 < i < |s| - 1 && !IsSpace(s[i - 1]) && !IsSpace(s[i + 1])
      {
        if i < |t| {
          assert false;
        } else if i == |t| {
          assert s[i - 1] == t[|t| - 1];
          assert s[i + 1] == rest[0];
        } else {
          var j := i - |t| - 1;
          assert s[i] == rest[j];
          if j == 0 {
            assert false;
          }
          assert s[i - 1] == rest[j - 1];
          assert s[i + 1] == rest[j + 1];
        }
      }
    }
  }
}
