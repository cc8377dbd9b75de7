/** The two pieces of Go's standard library that the statistics code relies
    on for text: `strings.Split` around a one-character separator and
    `strconv.Itoa`. Strings are sequences of characters; the separator used
    by the model is the ASCII '/', for which bytes and characters agree. */
module Text {

  /** Number of occurrences of `c` in `s`. */
  function Occurrences(s: string, c: char): (n: nat)
    ensures n <= |s|
    ensures n == 0 <==> c !in s
  {
    if s == [] then 0
    else (if s[0] == c then 1 else 0) + Occurrences(s[1..], c)
  }

  /** `strings.Split(s, sep)`: the pieces of `s` around every occurrence of
      `sep`; a string without `sep` gives one piece, the empty string `[""]`. */
  function Split(s: string, sep: char): (parts: seq<string>)
    ensures |parts| == Occurrences(s, sep) + 1
    ensures forall i :: 0 <= i < |parts| ==> sep !in parts[i]
  {
    if s == [] then [""]
    else if s[0] == sep then [""] + Split(s[1..], sep)
    else
      var rest := Split(s[1..], sep);
      [[s[0]] + rest[0]] + rest[1..]
  }

  /** `strings.Join(parts, sep)`: the inverse of `Split`. */
  function Join(parts: seq<string>, sep: char): string
    requires |parts| > 0
  {
    if |parts| == 1 then parts[0]
    else parts[0] + [sep] + Join(parts[1..], sep)
  }

  /** Splitting loses nothing: joining the pieces gives the string back. */
  lemma {:induction false} JoinSplit(s: string, sep: char)
    ensures Join(Split(s, sep), sep) == s
  {
    if s == [] {
    } else if s[0] == sep {
      JoinSplit(s[1..], sep);
      assert Split(s, sep)[1..] == Split(s[1..], sep);
    } else {
      var rest := Split(s[1..], sep);
      JoinSplit(s[1..], sep);
      if |rest| == 1 {
      } else {
        assert ([[s[0]] + rest[0]] + rest[1..])[1..] == rest[1..];
      }
    }
  }

  /** Index 1 of the split exists exactly when the separator occurs. */
  lemma SplitHasSecond(s: string, sep: char)
    ensures |Split(s, sep)| >= 2 <==> sep in s
  {
  }

  /** The piece after the first separator is the text between the first
      separator and the next one (or the end). */
  lemma {:induction false} SecondPiece(pre: string, sep: char, piece: string, post: string)
    requires sep !in pre && sep !in piece
    ensures |Split(pre + [sep] + piece + post, sep)| >= 2
    ensures post == [] || post[0] == sep ==> Split(pre + [sep] + piece + post, sep)[1] == piece
  {
    var x := [sep] + piece + post;
    var s := pre + [sep] + piece + post;
    assert s == pre + x;
    assert sep in s by { assert s[|pre|] == sep; }
    if post == [] || post[0] == sep {
      SplitPrefix(pre, sep, x);
      assert x[1..] == piece + post;
      assert Split(x, sep) == [""] + Split(piece + post, sep);
      SplitPrefix(piece, sep, post);
      assert Split(post, sep)[0] == "";
    }
  }

  /** A run of non-separators followed by `rest` (empty, or starting with the
      separator) is glued onto the first piece of `rest`. */
  lemma {:induction false} SplitPrefix(pre: string, sep: char, rest: string)
    requires sep !in pre
    requires rest == [] || rest[0] == sep
    ensures Split(pre + rest, sep) == [pre + Split(rest, sep)[0]] + Split(rest, sep)[1..]
  {
    if pre == [] {
      assert pre + rest == rest;
    } else {
      assert (pre + rest)[0] == pre[0] && (pre + rest)[1..] == pre[1..] + rest;
      SplitPrefix(pre[1..], sep, rest);
      assert [pre[0]] + (pre[1..] + Split(rest, sep)[0]) == pre + Split(rest, sep)[0];
    }
  }

  function DigitChar(d: int): char
    requires 0 <= d < 10
  {
    "0123456789"[d]
  }

  predicate IsDigit(c: char) { '0' <= c <= '9' }

  function DigitValue(c: char): int
    requires IsDigit(c)
  {
    c as int - '0' as int
  }

  /** Decimal digits of a natural number, most significant first. */
  function NatToString(n: nat): (s: string)
    ensures |s| > 0
    ensures forall i :: 0 <= i < |s| ==> IsDigit(s[i])
  {
    if n < 10 then [DigitChar(n)]
    else NatToString(n / 10) + [DigitChar(n % 10)]
  }

  /** `strconv.Itoa`: decimal text, with a leading '-' for negatives. */
  function IntToString(n: int): (s: string)
    ensures |s| > 0
  {
    if n < 0 then "-" + NatToString(-n) else NatToString(n)
  }

  /** Reads a string of decimal digits back (`strconv.Atoi` on digits). */
  function ParseNat(s: string): nat
    requires forall i :: 0 <= i < |s| ==> IsDigit(s[i])
  {
    if s == [] then 0
    else ParseNat(s[..|s| - 1]) * 10 + DigitValue(s[|s| - 1])
  }

  /** Reads an optionally negative decimal number back. */
  function ParseInt(s: string): int
  {
    if |s| > 0 && s[0] == '-' && forall i :: 1 <= i < |s| ==> IsDigit(s[i]) then 0 - ParseNat(s[1..])
    else if forall i :: 0 <= i < |s| ==> IsDigit(s[i]) then ParseNat(s)
    else 0
  }

  lemma {:induction false} ParseNatToString(n: nat)
    ensures ParseNat(NatToString(n)) == n
  {
    if n >= 10 {
      var s := NatToString(n);
      assert s[..|s| - 1] == NatToString(n / 10);
      ParseNatToString(n / 10);
    }
  }

  /** `Itoa` followed by `Atoi` is the identity. */
  lemma ParseIntToString(n: int)
    ensures ParseInt(IntToString(n)) == n
  {
    ParseNatToString(if n < 0 then -n else n);
    var s := IntToString(n);
    if n < 0 {
      assert s[1..] == NatToString(-n);
    } else {
      assert s[0] != '-' by { assert IsDigit(s[0]); }
    }
  }

  /** A number printed between any two texts can be read back from between
      them. */
  lemma ReadBackInt(prefix: string, n: int, suffix: string)
    ensures var s := prefix + IntToString(n) + suffix;
      ParseInt(s[|prefix|..|s| - |suffix|]) == n
  {
    var s := prefix + IntToString(n) + suffix;
    assert s[|prefix|..|s| - |suffix|] == IntToString(n);
    ParseIntToString(n);
  }

  /** Distinct numbers have distinct decimal texts. */
  lemma IntToStringInjective(a: int, b: int)
    ensures IntToString(a) == IntToString(b) <==> a == b
  {
    ParseIntToString(a);
    ParseIntToString(b);
  }
}
