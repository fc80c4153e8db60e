/**
 * The JavaScript string operations the loader generator relies on:
 * `String.prototype.split` with a one-character separator, `Array.prototype.join`,
 * ASCII upper-casing of a first letter and the decimal rendering of a counter
 * inside a template literal.
 */
module Strings {
  import opened Wrappers

  /** `s.split(c)`: the pieces between occurrences of `c`; never empty. */
  function Split(s: string, c: char): (r: seq<string>)
    ensures |r| >= 1
  {
    if s == [] then [""]
    else if s[0] == c then [""] + Split(s[1..], c)
    else
      var rest := Split(s[1..], c);
      [[s[0]] + rest[0]] + rest[1..]
  }

  /** No piece contains the separator. */
  lemma {:induction false} SplitPiecesAvoidSeparator(s: string, c: char)
    ensures forall i :: 0 <= i < |Split(s, c)| ==> c !in Split(s, c)[i]
  {
    if s != [] {
      SplitPiecesAvoidSeparator(s[1..], c);
    }
  }

  /** Every character of a piece comes from the string that was split. */
  lemma {:induction false} SplitPieceChars(s: string, c: char, i: nat, k: nat)
    requires i < |Split(s, c)| && k < |Split(s, c)[i]|
    ensures Split(s, c)[i][k] in s
  {
    if s != [] {
      var rest := Split(s[1..], c);
      if s[0] == c {
        SplitPieceChars(s[1..], c, i - 1, k);
      } else if i == 0 && k == 0 {
      } else if i == 0 {
        SplitPieceChars(s[1..], c, 0, k - 1);
      } else {
        SplitPieceChars(s[1..], c, i, k);
      }
    }
  }

  /** `s` with every `c` taken out (`s.split(c).join('')`). */
  function Remove(s: string, c: char): (r: string)
    ensures c !in r
    ensures c !in s ==> r == s
  {
    if s == [] then []
    else
      assert s == [s[0]] + s[1..];
      (if s[0] == c then [] else [s[0]]) + Remove(s[1..], c)
  }

  /** Every other character is in `Remove(s, c)` exactly when it is in `s`. */
  lemma {:induction false} RemoveKeeps(s: string, c: char, ch: char)
    requires ch != c
    ensures ch in Remove(s, c) <==> ch in s
  {
    if s != [] {
      assert s == [s[0]] + s[1..];
      RemoveKeeps(s[1..], c, ch);
    }
  }

  /** `xs.join(sep)`. */
  function Join(xs: seq<string>, sep: string): string
  {
    if |xs| == 0 then ""
    else if |xs| == 1 then xs[0]
    else xs[0] + sep + Join(xs[1..], sep)
  }

  /** Splitting and joining again with the same separator gives back the string. */
  lemma {:induction false} JoinSplit(s: string, c: char)
    ensures Join(Split(s, c), [c]) == s
  {
    if s == [] {
    } else if s[0] == c {
      JoinSplit(s[1..], c);
      var rest := Split(s[1..], c);
      assert Split(s, c) == [""] + rest;
      assert ([""] + rest)[1..] == rest;
    } else {
      JoinSplit(s[1..], c);
      var rest := Split(s[1..], c);
      var r := [[s[0]] + rest[0]] + rest[1..];
      assert Split(s, c) == r;
      if |rest| == 1 {
        assert s == [s[0]] + s[1..];
      } else {
        assert r[1..] == rest[1..];
        assert s == [s[0]] + s[1..];
      }
    }
  }

  /** A string without the separator splits into itself alone. */
  lemma {:induction false} SplitWithoutSeparator(s: string, c: char)
    requires c !in s
    ensures Split(s, c) == [s]
  {
    if s != [] {
      SplitWithoutSeparator(s[1..], c);
      assert s == [s[0]] + s[1..];
    }
  }

  /** The position of the first `c` in `s` (`s.indexOf(c)`, with `None` for -1). */
  function IndexOf(s: string, c: char): (r: Option<nat>)
    ensures r.Some? ==> r.value < |s| && s[r.value] == c && c !in s[..r.value]
    ensures r.None? ==> c !in s
  {
    if s == [] then None
    else if s[0] == c then Some(0)
    else match IndexOf(s[1..], c)
      case None => None
      case Some(i) =>
        assert s[..i + 1] == [s[0]] + s[1..][..i];
        Some(i + 1)
  }

  lemma {:induction false} IndexOfAfterPrefix(a: string, c: char, b: string)
    requires c !in a
    ensures IndexOf(a + [c] + b, c) == Some(|a|)
  {
    if a != [] {
      IndexOfAfterPrefix(a[1..], c, b);
      assert (a + [c] + b)[1..] == a[1..] + [c] + b;
    }
  }

  /** A first piece free of the separator is split off whole. */
  lemma {:induction false} SplitAfterPiece(a: string, c: char, b: string)
    requires c !in a
    ensures Split(a + [c] + b, c) == [a] + Split(b, c)
  {
    var s := a + [c] + b;
    if a == [] {
      assert s == [c] + b;
      assert s[1..] == b;
    } else {
      assert s[0] == a[0];
      assert s[1..] == a[1..] + [c] + b;
      SplitAfterPiece(a[1..], c, b);
      assert a == [a[0]] + a[1..];
    }
  }

  /** Splitting maps `a + [c] + b` to the pieces of `a` followed by the pieces of `b`. */
  lemma {:induction false} SplitAppend(a: string, c: char, b: string)
    ensures Split(a + [c] + b, c) == Split(a, c) + Split(b, c)
    decreases |a|
  {
    match IndexOf(a, c)
    case None =>
      SplitWithoutSeparator(a, c);
      SplitAfterPiece(a, c, b);
    case Some(i) =>
      var a1, a2 := a[..i], a[i + 1..];
      assert a == a1 + [c] + a2;
      assert a + [c] + b == a1 + [c] + (a2 + [c] + b);
      SplitAfterPiece(a1, c, a2 + [c] + b);
      SplitAfterPiece(a1, c, a2);
      SplitAppend(a2, c, b);
  }

  /** Joining pieces that do not contain the separator and splitting gives back the pieces. */
  lemma {:induction false} SplitJoin(xs: seq<string>, c: char)
    requires |xs| >= 1
    requires forall i :: 0 <= i < |xs| ==> c !in xs[i]
    ensures Split(Join(xs, [c]), c) == xs
  {
    if |xs| == 1 {
      SplitWithoutSeparator(xs[0], c);
    } else {
      SplitJoin(xs[1..], c);
      SplitAppend(xs[0], c, Join(xs[1..], [c]));
      SplitWithoutSeparator(xs[0], c);
      assert xs == [xs[0]] + xs[1..];
    }
  }

  /** Every line followed by the terminator `c`. */
  function Terminated(lines: seq<string>, c: char): string
  {
    if lines == [] then "" else Terminated(lines[..|lines| - 1], c) + lines[|lines| - 1] + [c]
  }

  /** Splitting terminated lines on the terminator gives the lines back, then whatever follows. */
  lemma {:induction false} SplitTerminated(lines: seq<string>, c: char, rest: string)
    requires forall i :: 0 <= i < |lines| ==> c !in lines[i]
    ensures Split(Terminated(lines, c) + rest, c) == lines + Split(rest, c)
  {
    if lines == [] {
      assert Terminated(lines, c) + rest == rest;
    } else {
      var n := |lines| - 1;
      var pre, tail := lines[..n], lines[n] + [c] + rest;
      calc {
        Split(Terminated(lines, c) + rest, c);
        == { assert Terminated(lines, c) + rest == Terminated(pre, c) + tail; }
        Split(Terminated(pre, c) + tail, c);
        == { assert forall i :: 0 <= i < n ==> pre[i] == lines[i];
             SplitTerminated(pre, c, tail); }
        pre + Split(tail, c);
        == { SplitAppend(lines[n], c, rest);
             SplitWithoutSeparator(lines[n], c); }
        pre + ([lines[n]] + Split(rest, c));
        == { assert lines == pre + [lines[n]]; }
        lines + Split(rest, c);
      }
    }
  }

  /** `xs.map(f).join('')`. */
  function ConcatMap(f: string -> string, xs: seq<string>): string
  {
    if xs == [] then "" else ConcatMap(f, xs[..|xs| - 1]) + f(xs[|xs| - 1])
  }

  lemma {:induction false} ConcatMapAppend(f: string -> string, xs: seq<string>, ys: seq<string>)
    ensures ConcatMap(f, xs + ys) == ConcatMap(f, xs) + ConcatMap(f, ys)
    decreases |ys|
  {
    if ys == [] {
      assert xs + ys == xs;
    } else {
      var n := |ys| - 1;
      assert (xs + ys)[..|xs + ys| - 1] == xs + ys[..n];
      assert (xs + ys)[|xs + ys| - 1] == ys[n];
      ConcatMapAppend(f, xs, ys[..n]);
    }
  }

  lemma {:induction false} ConcatMapEmpty(f: string -> string, xs: seq<string>)
    ensures ConcatMap(f, xs) == "" <==> forall i :: 0 <= i < |xs| ==> f(xs[i]) == ""
  {
    if xs != [] {
      var n := |xs| - 1;
      ConcatMapEmpty(f, xs[..n]);
      assert forall i :: 0 <= i < n ==> xs[..n][i] == xs[i];
    }
  }

  lemma {:induction false} ConcatMapAvoids(f: string -> string, xs: seq<string>, ch: char)
    requires forall i :: 0 <= i < |xs| ==> ch !in f(xs[i])
    ensures ch !in ConcatMap(f, xs)
  {
    if xs != [] {
      var n := |xs| - 1;
      assert forall i :: 0 <= i < n ==> xs[..n][i] == xs[i];
      ConcatMapAvoids(f, xs[..n], ch);
    }
  }

  /** ASCII upper-casing of one character; every other character is unchanged. */
  function UpperChar(ch: char): (u: char)
    ensures 'a' <= ch <= 'z' ==> 'A' <= u <= 'Z' && u as int - 'A' as int == ch as int - 'a' as int
    ensures !('a' <= ch <= 'z') ==> u == ch
  {
    if 'a' <= ch <= 'z' then (ch as int - 'a' as int + 'A' as int) as char else ch
  }

  /** The word with its first character upper-cased (`w[0].toUpperCase() + w.slice(1)`). */
  function Capitalize(w: string): (r: string)
    ensures |r| == |w|
    ensures forall k :: 0 < k < |w| ==> r[k] == w[k]
  {
    if w == [] then [] else [UpperChar(w[0])] + w[1..]
  }

  /** A decimal digit. */
  function DigitChar(d: nat): (ch: char)
    requires d < 10
    ensures '0' <= ch <= '9' && ch as int - '0' as int == d
  {
    (d + '0' as int) as char
  }

  predicate IsDigits(s: string)
  {
    forall k :: 0 <= k < |s| ==> '0' <= s[k] <= '9'
  }

  /** The decimal text of `n`, as a template literal renders a non-negative integer. */
  function NatToString(n: nat): (r: string)
    ensures |r| >= 1 && IsDigits(r)
    ensures r[0] == '0' ==> n == 0
    decreases n
  {
    if n < 10 then [DigitChar(n)] else NatToString(n / 10) + [DigitChar(n % 10)]
  }

  /** The value of a string of decimal digits. */
  function DecimalValue(s: string): nat
    requires IsDigits(s)
  {
    if s == [] then 0
    else DecimalValue(s[..|s| - 1]) * 10 + (s[|s| - 1] as int - '0' as int)
  }

  /** The decimal text of a number reads back as that number. */
  lemma {:induction false} DecimalRoundTrip(n: nat)
    ensures DecimalValue(NatToString(n)) == n
    decreases n
  {
    var s := NatToString(n);
    if n >= 10 {
      DecimalRoundTrip(n / 10);
      assert s[..|s| - 1] == NatToString(n / 10);
    }
  }
}
