/** Text helpers shared by the argument parser, the selection logic and the
    URL rendering: splitting on a separator (Python's `str.split(sep)`),
    joining, dropping empty pieces (`filter(None, ...)`), ASCII lower-casing
    and decimal rendering of integers. */
module Strings {

  /** The pieces of `s` between occurrences of `sep`, in order; like Python's
      `s.split(sep)` there is always at least one piece, and `""` gives `[""]`. */
  function Split(s: string, sep: char): (r: seq<string>)
    ensures |r| >= 1
    ensures forall i :: 0 <= i < |r| ==> sep !in r[i]
    decreases |s|
  {
    if s == [] then [""]
    else
      var rest := Split(s[1..], sep);
      if s[0] == sep then [""] + rest
      else [[s[0]] + rest[0]] + rest[1..]
  }

  /** The pieces glued back together with `sep` between neighbours. */
  function Join(xs: seq<string>, sep: char): string
    decreases |xs|
  {
    if xs == [] then ""
    else if |xs| == 1 then xs[0]
    else xs[0] + [sep] + Join(xs[1..], sep)
  }

  /** All pieces, concatenated with nothing in between. */
  function Concat(xs: seq<string>): string
    decreases |xs|
  {
    if xs == [] then "" else xs[0] + Concat(xs[1..])
  }

  /** `s` with every occurrence of `c` deleted. */
  function Remove(s: string, c: char): string
    decreases |s|
  {
    if s == [] then "" else (if s[0] == c then "" else [s[0]]) + Remove(s[1..], c)
  }

  /** Python's `list(filter(None, xs))` on strings: the empty strings dropped. */
  function NonEmpty(xs: seq<string>): (r: seq<string>)
    ensures forall i :: 0 <= i < |r| ==> r[i] != "" && r[i] in xs
    ensures |r| <= |xs|
    decreases |xs|
  {
    if xs == [] then []
    else if xs[0] == "" then NonEmpty(xs[1..])
    else [xs[0]] + NonEmpty(xs[1..])
  }

  /** Splitting then joining with the same separator gives the input back. */
  lemma {:induction false} JoinSplit(s: string, sep: char)
    ensures Join(Split(s, sep), sep) == s
    decreases |s|
  {
    if s != [] {
      var rest := Split(s[1..], sep);
      JoinSplit(s[1..], sep);
      if s[0] == sep {
        assert Split(s, sep) == [""] + rest;
        assert Join([""] + rest, sep) == "" + [sep] + Join(rest, sep);
      } else {
        var r := Split(s, sep);
        assert r == [[s[0]] + rest[0]] + rest[1..];
        if |rest| == 1 {
          assert Join(r, sep) == [s[0]] + rest[0];
        } else {
          assert r[1..] == rest[1..];
          assert Join(rest, sep) == rest[0] + [sep] + Join(rest[1..], sep);
        }
      }
    }
  }

  /** For a piece `a` free of `sep`, splitting `a + t` glues `a` onto the
      first piece of `t`. */
  lemma {:induction false} SplitPrefix(a: string, t: string, sep: char)
    requires sep !in a
    ensures Split(a + t, sep) == [a + Split(t, sep)[0]] + Split(t, sep)[1..]
    decreases |a|
  {
    if a != [] {
      assert (a + t)[1..] == a[1..] + t;
      assert (a + t)[0] == a[0];
      SplitPrefix(a[1..], t, sep);
      assert [a[0]] + (a[1..] + Split(t, sep)[0]) == a + Split(t, sep)[0];
    } else {
      var r := Split(t, sep);
      assert a + t == t;
      assert a + r[0] == r[0];
      assert r == [r[0]] + r[1..];
    }
  }

  /** Joining pieces free of `sep`, then splitting, gives the pieces back. */
  lemma {:induction false} SplitJoin(xs: seq<string>, sep: char)
    requires |xs| >= 1
    requires forall i :: 0 <= i < |xs| ==> sep !in xs[i]
    ensures Split(Join(xs, sep), sep) == xs
    decreases |xs|
  {
    if |xs| == 1 {
      SplitPrefix(xs[0], "", sep);
      assert xs[0] + "" == xs[0];
    } else {
      var t := [sep] + Join(xs[1..], sep);
      assert Join(xs, sep) == xs[0] + t;
      SplitPrefix(xs[0], t, sep);
      SplitJoin(xs[1..], sep);
      assert t[1..] == Join(xs[1..], sep);
      assert Split(t, sep) == [""] + xs[1..];
      assert xs[0] + "" == xs[0];
    }
  }

  /** The empty strings contribute nothing to a concatenation. */
  lemma {:induction false} ConcatNonEmpty(xs: seq<string>)
    ensures Concat(NonEmpty(xs)) == Concat(xs)
    decreases |xs|
  {
    if xs != [] {
      ConcatNonEmpty(xs[1..]);
      if xs[0] != "" {
        assert ([xs[0]] + NonEmpty(xs[1..]))[1..] == NonEmpty(xs[1..]);
      }
    }
  }

  /** Concatenating the pieces of a split deletes the separators. */
  lemma {:induction false} ConcatSplit(s: string, sep: char)
    ensures Concat(Split(s, sep)) == Remove(s, sep)
    decreases |s|
  {
    if s != [] {
      var rest := Split(s[1..], sep);
      ConcatSplit(s[1..], sep);
      if s[0] == sep {
        assert ([""] + rest)[1..] == rest;
      } else {
        var r := [[s[0]] + rest[0]] + rest[1..];
        assert r[1..] == rest[1..];
        assert Concat(rest) == rest[0] + Concat(rest[1..]);
      }
    }
  }

  /** The first piece of a split is the part of `s` before its first `sep`:
      a prefix of `s` free of `sep`, followed in `s` by `sep` unless it is
      all of `s`; a string without `sep` splits into itself alone. */
  lemma {:induction false} SplitHead(s: string, sep: char)
    ensures Split(s, sep)[0] <= s
    ensures |Split(s, sep)[0]| < |s| ==> s[|Split(s, sep)[0]|] == sep
    ensures sep !in s ==> Split(s, sep) == [s]
    decreases |s|
  {
    if s != [] && s[0] != sep {
      SplitHead(s[1..], sep);
      assert s == [s[0]] + s[1..];
      if sep !in s {
        assert sep !in s[1..];
      }
    }
  }

  /** Pieces are kept or dropped one by one, in order: dropping the empty
      pieces of two consecutive stretches is dropping those of the first,
      then those of the second. */
  lemma {:induction false} NonEmptyAppend(a: seq<string>, b: seq<string>)
    ensures NonEmpty(a + b) == NonEmpty(a) + NonEmpty(b)
    decreases |a|
  {
    if a == [] {
      assert a + b == b;
    } else {
      assert (a + b)[0] == a[0];
      assert (a + b)[1..] == a[1..] + b;
      NonEmptyAppend(a[1..], b);
    }
  }

  /** A single piece is dropped exactly when it is empty. */
  lemma NonEmptySingle(x: string)
    ensures NonEmpty([x]) == if x == "" then [] else [x]
  {
    assert [x][1..] == [];
  }

  /** Dropping empty pieces leaves a list that is already free of them. */
  lemma {:induction false} NonEmptyOfNonEmpty(xs: seq<string>)
    requires forall i :: 0 <= i < |xs| ==> xs[i] != ""
    ensures NonEmpty(xs) == xs
    decreases |xs|
  {
    if xs != [] {
      NonEmptyOfNonEmpty(xs[1..]);
    }
  }

  /** ASCII lower-casing of one character. */
  function LowerChar(c: char): char
  {
    if 'A' <= c <= 'Z' then (c as int - 'A' as int + 'a' as int) as char else c
  }

  /** ASCII lower-casing of a string, character by character. */
  function Lower(s: string): (r: string)
    ensures |r| == |s|
    ensures forall i :: 0 <= i < |s| ==> r[i] == LowerChar(s[i])
  {
    seq(|s|, i requires 0 <= i < |s| => LowerChar(s[i]))
  }

  /** The decimal digit for `d`. */
  function Digit(d: int): char
    requires 0 <= d < 10
  {
    "0123456789"[d]
  }

  /** Decimal rendering of a natural number, as Python's `str` gives it. */
  function NatToString(n: nat): string
    decreases n
  {
    if n < 10 then [Digit(n)] else NatToString(n / 10) + [Digit(n % 10)]
  }

  /** Decimal rendering of an integer, with a leading `-` when negative. */
  function IntToString(n: int): string
  {
    if n < 0 then "-" + NatToString(-n) else NatToString(n)
  }

  /** Python's `str(b)` for a boolean. */
  function BoolToString(b: bool): string
  {
    if b then "True" else "False"
  }

  /** Decimal renderings hold only digits and a minus sign. */
  lemma IntToStringChars(n: int)
    ensures forall c :: c in IntToString(n) ==> c == '-' || '0' <= c <= '9'
  {
    NatToStringChars(if n < 0 then -n else n);
  }

  lemma {:induction false} NatToStringChars(n: nat)
    ensures forall c :: c in NatToString(n) ==> '0' <= c <= '9'
    decreases n
  {
    if n >= 10 {
      NatToStringChars(n / 10);
    }
  }
}
