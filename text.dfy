/** Strings as the command-line client uses them: Python's ordering of
    strings, `str.replace` of one character, `str.split(".")[-1]` and `str(int)`. */
module Text {
  import opened Wrappers

  /** Python's `a < b` on `str`: lexicographic on code points, and a proper
      prefix is smaller than the longer string. */
  predicate LexLess(a: string, b: string)
    decreases |a|
  {
    if |b| == 0 then false
    else if |a| == 0 then true
    else if a[0] != b[0] then a[0] < b[0]
    else LexLess(a[1..], b[1..])
  }

  lemma {:induction false} LexLessIrreflexive(a: string)
    ensures !LexLess(a, a)
    decreases |a|
  {
    if |a| > 0 {
      LexLessIrreflexive(a[1..]);
    }
  }

  lemma {:induction false} LexLessTransitive(a: string, b: string, c: string)
    requires LexLess(a, b) && LexLess(b, c)
    ensures LexLess(a, c)
    decreases |a|
  {
    if |a| > 0 && a[0] == b[0] && b[0] == c[0] {
      LexLessTransitive(a[1..], b[1..], c[1..]);
    }
  }

  /** Any two different strings are ordered one way or the other. */
  lemma {:induction false} LexLessTotal(a: string, b: string)
    requires a != b
    ensures LexLess(a, b) || LexLess(b, a)
    decreases |a|
  {
    if |a| > 0 && |b| > 0 && a[0] == b[0] {
      assert a == [a[0]] + a[1..] && b == [b[0]] + b[1..];
      LexLessTotal(a[1..], b[1..]);
    }
  }

  lemma {:induction false} LexLessAsymmetric(a: string, b: string)
    requires LexLess(a, b)
    ensures !LexLess(b, a)
    decreases |a|
  {
    if |a| > 0 && a[0] == b[0] {
      LexLessAsymmetric(a[1..], b[1..]);
    }
  }

  /** `a >= b >= c` implies `a >= c`, where `x >= y` is Python's `not (x < y)`. */
  lemma NotLessTransitive(a: string, b: string, c: string)
    requires !LexLess(a, b) && !LexLess(b, c)
    ensures !LexLess(a, c)
  {
    if LexLess(a, c) && a != b && b != c {
      LexLessTotal(a, b);
      LexLessTotal(b, c);
      LexLessTransitive(c, b, a);
      LexLessAsymmetric(a, c);
    }
  }

  /** Number of occurrences of `c` in `s`. */
  function Count(s: string, c: char): nat
  {
    if s == [] then 0 else (if s[0] == c then 1 else 0) + Count(s[1..], c)
  }

  /** `s.replace(c, r)` for a one-character pattern `c`. */
  function Replace(s: string, c: char, r: string): (t: string)
    ensures c !in r ==> c !in t
  {
    if s == [] then []
    else (if s[0] == c then r else [s[0]]) + Replace(s[1..], c, r)
  }

  /** A character found neither in `s` nor in `r` is not in the result. */
  lemma {:induction false} ReplaceKeepsAbsent(s: string, c: char, r: string, d: char)
    requires d !in s && d !in r
    ensures d !in Replace(s, c, r)
  {
    if s != [] {
      assert d !in s[1..];
      ReplaceKeepsAbsent(s[1..], c, r, d);
    }
  }

  /** Replacing distributes over concatenation: each part is replaced in
      place, so the characters other than `c` are kept, in order. */
  lemma {:induction false} ReplaceAppend(a: string, b: string, c: char, r: string)
    ensures Replace(a + b, c, r) == Replace(a, c, r) + Replace(b, c, r)
  {
    if a != [] {
      assert (a + b)[0] == a[0] && (a + b)[1..] == a[1..] + b;
      ReplaceAppend(a[1..], b, c, r);
    } else {
      assert a + b == b;
    }
  }

  /** A string without `c` is left unchanged. */
  lemma {:induction false} ReplaceAbsent(s: string, c: char, r: string)
    requires c !in s
    ensures Replace(s, c, r) == s
  {
    if s != [] {
      assert c !in s[1..];
      ReplaceAbsent(s[1..], c, r);
      assert [s[0]] + s[1..] == s;
    }
  }

  /** The length: each occurrence of `c` is replaced by the whole of `r`. */
  lemma {:induction false} ReplaceLength(s: string, c: char, r: string)
    ensures |Replace(s, c, r)| == |s| - Count(s, c) + Count(s, c) * |r|
  {
    if s != [] {
      ReplaceLength(s[1..], c, r);
    }
  }

  /** `s.split(sep)[-1]`: the part after the last `sep`, or all of `s`. */
  function LastSegment(s: string, sep: char): (t: string)
    ensures sep !in t
  {
    if s == [] then []
    else if s[|s| - 1] == sep then []
    else LastSegment(s[..|s| - 1], sep) + [s[|s| - 1]]
  }

  /** The last segment is a suffix of `s`, preceded by `sep` unless it is
      all of `s`, and it is all of `s` when `s` holds no `sep`. */
  lemma {:induction false} LastSegmentIsSuffix(s: string, sep: char)
    ensures var t := LastSegment(s, sep);
            && |t| <= |s| && t == s[|s| - |t|..]
            && (|t| < |s| ==> s[|s| - |t| - 1] == sep)
            && (sep !in s ==> t == s)
  {
    if s != [] && s[|s| - 1] != sep {
      var init := s[..|s| - 1];
      LastSegmentIsSuffix(init, sep);
      var u := LastSegment(init, sep);
      var t := LastSegment(s, sep);
      assert t == u + [s[|s| - 1]];
      assert s == init + [s[|s| - 1]];
      assert init[|init| - |u|..] + [s[|s| - 1]] == s[|s| - |u| - 1..];
      if |t| < |s| {
        assert s[|s| - |t| - 1] == init[|init| - |u| - 1];
      }
      if sep !in s {
        assert sep !in init;
      }
    }
  }

  /** `s.split(sep)`: the pieces between separators, one more than there
      are separators, none holding the separator. */
  function Split(s: string, sep: char): (parts: seq<string>)
    ensures |parts| == Count(s, sep) + 1
    ensures forall i :: 0 <= i < |parts| ==> sep !in parts[i]
  {
    if s == [] then [""]
    else
      var rest := Split(s[1..], sep);
      if s[0] == sep then [""] + rest
      else [[s[0]] + rest[0]] + rest[1..]
  }

  /** `sep.join(parts)`: the pieces with one separator between neighbours. */
  function Join(parts: seq<string>, sep: char): string
  {
    if parts == [] then ""
    else if |parts| == 1 then parts[0]
    else parts[0] + [sep] + Join(parts[1..], sep)
  }

  /** Joining the pieces with the separator gives the string back, so with
      no piece holding the separator the pieces are fixed exactly. */
  lemma {:induction false} SplitJoins(s: string, sep: char)
    ensures Join(Split(s, sep), sep) == s
  {
    if s != [] {
      var rest := Split(s[1..], sep);
      SplitJoins(s[1..], sep);
      if s[0] == sep {
        assert Split(s, sep) == [""] + rest;
        assert ([""] + rest)[1..] == rest;
      } else {
        var parts := Split(s, sep);
        assert parts == [[s[0]] + rest[0]] + rest[1..];
        assert parts[1..] == rest[1..];
        if |rest| == 1 {
          assert Join(rest, sep) == rest[0];
        } else {
          assert Join(rest, sep) == rest[0] + [sep] + Join(rest[1..], sep);
        }
      }
      assert [s[0]] + s[1..] == s;
    }
  }

  /** A character that does not occur is counted zero times. */
  lemma {:induction false} CountAbsent(s: string, c: char)
    requires c !in s
    ensures Count(s, c) == 0
  {
    if s != [] {
      assert c !in s[1..];
      CountAbsent(s[1..], c);
    }
  }

  /** Splitting the join of pieces free of the separator gives the pieces
      back: `Split` and `Join` are inverse. */
  lemma {:induction false} JoinSplits(parts: seq<string>, sep: char)
    requires parts != []
    requires forall i :: 0 <= i < |parts| ==> sep !in parts[i]
    ensures Split(Join(parts, sep), sep) == parts
  {
    if |parts| == 1 {
      CountAbsent(parts[0], sep);
      SplitJoins(parts[0], sep);
    } else {
      JoinSplits(parts[1..], sep);
      SplitAfterPiece(parts[0], sep, Join(parts[1..], sep));
      assert [parts[0]] + parts[1..] == parts;
    }
  }

  /** Counting over a string extended by one character. */
  lemma {:induction false} CountSnoc(s: string, c: char, x: char)
    ensures Count(s + [c], x) == Count(s, x) + if c == x then 1 else 0
  {
    if s != [] {
      assert (s + [c])[1..] == s[1..] + [c];
      CountSnoc(s[1..], c, x);
    }
  }

  /** The pieces after one more character: a separator opens an empty last
      piece, any other character extends the last piece. */
  function AddChar(p: seq<string>, c: char, sep: char): seq<string>
    requires p != []
  {
    if c == sep then p + [""] else p[..|p| - 1] + [p[|p| - 1] + [c]]
  }

  /** Adding a character commutes with a leading piece. */
  lemma AddCharBehind(x: string, r: seq<string>, c: char, sep: char)
    requires r != []
    ensures AddChar([x] + r, c, sep) == [x] + AddChar(r, c, sep)
  {
    if c != sep {
      assert ([x] + r)[..|r|] == [x] + r[..|r| - 1];
    }
  }

  /** Adding a character to pieces whose first piece grew at the front. */
  lemma AddCharFirstGrown(a: char, r: seq<string>, c: char, sep: char)
    requires r != []
    ensures var q := AddChar(r, c, sep);
            AddChar([[a] + r[0]] + r[1..], c, sep) == [[a] + q[0]] + q[1..]
  {
    var q := AddChar(r, c, sep);
    if c != sep && |r| == 1 {
      assert q == [r[0] + [c]];
      assert [a] + (r[0] + [c]) == [a] + r[0] + [c];
    } else if c != sep {
      assert q[0] == r[0] && q[1..] == r[1..|r| - 1] + [r[|r| - 1] + [c]];
    }
  }

  /** Splitting a string extended by one character adds that character to
      the pieces. */
  lemma {:induction false} SplitSnoc(s: string, c: char, sep: char)
    ensures Split(s + [c], sep) == AddChar(Split(s, sep), c, sep)
  {
    if s == [] {
      assert [] + [c] == [c] && [c][1..] == [];
      assert Split([], sep) == [""];
      if c == sep {
        assert Split([c], sep) == [""] + [""];
      } else {
        assert Split([c], sep) == [[c] + ""] + [""][1..];
        assert "" + [c] == [c] && [c] + "" == [c];
        assert [""][..0] == [] && [""][1..] == [];
      }
    } else {
      var t := s[1..];
      assert (s + [c])[1..] == t + [c] && (s + [c])[0] == s[0];
      SplitSnoc(t, c, sep);
      var r := Split(t, sep);
      if s[0] == sep {
        AddCharBehind("", r, c, sep);
      } else {
        AddCharFirstGrown(s[0], r, c, sep);
      }
    }
  }

  /** `split(sep)[-1]` is the last piece of `split(sep)`. */
  lemma {:induction false} LastSegmentIsLastPiece(s: string, sep: char)
    ensures LastSegment(s, sep) == Split(s, sep)[Count(s, sep)]
    decreases |s|
  {
    if s != [] {
      var init, c := s[..|s| - 1], s[|s| - 1];
      assert s == init + [c];
      LastSegmentIsLastPiece(init, sep);
      SplitSnoc(init, c, sep);
      CountSnoc(init, c, sep);
    }
  }

  /** A piece free of the separator and closed by it is split off whole. */
  lemma {:induction false} SplitAfterPiece(a: string, sep: char, rest: string)
    requires sep !in a
    ensures Split(a + [sep] + rest, sep) == [a] + Split(rest, sep)
  {
    if a == [] {
      assert [] + [sep] + rest == [sep] + rest;
      assert ([sep] + rest)[1..] == rest;
    } else {
      assert (a + [sep] + rest)[1..] == a[1..] + [sep] + rest;
      SplitAfterPiece(a[1..], sep, rest);
      assert [a[0]] + a[1..] == a;
    }
  }

  function DigitChar(d: nat): char
    requires d < 10
  {
    "0123456789"[d]
  }

  function DigitValue(c: char): nat
  {
    if '0' <= c <= '9' then (c - '0') as nat else 0
  }

  /** Decimal digits of a natural number, most significant first. */
  function NatToString(n: nat): (s: string)
    ensures |s| > 0
    ensures forall i :: 0 <= i < |s| ==> '0' <= s[i] <= '9'
    decreases n
  {
    if n < 10 then [DigitChar(n)] else NatToString(n / 10) + [DigitChar(n % 10)]
  }

  /** `str(n)` for a Python `int`. */
  function IntToString(n: int): (s: string)
    ensures |s| > 0
    ensures s[0] == '-' <==> n < 0
  {
    if n < 0 then "-" + NatToString(-n) else NatToString(n)
  }

  /** Value of a string of decimal digits; the inverse of NatToString. */
  function ParseNat(s: string): nat
  {
    if s == [] then 0 else ParseNat(s[..|s| - 1]) * 10 + DigitValue(s[|s| - 1])
  }

  function ParseInt(s: string): int
  {
    if |s| > 0 && s[0] == '-' then 0 - ParseNat(s[1..]) as int else ParseNat(s)
  }

  lemma {:induction false} NatToStringRoundTrip(n: nat)
    ensures ParseNat(NatToString(n)) == n
    decreases n
  {
    if n >= 10 {
      NatToStringRoundTrip(n / 10);
      var s := NatToString(n);
      assert s[..|s| - 1] == NatToString(n / 10);
    }
  }

  /** `int(str(n)) == n`. */
  lemma IntToStringRoundTrip(n: int)
    ensures ParseInt(IntToString(n)) == n
  {
    if n < 0 {
      var m: nat := -n;
      NatToStringRoundTrip(m);
      var s := IntToString(n);
      assert s == "-" + NatToString(m);
      assert s[1..] == NatToString(m);
    } else {
      NatToStringRoundTrip(n);
    }
  }
}
