/** The Python string operations the pipeline relies on, written out:
    str() of an integer, str.split on a one-character separator,
    str.lower on the option flag, str.count, and concatenation of a list
    of pieces (the buffer that `+=` grows). */
module Text {

  // ---------------------------------------------------------------------------
  // Decimal rendering of integers (Python's str(int))
  // ---------------------------------------------------------------------------

  predicate IsDigit(c: char) {
    '0' <= c <= '9'
  }

  predicate AllDigits(s: string) {
    forall i :: 0 <= i < |s| ==> IsDigit(s[i])
  }

  /** The character of decimal digit d. */
  function Digit(d: nat): (c: char)
    requires d < 10
    ensures IsDigit(c) && c as int - '0' as int == d
  {
    (d + '0' as int) as char
  }

  /** str(n) for a non-negative integer: its digits, most significant first, no leading zeros. */
  function NatToDecimal(n: nat): (s: string)
    ensures |s| >= 1 && AllDigits(s)
    ensures (n < 10) == (|s| == 1)
    ensures s[0] == '0' <==> n == 0
    decreases n
  {
    if n < 10 then [Digit(n)] else NatToDecimal(n / 10) + [Digit(n % 10)]
  }

  /** The number a string of digits denotes. */
  function DecimalValue(s: string): nat
    requires AllDigits(s)
  {
    if s == [] then 0 else DecimalValue(s[..|s| - 1]) * 10 + (s[|s| - 1] as int - '0' as int)
  }

  /** Reading back the digits of str(n) gives n. */
  lemma {:induction false} DecimalRoundTrip(n: nat)
    ensures DecimalValue(NatToDecimal(n)) == n
  {
    if n >= 10 {
      DecimalRoundTrip(n / 10);
      var s := NatToDecimal(n);
      assert s[..|s| - 1] == NatToDecimal(n / 10);
    }
  }

  /** Distinct numbers have distinct decimal renderings. */
  lemma DecimalInjective(m: nat, n: nat)
    requires NatToDecimal(m) == NatToDecimal(n)
    ensures m == n
  {
    DecimalRoundTrip(m);
    DecimalRoundTrip(n);
  }

  /** str(i) for any integer: a minus sign for a negative one, then the digits of its magnitude. */
  function IntToDecimal(i: int): (s: string)
    ensures |s| >= 1
  {
    if i < 0 then "-" + NatToDecimal(-i) else NatToDecimal(i)
  }

  // ---------------------------------------------------------------------------
  // str.split(sep) for a one-character separator, and its inverse sep.join
  // ---------------------------------------------------------------------------

  /** Python's s.split(sep): the pieces between the separators, in order;
      one more piece than there are separators, none containing one. */
  function Split(s: string, sep: char): (parts: seq<string>)
    ensures |parts| == multiset(s)[sep] + 1
    ensures forall k :: 0 <= k < |parts| ==> sep !in parts[k]
    decreases |s|
  {
    if s == [] then [""]
    else
      var rest := Split(s[1..], sep);
      assert s == [s[0]] + s[1..];
      if s[0] == sep then [""] + rest else [[s[0]] + rest[0]] + rest[1..]
  }

  /** Python's sep.join(parts). */
  function Join(parts: seq<string>, sep: char): string
    requires |parts| >= 1
  {
    if |parts| == 1 then parts[0] else parts[0] + [sep] + Join(parts[1..], sep)
  }

  lemma {:induction false} SplitNoSeparator(s: string, sep: char)
    requires sep !in s
    ensures Split(s, sep) == [s]
    decreases |s|
  {
    if s != [] {
      SplitNoSeparator(s[1..], sep);
      assert [s[0]] + s[1..] == s;
    }
  }

  lemma {:induction false} SplitAtFirstSeparator(x: string, y: string, sep: char)
    requires sep !in x
    ensures Split(x + [sep] + y, sep) == [x] + Split(y, sep)
    decreases |x|
  {
    var s := x + [sep] + y;
    if x == [] {
      assert s == [sep] + y;
      assert s[1..] == y;
    } else {
      assert s[0] == x[0] != sep;
      assert s[1..] == x[1..] + [sep] + y;
      SplitAtFirstSeparator(x[1..], y, sep);
      var rest := Split(s[1..], sep);
      assert rest == [x[1..]] + Split(y, sep);
      assert Split(s, sep) == [[s[0]] + rest[0]] + rest[1..];
      assert [x[0]] + x[1..] == x;
    }
  }

  /** Splitting a join of separator-free pieces gives back exactly those pieces. */
  lemma {:induction false} SplitJoin(parts: seq<string>, sep: char)
    requires |parts| >= 1
    requires forall k :: 0 <= k < |parts| ==> sep !in parts[k]
    ensures Split(Join(parts, sep), sep) == parts
    decreases |parts|
  {
    if |parts| == 1 {
      SplitNoSeparator(parts[0], sep);
    } else {
      SplitJoin(parts[1..], sep);
      SplitAtFirstSeparator(parts[0], Join(parts[1..], sep), sep);
      assert [parts[0]] + parts[1..] == parts;
    }
  }

  lemma SplitCons(s: string, sep: char)
    requires s != [] && s[0] != sep
    ensures Split(s, sep) == [[s[0]] + Split(s[1..], sep)[0]] + Split(s[1..], sep)[1..]
  {}
  lemma SplitConsSep(s: string, sep: char)
    requires s != [] && s[0] == sep
    ensures Split(s, sep) == [""] + Split(s[1..], sep)
  {}
  lemma JoinCons(x: string, rest: seq<string>, sep: char)
    requires |rest| >= 1
    ensures Join([x] + rest, sep) == x + [sep] + Join(rest, sep)
  {
    assert ([x] + rest)[1..] == rest;
  }
  lemma JoinHead(c: char, rest: seq<string>, sep: char)
    requires |rest| >= 1
    ensures Join([[c] + rest[0]] + rest[1..], sep) == [c] + Join(rest, sep)
  {
    if |rest| > 1 {
      JoinCons([c] + rest[0], rest[1..], sep);
      JoinCons(rest[0], rest[1..], sep);
      assert [rest[0]] + rest[1..] == rest;
    }
  }
  /** Joining the pieces of a split gives back the original string. */
  lemma {:induction false} JoinSplit(s: string, sep: char)
    ensures Join(Split(s, sep), sep) == s
    decreases |s|
  {
    if s != [] {
      var rest := Split(s[1..], sep);
      JoinSplit(s[1..], sep);
      assert [s[0]] + s[1..] == s;
      if s[0] == sep {
        SplitConsSep(s, sep);
        JoinCons("", rest, sep);
      } else {
        SplitCons(s, sep);
        JoinHead(s[0], rest, sep);
      }
    }
  }

  // ---------------------------------------------------------------------------
  // str.lower() on the option flag
  // ---------------------------------------------------------------------------

  function LowerChar(c: char): char {
    if 'A' <= c <= 'Z' then (c as int + 32) as char else c
  }

  /** s.lower() for ASCII letters; every other character is left as it is. */
  function Lower(s: string): (r: string)
    ensures |r| == |s|
    ensures forall i :: 0 <= i < |s| ==> r[i] == LowerChar(s[i])
  {
    seq(|s|, i requires 0 <= i < |s| => LowerChar(s[i]))
  }

  /** The two spellings that option.lower() == '-r' accepts. */
  lemma LowerIsDashR(s: string)
    ensures Lower(s) == "-r" <==> s == "-r" || s == "-R"
  {
    if Lower(s) == "-r" {
      assert |s| == 2;
      assert LowerChar(s[0]) == '-' && LowerChar(s[1]) == 'r';
      assert s[0] == '-';
      assert s[1] == 'r' || s[1] == 'R';
    }
  }

  // ---------------------------------------------------------------------------
  // str.count(p)
  // ---------------------------------------------------------------------------

  /** Python's s.count(p): non-overlapping occurrences of p, found scanning left to right
      (for the empty pattern, Python answers len(s) + 1). */
  function Count(s: string, p: string): nat
    decreases |s|
  {
    if p == [] then |s| + 1
    else if |s| < |p| then 0
    else if s[..|p|] == p then 1 + Count(s[|p|..], p)
    else Count(s[1..], p)
  }

  /** If a piece starts with a character that does not occur in p, no occurrence of p
      can straddle the boundary in front of it, so counts add up across that boundary. */
  lemma {:induction false} CountAppend(a: string, b: string, p: string)
    requires p != [] && b != [] && b[0] !in p
    ensures Count(a + b, p) == Count(a, p) + Count(b, p)
    decreases |a|
  {
    if a == [] {
      assert a + b == b;
    } else if |a| < |p| {
      if |a + b| >= |p| {
        assert (a + b)[..|p|][|a|] == b[0];
        assert (a + b)[..|p|] != p;
        assert (a + b)[1..] == a[1..] + b;
        CountAppend(a[1..], b, p);
      }
    } else {
      assert (a + b)[..|p|] == a[..|p|];
      if a[..|p|] == p {
        assert (a + b)[|p|..] == a[|p|..] + b;
        CountAppend(a[|p|..], b, p);
      } else {
        assert (a + b)[1..] == a[1..] + b;
        CountAppend(a[1..], b, p);
      }
    }
  }

  /** Characters that cannot start an occurrence of p may be dropped from the front. */
  lemma {:induction false} CountSkip(a: string, b: string, p: string)
    requires p != [] && p[0] !in a
    ensures Count(a + b, p) == Count(b, p)
    decreases |a|
  {
    if a == [] {
      assert a + b == b;
    } else if |a + b| < |p| {
      assert |b| < |p|;
    } else {
      assert (a + b)[..|p|][0] == a[0];
      assert (a + b)[1..] == a[1..] + b;
      CountSkip(a[1..], b, p);
    }
  }

  // ---------------------------------------------------------------------------
  // Concatenation of a list of pieces
  // ---------------------------------------------------------------------------

  /** The concatenation of the pieces, in order (built by appending the last piece,
      as a buffer grows with `+=`). */
  function Flatten<T>(ss: seq<seq<T>>): seq<T>
  {
    if ss == [] then [] else Flatten(ss[..|ss| - 1]) + ss[|ss| - 1]
  }

  lemma {:induction false} FlattenConcat<T>(a: seq<seq<T>>, b: seq<seq<T>>)
    ensures Flatten(a + b) == Flatten(a) + Flatten(b)
    decreases |b|
  {
    if b == [] {
      assert a + b == a;
    } else {
      var init, last := b[..|b| - 1], b[|b| - 1];
      FlattenConcat(a, init);
      assert a + b == (a + init) + [last];
      calc {
        Flatten(a + b);
        Flatten((a + init) + [last]);
        { assert ((a + init) + [last])[..|a + init|] == a + init; }
        Flatten(a + init) + last;
        Flatten(a) + Flatten(init) + last;
        { assert b[..|b| - 1] == init; }
        Flatten(a) + Flatten(b);
      }
    }
  }

  /** Each piece is at most as long as the concatenation of the list holding it. */
  lemma {:induction false} FlattenHoldsPiece<T>(ss: seq<seq<T>>, piece: seq<T>)
    requires piece in ss
    ensures |Flatten(ss)| >= |piece|
    decreases |ss|
  {
    if ss[|ss| - 1] != piece {
      assert piece in ss[..|ss| - 1];
      FlattenHoldsPiece(ss[..|ss| - 1], piece);
    }
  }
}
