/**
 Sequence and string helpers used by the formatter and the handler: Python's `str.join`,
 `str.split`, line splitting, and `str(int)` for integers, each with the lemmas that tie it to
 its inverse.
 */
module Text {

  /** `sep` occurs in `s` starting at position `j`. */
  predicate OccursAt<T(==)>(s: seq<T>, sep: seq<T>, j: nat) {
    j + |sep| <= |s| && s[j..j + |sep|] == sep
  }

  lemma SliceOfTail<T>(s: seq<T>, a: nat, b: nat)
    requires a <= b < |s|
    ensures s[1..][a..b] == s[a + 1..b + 1]
  {
    assert |s[1..][a..b]| == |s[a + 1..b + 1]|;
    forall m | 0 <= m < b - a ensures s[1..][a..b][m] == s[a + 1..b + 1][m] {
    }
  }

  /** The first position at which `sep` occurs in `s`, or `|s|` when it does not occur. */
  function Find<T(==)>(s: seq<T>, sep: seq<T>): (i: nat)
    requires |sep| > 0
    ensures i <= |s|
    ensures i < |s| ==> OccursAt(s, sep, i)
    ensures forall j: nat :: j < i ==> !OccursAt(s, sep, j)
    decreases |s|
  {
    if |s| < |sep| then |s|
    else if s[..|sep|] == sep then 0
    else
      var k := Find(s[1..], sep);
      assert forall j: nat :: 1 <= j ==> (OccursAt(s, sep, j) <==> OccursAt(s[1..], sep, j - 1)) by {
        forall j: nat | 1 <= j
          ensures OccursAt(s, sep, j) <==> OccursAt(s[1..], sep, j - 1)
        {
          if j + |sep| <= |s| {
            SliceOfTail(s, j - 1, j - 1 + |sep|);
          }
        }
      }
      1 + k
  }

  /** `sep.join(xs)`: the elements of `xs` in order, with `sep` between neighbours. */
  function Join<T>(xs: seq<seq<T>>, sep: seq<T>): seq<T>
    decreases |xs|
  {
    if |xs| == 0 then []
    else if |xs| == 1 then xs[0]
    else xs[0] + sep + Join(xs[1..], sep)
  }

  /** `s.split(sep)` for a non-empty separator: cut `s` at each occurrence of `sep`, left to right. */
  function Split<T(==)>(s: seq<T>, sep: seq<T>): (parts: seq<seq<T>>)
    requires |sep| > 0
    ensures |parts| > 0
    decreases |s|
  {
    var i := Find(s, sep);
    if i == |s| then [s] else [s[..i]] + Split(s[i + |sep|..], sep)
  }

  /** `x` does not contain the value `c`. */
  predicate Avoids<T(==)>(x: seq<T>, c: T) {
    c !in x
  }

  /** Every element of `xs` avoids `c`. */
  predicate AllAvoid<T(==)>(xs: seq<seq<T>>, c: T) {
    forall k :: 0 <= k < |xs| ==> Avoids(xs[k], c)
  }

  /** When `x` does not contain the first value of `sep`, the first `sep` in `x + sep + rest` starts right after `x`. */
  lemma {:induction false} FindAfter<T>(x: seq<T>, sep: seq<T>, rest: seq<T>)
    requires |sep| > 0 && Avoids(x, sep[0])
    ensures Find(x + sep + rest, sep) == |x|
    decreases |x|
  {
    var s := x + sep + rest;
    if |x| > 0 {
      assert s[..|sep|][0] == x[0] != sep[0];
      assert s[1..] == x[1..] + sep + rest;
      FindAfter(x[1..], sep, rest);
    } else {
      assert s[..|sep|] == sep;
    }
  }

  /** When `x` does not contain the first value of `sep`, `sep` does not occur in `x`. */
  lemma FindNone<T>(x: seq<T>, sep: seq<T>)
    requires |sep| > 0 && Avoids(x, sep[0])
    ensures Find(x, sep) == |x|
  {
  }

  /** Splitting a join at its separator gives back the elements, when no element contains the separator's first value. */
  lemma {:induction false} SplitJoin<T>(xs: seq<seq<T>>, sep: seq<T>)
    requires |xs| > 0 && |sep| > 0 && AllAvoid(xs, sep[0])
    ensures Split(Join(xs, sep), sep) == xs
    decreases |xs|
  {
    if |xs| == 1 {
      FindNone(xs[0], sep);
    } else {
      var rest := Join(xs[1..], sep);
      var s := xs[0] + sep + rest;
      FindAfter(xs[0], sep, rest);
      assert s[..|xs[0]|] == xs[0];
      assert s[|xs[0]| + |sep|..] == rest;
      SplitJoin(xs[1..], sep);
    }
  }

  /** `t` is a suffix of `s`. */
  predicate EndsWith<T(==)>(s: seq<T>, t: seq<T>) {
    |t| <= |s| && s[|s| - |t|..] == t
  }

  /** A join starts with its first element and ends with its last one: no separator at either end. */
  lemma {:induction false} JoinEnds<T>(xs: seq<seq<T>>, sep: seq<T>)
    requires |xs| > 0
    ensures xs[0] <= Join(xs, sep)
    ensures EndsWith(Join(xs, sep), xs[|xs| - 1])
    decreases |xs|
  {
    if |xs| > 1 {
      JoinEnds(xs[1..], sep);
      var j := Join(xs, sep);
      var r := Join(xs[1..], sep);
      assert j == xs[0] + sep + r;
      assert j[|j| - |r|..] == r;
    }
  }

  /** `JoinEnds` for a first element given by name. */
  lemma JoinStartsWith<T>(xs: seq<seq<T>>, sep: seq<T>, first: seq<T>)
    requires |xs| > 0 && xs[0] == first
    ensures first <= Join(xs, sep)
  {
    JoinEnds(xs, sep);
  }

  /** `JoinEnds` for a last element given by name. */
  lemma JoinEndsWith<T>(xs: seq<seq<T>>, sep: seq<T>, last: seq<T>)
    requires |xs| > 0 && xs[|xs| - 1] == last
    ensures EndsWith(Join(xs, sep), last)
  {
    JoinEnds(xs, sep);
  }

  /** The number of occurrences of `c` in `s`. */
  function Count<T(==)>(s: seq<T>, c: T): nat
    decreases |s|
  {
    if s == [] then 0 else (if s[0] == c then 1 else 0) + Count(s[1..], c)
  }

  lemma {:induction false} CountAppend<T>(a: seq<T>, b: seq<T>, c: T)
    ensures Count(a + b, c) == Count(a, c) + Count(b, c)
    decreases |a|
  {
    if a != [] {
      assert (a + b)[1..] == a[1..] + b;
      CountAppend(a[1..], b, c);
    } else {
      assert a + b == b;
    }
  }

  lemma {:induction false} CountAvoided<T>(a: seq<T>, c: T)
    requires Avoids(a, c)
    ensures Count(a, c) == 0
    decreases |a|
  {
    if a != [] {
      CountAvoided(a[1..], c);
    }
  }

  /** Counting a value absent from every element: each of the `|xs| - 1` separators contributes its own occurrences. */
  lemma {:induction false} JoinCount<T>(xs: seq<seq<T>>, sep: seq<T>, c: T)
    requires |xs| > 0 && AllAvoid(xs, c)
    ensures Count(Join(xs, sep), c) == (|xs| - 1) * Count(sep, c)
    decreases |xs|
  {
    CountAvoided(xs[0], c);
    if |xs| > 1 {
      var rest := Join(xs[1..], sep);
      JoinCount(xs[1..], sep, c);
      CountAppend(xs[0], sep, c);
      CountAppend(xs[0] + sep, rest, c);
      assert Count(Join(xs, sep), c) == Count(sep, c) + (|xs| - 2) * Count(sep, c);
    }
  }

  // ----- Lines -----

  /** Each line followed by a line break: the text a multi-line f-string produces. */
  function Unlines(ls: seq<string>): (r: string)
    ensures Terminated(r)
    ensures ls != [] ==> |r| > 0
    decreases |ls|
  {
    if ls == [] then "" else ls[0] + "\n" + Unlines(ls[1..])
  }

  /** The text of two runs of lines is the text of each, one after the other. */
  lemma {:induction false} UnlinesAppend(a: seq<string>, b: seq<string>)
    ensures Unlines(a + b) == Unlines(a) + Unlines(b)
    decreases |a|
  {
    if a == [] {
      assert a + b == b;
    } else {
      assert (a + b)[1..] == a[1..] + b;
      UnlinesAppend(a[1..], b);
      AppendAssoc(a[0] + "\n", Unlines(a[1..]), Unlines(b));
    }
  }

  /** The lines of `s` (as Python's `s.split("\n")`, without the empty piece after a final line break). */
  function Lines(s: string): seq<string>
    decreases |s|
  {
    if s == "" then []
    else
      var i := Find(s, "\n");
      if i == |s| then [s] else [s[..i]] + Lines(s[i + 1..])
  }

  /** `s` is empty or ends with a line break. */
  predicate Terminated(s: string) {
    s == "" || s[|s| - 1] == '\n'
  }

  /** Splitting terminated lines into lines gives them back. */
  lemma {:induction false} LinesUnlines(ls: seq<string>)
    requires AllAvoid(ls, '\n')
    ensures Lines(Unlines(ls)) == ls
    decreases |ls|
  {
    if ls != [] {
      var rest := Unlines(ls[1..]);
      var s := ls[0] + "\n" + rest;
      FindAfter(ls[0], "\n", rest);
      assert s[..|ls[0]|] == ls[0];
      assert s[|ls[0]| + 1..] == rest;
      LinesUnlines(ls[1..]);
    }
  }

  lemma AppendAssoc<T>(a: seq<T>, b: seq<T>, c: seq<T>)
    ensures a + (b + c) == (a + b) + c
  {
  }

  /** How `Lines` takes off the first line of a text that contains a line break. */
  lemma LinesFirst(s: string, i: nat)
    requires i < |s| && s[i] == '\n' && Avoids(s[..i], '\n')
    ensures Lines(s) == [s[..i]] + Lines(s[i + 1..])
  {
    CutAt(s, i);
    FindAfter(s[..i], "\n", s[i + 1..]);
  }

  lemma CutAt(s: string, i: nat)
    requires i < |s| && s[i] == '\n'
    ensures s == s[..i] + "\n" + s[i + 1..]
  {
    assert [s[i]] == "\n";
    assert s == s[..i] + [s[i]] + s[i + 1..];
  }

  lemma AppendSlices<T>(s: seq<T>, t: seq<T>, j: nat)
    requires j <= |s|
    ensures (s + t)[..j] == s[..j] && (s + t)[j..] == s[j..] + t
  {
  }

  lemma TerminatedDrop(s: string, j: nat)
    requires Terminated(s) && j <= |s|
    ensures Terminated(s[j..])
  {
  }

  lemma SliceOne<T>(s: seq<T>, j: nat)
    requires j < |s|
    ensures s[j..j + 1] == [s[j]]
  {
  }

  /** In a non-empty terminated text, the first line break is found, and no earlier character is one. */
  lemma FirstLineBreak(s: string)
    requires s != "" && Terminated(s)
    ensures var i := Find(s, "\n"); i < |s| && s[i] == '\n' && Avoids(s[..i], '\n')
  {
    var i := Find(s, "\n");
    SliceOne(s, |s| - 1);
    assert OccursAt(s, "\n", |s| - 1);
    SliceOne(s, i);
    forall k | 0 <= k < i ensures s[k] != '\n' {
      assert !OccursAt(s, "\n", k);
      SliceOne(s, k);
    }
  }

  /** The lines of a terminated text followed by another text are the lines of each. */
  lemma {:induction false} LinesAppend(s: string, t: string)
    requires Terminated(s)
    ensures Lines(s + t) == Lines(s) + Lines(t)
    decreases |s|
  {
    if s == "" {
      assert s + t == t;
    } else {
      var i := Find(s, "\n");
      FirstLineBreak(s);
      var st := s + t;
      AppendSlices(s, t, i);
      AppendSlices(s, t, i + 1);
      assert st[i] == '\n';
      LinesFirst(s, i);
      LinesFirst(st, i);
      TerminatedDrop(s, i + 1);
      LinesAppend(s[i + 1..], t);
      AppendAssoc([s[..i]], Lines(s[i + 1..]), Lines(t));
    }
  }

  /** The lines of each element of `xs`. */
  function LinesOfEach(xs: seq<string>): (r: seq<seq<string>>)
    ensures |r| == |xs|
  {
    seq(|xs|, k requires 0 <= k < |xs| => Lines(xs[k]))
  }

  lemma TerminatedAppend(a: string, b: string)
    requires Terminated(a) && Terminated(b)
    ensures Terminated(a + b)
  {
    if b == "" {
      assert a + b == a;
    }
  }

  lemma JoinStep<T>(xs: seq<seq<T>>, sep: seq<T>)
    requires |xs| > 1
    ensures Join(xs, sep) == xs[0] + (sep + Join(xs[1..], sep))
  {
    AppendAssoc(xs[0], sep, Join(xs[1..], sep));
  }

  lemma LinesOfEachStep(xs: seq<string>)
    requires |xs| > 0
    ensures LinesOfEach(xs)[0] == Lines(xs[0]) && LinesOfEach(xs)[1..] == LinesOfEach(xs[1..])
  {
  }

  /** Joining terminated texts with a terminated separator joins their lines with the separator's lines. */
  lemma {:induction false} LinesOfJoin(xs: seq<string>, sep: string)
    requires |xs| > 0 && Terminated(sep)
    requires forall k :: 0 <= k < |xs| ==> Terminated(xs[k])
    ensures Terminated(Join(xs, sep))
    ensures Lines(Join(xs, sep)) == Join(LinesOfEach(xs), Lines(sep))
    decreases |xs|
  {
    LinesOfEachStep(xs);
    if |xs| > 1 {
      var rest := Join(xs[1..], sep);
      LinesOfJoin(xs[1..], sep);
      TerminatedAppend(sep, rest);
      TerminatedAppend(xs[0], sep + rest);
      JoinStep(xs, sep);
      LinesAppend(xs[0], sep + rest);
      LinesAppend(sep, rest);
      JoinStep(LinesOfEach(xs), Lines(sep));
    }
  }

  // ----- Decimal rendering of integers -----

  predicate IsDigit(c: char) {
    '0' as int <= c as int <= '9' as int
  }

  /** A run of decimal digits (possibly empty). */
  predicate AllDigits(s: string) {
    forall k :: 0 <= k < |s| ==> IsDigit(s[k])
  }

  /** The texts Python's `str` gives for integers: digits, after a minus sign when negative. */
  predicate IsIntText(s: string) {
    (|s| > 1 && s[0] == '-' && AllDigits(s[1..])) || (|s| > 0 && AllDigits(s))
  }

  /** The text of a natural number in base ten: digits only, no leading zero. */
  function NatToDecimal(n: nat): (r: string)
    ensures |r| > 0 && AllDigits(r)
    ensures r[0] == '0' ==> n == 0
    decreases n
  {
    if n < 10 then [('0' as int + n) as char]
    else NatToDecimal(n / 10) + [('0' as int + n % 10) as char]
  }

  /** Python's `str(i)` for an integer: a minus sign before the digits of a negative number. */
  function IntToDecimal(i: int): string {
    if i < 0 then "-" + NatToDecimal(-i) else NatToDecimal(i)
  }

  /** The text of an integer is an integer text, with a minus sign exactly when the integer is negative. */
  lemma IntToDecimalIsIntText(i: int)
    ensures IsIntText(IntToDecimal(i))
    ensures IntToDecimal(i)[0] == '-' <==> i < 0
  {
    if i < 0 {
      assert IntToDecimal(i)[1..] == NatToDecimal(-i);
    }
  }

  function DigitValue(c: char): nat
    requires IsDigit(c)
  {
    c as int - '0' as int
  }

  /** The value of a string of decimal digits. */
  function DecimalValue(s: string): nat
    requires AllDigits(s)
    decreases |s|
  {
    if s == "" then 0 else 10 * DecimalValue(s[..|s| - 1]) + DigitValue(s[|s| - 1])
  }

  /** Python's `int(s)` for the texts `str` produces. */
  function ParseInt(s: string): int
    requires IsIntText(s)
  {
    if s[0] == '-' then 0 - DecimalValue(s[1..]) else DecimalValue(s)
  }

  /** An integer text holds only digits and '-', so it avoids every other character. */
  lemma IntTextAvoids(s: string, c: char)
    requires IsIntText(s) && !IsDigit(c) && c != '-'
    ensures Avoids(s, c)
  {
  }

  lemma {:induction false} DecimalRoundTrip(n: nat)
    ensures DecimalValue(NatToDecimal(n)) == n
    decreases n
  {
    if n >= 10 {
      var r := NatToDecimal(n);
      assert r[..|r| - 1] == NatToDecimal(n / 10);
      DecimalRoundTrip(n / 10);
    }
  }

  /** Rendering an integer and reading it back gives the integer: `str` loses nothing. */
  lemma IntToDecimalRoundTrip(i: int)
    ensures IsIntText(IntToDecimal(i)) && ParseInt(IntToDecimal(i)) == i
  {
    IntToDecimalIsIntText(i);
    if i < 0 {
      var r := IntToDecimal(i);
      assert r[1..] == NatToDecimal(-i);
      DecimalRoundTrip(-i);
    } else {
      DecimalRoundTrip(i);
    }
  }
}
