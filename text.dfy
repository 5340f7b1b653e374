/** The text the experiment scripts produce and read back: decimal numbers
    (`to_string` on an unsigned integer), `join` on a separator and its
    inverse, `split` on a single character. */
module Text {
  predicate IsDigit(c: char)
  {
    '0' <= c <= '9'
  }

  function DigitChar(d: nat): (c: char)
    requires d < 10
    ensures IsDigit(c)
  {
    "0123456789"[d]
  }

  function DigitValue(c: char): (d: nat)
    requires IsDigit(c)
    ensures d < 10
  {
    (c as int - '0' as int) as nat
  }

  lemma DigitRoundTrip(d: nat)
    requires d < 10
    ensures DigitValue(DigitChar(d)) == d
  {
  }

  /** `to_string` on an unsigned integer: its decimal digits, most
      significant first, without leading zeros. */
  function Decimal(n: nat): (s: string)
    ensures 1 <= |s| && forall i :: 0 <= i < |s| ==> IsDigit(s[i])
    ensures n < 10 <==> |s| == 1
    decreases n
  {
    if n < 10 then [DigitChar(n)] else Decimal(n / 10) + [DigitChar(n % 10)]
  }

  /** The value of a string of digits. */
  function ParseDecimal(s: string): nat
    requires forall i :: 0 <= i < |s| ==> IsDigit(s[i])
    decreases |s|
  {
    if s == [] then 0 else 10 * ParseDecimal(s[..|s| - 1]) + DigitValue(s[|s| - 1])
  }

  /** Reading back a rendered number gives the number. */
  lemma {:induction false} DecimalRoundTrip(n: nat)
    ensures ParseDecimal(Decimal(n)) == n
    decreases n
  {
    var s := Decimal(n);
    if n < 10 {
      assert s[..0] == [];
      DigitRoundTrip(n);
    } else {
      DecimalRoundTrip(n / 10);
      assert s[..|s| - 1] == Decimal(n / 10);
      DigitRoundTrip(n % 10);
    }
  }

  lemma DecimalSmall()
    ensures Decimal(3000) == "3000" && Decimal(4000) == "4000"
  {
    assert Decimal(3) == "3" && Decimal(4) == "4";
    assert Decimal(30) == "30" && Decimal(40) == "40";
    assert Decimal(300) == "300" && Decimal(400) == "400";
  }

  /** Two numbers render alike only if they are equal. */
  lemma DecimalInjective(m: nat, n: nat)
    requires Decimal(m) == Decimal(n)
    ensures m == n
  {
    DecimalRoundTrip(m);
    DecimalRoundTrip(n);
  }

  /** `sep.join(parts)`. */
  function Join(parts: seq<string>, sep: char): string
    decreases |parts|
  {
    if parts == [] then ""
    else if |parts| == 1 then parts[0]
    else Join(parts[..|parts| - 1], sep) + [sep] + parts[|parts| - 1]
  }

  function Last(parts: seq<string>): string
    requires 1 <= |parts|
  {
    parts[|parts| - 1]
  }

  /** `parts` with its last piece replaced by `x`. */
  function WithLast(parts: seq<string>, x: string): (r: seq<string>)
    requires 1 <= |parts|
    ensures |r| == |parts| && Last(r) == x && r[..|r| - 1] == parts[..|parts| - 1]
  {
    parts[..|parts| - 1] + [x]
  }

  /** One more character read by `split`: a separator opens a new piece,
      anything else extends the last one. */
  function AddChar(parts: seq<string>, c: char, sep: char): (r: seq<string>)
    requires 1 <= |parts|
    ensures 1 <= |r|
  {
    if c == sep then parts + [""] else WithLast(parts, Last(parts) + [c])
  }

  /** `s.split(sep)`: the pieces between separators, empty ones included;
      the empty string splits into one empty piece. */
  function Split(s: string, sep: char): (parts: seq<string>)
    ensures 1 <= |parts|
    decreases |s|
  {
    if s == [] then [""] else AddChar(Split(s[..|s| - 1], sep), s[|s| - 1], sep)
  }

  lemma SplitSnoc(s: string, c: char, sep: char)
    ensures Split(s + [c], sep) == AddChar(Split(s, sep), c, sep)
  {
    assert (s + [c])[..|s|] == s;
  }

  predicate Free(s: string, sep: char)
  {
    forall i :: 0 <= i < |s| ==> s[i] != sep
  }

  lemma FreeAppend(a: string, b: string, sep: char)
    requires Free(a, sep) && Free(b, sep)
    ensures Free(a + b, sep)
  {
    assert forall i :: |a| <= i < |a + b| ==> (a + b)[i] == b[i - |a|];
  }

  /** A number renders without any character that is not a digit. */
  lemma DecimalFree(n: nat, sep: char)
    requires !IsDigit(sep)
    ensures Free(Decimal(n), sep)
  {
  }

  /** Appending separator-free text extends the last piece. */
  lemma {:induction false} SplitExtend(s: string, t: string, sep: char)
    requires Free(t, sep)
    ensures Split(s + t, sep) == WithLast(Split(s, sep), Last(Split(s, sep)) + t)
    decreases |t|
  {
    var p := Split(s, sep);
    if t == [] {
      assert s + t == s;
      assert Last(p) + t == Last(p);
      assert p[..|p| - 1] + [Last(p)] == p;
    } else {
      var t0, c := t[..|t| - 1], t[|t| - 1];
      SplitExtend(s, t0, sep);
      assert s + t == (s + t0) + [c];
      SplitSnoc(s + t0, c, sep);
      var q := WithLast(p, Last(p) + t0);
      assert AddChar(q, c, sep) == WithLast(q, Last(q) + [c]);
      assert Last(q) + [c] == Last(p) + t;
    }
  }

  lemma JoinSnoc(init: seq<string>, last: string, sep: char)
    requires 1 <= |init|
    ensures Join(init + [last], sep) == Join(init, sep) + [sep] + last
  {
    assert (init + [last])[..|init|] == init;
  }

  /** One more separator-free piece after a join that splits back. */
  lemma SplitJoinSnoc(init: seq<string>, last: string, sep: char)
    requires 1 <= |init| && Free(last, sep)
    requires Split(Join(init, sep), sep) == init
    ensures Split(Join(init + [last], sep), sep) == init + [last]
  {
    var j := Join(init, sep);
    JoinSnoc(init, last, sep);
    SplitSnoc(j, sep, sep);
    assert Split(j + [sep], sep) == init + [""];
    SplitExtend(j + [sep], last, sep);
    assert Last(init + [""]) + last == last;
  }

  /** Splitting a join of separator-free pieces gives the pieces back. */
  lemma {:induction false} SplitJoin(parts: seq<string>, sep: char)
    requires 1 <= |parts|
    requires forall i :: 0 <= i < |parts| ==> Free(parts[i], sep)
    ensures Split(Join(parts, sep), sep) == parts
    decreases |parts|
  {
    if |parts| == 1 {
      assert Join(parts, sep) == "" + parts[0];
      SplitExtend("", parts[0], sep);
    } else {
      var init, last := parts[..|parts| - 1], parts[|parts| - 1];
      assert init + [last] == parts;
      SplitJoin(init, sep);
      SplitJoinSnoc(init, last, sep);
    }
  }

  /** The pieces of a split hold no separator. */
  lemma {:induction false} SplitFree(s: string, sep: char)
    ensures forall i :: 0 <= i < |Split(s, sep)| ==> Free(Split(s, sep)[i], sep)
    decreases |s|
  {
    if s != [] {
      SplitFree(s[..|s| - 1], sep);
    }
  }

  /** Extending the last piece extends the join. */
  lemma JoinWithLast(parts: seq<string>, x: string, sep: char)
    requires 1 <= |parts|
    ensures Join(WithLast(parts, Last(parts) + x), sep) == Join(parts, sep) + x
  {
    var r := WithLast(parts, Last(parts) + x);
    if |parts| > 1 {
      assert r[..|r| - 1] == parts[..|parts| - 1];
    }
  }

  /** Joining the pieces of a split gives the string back. */
  lemma {:induction false} JoinSplit(s: string, sep: char)
    ensures Join(Split(s, sep), sep) == s
    decreases |s|
  {
    if s != [] {
      var s0, c := s[..|s| - 1], s[|s| - 1];
      JoinSplit(s0, sep);
      var p := Split(s0, sep);
      assert s == s0 + [c];
      if c == sep {
        assert (p + [""])[..|p|] == p;
      } else {
        JoinWithLast(p, [c], sep);
      }
    }
  }
}
