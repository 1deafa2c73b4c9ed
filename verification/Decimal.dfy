// Decimal text: `std::to_wstring`, the reading of a high-water mark, and
// FormatThousands (src/platform/StringUtil.cpp).
module Decimal {

  newtype int64 = x: int | -0x8000_0000_0000_0000 <= x < 0x8000_0000_0000_0000
  newtype uint64 = x: int | 0 <= x < 0x1_0000_0000_0000_0000

  function Digit(n: nat): char
    requires n < 10
  {
    (n + '0' as int) as char
  }

  predicate IsDigit(c: char) {
    '0' <= c <= '9'
  }

  predicate AllDigits(s: string) {
    forall i | 0 <= i < |s| :: IsDigit(s[i])
  }

  function DigitValue(c: char): nat {
    if IsDigit(c) then c as int - '0' as int else 0
  }

  /** The shortest decimal text of n. */
  function Text(n: nat): (s: string)
    ensures s != [] && AllDigits(s)
  {
    if n < 10 then [Digit(n)] else Text(n / 10) + [Digit(n % 10)]
  }

  /** The text of a possibly negative number. */
  function SignedText(n: int): string {
    if n < 0 then "-" + Text(-n) else Text(n)
  }

  /** The number a decimal text stands for. */
  function Value(s: string): nat {
    if s == [] then 0 else Value(s[..|s| - 1]) * 10 + DigitValue(s[|s| - 1])
  }

  lemma {:induction false} TextValue(n: nat)
    ensures Value(Text(n)) == n
  {
    if n >= 10 {
      TextValue(n / 10);
      var front := Text(n / 10);
      assert Text(n) == front + [Digit(n % 10)];
      assert (front + [Digit(n % 10)])[..|front|] == front;
    }
  }

  /** Digit groups of three from the right, separated by commas. */
  function Grouped(s: string): string {
    if |s| <= 3 then s else Grouped(s[..|s| - 3]) + "," + s[|s| - 3..]
  }

  // One more digit on the left opens a new group after every third.
  lemma {:induction false} GroupedPrepend(x: char, s: string)
    ensures Grouped([x] + s) ==
            [x] + (if s != [] && |s| % 3 == 0 then "," else "") + Grouped(s)
  {
    var t := [x] + s;
    if |s| > 3 {
      var head := s[..|s| - 3];
      GroupedPrepend(x, head);
      assert t[..|t| - 3] == [x] + head;
      assert t[|t| - 3..] == s[|s| - 3..];
    } else if |s| == 3 {
      assert t[..1] == [x];
      assert t[1..] == s;
    }
  }

  function Reversed(s: string): (r: string)
    ensures |r| == |s|
  {
    if s == [] then [] else Reversed(s[1..]) + [s[0]]
  }

  lemma {:induction false} ReversedAppend(s: string, c: char)
    ensures Reversed(s + [c]) == [c] + Reversed(s)
  {
    if s != [] {
      ReversedAppend(s[1..], c);
      assert (s + [c])[1..] == s[1..] + [c];
    }
  }

  // One turn of the loop in FormatThousands, on the reversed buffer.
  lemma {:induction false} PushStep(out: string, digit: char, done: string)
    requires Reversed(out) == Grouped(done)
    ensures Reversed((if done != [] && |done| % 3 == 0 then out + [','] else out) + [digit]) ==
            Grouped([digit] + done)
  {
    GroupedPrepend(digit, done);
    var g := Grouped(done);
    if done != [] && |done| % 3 == 0 {
      ReversedAppend(out, ',');
      ReversedAppend(out + [','], digit);
      assert [digit] + ([','] + g) == [digit] + "," + g;
    } else {
      ReversedAppend(out, digit);
      assert [digit] + "" + g == [digit] + g;
    }
  }

  function Magnitude(value: int): nat {
    if value < 0 then -value else value
  }

  /** Sign, then the magnitude in groups of three. */
  function Thousands(value: int): string {
    (if value < 0 then "-" else "") + Grouped(Text(Magnitude(value)))
  }

  /**
   * Thousands-separated text of a 64-bit integer. The newtypes make Dafny check
   * that no step leaves its machine range, the minimum included.
   */
  method FormatThousands(value: int64) returns (text: string)
    ensures text == Thousands(value as int)
  {
    var negative := value < 0;
    var magnitude: uint64 :=
      if negative then (-(value + 1)) as uint64 + 1 else value as uint64;
    var digits := Text(magnitude as int);
    var out := "";
    var count := 0;
    while count < |digits|
      invariant count <= |digits|
      invariant Reversed(out) == Grouped(digits[|digits| - count..])
    {
      var digit := digits[|digits| - 1 - count];
      PushStep(out, digit, digits[|digits| - count..]);
      assert digits[|digits| - 1 - count..] == [digit] + digits[|digits| - count..];
      if count != 0 && count % 3 == 0 {
        out := out + [','];
      }
      out := out + [digit];
      count := count + 1;
    }
    assert digits[0..] == digits;
    if negative {
      ReversedAppend(out, '-');
      out := out + ['-'];
    }
    text := Reversed(out);
  }

  function WithoutCommas(s: string): string {
    if s == [] then []
    else if s[0] == ',' then WithoutCommas(s[1..])
    else [s[0]] + WithoutCommas(s[1..])
  }

  function SignedValue(s: string): int {
    if s != [] && s[0] == '-' then -(Value(s[1..]) as int) else Value(s)
  }

  lemma {:induction false} WithoutCommasConcat(a: string, b: string)
    ensures WithoutCommas(a + b) == WithoutCommas(a) + WithoutCommas(b)
  {
    if a == [] {
      assert a + b == b;
    } else {
      assert (a + b)[1..] == a[1..] + b;
      WithoutCommasConcat(a[1..], b);
    }
  }

  lemma {:induction false} WithoutCommasId(s: string)
    requires forall i | 0 <= i < |s| :: s[i] != ','
    ensures WithoutCommas(s) == s
  {
    if s != [] {
      WithoutCommasId(s[1..]);
    }
  }

  lemma {:induction false} UngroupedIsOriginal(s: string)
    requires AllDigits(s)
    ensures WithoutCommas(Grouped(s)) == s
    decreases |s|
  {
    if |s| <= 3 {
      WithoutCommasId(s);
    } else {
      var head, tail := s[..|s| - 3], s[|s| - 3..];
      UngroupedIsOriginal(head);
      WithoutCommasConcat(Grouped(head) + ",", tail);
      WithoutCommasConcat(Grouped(head), ",");
      WithoutCommasId(tail);
      calc {
        WithoutCommas(Grouped(s));
        WithoutCommas(Grouped(head)) + WithoutCommas(",") + tail;
        { assert WithoutCommas(",") == []; }
        head + [] + tail;
        s;
      }
    }
  }

  /** Dropping the commas and reading the rest gives the number back. */
  lemma ThousandsRoundTrip(v: int)
    ensures SignedValue(WithoutCommas(Thousands(v))) == v
  {
    var text := Thousands(v);
    var body := Grouped(Text(Magnitude(v)));
    UngroupedIsOriginal(Text(Magnitude(v)));
    TextValue(Magnitude(v));
    if v < 0 {
      WithoutCommasConcat("-", body);
      WithoutCommasId("-");
      assert WithoutCommas(text) == "-" + Text(Magnitude(v));
      assert ("-" + Text(Magnitude(v)))[1..] == Text(Magnitude(v));
    } else {
      assert text == body;
      assert IsDigit(Text(Magnitude(v))[0]);
    }
  }

  /** Commas stand exactly before each full group of three digits counted from the right. */
  lemma {:induction false} CommaPositions(s: string, i: nat)
    requires AllDigits(s)
    requires i < |Grouped(s)|
    ensures Grouped(s)[i] == ',' <==> (|Grouped(s)| - 1 - i) % 4 == 3
  {
    var g := Grouped(s);
    if |s| > 3 {
      var head := Grouped(s[..|s| - 3]);
      assert |g| == |head| + 4;
      if i < |head| {
        CommaPositions(s[..|s| - 3], i);
        assert g[i] == head[i];
      } else if i > |head| {
        assert g[i] == s[|s| - 3 + (i - |head| - 1)];
      }
    }
  }

  lemma {:induction false} NoLeadingZero(n: nat)
    ensures Text(n)[0] == '0' <==> n == 0
  {
    if n >= 10 {
      NoLeadingZero(n / 10);
    }
  }

  lemma {:induction false} GroupedChars(s: string, i: nat)
    requires AllDigits(s) && i < |Grouped(s)|
    ensures IsDigit(Grouped(s)[i]) || Grouped(s)[i] == ','
  {
    if |s| > 3 {
      var head := Grouped(s[..|s| - 3]);
      if i < |head| {
        GroupedChars(s[..|s| - 3], i);
      } else if i > |head| {
        assert Grouped(s)[i] == s[|s| - 3 + (i - |head| - 1)];
      }
    }
  }

  lemma {:induction false} GroupedStart(s: string)
    requires s != []
    ensures Grouped(s) != [] && Grouped(s)[0] == s[0]
  {
    if |s| > 3 {
      GroupedStart(s[..|s| - 3]);
    }
  }

  /**
   * Nothing but a minus sign before negative numbers, then digits and commas, the first
   * of them a digit, and "0" first only for zero.
   */
  lemma ThousandsIsCanonical(v: int)
    ensures var sign, s := if v < 0 then 1 else 0, Thousands(v);
            && |s| > sign && (v < 0 ==> s[0] == '-')
            && IsDigit(s[sign]) && (s[sign] == '0' <==> v == 0)
            && forall i | sign <= i < |s| :: IsDigit(s[i]) || s[i] == ','
  {
    var digits := Text(Magnitude(v));
    NoLeadingZero(Magnitude(v));
    GroupedStart(digits);
    forall i | 0 <= i < |Grouped(digits)| ensures IsDigit(Grouped(digits)[i]) || Grouped(digits)[i] == ',' {
      GroupedChars(digits, i);
    }
    hide Grouped, Text, IsDigit;
    var s, sign := Thousands(v), if v < 0 then 1 else 0;
    assert forall i | sign <= i < |s| :: s[i] == Grouped(digits)[i - sign];
  }
}
