// Keeping keys out of the log (RedactSecrets in src/platform/Logging.cpp).
module Redaction {

  /** "key=" stands at position i. */
  predicate NeedleAt(s: string, i: int) {
    0 <= i && i + 4 <= |s| && s[i] == 'k' && s[i + 1] == 'e' && s[i + 2] == 'y' && s[i + 3] == '='
  }

  predicate IsDelimiter(c: char) {
    c == '&' || c == ' ' || c == '\t' || c == '\r' || c == '\n' || c == '\"' || c == '\''
  }

  /** find("key=", pos); the length when there is none. */
  function FindNeedle(s: string, pos: nat): (i: nat)
    requires pos <= |s|
    ensures pos <= i <= |s|
    ensures forall k | pos <= k < i :: !NeedleAt(s, k)
    ensures i < |s| ==> NeedleAt(s, i) && i + 4 <= |s|
    decreases |s| - pos
  {
    if pos == |s| || NeedleAt(s, pos) then pos else FindNeedle(s, pos + 1)
  }

  /** find_first_of(delimiters, pos); the length when there is none. */
  function FindDelimiter(s: string, pos: nat): (i: nat)
    requires pos <= |s|
    ensures pos <= i <= |s|
    ensures forall k | pos <= k < i :: !IsDelimiter(s[k])
    ensures i < |s| ==> IsDelimiter(s[i])
    decreases |s| - pos
  {
    if pos == |s| || IsDelimiter(s[pos]) then pos else FindDelimiter(s, pos + 1)
  }

  const REDACTED: string := ['R', 'E', 'D', 'A', 'C', 'T', 'E', 'D']

  /** Where the value of the first "key=" ends. */
  function ValueEnd(s: string): nat
    requires FindNeedle(s, 0) < |s|
  {
    FindDelimiter(s, FindNeedle(s, 0) + 4)
  }

  /** The text with every value after a "key=" replaced, read from left to right. */
  function Redacted(s: string): string
    decreases |s|
  {
    var p := FindNeedle(s, 0);
    if p == |s| then s
    else s[..p + 4] + REDACTED + Redacted(s[ValueEnd(s)..])
  }

  lemma {:induction false} FindInSuffix(s: string, pos: nat, k: nat)
    requires pos + k <= |s|
    ensures FindNeedle(s, pos + k) == pos + FindNeedle(s[pos..], k)
    decreases |s| - k
  {
    assert NeedleAt(s[pos..], k) <==> NeedleAt(s, pos + k);
    if pos + k < |s| {
      FindInSuffix(s, pos, k + 1);
    }
  }

  lemma {:induction false} DelimiterInSuffix(s: string, pos: nat, k: nat)
    requires pos + k <= |s|
    ensures FindDelimiter(s, pos + k) == pos + FindDelimiter(s[pos..], k)
    decreases |s| - k
  {}

  lemma NothingLeft(out: string, read: nat)
    requires read <= |out| && FindNeedle(out, read) == |out|
    ensures out[..read] + Redacted(out[read..]) == out
  {
    FindInSuffix(out, read, 0);
    assert out[..read] + out[read..] == out;
  }

  /** The in-place loop; what is left to read shrinks even where the text grows. */
  method RedactSecrets(text: string) returns (out: string)
    ensures out == Redacted(text)
  {
    hide FindNeedle, FindDelimiter, NeedleAt, IsDelimiter, Redacted;
    out := text;
    var pos := FindNeedle(out, 0);
    ghost var read := 0; // where the search that found pos began
    while pos < |out|
      invariant read <= pos <= |out|
      invariant pos == FindNeedle(out, read)
      invariant out[..read] + Redacted(out[read..]) == Redacted(text)
      decreases |out| - read
    {
      var valueStart := pos + 4;
      var valueEnd := FindDelimiter(out, valueStart);
      LoopStep(out, read, pos, valueEnd);
      out := out[..valueStart] + REDACTED + out[valueEnd..];
      read := valueStart + 8;
      pos := FindNeedle(out, valueStart + 8);
    }
    NothingLeft(out, read);
  }

  lemma RedactedOnce(s: string)
    requires FindNeedle(s, 0) < |s|
    ensures Redacted(s) == s[..FindNeedle(s, 0) + 4] + REDACTED + Redacted(s[ValueEnd(s)..])
  {}

  lemma LoopStep(out: string, read: nat, pos: nat, valueEnd: nat)
    requires read <= pos < |out| && pos == FindNeedle(out, read) && pos + 4 <= |out|
    requires valueEnd == FindDelimiter(out, pos + 4)
    ensures var next := out[..pos + 4] + REDACTED + out[valueEnd..];
            && pos + 12 <= |next| && |next| - (pos + 12) < |out| - read
            && next[..pos + 12] + Redacted(next[pos + 12..]) == out[..read] + Redacted(out[read..])
  {
    hide FindNeedle, FindDelimiter, NeedleAt, IsDelimiter, Redacted;
    var s, p := out[read..], pos - read;
    FindInSuffix(out, read, 0);
    DelimiterInSuffix(out, read, p + 4);
    RedactedOnce(s);
    Splice(out, read, pos + 4, valueEnd);
    Regroup(out[..read], s[..p + 4] + REDACTED, Redacted(out[valueEnd..]));
  }

  lemma Splice(out: string, read: nat, cut: nat, end: nat)
    requires read <= cut <= end <= |out|
    ensures var next, s := out[..cut] + REDACTED + out[end..], out[read..];
            && |next| == cut + 8 + (|out| - end)
            && s[end - read..] == out[end..] && next[cut + 8..] == out[end..]
            && next[..cut + 8] == out[..read] + (s[..cut - read] + REDACTED)
  {}

  lemma Regroup(a: string, b: string, c: string)
    ensures a + b + c == a + (b + c)
  {}

  // --- What it does to one value ---------------------------------------------------------------

  /** No key is announced, up to the end of the text. */
  predicate Announceless(s: string) {
    forall i | 0 <= i && i + 4 <= |s| :: !(s[i] == 'k' && s[i + 1] == 'e' && s[i + 2] == 'y' && s[i + 3] == '=')
  }

  predicate EndsValue(c: char) {
    c in {'&', ' ', '\t', '\r', '\n', '"', '\''}
  }

  lemma {:induction false} NeedleIs(s: string, pos: nat, from: nat)
    requires from <= pos < |s| && NeedleAt(s, pos) && forall i | from <= i < pos :: !NeedleAt(s, i)
    ensures FindNeedle(s, from) == pos
    decreases pos - from
  {
    if from < pos {
      NeedleIs(s, pos, from + 1);
    }
  }

  lemma {:induction false} DelimiterIs(s: string, end: nat, from: nat)
    requires from <= end <= |s| && (end < |s| ==> IsDelimiter(s[end]))
    requires forall i | from <= i < end :: !IsDelimiter(s[i])
    ensures FindDelimiter(s, from) == end
    decreases end - from
  {
    if from < end {
      DelimiterIs(s, end, from + 1);
    }
  }

  lemma NoNeedle(s: string)
    requires Announceless(s)
    ensures Redacted(s) == s
  {
    hide FindNeedle;
    var p := FindNeedle(s, 0);
    assert p < |s| ==> NeedleAt(s, p);
  }

  // Where the value after the first key begins and ends.
  lemma ValueLies(s: string, p: nat, e: nat)
    requires p + 4 <= e <= |s| && Announceless(s[..p + 3]) && s[p..p + 4] == "key="
    requires forall i | p + 4 <= i < e :: !EndsValue(s[i])
    requires e < |s| ==> EndsValue(s[e])
    ensures FindNeedle(s, 0) == p && ValueEnd(s) == e
  {
    hide FindNeedle, FindDelimiter;
    var key := s[p..p + 4];
    assert s[p] == key[0] && s[p + 1] == key[1] && s[p + 2] == key[2] && s[p + 3] == key[3];
    forall i | 0 <= i < p ensures !NeedleAt(s, i) {
      var t := s[..p + 3];
      assert !(t[i] == 'k' && t[i + 1] == 'e' && t[i + 2] == 'y' && t[i + 3] == '=');
    }
    NeedleIs(s, p, 0);
    DelimiterIs(s, e, p + 4);
  }

  lemma KeyRedacted(front: string, tail: string)
    ensures front + "key=" + REDACTED + tail == front + "key=REDACTED" + tail
  {
    assert "key=" + REDACTED == "key=REDACTED";
    assert front + "key=" + REDACTED == front + ("key=" + REDACTED);
  }

  lemma PartsOf(front: string, value: string, rest: string)
    ensures var s, p := front + "key=" + value + rest, |front|;
            var e := p + 4 + |value|;
            && |s| == e + |rest| && s[..p + 3] == front + "key" && s[p..p + 4] == "key="
            && s[p + 4..e] == value && s[e..] == rest && s[..p + 4] == front + "key="
  {}

  /**
   * The whole of a value goes, whatever it is, and nothing else: a value runs to the
   * next '&', blank, tab, carriage return, line feed or quotation mark, or to the end.
   */
  lemma WholeValueGoes(front: string, value: string, rest: string)
    requires Announceless(front + "key")
    requires forall i | 0 <= i < |value| :: !EndsValue(value[i])
    requires rest != [] ==> EndsValue(rest[0])
    ensures Redacted(front + "key=" + value + rest) == front + "key=REDACTED" + Redacted(rest)
    ensures Announceless(rest) ==> Redacted(rest) == rest
  {
    hide FindNeedle, FindDelimiter, NeedleAt, IsDelimiter, Redacted, Announceless, EndsValue;
    var s, p := front + "key=" + value + rest, |front|;
    var e := p + 4 + |value|;
    PartsOf(front, value, rest);
    assert forall i | p + 4 <= i < e :: s[i] == s[p + 4..e][i - (p + 4)];
    assert e < |s| ==> s[e] == s[e..][0];
    ValueLies(s, p, e);
    RedactedOnce(s);
    KeyRedacted(front, Redacted(rest));
    if Announceless(rest) {
      NoNeedle(rest);
    }
  }

  // --- What the result is like ---------------------------------------------------------------

  /** The "key=" at i is followed by REDACTED and then by a delimiter or the end. */
  predicate RedactedAt(s: string, i: nat) {
    i + 12 <= |s| && s[i + 4..i + 12] == REDACTED && (i + 12 == |s| || IsDelimiter(s[i + 12]))
  }

  // The three parts of a redacted text: as before, the replaced value, the rest.
  lemma Parts(s: string)
    requires FindNeedle(s, 0) < |s|
    ensures var p, tail, r := FindNeedle(s, 0), Redacted(s[ValueEnd(s)..]), Redacted(s);
            && p + 4 <= |s| && |r| == p + 12 + |tail|
            && r[..p + 4] == s[..p + 4] && r[p + 4..p + 12] == REDACTED && r[p + 12..] == tail
            && RedactedAt(r, p)
  {}

  lemma NeedleInSuffix(r: string, n: nat, i: nat)
    requires n <= i && n <= |r|
    ensures NeedleAt(r, i) <==> NeedleAt(r[n..], i - n)
  {}

  // Up to the end of the first value the only "key=" is the one that announces it.
  lemma NoOtherNeedle(s: string, p: nat, r: string, i: nat)
    requires p == FindNeedle(s, 0) < |s| && p + 4 <= |s| && p + 12 <= |r|
    requires r[..p + 4] == s[..p + 4] && r[p + 4..p + 12] == REDACTED
    ensures i < p + 12 ==> (NeedleAt(r, i) <==> i == p)
  {
    hide FindNeedle;
    assert NeedleAt(s, p);
    assert forall k | 0 <= k < p + 4 :: r[k] == r[..p + 4][k] == s[k];
    assert forall k | p + 4 <= k < p + 12 :: r[k] == REDACTED[k - (p + 4)];
    if i < p {
      assert !NeedleAt(s, i);
    }
  }

  lemma RedactedShift(r: string, n: nat, j: nat)
    requires n <= |r| && RedactedAt(r[n..], j)
    ensures RedactedAt(r, n + j)
  {}

  lemma NoKeyNoChange(s: string, i: nat)
    requires FindNeedle(s, 0) == |s|
    ensures Redacted(s) == s && !NeedleAt(s, i)
  {}

  /** Every "key=" left in the output announces a redacted value. */
  lemma {:induction false} EveryKeyIsRedacted(s: string, i: nat)
    requires NeedleAt(Redacted(s), i)
    ensures RedactedAt(Redacted(s), i)
    decreases |s|
  {
    hide FindNeedle, FindDelimiter, NeedleAt, IsDelimiter, Redacted, RedactedAt;
    var p := FindNeedle(s, 0);
    if p == |s| {
      NoKeyNoChange(s, i);
    } else {
      var r, e := Redacted(s), ValueEnd(s);
      Parts(s);
      NoOtherNeedle(s, p, r, i);
      if i != p {
        NeedleInSuffix(r, p + 12, i);
        EveryKeyIsRedacted(s[e..], i - (p + 12));
        RedactedShift(r, p + 12, i - (p + 12));
      }
    }
  }

  // Redacting again finds the same place and the same extent.
  lemma SameCut(s: string)
    requires FindNeedle(s, 0) < |s|
    ensures var r := Redacted(s);
            FindNeedle(r, 0) == FindNeedle(s, 0) && FindNeedle(r, 0) < |r|
            && ValueEnd(r) == FindNeedle(s, 0) + 12
  {
    hide FindNeedle, FindDelimiter, NeedleAt, IsDelimiter, Redacted, RedactedAt;
    var p, r := FindNeedle(s, 0), Redacted(s);
    Parts(s);
    NoOtherNeedle(s, p, r, p);
    NoOtherNeedle(s, p, r, FindNeedle(r, 0));
    ValueEndsAt(r, p);
  }

  lemma ValueEndsAt(r: string, p: nat)
    requires RedactedAt(r, p)
    ensures FindDelimiter(r, p + 4) == p + 12
  {}

  lemma {:induction false} RedactionIsIdempotent(s: string)
    ensures Redacted(Redacted(s)) == Redacted(s)
    decreases |s|
  {
    if FindNeedle(s, 0) < |s| {
      Parts(s);
      SameCut(s);
      RedactionIsIdempotent(s[ValueEnd(s)..]);
      var p, r := FindNeedle(s, 0), Redacted(s);
      assert Redacted(r) == r[..p + 4] + REDACTED + Redacted(r[p + 12..]);
    }
  }

  /** The text with every value cut out. */
  function Skeleton(s: string): string
    decreases |s|
  {
    var p := FindNeedle(s, 0);
    if p == |s| then s else s[..p + 4] + Skeleton(s[ValueEnd(s)..])
  }

  /** Everything outside the values is kept, in order. */
  lemma {:induction false} OutsideIsKept(s: string)
    ensures Skeleton(Redacted(s)) == Skeleton(s)
    decreases |s|
  {
    if FindNeedle(s, 0) < |s| {
      Parts(s);
      SameCut(s);
      OutsideIsKept(s[ValueEnd(s)..]);
    }
  }
}
