// Percent-encoding (src/network/UrlEncoder.cpp) and the query strings built from
// it (src/steam/SteamFinancialClient.cpp), against decoding as RFC 3986 has it.
module Query {

  import opened Wrappers

  predicate IsUnreserved(c: byte) {
    65 <= c <= 90 || 97 <= c <= 122 || 48 <= c <= 57 || c == 45 || c == 95 || c == 46 || c == 126
  }

  function HexDigit(value: nat): char
    requires value < 16
  {
    if value < 10 then ('0' as int + value) as char else ('A' as int + (value - 10)) as char
  }

  function Encoded1(c: byte): string {
    if IsUnreserved(c) then [c as int as char]
    else ['%', HexDigit(c as int / 16), HexDigit(c as int % 16)]
  }

  function Encoded(s: seq<byte>): string {
    if s == [] then [] else Encoded1(s[0]) + Encoded(s[1..])
  }

  lemma {:induction false} EncodedAppend(s: seq<byte>, c: byte)
    ensures Encoded(s + [c]) == Encoded(s) + Encoded1(c)
  {
    hide Encoded1;
    if s == [] {
      assert ([] + [c])[1..] == [];
    } else {
      EncodedAppend(s[1..], c);
      assert (s + [c])[1..] == s[1..] + [c];
      assert Encoded1(s[0]) + (Encoded(s[1..]) + Encoded1(c)) == Encoded1(s[0]) + Encoded(s[1..]) + Encoded1(c);
    }
  }

  method EncodeComponent(utf8Value: seq<byte>) returns (out: string)
    ensures out == Encoded(utf8Value)
  {
    out := "";
    for i := 0 to |utf8Value|
      invariant out == Encoded(utf8Value[..i])
    {
      var c := utf8Value[i];
      EncodedAppend(utf8Value[..i], c);
      assert utf8Value[..i + 1] == utf8Value[..i] + [c];
      if IsUnreserved(c) {
        out := out + [c as int as char];
      } else {
        out := out + ['%', HexDigit(c as int / 16), HexDigit(c as int % 16)];
      }
    }
    assert utf8Value[..|utf8Value|] == utf8Value;
  }

  // --- Decoding, after sections 2.1 and 2.3 of RFC 3986 -----------------------------------

  function HexValue(c: char): Option<nat> {
    if '0' <= c <= '9' then Some(c as int - '0' as int)
    else if 'A' <= c <= 'F' then Some(c as int - 'A' as int + 10)
    else if 'a' <= c <= 'f' then Some(c as int - 'a' as int + 10)
    else None
  }

  function Cons(b: byte, rest: Option<seq<byte>>): Option<seq<byte>> {
    if rest.Some? then Some([b] + rest.value) else None
  }

  /** A percent triplet stands for its octet, an unreserved character for itself; nothing else occurs. */
  function Decode(t: string): Option<seq<byte>> {
    if t == [] then Some([])
    else if t[0] == '%' then
      if |t| < 3 then None
      else
        var hi, lo := HexValue(t[1]), HexValue(t[2]);
        if hi.Some? && lo.Some? && hi.value * 16 + lo.value < 256
        then Cons((hi.value * 16 + lo.value) as byte, Decode(t[3..]))
        else None
    else if t[0] as int < 256 && IsUnreserved(t[0] as int as byte) then Cons(t[0] as int as byte, Decode(t[1..]))
    else None
  }

  lemma HexRoundTrip(v: nat)
    requires v < 16
    ensures HexValue(HexDigit(v)) == Some(v)
  {}

  lemma {:induction false} DecodeEncoded(s: seq<byte>)
    ensures Decode(Encoded(s)) == Some(s)
  {
    if s != [] {
      var c, rest := s[0], Encoded(s[1..]);
      var t := Encoded1(c) + rest;
      DecodeEncoded(s[1..]);
      assert s == [c] + s[1..];
      if IsUnreserved(c) {
        assert t[0] == c as int as char && t[1..] == rest;
      } else {
        HexRoundTrip(c as int / 16);
        HexRoundTrip(c as int % 16);
        assert t[1] == HexDigit(c as int / 16) && t[2] == HexDigit(c as int % 16) && t[3..] == rest;
        assert (c as int / 16) * 16 + c as int % 16 == c as int;
      }
    }
  }

  /**
   * Which octets stay as they are: the unreserved characters of section 2.3 of RFC 3986.
   * All others become a percent sign and two hexadecimal digits, in upper case.
   */
  lemma PlainOctets(c: byte)
    ensures var ch := c as int as char;
            Encoded([c]) ==
            if 'A' <= ch <= 'Z' || 'a' <= ch <= 'z' || '0' <= ch <= '9'
               || ch == '-' || ch == '.' || ch == '_' || ch == '~'
            then [ch]
            else ['%', "0123456789ABCDEF"[c as int / 16], "0123456789ABCDEF"[c as int % 16]]
  {
    assert [c][1..] == [];
    HexDigits(c as int / 16);
    HexDigits(c as int % 16);
  }

  lemma HexDigits(v: nat)
    requires v < 16
    ensures HexDigit(v) == "0123456789ABCDEF"[v]
  {}

  predicate Free(s: string, c: char) {
    forall i | 0 <= i < |s| :: s[i] != c
  }

  lemma {:induction false} EncodedIsPlain(s: seq<byte>)
    ensures Free(Encoded(s), '&') && Free(Encoded(s), '=')
  {
    if s != [] {
      EncodedIsPlain(s[1..]);
      var head := Encoded1(s[0]);
      assert Free(head, '&') && Free(head, '=');
    }
  }

  // --- Query strings -----------------------------------------------------------------------

  datatype Param = Param(name: string, value: seq<byte>)

  function Render1(p: Param): string {
    p.name + "=" + Encoded(p.value)
  }

  function Render(ps: seq<Param>): string {
    if ps == [] then ""
    else if |ps| == 1 then Render1(ps[0])
    else Render1(ps[0]) + "&" + Render(ps[1..])
  }

  /** Position of the first c, or the length. */
  function Find(s: string, c: char): (i: nat)
    ensures i <= |s| && Free(s[..i], c) && (i < |s| ==> s[i] == c)
  {
    if s == [] || s[0] == c then 0
    else
      var i := 1 + Find(s[1..], c);
      assert forall k | 0 < k < i :: s[..i][k] == s[1..][..i - 1][k - 1];
      i
  }

  lemma {:induction false} FindAt(a: string, c: char, b: string)
    requires Free(a, c)
    ensures Find(a + [c] + b, c) == |a|
  {
    var s := a + [c] + b;
    if a == [] {
      assert s[0] == c;
    } else {
      assert s[0] == a[0];
      assert s[1..] == a[1..] + [c] + b;
      FindAt(a[1..], c, b);
    }
  }

  lemma FindNone(a: string, c: char)
    requires Free(a, c)
    ensures Find(a, c) == |a|
  {}

  function ReadParam(s: string): Option<Param> {
    var i := Find(s, '=');
    if i == |s| then None
    else
      var v := Decode(s[i + 1..]);
      if v.Some? then Some(Param(s[..i], v.value)) else None
  }

  function Prefixed(p: Option<Param>, rest: Option<seq<Param>>): Option<seq<Param>> {
    if p.Some? && rest.Some? then Some([p.value] + rest.value) else None
  }

  /** Splits at '&', then at the first '=', and decodes the values. */
  function Parse(s: string): Option<seq<Param>>
    decreases |s|
  {
    var i := Find(s, '&');
    if i == |s| then Prefixed(ReadParam(s), Some([]))
    else Prefixed(ReadParam(s[..i]), Parse(s[i + 1..]))
  }

  predicate PlainName(p: Param) {
    Free(p.name, '&') && Free(p.name, '=')
  }

  lemma ReadRendered(p: Param)
    requires PlainName(p)
    ensures ReadParam(Render1(p)) == Some(p)
    ensures Free(Render1(p), '&')
  {
    var v := Encoded(p.value);
    EncodedIsPlain(p.value);
    DecodeEncoded(p.value);
    FindAt(p.name, '=', v);
    assert Render1(p) == p.name + ['='] + v;
    assert Render1(p)[..|p.name|] == p.name;
    assert Render1(p)[|p.name| + 1..] == v;
  }

  /** Whatever bytes the values hold, the query reads back as the very list it was built from. */
  lemma {:induction false} QueryRoundTrip(ps: seq<Param>)
    requires ps != [] && forall p | p in ps :: PlainName(p)
    ensures Parse(Render(ps)) == Some(ps)
  {
    hide ReadParam, Render1, Encoded, Free;
    var first := Render1(ps[0]);
    ReadRendered(ps[0]);
    if |ps| == 1 {
      FindNone(first, '&');
      assert [ps[0]] + [] == ps;
    } else {
      var rest := Render(ps[1..]);
      QueryRoundTrip(ps[1..]);
      FindAt(first, '&', rest);
      var s := first + ['&'] + rest;
      assert Render(ps) == s;
      assert s[..|first|] == first;
      assert s[|first| + 1..] == rest;
      assert [ps[0]] + ps[1..] == ps;
    }
  }

  const ZERO: seq<byte> := [48]

  function OrZero(mark: seq<byte>): seq<byte> {
    if mark == [] then ZERO else mark
  }

  // The parameters of the service, by name.

  function KeyParam(key: seq<byte>): Param { Param("key", key) }

  function GrantsParam(): Param { Param("include_view_grants", [102, 97, 108, 115, 101]) }

  function MarkParam(mark: seq<byte>): Param { Param("highwatermark", OrZero(mark)) }

  function DateParam(date: seq<byte>): Param { Param("date", date) }

  function IdParam(id: seq<byte>): Param { Param("highwatermark_id", OrZero(id)) }

  /** The parameters by their names; a missing mark or page cursor is sent as "0". */
  lemma ParamsAre(key: seq<byte>, mark: seq<byte>, date: seq<byte>, id: seq<byte>)
    ensures [KeyParam(key), GrantsParam(), MarkParam(mark)] ==
            [Param("key", key), Param("include_view_grants", [102, 97, 108, 115, 101]),
             Param("highwatermark", if mark == [] then [48] else mark)]
    ensures [KeyParam(key), GrantsParam(), DateParam(date), IdParam(id)] ==
            [Param("key", key), Param("include_view_grants", [102, 97, 108, 115, 101]),
             Param("date", date), Param("highwatermark_id", if id == [] then [48] else id)]
  {}

  lemma ShortNamesArePlain(v: seq<byte>)
    ensures PlainName(KeyParam(v)) && PlainName(DateParam(v)) && PlainName(MarkParam(v))
  {}

  lemma LongNamesArePlain(v: seq<byte>)
    ensures PlainName(GrantsParam()) && PlainName(IdParam(v))
  {}

  lemma EncodedFalse()
    ensures Encoded([102, 97, 108, 115, 101]) == "false"
  {}

  // The constant part of every query is one parameter.
  lemma GrantsText()
    ensures "&include_view_grants=false" == "&" + Render1(GrantsParam())
  {
    EncodedFalse();
    assert Render1(GrantsParam()) == "include_view_grants" + "=" + "false";
  }

  lemma RenderMore(p: Param, more: seq<Param>)
    requires more != []
    ensures Render([p] + more) == Render1(p) + "&" + Render(more)
  {}

  /** The key and the constant parameter, then whatever the caller adds. */
  method BuildQuery(key: seq<byte>, extra: string) returns (q: string)
    ensures q == Render1(KeyParam(key)) + ("&" + Render1(GrantsParam()))
                 + (if extra == "" then "" else "&" + extra)
  {
    hide Encoded;
    GrantsText();
    q := "key=";
    var encoded := EncodeComponent(key);
    q := q + encoded;
    assert q == Render1(KeyParam(key));
    q := q + "&include_view_grants=false";
    if extra != "" {
      q := q + "&";
      q := q + extra;
    }
  }

  // What BuildQuery returns for rendered extras is the rendering of the whole list.
  lemma WholeQuery(key: seq<byte>, more: seq<Param>)
    requires more != []
    ensures Render1(KeyParam(key)) + ("&" + Render1(GrantsParam())) + ("&" + Render(more)) ==
            Render([KeyParam(key), GrantsParam()] + more)
  {
    hide Render1, Render, KeyParam, GrantsParam;
    var k, g := KeyParam(key), GrantsParam();
    RenderMore(g, more);
    RenderMore(k, [g] + more);
    assert [k, g] + more == [k] + ([g] + more);
    var a, b, c := Render1(k), Render1(g), Render(more);
    assert a + ("&" + b) + ("&" + c) == a + "&" + (b + "&" + c);
  }

  /** The query of GetChangedDates recovers exactly the three intended parameters. */
  method ChangedDatesQuery(key: seq<byte>, highwatermark: seq<byte>) returns (query: string)
    ensures Parse(query) == Some([KeyParam(key), GrantsParam(), MarkParam(highwatermark)])
  {
    hide Encoded, Parse, GrantsParam, KeyParam, PlainName, Render;
    var value := EncodeComponent(if highwatermark == [] then ZERO else highwatermark);
    var extra := "highwatermark=" + value;
    ghost var more := [MarkParam(highwatermark)];
    assert extra == Render(more) by { MarkExtra(highwatermark); }
    query := BuildQuery(key, extra);
    WholeQuery(key, more);
    ShortNamesArePlain(key);
    ShortNamesArePlain(highwatermark);
    LongNamesArePlain(key);
    var ps := [KeyParam(key), GrantsParam(), MarkParam(highwatermark)];
    assert [KeyParam(key), GrantsParam()] + more == ps;
    QueryRoundTrip(ps);
  }

  lemma MarkExtra(mark: seq<byte>)
    ensures "highwatermark=" + Encoded(OrZero(mark)) == Render([MarkParam(mark)])
    ensures Render([MarkParam(mark)]) != ""
  {}

  lemma SalesExtra(date: seq<byte>, id: seq<byte>)
    ensures "date=" + Encoded(date) + "&highwatermark_id=" + Encoded(OrZero(id)) ==
            Render([DateParam(date), IdParam(id)])
    ensures Render([DateParam(date), IdParam(id)]) != ""
  {
    hide Encoded;
    var d, i := Encoded(date), Encoded(OrZero(id));
    RenderMore(DateParam(date), [IdParam(id)]);
    assert [DateParam(date)] + [IdParam(id)] == [DateParam(date), IdParam(id)];
    assert "date=" == "date" + "=";
    assert "&highwatermark_id=" == "&" + ("highwatermark_id" + "=");
    assert "date=" + d + ("&" + ("highwatermark_id" + "=")) + i == "date=" + d + "&" + ("highwatermark_id" + "=" + i);
  }

  /** The query of GetDetailedSales recovers exactly the four intended parameters. */
  method DetailedSalesQuery(key: seq<byte>, date: seq<byte>, highwatermarkId: seq<byte>) returns (query: string)
    ensures Parse(query) == Some([KeyParam(key), GrantsParam(), DateParam(date), IdParam(highwatermarkId)])
  {
    hide Encoded, Parse, GrantsParam, KeyParam, DateParam, IdParam, PlainName, Render;
    var day := EncodeComponent(date);
    var id := EncodeComponent(if highwatermarkId == [] then ZERO else highwatermarkId);
    var extra := "date=" + day + "&highwatermark_id=" + id;
    ghost var more := [DateParam(date), IdParam(highwatermarkId)];
    assert extra == Render(more) && extra != "" by { SalesExtra(date, highwatermarkId); }
    query := BuildQuery(key, extra);
    WholeQuery(key, more);
    ShortNamesArePlain(key);
    ShortNamesArePlain(date);
    LongNamesArePlain(highwatermarkId);
    var ps := [KeyParam(key), GrantsParam(), DateParam(date), IdParam(highwatermarkId)];
    assert [KeyParam(key), GrantsParam()] + more == ps;
    QueryRoundTrip(ps);
  }
}
