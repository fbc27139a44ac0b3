/** The query strings of QuickBooks requests: percent-encoding, sections 2.1 and 2.3 of RFC 3986. */
module Query {
  import opened Wrappers
  import opened Texts

  type Byte = b: int | 0 <= b < 256

  type Param = (seq<Byte>, seq<Byte>)

  /** Section 2.3 of RFC 3986. */
  predicate IsUnreserved(c: char) {
    'A' <= c <= 'Z' || 'a' <= c <= 'z' || '0' <= c <= '9' || c in {'-', '.', '_', '~'}
  }

  function HexDigit(n: int): (c: char)
    requires 0 <= n < 16
  {
    if n < 10 then ('0' as int + n) as char else ('A' as int + n - 10) as char
  }

  function EncodeByte(b: Byte): string {
    if IsUnreserved(b as char) then [b as char] else ['%', HexDigit(b / 16), HexDigit(b % 16)]
  }

  function Encode(bytes: seq<Byte>): string {
    if bytes == [] then "" else EncodeByte(bytes[0]) + Encode(bytes[1..])
  }

  lemma EncodeNext(value: seq<Byte>, i: nat)
    requires i < |value|
    ensures Encode(value[i..]) == EncodeByte(value[i]) + Encode(value[i + 1..])
  {
    assert value[i..][0] == value[i] && value[i..][1..] == value[i + 1..];
  }

  method PercentEncode(value: seq<Byte>) returns (out: string)
    ensures out == Encode(value)
  {
    hide Encode, IsUnreserved, HexDigit;
    out := "";
    assert value[0..] == value && value[|value|..] == [];
    EncodeNothing();
    assert out + Encode(value[0..]) == Encode(value);
    for i := 0 to |value|
      invariant out + Encode(value[i..]) == Encode(value)
    {
      EncodeNext(value, i);
      var code;
      if IsUnreserved(value[i] as char) {
        code := [value[i] as char];
      } else {
        code := ['%', HexDigit(value[i] / 16), HexDigit(value[i] % 16)];
      }
      assert out + (code + Encode(value[i + 1..])) == (out + code) + Encode(value[i + 1..]);
      out := out + code;
    }
    assert out + [] == out;
  }

  lemma EncodeNothing()
    ensures Encode([]) == ""
  {
  }

  // ---- reading ----

  function HexValue(c: char): Option<int> {
    if '0' <= c <= '9' then Some(c as int - '0' as int)
    else if 'A' <= c <= 'F' then Some(c as int - 'A' as int + 10)
    else if 'a' <= c <= 'f' then Some(c as int - 'a' as int + 10)
    else None
  }

  /** Section 2.1 of RFC 3986: a `%` and two hexadecimal digits of either case stand for a byte. */
  function Decode(s: string): Option<seq<Byte>> {
    if s == "" then Some([])
    else if s[0] == '%' then
      if |s| < 3 || HexValue(s[1]).None? || HexValue(s[2]).None? then None
      else Prepend(16 * HexValue(s[1]).value + HexValue(s[2]).value, Decode(s[3..]))
    else if s[0] as int < 128 then Prepend(s[0] as int, Decode(s[1..]))
    else None
  }

  function Prepend(b: Byte, rest: Option<seq<Byte>>): Option<seq<Byte>> {
    if rest.None? then None else Some([b] + rest.value)
  }

  function ParseParam(s: string): Option<Param> {
    if '=' !in s then None else
    var i := IndexOf(s, '=');
    var key, value := Decode(s[..i]), Decode(s[i + 1..]);
    if key.None? || value.None? then None else Some((key.value, value.value))
  }

  function ParseParams(parts: seq<string>): Option<seq<Param>> {
    if parts == [] then Some([]) else
    var first, rest := ParseParam(parts[0]), ParseParams(parts[1..]);
    if first.None? || rest.None? then None else Some([first.value] + rest.value)
  }

  function ParseQuery(query: string): Option<seq<Param>> { ParseParams(Split(query, '&')) }

  // ---- building ----

  const MINOR_VERSION := "75"

  function QueryOf(params: seq<Param>): string {
    if params == [] then "minorversion=" + MINOR_VERSION
    else Encode(params[0].0) + "=" + Encode(params[0].1) + "&" + QueryOf(params[1..])
  }

  method BuildUrl(companyUrl: string, path: string, params: seq<Param>) returns (url: string)
    ensures url == companyUrl + "/" + path + "?" + QueryOf(params)
  {
    url := companyUrl + "/" + path + "?";
    for i := 0 to |params|
      invariant url + QueryOf(params[i..]) == companyUrl + "/" + path + "?" + QueryOf(params)
    {
      var key := PercentEncode(params[i].0);
      var value := PercentEncode(params[i].1);
      assert params[i..][0] == params[i] && params[i..][1..] == params[i + 1..];
      var pair := key + "=" + value + "&";
      assert url + QueryOf(params[i..]) == url + pair + QueryOf(params[i + 1..]);
      url := url + pair;
    }
    url := url + "minorversion=";
    url := url + MINOR_VERSION;
  }

  // ---- the round trip ----

  lemma HexRoundTrip(b: Byte)
    ensures HexValue(HexDigit(b / 16)) == Some(b / 16) && HexValue(HexDigit(b % 16)) == Some(b % 16)
  {
  }

  lemma ByteIsDecoded(b: Byte, rest: string)
    ensures Decode(EncodeByte(b) + rest) == Prepend(b, Decode(rest))
  {
    HexRoundTrip(b);
    var code := EncodeByte(b);
    assert (code + rest)[|code|..] == rest && (code + rest)[0] == code[0];
  }

  lemma {:induction false} DecodeEncode(bytes: seq<Byte>)
    ensures Decode(Encode(bytes)) == Some(bytes)
  {
    if bytes == [] {
    } else {
      hide Decode, EncodeByte;
      DecodeEncode(bytes[1..]);
      ByteIsDecoded(bytes[0], Encode(bytes[1..]));
      assert bytes == [bytes[0]] + bytes[1..];
    }
  }

  /** The unreserved characters by their codes: letters, digits, and `-`, `.`, `_`, `~`. */
  predicate IsUnreservedCode(b: int) {
    65 <= b <= 90 || 97 <= b <= 122 || 48 <= b <= 57 || b in {45, 46, 95, 126}
  }

  predicate IsUpperHex(c: char) { 48 <= c as int <= 57 || 65 <= c as int <= 70 }

  /** Sections 2.3 and 2.1 of RFC 3986: unreserved characters are not encoded, and hexadecimal digits are upper-case. */
  predicate IsNormalized(s: string) {
    s == "" ||
    if s[0] == '%' then
      && |s| >= 3 && IsUpperHex(s[1]) && IsUpperHex(s[2])
      && !IsUnreservedCode(16 * HexValue(s[1]).value + HexValue(s[2]).value) && IsNormalized(s[3..])
    else IsUnreservedCode(s[0] as int) && IsNormalized(s[1..])
  }

  lemma PlainIsNormalized(c: char, rest: string)
    requires IsUnreservedCode(c as int) && IsNormalized(rest)
    ensures IsNormalized([c] + rest)
  {
    assert ([c] + rest)[1..] == rest;
  }

  lemma EscapeIsNormalized(high: char, low: char, rest: string)
    requires IsUpperHex(high) && IsUpperHex(low) && IsNormalized(rest)
    requires HexValue(high).Some? && HexValue(low).Some?
    requires !IsUnreservedCode(16 * HexValue(high).value + HexValue(low).value)
    ensures IsNormalized(['%', high, low] + rest)
  {
    hide HexValue, IsUpperHex, IsUnreservedCode;
    assert (['%', high, low] + rest)[3..] == rest;
  }

  lemma ByteIsNormalized(b: Byte, rest: string)
    requires IsNormalized(rest)
    ensures IsNormalized(EncodeByte(b) + rest)
  {
    if IsUnreserved(b as char) {
      PlainIsNormalized(b as char, rest);
    } else {
      DigitsAreUpper(b);
      EscapeIsNormalized(HexDigit(b / 16), HexDigit(b % 16), rest);
    }
    hide IsNormalized;
  }

  lemma DigitsAreUpper(b: Byte)
    ensures IsUpperHex(HexDigit(b / 16)) && IsUpperHex(HexDigit(b % 16))
    ensures HexValue(HexDigit(b / 16)) == Some(b / 16) && HexValue(HexDigit(b % 16)) == Some(b % 16)
    ensures IsUnreserved(b as char) <==> IsUnreservedCode(b)
    ensures 16 * (b / 16) + b % 16 == b
  {
  }

  lemma {:induction false} EncodedIsNormalized(bytes: seq<Byte>)
    ensures IsNormalized(Encode(bytes))
  {
    if bytes == [] {
    } else {
      hide IsNormalized, EncodeByte;
      EncodedIsNormalized(bytes[1..]);
      ByteIsNormalized(bytes[0], Encode(bytes[1..]));
    }
  }

  lemma CodeIsEncoded(s: string)
    requires s != "" && IsNormalized(s) && Decode(s).Some?
    ensures var n := if s[0] == '%' then 3 else 1;
            && n <= |s| && IsNormalized(s[n..]) && Decode(s[n..]).Some?
            && Decode(s).value != [] && Decode(s).value[1..] == Decode(s[n..]).value
            && s[..n] == EncodeByte(Decode(s).value[0])
  {
    CodeStandsFirst(s);
    hide IsNormalized, Decode, EncodeByte, HexValue, IsUnreservedCode, IsUpperHex;
    if s[0] == '%' {
      EscapeIsEncoded(s[1], s[2]);
      FirstThree(s);
    } else {
      UnreservedIsEncoded(s[0]);
    }
  }

  lemma FirstThree(s: string)
    requires |s| >= 3
    ensures s[..3] == [s[0], s[1], s[2]]
  {
  }

  lemma UpperHexIsDigit(c: char)
    requires IsUpperHex(c)
    ensures HexValue(c).Some? && 0 <= HexValue(c).value < 16 && HexDigit(HexValue(c).value) == c
  {
  }

  lemma EscapeIsEncoded(high: char, low: char)
    requires IsUpperHex(high) && IsUpperHex(low)
    ensures HexValue(high).Some? && HexValue(low).Some? && 0 <= 16 * HexValue(high).value + HexValue(low).value < 256
    ensures var b := 16 * HexValue(high).value + HexValue(low).value;
            !IsUnreservedCode(b) ==> EncodeByte(b) == ['%', high, low]
  {
    UpperHexIsDigit(high);
    UpperHexIsDigit(low);
    hide HexValue, HexDigit, IsUpperHex;
  }

  lemma UnreservedIsEncoded(c: char)
    requires IsUnreservedCode(c as int)
    ensures EncodeByte(c as int) == [c]
  {
  }

  lemma CodeStandsFirst(s: string)
    requires s != "" && IsNormalized(s) && Decode(s).Some?
    ensures s[0] == '%' ==>
              && |s| >= 3 && IsUpperHex(s[1]) && IsUpperHex(s[2]) && IsNormalized(s[3..]) && Decode(s[3..]).Some?
              && !IsUnreservedCode(16 * HexValue(s[1]).value + HexValue(s[2]).value)
              && Decode(s).value == [16 * HexValue(s[1]).value + HexValue(s[2]).value] + Decode(s[3..]).value
    ensures s[0] != '%' ==>
              && IsUnreservedCode(s[0] as int) && IsNormalized(s[1..]) && Decode(s[1..]).Some?
              && Decode(s).value == [s[0] as int] + Decode(s[1..]).value
  {
  }

  lemma {:induction false} NormalizedIsUnique(s: string, bytes: seq<Byte>)
    requires IsNormalized(s) && Decode(s) == Some(bytes)
    ensures s == Encode(bytes)
    decreases |s|
  {
    if s == "" {
    } else {
      CodeIsEncoded(s);
      hide IsNormalized, Decode, EncodeByte;
      var n := if s[0] == '%' then 3 else 1;
      NormalizedIsUnique(s[n..], bytes[1..]);
      assert s == s[..n] + s[n..];
    }
  }

  /** The encoding of bytes is the one normalised text that decodes to them. */
  lemma EncodeIff(bytes: seq<Byte>, s: string)
    ensures s == Encode(bytes) <==> IsNormalized(s) && Decode(s) == Some(bytes)
  {
    DecodeEncode(bytes);
    EncodedIsNormalized(bytes);
    if IsNormalized(s) && Decode(s) == Some(bytes) {
      NormalizedIsUnique(s, bytes);
    }
  }

  /** Only unreserved characters and `%`: no delimiter of section 2.2 of RFC 3986 can appear. */
  lemma {:induction false} EncodedIsClean(bytes: seq<Byte>)
    ensures forall c | c in Encode(bytes) :: IsUnreserved(c) || c == '%'
    ensures forall c | c in {'&', '=', '?', '#', '+'} :: c !in Encode(bytes)
  {
    if bytes == [] {
    } else {
      EncodedIsClean(bytes[1..]);
      assert forall c | c in EncodeByte(bytes[0]) :: IsUnreserved(c) || c == '%';
    }
  }

  function Ascii(s: string): seq<Byte>
    requires forall c | c in s :: c as int < 128
  {
    if s == "" then [] else
    assert s[0] in s && forall c | c in s[1..] :: c in s;
    [s[0] as int] + Ascii(s[1..])
  }

  const MinorVersionParam: Param := (Ascii("minorversion"), Ascii("75"))

  lemma ParamRoundTrip(param: Param)
    ensures ParseParam(Encode(param.0) + "=" + Encode(param.1)) == Some(param)
    ensures '&' !in Encode(param.0) + "=" + Encode(param.1)
  {
    hide Encode, Decode, IsUnreserved, IndexOf;
    var key, value := Encode(param.0), Encode(param.1);
    EncodedIsClean(param.0);
    EncodedIsClean(param.1);
    IndexAfter(key, '=', value);
    assert (key + "=" + value)[..|key|] == key && (key + "=" + value)[|key| + 1..] == value;
    DecodeEncode(param.0);
    DecodeEncode(param.1);
  }

  lemma {:induction false} UnreservedStays(s: string)
    requires forall c | c in s :: IsUnreserved(c)
    ensures (forall c | c in s :: c as int < 128) && Encode(Ascii(s)) == s
  {
    if s == "" {
    } else {
      assert s[0] in s && forall c | c in s[1..] :: c in s;
      UnreservedStays(s[1..]);
      assert Ascii(s) == [s[0] as int] + Ascii(s[1..]);
      assert s == [s[0]] + s[1..];
    }
  }

  lemma MinorVersionText()
    ensures Encode(MinorVersionParam.0) + "=" + Encode(MinorVersionParam.1) == "minorversion=" + MINOR_VERSION
  {
    hide Ascii, Encode;
    UnreservedStays("minorversion");
    UnreservedStays(MINOR_VERSION);
  }

  lemma OneParam(part: string, param: Param)
    requires '&' !in part && ParseParam(part) == Some(param)
    ensures ParseQuery(part) == Some([param])
  {
    hide ParseParam;
    var parts := [part];
    assert Split(part, '&') == parts && parts[1..] == [] && ParseParams([]) == Some([]);
    assert [param] + [] == [param];
  }

  lemma ParamBefore(part: string, param: Param, query: string, params: seq<Param>)
    requires '&' !in part && ParseParam(part) == Some(param) && ParseQuery(query) == Some(params)
    ensures ParseQuery(part + "&" + query) == Some([param] + params)
  {
    SplitFirst(part, '&', query);
    var parts := [part] + Split(query, '&');
    assert parts[0] == part && parts[1..] == Split(query, '&');
  }

  /** Any list of pairs of byte strings comes back, in order, followed by the minor version. */
  lemma {:induction false} QueryRoundTrip(params: seq<Param>)
    ensures ParseQuery(QueryOf(params)) == Some(params + [MinorVersionParam])
  {
    hide ParseQuery, ParseParam, Encode, Ascii;
    if params == [] {
      MinorVersionText();
      ParamRoundTrip(MinorVersionParam);
      OneParam(QueryOf([]), MinorVersionParam);
      assert params + [MinorVersionParam] == [MinorVersionParam];
    } else {
      ParamRoundTrip(params[0]);
      QueryRoundTrip(params[1..]);
      ParamBefore(Encode(params[0].0) + "=" + Encode(params[0].1), params[0],
                  QueryOf(params[1..]), params[1..] + [MinorVersionParam]);
      assert params + [MinorVersionParam] == [params[0]] + (params[1..] + [MinorVersionParam]);
    }
  }

  /** The query cannot end early: neither `?` nor `#` is in it, so it is what follows the last `?` of the URL. */
  lemma {:induction false} QueryHasNoDelimiters(params: seq<Param>)
    ensures '?' !in QueryOf(params) && '#' !in QueryOf(params)
  {
    if params == [] {
    } else {
      hide Encode;
      EncodedIsClean(params[0].0);
      EncodedIsClean(params[0].1);
      QueryHasNoDelimiters(params[1..]);
    }
  }

  /** Different parameter lists never give the same query. */
  lemma QueryIsInjective(params: seq<Param>, others: seq<Param>)
    requires QueryOf(params) == QueryOf(others)
    ensures params == others
  {
    hide QueryOf, ParseQuery;
    QueryRoundTrip(params);
    QueryRoundTrip(others);
    var all := params + [MinorVersionParam];
    assert params == all[..|all| - 1] && others == all[..|all| - 1];
  }
}
