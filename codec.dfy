/**
 * The records the storage persists and their payload encoding.
 *
 * The payload has the shape json.Marshal gives these records: an object whose
 * fields are named after the record's fields and whose byte fields are quoted
 * strings. Byte fields are written as lower-case hex digits here; that
 * detail is this model's own, and all the storage relies on is the round trip
 * and that malformed payloads are refused.
 */
module Codec {
  import opened Wrappers

  type byte = x: int | 0 <= x < 256

  /** A domain's certificate material (caddytls.SiteData). */
  datatype SiteData = SiteData(cert: seq<byte>, key: seq<byte>, meta: seq<byte>)

  /** An ACME account (caddytls.UserData). */
  datatype UserData = UserData(reg: seq<byte>, key: seq<byte>)

  function HexDigit(n: int): char
    requires 0 <= n < 16
  {
    if n < 10 then ('0' as int + n) as char else ('a' as int + n - 10) as char
  }

  function HexValue(c: char): (r: Option<int>)
    ensures r.Some? ==> 0 <= r.value < 16 && HexDigit(r.value) == c
  {
    if '0' <= c <= '9' then Some(c as int - '0' as int)
    else if 'a' <= c <= 'f' then Some(c as int - 'a' as int + 10)
    else None
  }

  /** Two hex digits per byte, high nibble first. */
  function HexEncode(bs: seq<byte>): (h: string)
    ensures |h| == 2 * |bs|
    ensures forall i :: 0 <= i < |h| ==> HexValue(h[i]).Some?
  {
    if bs == [] then ""
    else [HexDigit(bs[0] / 16), HexDigit(bs[0] % 16)] + HexEncode(bs[1..])
  }

  function HexDecode(h: string): (r: Option<seq<byte>>)
    ensures r.Some? ==> |h| == 2 * |r.value|
    decreases |h|
  {
    if |h| == 0 then Some([])
    else if |h| == 1 then None
    else match (HexValue(h[0]), HexValue(h[1]), HexDecode(h[2..]))
      case (Some(hi), Some(lo), Some(rest)) => Some([hi * 16 + lo] + rest)
      case _ => None
  }

  lemma {:induction false} HexRoundTrip(bs: seq<byte>)
    ensures HexDecode(HexEncode(bs)) == Some(bs)
  {
    if bs != [] {
      HexRoundTrip(bs[1..]);
      var h := HexEncode(bs);
      assert h[2..] == HexEncode(bs[1..]);
      assert [bs[0] / 16 * 16 + bs[0] % 16] + bs[1..] == bs;
    }
  }

  /** Hex decoding gives back only what encodes to the same digits: the converse of HexRoundTrip. */
  lemma {:induction false} HexDecodeInverse(h: string)
    requires HexDecode(h).Some?
    ensures HexEncode(HexDecode(h).value) == h
    decreases |h|
  {
    if |h| >= 2 {
      var hi, lo := HexValue(h[0]).value, HexValue(h[1]).value;
      var rest := HexDecode(h[2..]).value;
      HexDecodeInverse(h[2..]);
      var b := hi * 16 + lo;
      assert b / 16 == hi && b % 16 == lo;
      var bs := HexDecode(h).value;
      assert bs == [b] + rest;
      assert bs[1..] == rest;
      assert HexEncode(bs) == [HexDigit(hi), HexDigit(lo)] + h[2..];
      assert [h[0], h[1]] + h[2..] == h;
    }
  }

  /** Splits s before the first occurrence of c (the second part is empty when c does not occur). */
  function SplitAt(s: string, c: char): (r: (string, string))
    ensures r.0 + r.1 == s
    ensures c !in r.0
    ensures r.1 == [] || r.1[0] == c
  {
    if s == [] then ([], [])
    else if s[0] == c then ([], s)
    else
      var (before, from) := SplitAt(s[1..], c);
      ([s[0]] + before, from)
  }

  lemma {:induction false} SplitAtFirst(h: string, c: char, rest: string)
    requires c !in h
    ensures SplitAt(h + [c] + rest, c) == (h, [c] + rest)
  {
    var s := h + [c] + rest;
    if h == [] {
      assert s == [c] + rest;
    } else {
      assert s[0] == h[0] != c;
      assert s[1..] == h[1..] + [c] + rest;
      SplitAtFirst(h[1..], c, rest);
      assert [h[0]] + h[1..] == h;
    }
  }

  /** Consumes the literal lit at the head of s. */
  function Expect(lit: string, s: string): (r: Option<string>)
    ensures r.Some? <==> lit <= s
    ensures r.Some? ==> s == lit + r.value
  {
    if lit <= s then Some(s[|lit|..]) else None
  }

  /** One field: "Name":"hex". */
  function Field(name: string, bs: seq<byte>): string
  {
    "\"" + name + "\":\"" + HexEncode(bs) + "\""
  }

  /** Reads the field name at the head of s; gives its bytes and what follows it. */
  function ParseField(name: string, s: string): Option<(seq<byte>, string)>
  {
    var r :- Expect("\"" + name + "\":\"", s);
    var (h, from) := SplitAt(r, '"');
    if from == [] then None
    else
      var bs :- HexDecode(h);
      Some((bs, from[1..]))
  }

  lemma ParseFieldRoundTrip(name: string, bs: seq<byte>, rest: string)
    ensures ParseField(name, Field(name, bs) + rest) == Some((bs, rest))
  {
    var lit := "\"" + name + "\":\"";
    var h := HexEncode(bs);
    assert Field(name, bs) + rest == lit + (h + ['"'] + rest);
    assert '"' !in h by {
      assert HexValue('"').None?;
    }
    SplitAtFirst(h, '"', rest);
    HexRoundTrip(bs);
  }

  /** A parsed field is the encoding of the bytes it gives, followed by the rest it gives. */
  lemma ParseFieldInverse(name: string, s: string, bs: seq<byte>, rest: string)
    requires ParseField(name, s) == Some((bs, rest))
    ensures s == Field(name, bs) + rest
  {
    var lit := "\"" + name + "\":\"";
    var h := ParsedDigits(name, s, bs, rest);
    HexDecodeInverse(h);
    FieldConcat(lit, h, rest);
  }

  /** The pieces ParseField cuts s into: the literal head, the hex digits, a quote, and the rest. */
  lemma ParsedDigits(name: string, s: string, bs: seq<byte>, rest: string) returns (h: string)
    requires ParseField(name, s) == Some((bs, rest))
    ensures HexDecode(h) == Some(bs)
    ensures s == ("\"" + name + "\":\"") + (h + (['"'] + rest))
  {
    var lit := "\"" + name + "\":\"";
    var r := Expect(lit, s).value;
    var split := SplitAt(r, '"');
    var from := split.1;
    h := split.0;
    assert from != [] && HexDecode(h) == Some(bs) && rest == from[1..];
    assert from == ['"'] + rest;
  }

  lemma FieldConcat(lit: string, h: string, rest: string)
    ensures lit + (h + (['"'] + rest)) == lit + h + "\"" + rest
  {
  }

  /**
   * The site payload: a brace-delimited object with the fields Cert, Key and
   * Meta in that order, each byte taking two characters.
   */
  function EncodeSite(d: SiteData): (e: string)
    ensures "{\"Cert\":\"" <= e && e[|e| - 1] == '}'
    ensures |e| == 30 + 2 * (|d.cert| + |d.key| + |d.meta|)
  {
    "{" + Field("Cert", d.cert) + "," + Field("Key", d.key) + "," + Field("Meta", d.meta) + "}"
  }

  /** Decodes a site payload; an empty or malformed payload gives None, never a partial record. */
  function DecodeSite(s: string): (r: Option<SiteData>)
    ensures r.Some? ==> |s| > 0 && s[0] == '{'
  {
    var r0 :- Expect("{", s);
    var cert :- ParseField("Cert", r0);
    var r1 :- Expect(",", cert.1);
    var key :- ParseField("Key", r1);
    var r2 :- Expect(",", key.1);
    var meta :- ParseField("Meta", r2);
    var _ :- Expect("}", meta.1);
    Some(SiteData(cert.0, key.0, meta.0))
  }

  /**
   * The user payload: a brace-delimited object with the fields Reg and Key
   * in that order, each byte taking two characters.
   */
  function EncodeUser(u: UserData): (e: string)
    ensures "{\"Reg\":\"" <= e && e[|e| - 1] == '}'
    ensures |e| == 19 + 2 * (|u.reg| + |u.key|)
  {
    "{" + Field("Reg", u.reg) + "," + Field("Key", u.key) + "}"
  }

  /** Decodes a user payload; an empty or malformed payload gives None, never a partial record. */
  function DecodeUser(s: string): (r: Option<UserData>)
    ensures r.Some? ==> |s| > 0 && s[0] == '{'
  {
    var r0 :- Expect("{", s);
    var reg :- ParseField("Reg", r0);
    var r1 :- Expect(",", reg.1);
    var key :- ParseField("Key", r1);
    var _ :- Expect("}", key.1);
    Some(UserData(reg.0, key.0))
  }

  /** A site decodes from exactly those payloads that start with its encoding. */
  lemma DecodeSiteExactly(s: string, d: SiteData)
    ensures DecodeSite(s) == Some(d) <==> EncodeSite(d) <= s
  {
    if EncodeSite(d) <= s {
      var trailer := s[|EncodeSite(d)|..];
      SiteDecodesWithTrailer(d, trailer);
      assert s == EncodeSite(d) + trailer;
    }
    if DecodeSite(s) == Some(d) {
      DecodedSiteIsEncoded(s);
    }
  }

  lemma DecodedSiteIsEncoded(s: string)
    requires DecodeSite(s).Some?
    ensures EncodeSite(DecodeSite(s).value) <= s
  {
    var d := DecodeSite(s).value;
    var r0 := Expect("{", s).value;
    var cert := ParseField("Cert", r0).value;
    ParseFieldInverse("Cert", r0, cert.0, cert.1);
    var r1 := Expect(",", cert.1).value;
    var key := ParseField("Key", r1).value;
    ParseFieldInverse("Key", r1, key.0, key.1);
    var r2 := Expect(",", key.1).value;
    var meta := ParseField("Meta", r2).value;
    ParseFieldInverse("Meta", r2, meta.0, meta.1);
    var r3 := Expect("}", meta.1).value;
    var c, k, m := Field("Cert", d.cert), Field("Key", d.key), Field("Meta", d.meta);
    assert s == "{" + (c + ("," + (k + ("," + (m + ("}" + r3))))));
    Assoc6("{", c, ",", k, ",", m, "}", r3);
  }

  /** Regrouping a concatenation of encoding pieces. */
  lemma Assoc6(a: string, b: string, c: string, d: string, e: string, f: string, g: string, h: string)
    ensures a + (b + (c + (d + (e + (f + (g + h)))))) == a + b + c + d + e + f + g + h
  {
  }

  lemma SiteDecodesWithTrailer(d: SiteData, trailer: string)
    ensures DecodeSite(EncodeSite(d) + trailer) == Some(d)
  {
    var c, k, m := Field("Cert", d.cert), Field("Key", d.key), Field("Meta", d.meta);
    var r3 := "}" + trailer;
    var r2 := m + r3;
    var r1 := k + ("," + r2);
    var r0 := c + ("," + r1);
    Assoc6("{", c, ",", k, ",", m, "}", trailer);
    assert EncodeSite(d) + trailer == "{" + r0;
    ParseFieldRoundTrip("Cert", d.cert, "," + r1);
    ParseFieldRoundTrip("Key", d.key, "," + r2);
    ParseFieldRoundTrip("Meta", d.meta, r3);
    assert Expect("{", "{" + r0) == Some(r0);
    assert Expect(",", "," + r1) == Some(r1);
    assert Expect(",", "," + r2) == Some(r2);
    assert Expect("}", r3).Some?;
  }

  lemma SiteRoundTrip(d: SiteData)
    ensures DecodeSite(EncodeSite(d)) == Some(d)
  {
    SiteDecodesWithTrailer(d, "");
    assert EncodeSite(d) + "" == EncodeSite(d);
  }

  /** A user decodes from exactly those payloads that start with its encoding. */
  lemma DecodeUserExactly(s: string, u: UserData)
    ensures DecodeUser(s) == Some(u) <==> EncodeUser(u) <= s
  {
    if EncodeUser(u) <= s {
      var trailer := s[|EncodeUser(u)|..];
      UserDecodesWithTrailer(u, trailer);
      assert s == EncodeUser(u) + trailer;
    }
    if DecodeUser(s) == Some(u) {
      DecodedUserIsEncoded(s);
    }
  }

  lemma DecodedUserIsEncoded(s: string)
    requires DecodeUser(s).Some?
    ensures EncodeUser(DecodeUser(s).value) <= s
  {
    var u := DecodeUser(s).value;
    var r0 := Expect("{", s).value;
    var reg := ParseField("Reg", r0).value;
    ParseFieldInverse("Reg", r0, reg.0, reg.1);
    var r1 := Expect(",", reg.1).value;
    var key := ParseField("Key", r1).value;
    ParseFieldInverse("Key", r1, key.0, key.1);
    var r2 := Expect("}", key.1).value;
    var g, k := Field("Reg", u.reg), Field("Key", u.key);
    assert s == "{" + (g + ("," + (k + ("}" + r2))));
    Assoc4("{", g, ",", k, "}", r2);
  }

  lemma Assoc4(a: string, b: string, c: string, d: string, e: string, f: string)
    ensures a + (b + (c + (d + (e + f)))) == a + b + c + d + e + f
  {
  }

  lemma UserDecodesWithTrailer(u: UserData, trailer: string)
    ensures DecodeUser(EncodeUser(u) + trailer) == Some(u)
  {
    var g, k := Field("Reg", u.reg), Field("Key", u.key);
    var r2 := "}" + trailer;
    var r1 := k + r2;
    var r0 := g + ("," + r1);
    Assoc4("{", g, ",", k, "}", trailer);
    assert EncodeUser(u) + trailer == "{" + r0;
    ParseFieldRoundTrip("Reg", u.reg, "," + r1);
    ParseFieldRoundTrip("Key", u.key, r2);
    assert Expect("{", "{" + r0) == Some(r0);
    assert Expect(",", "," + r1) == Some(r1);
    assert Expect("}", r2).Some?;
  }

  lemma UserRoundTrip(u: UserData)
    ensures DecodeUser(EncodeUser(u)) == Some(u)
  {
    UserDecodesWithTrailer(u, "");
    assert EncodeUser(u) + "" == EncodeUser(u);
  }
}
