/**
 * The authorization URL that AuthActivity.requestAuthorization opens, the
 * percent-encoding that Android's Uri.Builder.appendQueryParameter applies to
 * the `domain` value, and an independent reading of URLs and query strings
 * against which the construction is proved.
 */
module AuthUrl {
  import opened Wrappers

  // ---------------------------------------------------------------------
  // Constants of the authorization request
  // ---------------------------------------------------------------------

  const AuthorizationHost: string := "accounts.crowdin.com"
  const RedirectUri: string := "crowdintest://"
  const DomainKey: string := "domain"

  /** scheme "https", authority, and the two appended path segments. */
  function AuthorizationEndpoint(): string
  {
    "https://" + AuthorizationHost + "/oauth/authorize"
  }

  /** One `key=value` pair of a query. */
  function Param(key: string, value: string): string
  {
    key + "=" + value
  }

  /**
   * The text given to Uri.Builder.encodedQuery, inserted as is (so `clientId`
   * is not escaped): client_id=<clientId>&response_type=code&scope=project&redirect_uri=crowdintest://
   */
  function BaseQuery(clientId: string): string
  {
    Param("client_id", clientId) + "&" + Param("response_type", "code") + "&" + Param("scope", "project")
    + "&" + Param("redirect_uri", RedirectUri)
  }

  /** appendQueryParameter adds `&key=value`, both escaped, to a non-empty query. */
  function AuthorizationQuery(clientId: string, domain: Option<string>): string
  {
    match domain
    case None => BaseQuery(clientId)
    case Some(org) => BaseQuery(clientId) + "&" + Param(Encode(DomainKey), Encode(org))
  }

  /** The string that Uri.Builder.build().toString() yields for the authorization page. */
  function AuthorizationUrl(clientId: string, domain: Option<string>): string
  {
    AuthorizationEndpoint() + "?" + AuthorizationQuery(clientId, domain)
  }

  // ---------------------------------------------------------------------
  // Percent-encoding (Uri.encode with no extra allowed characters)
  // ---------------------------------------------------------------------

  /** Characters Uri.encode leaves alone. */
  predicate Unreserved(c: char)
  {
    ('A' <= c <= 'Z') || ('a' <= c <= 'z') || ('0' <= c <= '9') || c in "_-!.~'()*"
  }

  /** An upper-case hexadecimal digit, as in "0123456789ABCDEF". */
  function HexDigit(d: int): (c: char)
    requires 0 <= d < 16
    ensures Unreserved(c)
  {
    if d < 10 then ('0' as int + d) as char else ('A' as int + d - 10) as char
  }

  /** An octet. */
  type Byte = b: int | 0 <= b < 256

  /** The UTF-8 encoding of one Unicode scalar value. */
  function Utf8(c: char): (bytes: seq<Byte>)
    ensures 1 <= |bytes| <= 4
  {
    var cp := c as int;
    if cp < 0x80 then [cp]
    else if cp < 0x800 then [0xC0 + cp / 64, 0x80 + cp % 64]
    else if cp < 0x10000 then [0xE0 + cp / 4096, 0x80 + (cp / 64) % 64, 0x80 + cp % 64]
    else [0xF0 + cp / 262144, 0x80 + (cp / 4096) % 64, 0x80 + (cp / 64) % 64, 0x80 + cp % 64]
  }

  /** One byte as `%` followed by two upper-case hexadecimal digits. */
  function EscapeByte(b: Byte): (e: string)
    ensures |e| == 3 && e[0] == '%' && Unreserved(e[1]) && Unreserved(e[2])
  {
    ['%', HexDigit(b / 16), HexDigit(b % 16)]
  }

  /** Every byte escaped, in order. */
  function Escape(bytes: seq<Byte>): (e: string)
    ensures |e| == 3 * |bytes|
    ensures forall i :: 0 <= i < |e| ==> Unreserved(e[i]) || e[i] == '%'
  {
    if bytes == [] then []
    else EscapeByte(bytes[0]) + Escape(bytes[1..])
  }

  function EncodeChar(c: char): (e: string)
    ensures forall i :: 0 <= i < |e| ==> Unreserved(e[i]) || e[i] == '%'
  {
    if Unreserved(c) then [c] else Escape(Utf8(c))
  }

  /** Uri.encode(s): what the query may carry is only unreserved characters and escapes. */
  function Encode(s: string): (e: string)
    ensures forall i :: 0 <= i < |e| ==> Unreserved(e[i]) || e[i] == '%'
  {
    if s == [] then [] else EncodeChar(s[0]) + Encode(s[1..])
  }

  // ---------------------------------------------------------------------
  // Percent-decoding: the inverse, as a reference for Encode
  // ---------------------------------------------------------------------

  function HexValue(c: char): (r: Option<int>)
    ensures r.Some? ==> 0 <= r.value < 16
  {
    if '0' <= c <= '9' then Some(c as int - '0' as int)
    else if 'A' <= c <= 'F' then Some(c as int - 'A' as int + 10)
    else if 'a' <= c <= 'f' then Some(c as int - 'a' as int + 10)
    else None
  }

  /** Reads `n` escapes `%XY` at the front of `s`. */
  function Unescape(s: string, n: nat): (r: Option<seq<Byte>>)
    ensures r.Some? ==> |r.value| == n && 3 * n <= |s|
  {
    if n == 0 then Some([])
    else if |s| < 3 || s[0] != '%' then None
    else
      match (HexValue(s[1]), HexValue(s[2]), Unescape(s[3..], n - 1))
      case (Some(hi), Some(lo), Some(rest)) => Some([16 * hi + lo] + rest)
      case _ => None
  }

  predicate Continuation(b: int) { 0x80 <= b < 0xC0 }

  /** The length of the UTF-8 sequence a lead byte starts; 0 for a byte that cannot lead. */
  function Utf8Length(b: int): nat
  {
    if 0 <= b < 0x80 then 1
    else if 0xC0 <= b < 0xE0 then 2
    else if 0xE0 <= b < 0xF0 then 3
    else if 0xF0 <= b < 0xF8 then 4
    else 0
  }

  predicate IsScalar(cp: int) { 0 <= cp < 0xD800 || 0xE000 <= cp < 0x110000 }

  /** `cp` as a character, if it is a scalar value of at least `least` (no overlong form). */
  function ScalarChar(cp: int, least: int): Option<char>
  {
    if least <= cp && IsScalar(cp) then Some(cp as char) else None
  }

  /** Decodes one complete UTF-8 sequence, rejecting overlong forms and surrogates. */
  function Utf8Decode(bytes: seq<Byte>): Option<char>
  {
    if |bytes| == 1 && 0 <= bytes[0] < 0x80 then
      ScalarChar(bytes[0], 0)
    else if |bytes| == 2 && 0xC0 <= bytes[0] < 0xE0 && Continuation(bytes[1]) then
      ScalarChar((bytes[0] as int - 0xC0) * 64 + (bytes[1] as int - 0x80), 0x80)
    else if |bytes| == 3 && 0xE0 <= bytes[0] < 0xF0 && Continuation(bytes[1]) && Continuation(bytes[2]) then
      ScalarChar((bytes[0] as int - 0xE0) * 4096 + (bytes[1] as int - 0x80) * 64 + (bytes[2] as int - 0x80), 0x800)
    else if |bytes| == 4 && 0xF0 <= bytes[0] < 0xF8 && Continuation(bytes[1]) && Continuation(bytes[2])
         && Continuation(bytes[3]) then
      ScalarChar((bytes[0] as int - 0xF0) * 262144 + (bytes[1] as int - 0x80) * 4096 + (bytes[2] as int - 0x80) * 64 + (bytes[3] as int - 0x80), 0x10000)
    else None
  }

  /** Percent-decoding of a query value (section 2.1 of RFC 3986, UTF-8 octets). */
  function Decode(s: string): Option<string>
    decreases |s|
  {
    if s == [] then Some([])
    else if s[0] != '%' then
      match Decode(s[1..])
      case Some(t) => Some([s[0]] + t)
      case None => None
    else if |s| < 3 then None
    else
      match (HexValue(s[1]), HexValue(s[2]))
      case (Some(hi), Some(lo)) =>
        var n := Utf8Length(16 * hi + lo);
        if n == 0 then None
        else
          (match Unescape(s, n)
           case None => None
           case Some(bytes) =>
             (match (Utf8Decode(bytes), Decode(s[3 * n..]))
              case (Some(c), Some(t)) => Some([c] + t)
              case _ => None))
      case _ => None
  }

  // ---------------------------------------------------------------------
  // Reading a URL: split at '?', then at '&', then each pair at its first '='
  // ---------------------------------------------------------------------

  function Join(parts: seq<string>, sep: char): string
    requires |parts| >= 1
  {
    if |parts| == 1 then parts[0] else parts[0] + [sep] + Join(parts[1..], sep)
  }

  /** The pieces of `s` between occurrences of `sep`; joining them back gives `s`. */
  function Split(s: string, sep: char): (parts: seq<string>)
    ensures |parts| >= 1
    ensures forall i :: 0 <= i < |parts| ==> sep !in parts[i]
    ensures Join(parts, sep) == s
  {
    if s == [] then [[]]
    else
      var rest := Split(s[1..], sep);
      if s[0] == sep then
        [[]] + rest
      else
        assert s == [s[0]] + s[1..];
        if |rest| == 1 then [[s[0]] + rest[0]]
        else
          assert Join(rest, sep) == rest[0] + [sep] + Join(rest[1..], sep);
          assert ([[s[0]] + rest[0]] + rest[1..])[1..] == rest[1..];
          [[s[0]] + rest[0]] + rest[1..]
  }

  /** `s` cut at the first `sep`; the whole of `s` and "" when there is none. */
  function SplitAtFirst(s: string, sep: char): (r: (string, string))
    ensures sep !in r.0
    ensures sep in s ==> s == r.0 + [sep] + r.1
    ensures sep !in s ==> r == (s, "")
  {
    if s == [] then ([], [])
    else if s[0] == sep then ([], s[1..])
    else
      var r := SplitAtFirst(s[1..], sep);
      assert s == [s[0]] + s[1..];
      ([s[0]] + r.0, r.1)
  }

  function Pairs(parts: seq<string>): (ps: seq<(string, string)>)
    ensures |ps| == |parts|
  {
    if parts == [] then [] else [SplitAtFirst(parts[0], '=')] + Pairs(parts[1..])
  }

  /** The query of a URL as a URI parser reads it: after the first '?', up to the first '#' that starts the fragment. */
  function QueryOf(url: string): string
  {
    SplitAtFirst(SplitAtFirst(url, '?').1, '#').0
  }

  /** The (still encoded) key/value pairs of a query, in order. */
  function QueryParams(query: string): seq<(string, string)>
  {
    Pairs(Split(query, '&'))
  }

  /** The encoded domain pair, if any. */
  function DomainParams(domain: Option<string>): seq<(string, string)>
  {
    match domain
    case None => []
    case Some(org) => [(DomainKey, Encode(org))]
  }

  /** What the authorization page receives: four fixed parameters and, for an organization, its domain. */
  function ExpectedParams(clientId: string, domain: Option<string>): seq<(string, string)>
  {
    [("client_id", clientId), ("response_type", "code"), ("scope", "project"), ("redirect_uri", RedirectUri)]
    + DomainParams(domain)
  }

  predicate HasKey(ps: seq<(string, string)>, key: string)
  {
    exists i :: 0 <= i < |ps| && ps[i].0 == key
  }

  // ---------------------------------------------------------------------
  // Lemmas
  // ---------------------------------------------------------------------

  lemma {:induction false} EncodeUnreserved(s: string)
    requires forall i :: 0 <= i < |s| ==> Unreserved(s[i])
    ensures Encode(s) == s
  {
    if s != [] {
      EncodeUnreserved(s[1..]);
      assert s == [s[0]] + s[1..];
    }
  }

  lemma EncodeHasNoDelimiters(s: string)
    ensures '&' !in Encode(s) && '=' !in Encode(s) && '#' !in Encode(s)
  {
    var e := Encode(s);
    forall i | 0 <= i < |e|
      ensures e[i] != '&' && e[i] != '=' && e[i] != '#'
    {
      assert Unreserved(e[i]) || e[i] == '%';
    }
  }

  lemma HexRoundTrip(d: int)
    requires 0 <= d < 16
    ensures HexValue(HexDigit(d)) == Some(d)
  {
  }

  lemma ByteRoundTrip(b: Byte)
    ensures HexValue(HexDigit(b / 16)) == Some(b / 16)
    ensures HexValue(HexDigit(b % 16)) == Some(b % 16)
    ensures 16 * (b / 16) + b % 16 == b
  {
    HexRoundTrip(b / 16);
    HexRoundTrip(b % 16);
  }

  /** The first escape of a non-empty byte sequence, and what follows it. */
  lemma EscapeFront(bytes: seq<Byte>, rest: string)
    requires bytes != []
    ensures Escape(bytes) + rest == EscapeByte(bytes[0]) + (Escape(bytes[1..]) + rest)
  {
    assert Escape(bytes) == EscapeByte(bytes[0]) + Escape(bytes[1..]);
  }

  lemma ThreeThenRest(front: string, tail: string)
    requires |front| == 3
    ensures (front + tail)[0] == front[0] && (front + tail)[1] == front[1] && (front + tail)[2] == front[2]
    ensures (front + tail)[3..] == tail
  {
  }

  lemma {:induction false} UnescapeEscape(bytes: seq<Byte>, rest: string)
    ensures Unescape(Escape(bytes) + rest, |bytes|) == Some(bytes)
  {
    if bytes != [] {
      var b := bytes[0];
      var tail := bytes[1..];
      EscapeFront(bytes, rest);
      ThreeThenRest(EscapeByte(b), Escape(tail) + rest);
      ByteRoundTrip(b);
      UnescapeEscape(tail, rest);
      assert [b] + tail == bytes;
    }
  }

  lemma Utf8RoundTrip2(cp: int)
    requires 0x80 <= cp < 0x800
    ensures Utf8Decode([0xC0 + cp / 64, 0x80 + cp % 64]) == ScalarChar(cp, 0x80)
  {
    var hi, lo := cp / 64, cp % 64;
    assert cp == hi * 64 + lo;
  }

  lemma Utf8RoundTrip3(cp: int)
    requires 0x800 <= cp < 0x10000
    ensures Utf8Decode([0xE0 + cp / 4096, 0x80 + (cp / 64) % 64, 0x80 + cp % 64]) == ScalarChar(cp, 0x800)
  {
    var q := cp / 64;
    assert cp == q * 64 + cp % 64;
    assert q == (q / 64) * 64 + q % 64;
    assert q / 64 == cp / 4096;
  }

  lemma Utf8RoundTrip4(cp: int)
    requires 0x10000 <= cp < 0x110000
    ensures Utf8Decode([0xF0 + cp / 262144, 0x80 + (cp / 4096) % 64, 0x80 + (cp / 64) % 64, 0x80 + cp % 64])
         == ScalarChar(cp, 0x10000)
  {
    var q := cp / 64;
    var r := q / 64;
    assert cp == q * 64 + cp % 64;
    assert q == r * 64 + q % 64;
    assert r == (r / 64) * 64 + r % 64;
    assert r == cp / 4096;
    assert r / 64 == cp / 262144;
  }

  lemma Utf8RoundTrip(c: char)
    ensures Utf8Length(Utf8(c)[0]) == |Utf8(c)|
    ensures Utf8Decode(Utf8(c)) == Some(c)
  {
    var cp := c as int;
    assert IsScalar(cp);
    if cp < 0x80 {
    } else if cp < 0x800 {
      Utf8RoundTrip2(cp);
    } else if cp < 0x10000 {
      Utf8RoundTrip3(cp);
    } else {
      Utf8RoundTrip4(cp);
    }
  }

  lemma DecodeEncodeChar(c: char, rest: string)
    ensures Decode(EncodeChar(c) + rest) == match Decode(rest) case Some(t) => Some([c] + t) case None => None
  {
    var s := EncodeChar(c) + rest;
    if Unreserved(c) {
      assert s[0] == c && s[1..] == rest;
    } else {
      var bytes := Utf8(c);
      var b := bytes[0];
      Utf8RoundTrip(c);
      UnescapeEscape(bytes, rest);
      ByteRoundTrip(b);
      EscapeFront(bytes, rest);
      ThreeThenRest(EscapeByte(b), Escape(bytes[1..]) + rest);
      assert s[3 * |bytes|..] == rest;
    }
  }

  /** Percent-decoding recovers every string Uri.encode produced. */
  lemma {:induction false} DecodeEncode(s: string)
    ensures Decode(Encode(s)) == Some(s)
  {
    if s != [] {
      DecodeEncode(s[1..]);
      DecodeEncodeChar(s[0], Encode(s[1..]));
      assert [s[0]] + s[1..] == s;
    }
  }

  lemma {:induction false} SplitNoSeparator(a: string, sep: char)
    requires sep !in a
    ensures Split(a, sep) == [a]
  {
    if a != [] {
      SplitNoSeparator(a[1..], sep);
      assert [a[0]] + a[1..] == a;
    }
  }

  lemma {:induction false} SplitAfterPiece(a: string, sep: char, b: string)
    requires sep !in a
    ensures Split(a + [sep] + b, sep) == [a] + Split(b, sep)
  {
    var s := a + [sep] + b;
    if a == [] {
      assert s[0] == sep && s[1..] == b;
    } else {
      assert s[0] == a[0] && s[1..] == a[1..] + [sep] + b;
      SplitAfterPiece(a[1..], sep, b);
      assert [a[0]] + a[1..] == a;
    }
  }

  lemma {:induction false} SplitAtFirstPiece(k: string, sep: char, v: string)
    requires sep !in k
    ensures SplitAtFirst(k + [sep] + v, sep) == (k, v)
  {
    var s := k + [sep] + v;
    if k == [] {
      assert s[0] == sep && s[1..] == v;
    } else {
      assert s[0] == k[0] && s[1..] == k[1..] + [sep] + v;
      SplitAtFirstPiece(k[1..], sep, v);
      assert [k[0]] + k[1..] == k;
    }
  }

  /** The first '?' of the authorization URL ends the endpoint, and all that follows it is the query. */
  lemma AuthorizationUrlSplits(clientId: string, domain: Option<string>)
    ensures SplitAtFirst(AuthorizationUrl(clientId, domain), '?') == (AuthorizationEndpoint(), AuthorizationQuery(clientId, domain))
  {
    var e := AuthorizationEndpoint();
    assert '?' !in e;
    SplitAtFirstPiece(e, '?', AuthorizationQuery(clientId, domain));
    assert AuthorizationUrl(clientId, domain) == e + ['?'] + AuthorizationQuery(clientId, domain);
  }

  lemma QueryOfAuthorizationUrl(clientId: string, domain: Option<string>)
    requires '#' !in clientId
    ensures QueryOf(AuthorizationUrl(clientId, domain)) == AuthorizationQuery(clientId, domain)
  {
    var q := AuthorizationQuery(clientId, domain);
    AuthorizationUrlSplits(clientId, domain);
    QueryHasNoFragment(clientId, domain);
    assert SplitAtFirst(q, '#') == (q, "");
  }

  /** No '#' can enter the query except through the client id, which is inserted unescaped. */
  lemma QueryHasNoFragment(clientId: string, domain: Option<string>)
    requires '#' !in clientId
    ensures '#' !in AuthorizationQuery(clientId, domain)
  {
    QueryShape(clientId, domain);
    var p1, p2, p3, p4 := Param("client_id", clientId), Param("response_type", "code"),
                          Param("scope", "project"), Param("redirect_uri", RedirectUri);
    assert '#' !in p1 && '#' !in p2 && '#' !in p3 && '#' !in p4;
    match domain {
      case None =>
        assert DomainSuffix(domain) == "";
      case Some(org) =>
        EncodeHasNoDelimiters(DomainKey);
        EncodeHasNoDelimiters(org);
        assert '#' !in Param(Encode(DomainKey), Encode(org));
    }
    var t := p4 + DomainSuffix(domain);
    assert '#' !in t;
    assert '#' !in p3 + "&" + t;
    assert '#' !in p2 + "&" + (p3 + "&" + t);
  }

  /** Each pair written as `key=value`. */
  function Params(kvs: seq<(string, string)>): (pieces: seq<string>)
    ensures |pieces| == |kvs|
  {
    if kvs == [] then [] else [Param(kvs[0].0, kvs[0].1)] + Params(kvs[1..])
  }

  /** Reading `key=value` pieces back gives the pairs, as long as no key holds '='. */
  lemma {:induction false} PairsOfParams(kvs: seq<(string, string)>)
    requires forall i :: 0 <= i < |kvs| ==> '=' !in kvs[i].0
    ensures Pairs(Params(kvs)) == kvs
  {
    if kvs != [] {
      SplitAtFirstPiece(kvs[0].0, '=', kvs[0].1);
      assert forall i :: 0 <= i < |kvs| - 1 ==> kvs[1..][i] == kvs[i + 1];
      PairsOfParams(kvs[1..]);
      assert Params(kvs)[1..] == Params(kvs[1..]);
      assert [kvs[0]] + kvs[1..] == kvs;
    }
  }

  lemma ParamsCons(key: string, value: string, rest: seq<(string, string)>)
    ensures Params([(key, value)] + rest) == [Param(key, value)] + Params(rest)
  {
    assert ([(key, value)] + rest)[1..] == rest;
  }

  lemma SplitThreePieces(p1: string, p2: string, p3: string, t: string)
    requires '&' !in p1 && '&' !in p2 && '&' !in p3
    ensures Split(p1 + "&" + (p2 + "&" + (p3 + "&" + t)), '&') == [p1, p2, p3] + Split(t, '&')
  {
    SplitAfterPiece(p3, '&', t);
    SplitAfterPiece(p2, '&', p3 + "&" + t);
    SplitAfterPiece(p1, '&', p2 + "&" + (p3 + "&" + t));
  }

  /** What follows `redirect_uri=crowdintest://` in the query. */
  function DomainSuffix(domain: Option<string>): string
  {
    match domain
    case None => ""
    case Some(org) => "&" + Param(Encode(DomainKey), Encode(org))
  }

  lemma Associate(p1: string, p2: string, p3: string, p4: string, d: string)
    ensures p1 + "&" + p2 + "&" + p3 + "&" + p4 + d == p1 + "&" + (p2 + "&" + (p3 + "&" + (p4 + d)))
  {
  }

  lemma QueryShape(clientId: string, domain: Option<string>)
    ensures AuthorizationQuery(clientId, domain)
         == Param("client_id", clientId) + "&" + (Param("response_type", "code") + "&" + (Param("scope", "project")
            + "&" + (Param("redirect_uri", RedirectUri) + DomainSuffix(domain))))
  {
    var p1, p2, p3, p4 := Param("client_id", clientId), Param("response_type", "code"),
                          Param("scope", "project"), Param("redirect_uri", RedirectUri);
    var d := DomainSuffix(domain);
    assert BaseQuery(clientId) == p1 + "&" + p2 + "&" + p3 + "&" + p4;
    assert AuthorizationQuery(clientId, domain) == BaseQuery(clientId) + d;
    Associate(p1, p2, p3, p4, d);
  }

  lemma SplitLastPieces(domain: Option<string>)
    ensures Split(Param("redirect_uri", RedirectUri) + DomainSuffix(domain), '&')
         == [Param("redirect_uri", RedirectUri)] + Params(DomainParams(domain))
  {
    var p4 := Param("redirect_uri", RedirectUri);
    assert '&' !in p4;
    match domain {
      case None =>
        assert p4 + DomainSuffix(domain) == p4;
        SplitNoSeparator(p4, '&');
      case Some(org) =>
        var p5 := Param(DomainKey, Encode(org));
        EncodeUnreserved(DomainKey);
        EncodeHasNoDelimiters(org);
        assert '&' !in p5;
        SplitNoSeparator(p5, '&');
        assert p4 + DomainSuffix(domain) == p4 + ['&'] + p5;
        SplitAfterPiece(p4, '&', p5);
        ParamsCons(DomainKey, Encode(org), []);
    }
  }

  /** The four fixed pieces of every authorization query. */
  function FixedPieces(clientId: string): seq<string>
  {
    [Param("client_id", clientId), Param("response_type", "code"), Param("scope", "project"),
     Param("redirect_uri", RedirectUri)]
  }

  lemma SplitQueryPieces(clientId: string, domain: Option<string>)
    requires '&' !in clientId
    ensures Split(AuthorizationQuery(clientId, domain), '&') == FixedPieces(clientId) + Params(DomainParams(domain))
  {
    QueryShape(clientId, domain);
    var p1, p2, p3, p4 := Param("client_id", clientId), Param("response_type", "code"),
                          Param("scope", "project"), Param("redirect_uri", RedirectUri);
    var t := p4 + DomainSuffix(domain);
    FixedPiecesHaveNoAmpersand(clientId);
    SplitThreePieces(p1, p2, p3, t);
    SplitLastPieces(domain);
    assert [p1, p2, p3] + ([p4] + Params(DomainParams(domain))) == FixedPieces(clientId) + Params(DomainParams(domain));
  }

  lemma FixedPiecesHaveNoAmpersand(clientId: string)
    requires '&' !in clientId
    ensures '&' !in Param("client_id", clientId)
    ensures '&' !in Param("response_type", "code") && '&' !in Param("scope", "project")
  {
  }

  lemma ParamsOfExpected(clientId: string, domain: Option<string>)
    ensures Params(ExpectedParams(clientId, domain)) == FixedPieces(clientId) + Params(DomainParams(domain))
  {
    var ds := DomainParams(domain);
    ParamsCons("redirect_uri", RedirectUri, ds);
    ParamsCons("scope", "project", [("redirect_uri", RedirectUri)] + ds);
    ParamsCons("response_type", "code", [("scope", "project"), ("redirect_uri", RedirectUri)] + ds);
    ParamsCons("client_id", clientId, [("response_type", "code"), ("scope", "project"), ("redirect_uri", RedirectUri)] + ds);
    assert ExpectedParams(clientId, domain)
        == [("client_id", clientId)] + ([("response_type", "code")] + ([("scope", "project")] + ([("redirect_uri", RedirectUri)] + ds)));
  }

  lemma SplitQuery(clientId: string, domain: Option<string>)
    requires '&' !in clientId
    ensures Split(AuthorizationQuery(clientId, domain), '&') == Params(ExpectedParams(clientId, domain))
  {
    SplitQueryPieces(clientId, domain);
    ParamsOfExpected(clientId, domain);
  }

  lemma ExpectedKeys(clientId: string, domain: Option<string>)
    ensures forall i :: 0 <= i < |ExpectedParams(clientId, domain)| ==> '=' !in ExpectedParams(clientId, domain)[i].0
    ensures HasKey(ExpectedParams(clientId, domain), DomainKey) <==> domain.Some?
  {
    var ps := ExpectedParams(clientId, domain);
    assert ps[..4] == [("client_id", clientId), ("response_type", "code"), ("scope", "project"), ("redirect_uri", RedirectUri)];
    assert forall i :: 0 <= i < 4 ==> ps[i].0 != DomainKey && '=' !in ps[i].0;
    if domain.Some? {
      assert |ps| == 5 && ps[4].0 == DomainKey;
    } else {
      assert |ps| == 4;
    }
  }

  /**
   * Read back with an ordinary query parser, the authorization URL carries
   * exactly client_id, response_type=code, scope=project and redirect_uri,
   * in that order, then the encoded domain if and only if an organization is
   * configured; the domain decodes back to the organization name. The
   * client id is inserted unescaped, so this holds when it contains neither
   * '&' (which would start another parameter) nor '#' (which would start the fragment).
   */
  lemma AuthorizationUrlParams(clientId: string, domain: Option<string>)
    requires '&' !in clientId && '#' !in clientId
    ensures QueryParams(QueryOf(AuthorizationUrl(clientId, domain))) == ExpectedParams(clientId, domain)
    ensures HasKey(QueryParams(QueryOf(AuthorizationUrl(clientId, domain))), DomainKey) <==> domain.Some?
    ensures domain.Some? ==> Decode(ExpectedParams(clientId, domain)[4].1) == Some(domain.value)
  {
    QueryOfAuthorizationUrl(clientId, domain);
    SplitQuery(clientId, domain);
    ExpectedKeys(clientId, domain);
    PairsOfParams(ExpectedParams(clientId, domain));
    if domain.Some? {
      DecodeEncode(domain.value);
    }
  }

  /** An organization name made of unreserved characters reaches the page unchanged as the domain value. */
  lemma PlainOrganizationDomain(clientId: string, org: string)
    requires '&' !in clientId && '#' !in clientId
    requires forall i :: 0 <= i < |org| ==> Unreserved(org[i])
    ensures |QueryParams(QueryOf(AuthorizationUrl(clientId, Some(org))))| == 5
    ensures QueryParams(QueryOf(AuthorizationUrl(clientId, Some(org))))[4] == (DomainKey, org)
  {
    AuthorizationUrlParams(clientId, Some(org));
    EncodeUnreserved(org);
  }
}
