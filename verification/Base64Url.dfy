/**
 * The base64url codec of src/passkey/PasskeyApiClient.ts and src/utils.ts
 * (section 5 of RFC 4648). `btoa` and `atob` belong to the platform; they are
 * given here by section 4 of RFC 4648 and by the forgiving decoder browsers use.
 * A binary string is the sequence of its character codes.
 */
module Base64Url {
  import opened Prelude

  type Byte = bv8
  type Sextet = bv6

  // ---------------------------------------------------------------- alphabet

  /** The alphabet of table 1: the digit for a number, and the number for a digit. */
  function Letter(n: int): char
    requires 0 <= n < 64
  {
    if n < 26 then ('A' as int + n) as char
    else if n < 52 then ('a' as int + n - 26) as char
    else if n < 62 then ('0' as int + n - 52) as char
    else if n == 62 then '+'
    else '/'
  }

  function Number(c: char): (n: int)
    ensures -1 <= n < 64
  {
    if 'A' <= c <= 'Z' then c as int - 'A' as int
    else if 'a' <= c <= 'z' then c as int - 'a' as int + 26
    else if '0' <= c <= '9' then c as int - '0' as int + 52
    else if c == '+' then 62
    else if c == '/' then 63
    else -1
  }

  function Digit(v: Sextet): char {
    Letter(v as int)
  }

  function ValueOf(c: char): Option<Sextet> {
    if Number(c) < 0 then None else Some(Number(c) as Sextet)
  }

  predicate IsSpace(c: char) {
    c == ' ' || c == '\t' || c == '\n' || c == '\r' || c as int == 12
  }

  function Digits(vs: seq<Sextet>): string {
    seq(|vs|, i requires 0 <= i < |vs| => Digit(vs[i]))
  }

  predicate AllDigits(s: string) {
    forall i :: 0 <= i < |s| ==> ValueOf(s[i]).Some?
  }

  function Values(s: string): seq<Sextet>
    requires AllDigits(s)
  {
    seq(|s|, i requires 0 <= i < |s| => ValueOf(s[i]).value)
  }

  // ---------------------------------------------------------------- platform

  // The four six-bit values of a three-byte group, and the three bytes of a four-value group.

  function Sextet0(b0: Byte): Sextet { (b0 >> 2) as Sextet }

  function Sextet1(b0: Byte, b1: Byte): Sextet { (((b0 & 3) as Sextet) << 4) | ((b1 >> 4) as Sextet) }

  function Sextet2(b1: Byte, b2: Byte): Sextet { (((b1 & 15) as Sextet) << 2) | ((b2 >> 6) as Sextet) }

  function Sextet3(b2: Byte): Sextet { (b2 & 63) as Sextet }

  function Octet0(v0: Sextet, v1: Sextet): Byte { ((v0 as Byte) << 2) | ((v1 >> 4) as Byte) }

  function Octet1(v1: Sextet, v2: Sextet): Byte { ((v1 as Byte) << 4) | ((v2 >> 2) as Byte) }

  function Octet2(v2: Sextet, v3: Sextet): Byte { ((v2 as Byte) << 6) | (v3 as Byte) }

  /** Regroups bytes into six-bit values; a short last group is filled with zero bits. */
  function Sextets(b: seq<Byte>): seq<Sextet> {
    if |b| == 0 then []
    else if |b| == 1 then [Sextet0(b[0]), Sextet1(b[0], 0)]
    else if |b| == 2 then [Sextet0(b[0]), Sextet1(b[0], b[1]), Sextet2(b[1], 0)]
    else [Sextet0(b[0]), Sextet1(b[0], b[1]), Sextet2(b[1], b[2]), Sextet3(b[2])] + Sextets(b[3..])
  }

  /** Regroups six-bit values into bytes; the spare bits of a short last group are dropped. */
  function Octets(v: seq<Sextet>): seq<Byte> {
    if |v| < 2 then []
    else if |v| == 2 then [Octet0(v[0], v[1])]
    else if |v| == 3 then [Octet0(v[0], v[1]), Octet1(v[1], v[2])]
    else [Octet0(v[0], v[1]), Octet1(v[1], v[2]), Octet2(v[2], v[3])] + Octets(v[4..])
  }

  function Padding(n: nat): string {
    seq(n, _ => '=')
  }

  function Btoa(b: seq<Byte>): string {
    Digits(Sextets(b)) + Padding((3 - |b| % 3) % 3)
  }

  function Unspaced(s: string): string {
    if s == "" then "" else (if IsSpace(s[0]) then "" else [s[0]]) + Unspaced(s[1..])
  }

  /** Removes at most `atMost` padding characters from the end. */
  function Trimmed(s: string, atMost: nat): string {
    if atMost > 0 && s != "" && s[|s| - 1] == '=' then Trimmed(s[..|s| - 1], atMost - 1) else s
  }

  function DecodedDigits(u: string): Option<seq<Byte>> {
    if |u| % 4 == 1 || !AllDigits(u) then None else Some(Octets(Values(u)))
  }

  function Unpadded(t: string): string {
    if |t| % 4 == 0 then Trimmed(t, 2) else t
  }

  /** `None` is the exception thrown for a malformed string. */
  function Atob(s: string): Option<seq<Byte>> {
    DecodedDigits(Unpadded(Unspaced(s)))
  }

  // ------------------------------------------------------------------ source

  /** `s.replace(/from/g, to)`. */
  function Replaced(s: string, from: char, to: char): string {
    seq(|s|, i requires 0 <= i < |s| => if s[i] == from then to else s[i])
  }

  /** `bufferToBase64url`. */
  function BufferToBase64url(b: seq<Byte>): string {
    var s := Replaced(Replaced(Btoa(b), '+', '-'), '/', '_');
    Trimmed(s, |s|)
  }

  /** `urlEncodeB64`: each of the three special characters is mapped where it stands. */
  function UrlEncodeB64(s: string): string {
    if s == "" then ""
    else
      var first := if s[0] == '+' then "-" else if s[0] == '/' then "_" else if s[0] == '=' then "" else [s[0]];
      first + UrlEncodeB64(s[1..])
  }

  function BufferToBase64UrlEncoded(b: seq<Byte>): string {
    UrlEncodeB64(Btoa(b))
  }

  function Repadded(s: string): string {
    var base64 := Replaced(Replaced(s, '-', '+'), '_', '/');
    base64 + Padding((4 - |base64| % 4) % 4)
  }

  function Decoded(s: string): Option<seq<Byte>> {
    Atob(Repadded(s))
  }

  /** `base64urlToBuffer`: decodes, then copies the binary string into a fresh byte array. */
  method Base64urlToBuffer(s: string) returns (r: Option<array<Byte>>)
    ensures r.Some? <==> Decoded(s).Some?
    ensures r.Some? ==> r.value[..] == Decoded(s).value
  {
    var binary := Decoded(s);
    if binary.None? {
      return None;
    }
    var bytes := new Byte[|binary.value|](_ => 0);
    var i := 0;
    while i < |binary.value|
      invariant 0 <= i <= |binary.value| == bytes.Length
      invariant bytes[..i] == binary.value[..i]
    {
      bytes[i] := binary.value[i];
      i := i + 1;
    }
    assert bytes[..] == bytes[..i];
    r := Some(bytes);
  }

  // -------------------------------------------------------------- properties

  /** The digits an encoder can produce: one of the 64 url-safe characters. */
  predicate IsUrlDigit(c: char) {
    c != '+' && c != '/' && (c == '-' || c == '_' || ValueOf(c).Some?)
  }

  function UrlValue(c: char): Sextet
    requires IsUrlDigit(c)
  {
    if c == '-' then 62 else if c == '_' then 63 else ValueOf(c).value
  }

  /** A length that leaves whole bytes, and spare bits that are all zero. */
  predicate CanonicalValues(v: seq<Sextet>) {
    && |v| % 4 != 1
    && (|v| % 4 == 2 ==> v[|v| - 1] & 15 == 0)
    && (|v| % 4 == 3 ==> v[|v| - 1] & 3 == 0)
  }

  predicate AllUrlDigits(s: string) {
    forall i :: 0 <= i < |s| ==> IsUrlDigit(s[i])
  }

  predicate Canonical(s: string) {
    && AllUrlDigits(s)
    && CanonicalValues(seq(|s|, i requires 0 <= i < |s| => UrlValue(s[i])))
  }

  lemma SextetOfInt(n: int)
    requires 0 <= n < 64
    ensures (n as Sextet) as int == n
  {
  }

  lemma IntOfSextet(v: Sextet)
    ensures 0 <= v as int < 64 && (v as int) as Sextet == v
  {
  }

  lemma NumbersInvert(n: int)
    requires 0 <= n < 64
    ensures Number(Letter(n)) == n
    ensures Letter(n) != '=' && Letter(n) != '-' && Letter(n) != '_' && !IsSpace(Letter(n))
  {
  }

  lemma LettersInvert(c: char)
    requires Number(c) >= 0
    ensures Letter(Number(c)) == c
  {
  }

  lemma DigitsInvert(v: Sextet)
    ensures ValueOf(Digit(v)) == Some(v)
    ensures Digit(v) != '=' && Digit(v) != '-' && Digit(v) != '_' && !IsSpace(Digit(v))
  {
    IntOfSextet(v);
    NumbersInvert(v as int);
  }

  lemma GroupOfBytes(b0: Byte, b1: Byte, b2: Byte)
    ensures Octet0(Sextet0(b0), Sextet1(b0, b1)) == b0
    ensures Octet1(Sextet1(b0, b1), Sextet2(b1, b2)) == b1
    ensures Octet2(Sextet2(b1, b2), Sextet3(b2)) == b2
  {
  }

  lemma GroupOfSextets(v0: Sextet, v1: Sextet, v2: Sextet, v3: Sextet)
    ensures Sextet0(Octet0(v0, v1)) == v0
    ensures Sextet1(Octet0(v0, v1), Octet1(v1, v2)) == v1
    ensures v1 & 15 == 0 ==> Sextet1(Octet0(v0, v1), 0) == v1
    ensures Sextet2(Octet1(v1, v2), Octet2(v2, v3)) == v2
    ensures v2 & 3 == 0 ==> Sextet2(Octet1(v1, v2), 0) == v2
    ensures Sextet3(Octet2(v2, v3)) == v3
  {
  }

  lemma SpareBitsAreZero(b: Byte)
    ensures Sextet1(b, 0) & 15 == 0 && Sextet2(b, 0) & 3 == 0
  {
  }

  lemma {:induction false} SextetsLength(b: seq<Byte>)
    ensures |Sextets(b)| == |b| / 3 * 4 + (if |b| % 3 == 0 then 0 else |b| % 3 + 1)
  {
    if |b| >= 3 {
      SextetsLength(b[3..]);
    }
  }

  lemma CanonicalExtends(group: seq<Sextet>, rest: seq<Sextet>)
    requires |group| == 4 && CanonicalValues(rest)
    ensures CanonicalValues(group + rest)
  {
    assert |group + rest| % 4 == |rest| % 4;
    assert |rest| > 0 ==> (group + rest)[|rest| + 3] == rest[|rest| - 1];
  }

  lemma {:induction false} SextetsAreCanonical(b: seq<Byte>)
    ensures CanonicalValues(Sextets(b))
  {
    if |b| >= 3 {
      SextetsAreCanonical(b[3..]);
      CanonicalExtends(Sextets(b)[..4], Sextets(b[3..]));
    } else if |b| > 0 {
      SpareBitsAreZero(b[|b| - 1]);
    }
  }

  lemma OctetsOfGroup(v0: Sextet, v1: Sextet, v2: Sextet, v3: Sextet, rest: seq<Sextet>)
    ensures Octets([v0, v1, v2, v3] + rest) == [Octet0(v0, v1), Octet1(v1, v2), Octet2(v2, v3)] + Octets(rest)
  {
    assert ([v0, v1, v2, v3] + rest)[4..] == rest;
  }

  lemma {:induction false} OctetsInvertSextets(b: seq<Byte>)
    ensures Octets(Sextets(b)) == b
  {
    if |b| >= 3 {
      OctetsInvertSextets(b[3..]);
      LongerInversion(b, Sextets(b[3..]));
    } else {
      ShortInversion(b);
    }
  }

  lemma OctetsOfPart(v0: Sextet, v1: Sextet, v2: Sextet)
    ensures Octets([v0, v1]) == [Octet0(v0, v1)]
    ensures Octets([v0, v1, v2]) == [Octet0(v0, v1), Octet1(v1, v2)]
  {
  }

  lemma ShortInversion(b: seq<Byte>)
    requires |b| < 3
    ensures Octets(Sextets(b)) == b
  {
    if |b| == 2 {
      var v0, v1, v2 := Sextet0(b[0]), Sextet1(b[0], b[1]), Sextet2(b[1], 0);
      GroupOfBytes(b[0], b[1], 0);
      OctetsOfPart(v0, v1, v2);
    } else if |b| == 1 {
      var v0, v1 := Sextet0(b[0]), Sextet1(b[0], 0);
      GroupOfBytes(b[0], 0, 0);
      OctetsOfPart(v0, v1, 0);
    }
  }

  lemma LongerInversion(b: seq<Byte>, rest: seq<Sextet>)
    requires |b| >= 3 && Sextets(b[3..]) == rest && Octets(rest) == b[3..]
    ensures Octets(Sextets(b)) == b
  {
    var v0, v1, v2, v3 := Sextet0(b[0]), Sextet1(b[0], b[1]), Sextet2(b[1], b[2]), Sextet3(b[2]);
    assert Sextets(b) == [v0, v1, v2, v3] + rest;
    OctetsOfGroup(v0, v1, v2, v3, rest);
    GroupOfBytes(b[0], b[1], b[2]);
    assert b == [b[0], b[1], b[2]] + b[3..];
  }

  lemma {:induction false} SextetsInvertOctets(v: seq<Sextet>)
    requires CanonicalValues(v)
    ensures Sextets(Octets(v)) == v
  {
    if |v| >= 4 {
      GroupOfSextets(v[0], v[1], v[2], v[3]);
      SextetsInvertOctets(v[4..]);
      assert Octets(v)[3..] == Octets(v[4..]);
      assert v == v[..4] + v[4..];
    } else if |v| == 3 {
      GroupOfSextets(v[0], v[1], v[2], 0);
    } else if |v| == 2 {
      GroupOfSextets(v[0], v[1], 0, 0);
    }
  }

  lemma {:induction false} TrimmedOfPadded(s: string, k: nat, atMost: nat)
    requires '=' !in s && k <= atMost
    ensures Trimmed(s + Padding(k), atMost) == s
  {
    if k == 0 {
      assert s + Padding(0) == s;
    } else {
      assert (s + Padding(k))[..|s| + k - 1] == s + Padding(k - 1);
      TrimmedOfPadded(s, k - 1, atMost - 1);
    }
  }

  lemma {:induction false} UnspacedOfPlain(s: string)
    requires forall i :: 0 <= i < |s| ==> !IsSpace(s[i])
    ensures Unspaced(s) == s
  {
    if s != "" {
      UnspacedOfPlain(s[1..]);
    }
  }

  /** The url-safe spelling of the digits alone, without padding. */
  function UrlDigits(vs: seq<Sextet>): string {
    Replaced(Replaced(Digits(vs), '+', '-'), '/', '_')
  }

  lemma UrlDigitsAreUnpadded(vs: seq<Sextet>)
    ensures '=' !in UrlDigits(vs)
  {
    forall i | 0 <= i < |vs|
      ensures UrlDigits(vs)[i] != '='
    {
      DigitsInvert(vs[i]);
    }
  }

  /** Encoding leaves exactly the url-safe digits: the padding, and only it, is stripped. */
  lemma EncodingIsUrlDigits(b: seq<Byte>)
    ensures BufferToBase64url(b) == UrlDigits(Sextets(b))
  {
    var core, k := Sextets(b), (3 - |b| % 3) % 3;
    var s := Replaced(Replaced(Btoa(b), '+', '-'), '/', '_');
    assert s == UrlDigits(core) + Padding(k);
    UrlDigitsAreUnpadded(core);
    TrimmedOfPadded(UrlDigits(core), k, |s|);
  }

  /** Undoing the two replacements on digits gives the standard digits back. */
  lemma StandardDigits(vs: seq<Sextet>)
    ensures Replaced(Replaced(UrlDigits(vs), '-', '+'), '_', '/') == Digits(vs)
  {
    forall i | 0 <= i < |vs|
      ensures Replaced(Replaced(UrlDigits(vs), '-', '+'), '_', '/')[i] == Digits(vs)[i]
    {
      DigitsInvert(vs[i]);
    }
  }

  lemma PaddedLength(n: nat)
    requires n % 4 != 1
    ensures (4 - n % 4) % 4 <= 2 && (n + (4 - n % 4) % 4) % 4 == 0
  {
  }

  lemma UnpaddedOfQuads(u: string, k: nat, t: string)
    requires '=' !in u && k <= 2 && |t| % 4 == 0 && t == u + Padding(k)
    requires forall i :: 0 <= i < |u| ==> !IsSpace(u[i])
    ensures Unpadded(Unspaced(t)) == u
  {
    UnspacedOfPlain(t);
    TrimmedOfPadded(u, k, 2);
  }

  lemma UnpaddedOfPadded(u: string, k: nat, t: string)
    requires '=' !in u && |u| % 4 != 1 && k == (4 - |u| % 4) % 4 && t == u + Padding(k)
    requires forall i :: 0 <= i < |u| ==> !IsSpace(u[i])
    ensures Unpadded(Unspaced(t)) == u
  {
    PaddedLength(|u|);
    UnpaddedOfQuads(u, k, t);
  }

  lemma DigitsArePlain(vs: seq<Sextet>)
    ensures AllDigits(Digits(vs)) && Values(Digits(vs)) == vs && '=' !in Digits(vs)
    ensures forall i :: 0 <= i < |vs| ==> !IsSpace(Digits(vs)[i])
  {
    forall i | 0 <= i < |vs|
      ensures ValueOf(Digits(vs)[i]) == Some(vs[i]) && Digits(vs)[i] != '=' && !IsSpace(Digits(vs)[i])
    {
      DigitsInvert(vs[i]);
    }
  }

  lemma AtobOfDigits(vs: seq<Sextet>, u: string, k: nat)
    requires |vs| % 4 != 1 && u == Digits(vs) && k == (4 - |vs| % 4) % 4
    ensures Atob(u + Padding(k)) == Some(Octets(vs))
  {
    DigitsArePlain(vs);
    UnpaddedOfPadded(u, k, u + Padding(k));
  }

  lemma RepaddedDigits(vs: seq<Sextet>)
    ensures Repadded(UrlDigits(vs)) == Digits(vs) + Padding((4 - |vs| % 4) % 4)
  {
    StandardDigits(vs);
  }

  lemma PadCountsAgree(n: nat, m: nat)
    requires m == n / 3 * 4 + (if n % 3 == 0 then 0 else n % 3 + 1)
    ensures (4 - m % 4) % 4 == (3 - n % 3) % 3
  {
  }

  /** The pad count restores exactly what the encoder stripped. */
  lemma PaddingIsRestored(b: seq<Byte>)
    ensures Repadded(BufferToBase64url(b)) == Btoa(b)
  {
    SextetsLength(b);
    PadCountsAgree(|b|, |Sextets(b)|);
    EncodingIsUrlDigits(b);
    RepaddedDigits(Sextets(b));
  }

  lemma AtobInvertsBtoa(b: seq<Byte>)
    ensures Atob(Btoa(b)) == Some(b)
  {
    SextetsLength(b);
    AtobOfDigits(Sextets(b), Digits(Sextets(b)), (3 - |b| % 3) % 3);
    OctetsInvertSextets(b);
  }

  /** `base64urlToBuffer(bufferToBase64url(b)) = b` for every byte sequence. */
  lemma DecodeInvertsEncode(b: seq<Byte>)
    ensures Decoded(BufferToBase64url(b)) == Some(b)
  {
    PaddingIsRestored(b);
    AtobInvertsBtoa(b);
  }

  lemma ValuesInvert(c: char)
    requires ValueOf(c).Some?
    ensures Digit(ValueOf(c).value) == c
  {
    SextetOfInt(Number(c));
    LettersInvert(c);
  }

  lemma UrlValueInverts(c: char)
    requires IsUrlDigit(c)
    ensures Digit(UrlValue(c)) == (if c == '-' then '+' else if c == '_' then '/' else c)
  {
    if ValueOf(c).Some? {
      ValuesInvert(c);
    }
  }

  lemma CanonicalIsDigits(s: string, vs: seq<Sextet>)
    requires AllUrlDigits(s) && vs == seq(|s|, i requires 0 <= i < |s| => UrlValue(s[i]))
    ensures UrlDigits(vs) == s
  {
    forall i | 0 <= i < |s|
      ensures UrlDigits(vs)[i] == s[i]
    {
      UrlValueInverts(s[i]);
    }
  }

  lemma UrlDigitsAreCanonical(vs: seq<Sextet>)
    requires CanonicalValues(vs)
    ensures Canonical(UrlDigits(vs))
  {
    var s := UrlDigits(vs);
    forall i | 0 <= i < |s|
      ensures IsUrlDigit(s[i]) && UrlValue(s[i]) == vs[i]
    {
      DigitsInvert(vs[i]);
    }
    assert seq(|s|, i requires 0 <= i < |s| => UrlValue(s[i])) == vs;
  }

  lemma DecodedOfUrlDigits(vs: seq<Sextet>, s: string)
    requires |vs| % 4 != 1 && s == UrlDigits(vs)
    ensures Decoded(s) == Some(Octets(vs))
  {
    RepaddedDigits(vs);
    AtobOfDigits(vs, Digits(vs), (4 - |vs| % 4) % 4);
  }

  lemma CanonicalIsEncoded(s: string, vs: seq<Sextet>)
    requires Canonical(s) && vs == seq(|s|, i requires 0 <= i < |s| => UrlValue(s[i]))
    ensures Decoded(s) == Some(Octets(vs))
    ensures BufferToBase64url(Octets(vs)) == s
  {
    CanonicalIsDigits(s, vs);
    DecodedOfUrlDigits(vs, s);
    SextetsInvertOctets(vs);
    EncodingIsUrlDigits(Octets(vs));
  }

  /** Every encoding is canonical. */
  lemma EncodingIsCanonical(b: seq<Byte>)
    ensures Canonical(BufferToBase64url(b))
  {
    SextetsAreCanonical(b);
    EncodingIsUrlDigits(b);
    UrlDigitsAreCanonical(Sextets(b));
  }

  /**
   * The other way round holds exactly on canonical strings: a string is the
   * encoding of what it decodes to if and only if it is unpadded, url-safe, of a
   * possible length and with zero spare bits.
   */
  lemma EncodeInvertsDecodeExactly(s: string, decoded: Option<seq<Byte>>)
    requires decoded == Decoded(s)
    ensures Canonical(s) <==> decoded.Some? && BufferToBase64url(decoded.value) == s
  {
    if Canonical(s) {
      CanonicalIsEncoded(s, seq(|s|, i requires 0 <= i < |s| => UrlValue(s[i])));
    } else if decoded.Some? {
      EncodingIsCanonical(decoded.value);
    }
  }

  lemma {:induction false} UrlEncodeOfDigits(vs: seq<Sextet>, k: nat)
    ensures UrlEncodeB64(Digits(vs) + Padding(k)) == UrlDigits(vs)
    decreases |vs|, k
  {
    var s := Digits(vs) + Padding(k);
    if vs != [] {
      DigitsInvert(vs[0]);
      assert s[1..] == Digits(vs[1..]) + Padding(k);
      UrlEncodeOfDigits(vs[1..], k);
      assert UrlDigits(vs)[1..] == UrlDigits(vs[1..]);
    } else if k > 0 {
      assert s[1..] == Digits(vs) + Padding(k - 1);
      UrlEncodeOfDigits(vs, k - 1);
    }
  }

  /** The two encoders of the SDK, written differently, agree on every byte sequence. */
  lemma EncodersAgree(b: seq<Byte>)
    ensures BufferToBase64url(b) == BufferToBase64UrlEncoded(b)
  {
    EncodingIsUrlDigits(b);
    UrlEncodeOfDigits(Sextets(b), (3 - |b| % 3) % 3);
  }
}
