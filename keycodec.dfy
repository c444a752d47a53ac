/** The stored form of an external API key (server/src/modules/external/external-api-service.ts:423-434):
    `Buffer.from(apiKey).toString('base64')` encodes the key in UTF-8 and then in base64
    (section 4 of RFC 4648, with padding); `Buffer.from(s, 'base64').toString('utf-8')`
    decodes leniently, skipping characters outside the alphabet, stopping at the first `=`,
    and replacing every ill-formed UTF-8 sequence by U+FFFD. */
module KeyCodec {
  import opened Wrappers

  type byte = x: int | 0 <= x < 256

  // ---------------------------------------------------------------------------
  // UTF-8 (section 3 of RFC 3629)

  /** The UTF-8 form of one scalar value: one to four bytes. */
  function EncodeChar(c: char): (r: seq<byte>)
    ensures 1 <= |r| <= 4
    ensures (c as int < 0x80) == (|r| == 1)
  {
    var n := c as int;
    if n < 0x80 then [n]
    else if n < 0x800 then [0xC0 + n / 64, 0x80 + n % 64]
    else if n < 0x10000 then [0xE0 + n / 4096, 0x80 + (n / 64) % 64, 0x80 + n % 64]
    else [0xF0 + n / 262144, 0x80 + (n / 4096) % 64, 0x80 + (n / 64) % 64, 0x80 + n % 64]
  }

  /** `Buffer.from(s)`: the UTF-8 bytes of a string, character after character. */
  function Utf8Encode(s: string): (r: seq<byte>)
    ensures |s| <= |r| <= 4 * |s|
  {
    if s == [] then [] else EncodeChar(s[0]) + Utf8Encode(s[1..])
  }

  /** The character decoders put in place of an ill-formed sequence. */
  const Replacement: char := '\U{FFFD}'

  /** How many bytes follow a lead byte, and the range the first of them must lie in;
      zero for a byte that cannot start a sequence. */
  function Expected(lead: byte): (r: (nat, byte, byte))
    ensures r.0 <= 3
  {
    if 0xC2 <= lead <= 0xDF then (1, 0x80, 0xBF)
    else if lead == 0xE0 then (2, 0xA0, 0xBF)
    else if lead == 0xED then (2, 0x80, 0x9F)
    else if 0xE1 <= lead <= 0xEF then (2, 0x80, 0xBF)
    else if lead == 0xF0 then (3, 0x90, 0xBF)
    else if lead == 0xF4 then (3, 0x80, 0x8F)
    else if 0xF1 <= lead <= 0xF3 then (3, 0x80, 0xBF)
    else (0, 0, 0)
  }

  /** How many of the first `need` bytes of `b` continue a sequence: the first in
      `lo..hi`, the others in `0x80..0xBF`. */
  function Continued(b: seq<byte>, need: nat, lo: byte, hi: byte): (r: nat)
    ensures r <= need && r <= |b|
    ensures forall k :: 0 <= k < r ==> 0x80 <= b[k] <= 0xBF
  {
    if need == 0 || b == [] || !(lo <= b[0] <= hi) || !(0x80 <= b[0] <= 0xBF) then 0
    else 1 + Continued(b[1..], need - 1, 0x80, 0xBF)
  }

  /** The scalar value of a well-formed sequence of two to four bytes. */
  function Combine(b: seq<byte>): int
    requires 2 <= |b| <= 4
  {
    var c1 := b[1] as int - 0x80;
    if |b| == 2 then (b[0] as int - 0xC0) * 64 + c1
    else if |b| == 3 then (b[0] as int - 0xE0) * 4096 + c1 * 64 + (b[2] as int - 0x80)
    else (b[0] as int - 0xF0) * 262144 + c1 * 4096 + (b[2] as int - 0x80) * 64 + (b[3] as int - 0x80)
  }

  /** A well-formed sequence decodes to a scalar value: neither a surrogate nor above
      U+10FFFF, and never in overlong form. */
  lemma CombineIsScalar(b: seq<byte>)
    requires 2 <= |b| <= 4 && Expected(b[0]).0 == |b| - 1
    requires Expected(b[0]).1 <= b[1] <= Expected(b[0]).2
    requires forall k :: 1 <= k < |b| ==> 0x80 <= b[k] <= 0xBF
    ensures 0x80 <= Combine(b) < 0xD800 || 0xE000 <= Combine(b) < 0x110000
  {
  }

  /** `toString('utf-8')`: the decoding of the Encoding Standard, where each maximal
      ill-formed subpart becomes one U+FFFD and decoding goes on after it. */
  function Utf8Decode(b: seq<byte>): (r: string)
    ensures |r| <= |b|
    decreases |b|
  {
    if b == [] then []
    else if b[0] < 0x80 then [b[0] as char] + Utf8Decode(b[1..])
    else
      var (need, lo, hi) := Expected(b[0]);
      if need == 0 then [Replacement] + Utf8Decode(b[1..])
      else
        var n := Continued(b[1..], need, lo, hi);
        if n == need then
          CombineIsScalar(b[..need + 1]);
          [Combine(b[..need + 1]) as char] + Utf8Decode(b[need + 1..])
        else [Replacement] + Utf8Decode(b[n + 1..])
  }

  /** One encoded character, followed by anything, decodes to that character first. */
  lemma DecodeEncodedChar(c: char, rest: seq<byte>)
    ensures Utf8Decode(EncodeChar(c) + rest) == [c] + Utf8Decode(rest)
  {
    var e := EncodeChar(c);
    var b := e + rest;
    assert b[|e|..] == rest;
    if |e| > 1 {
      assert b[..|e|] == e;
      assert b[1..][..|e| - 1] == e[1..];
      EncodedCharShape(c);
      ContinuedPrefix(b[1..], e[1..], |e| - 1, Expected(e[0]).1, Expected(e[0]).2);
      assert Continued(b[1..], |e| - 1, Expected(b[0]).1, Expected(b[0]).2) == |e| - 1;
    }
  }

  /** The bytes of a character above U+007F: a lead byte announcing the rest, continuation
      bytes in the lead byte's range, and together they decode to the character. */
  lemma EncodedCharShape(c: char)
    requires c as int >= 0x80
    ensures var e := EncodeChar(c);
      && Expected(e[0]).0 == |e| - 1
      && Expected(e[0]).1 <= e[1] <= Expected(e[0]).2
      && (forall k :: 1 <= k < |e| ==> 0x80 <= e[k] <= 0xBF)
      && Combine(e) == c as int
  {
    var n := c as int;
    if n < 0x800 {
      TwoByteChar(n);
    } else if n < 0x10000 {
      ThreeByteChar(n);
    } else {
      FourByteChar(n);
    }
  }

  lemma TwoByteChar(n: int)
    requires 0x80 <= n < 0x800
    ensures var e: seq<byte> := [0xC0 + n / 64, 0x80 + n % 64];
      Expected(e[0]) == (1, 0x80, 0xBF) && 0x80 <= e[1] <= 0xBF && Combine(e) == n
  {
  }

  lemma ThreeByteChar(n: int)
    requires 0x800 <= n < 0x10000 && !(0xD800 <= n < 0xE000)
    ensures var e: seq<byte> := [0xE0 + n / 4096, 0x80 + (n / 64) % 64, 0x80 + n % 64];
      Expected(e[0]).0 == 2 && Expected(e[0]).1 <= e[1] <= Expected(e[0]).2
      && 0x80 <= e[1] <= 0xBF && 0x80 <= e[2] <= 0xBF && Combine(e) == n
  {
    var a, m := n / 4096, (n / 64) % 64;
    assert n / 64 == a * 64 + m;
    assert n == a * 4096 + m * 64 + n % 64;
  }

  lemma FourByteChar(n: int)
    requires 0x10000 <= n < 0x110000
    ensures var e: seq<byte> := [0xF0 + n / 262144, 0x80 + (n / 4096) % 64, 0x80 + (n / 64) % 64, 0x80 + n % 64];
      Expected(e[0]).0 == 3 && Expected(e[0]).1 <= e[1] <= Expected(e[0]).2
      && 0x80 <= e[1] <= 0xBF && 0x80 <= e[2] <= 0xBF && 0x80 <= e[3] <= 0xBF && Combine(e) == n
  {
    var a, m1, m2 := n / 262144, (n / 4096) % 64, (n / 64) % 64;
    assert n / 4096 == a * 64 + m1;
    assert n / 64 == (n / 4096) * 64 + m2;
    assert n == a * 262144 + m1 * 4096 + m2 * 64 + n % 64;
  }

  /** Continuation bytes are counted on a prefix that holds them all. */
  lemma {:induction false} ContinuedPrefix(b: seq<byte>, e: seq<byte>, need: nat, lo: byte, hi: byte)
    requires |e| == need <= |b| && b[..need] == e
    requires need > 0 ==> lo <= e[0] <= hi
    requires forall k :: 0 <= k < need ==> 0x80 <= e[k] <= 0xBF
    ensures Continued(b, need, lo, hi) == need
  {
    if need > 0 {
      assert b[0] == e[0];
      assert b[1..][..need - 1] == e[1..];
      ContinuedPrefix(b[1..], e[1..], need - 1, 0x80, 0xBF);
    }
  }

  /** Decoding undoes encoding: every string survives the trip through UTF-8. */
  lemma {:induction false} Utf8RoundTrip(s: string)
    ensures Utf8Decode(Utf8Encode(s)) == s
  {
    if s != [] {
      Utf8RoundTrip(s[1..]);
      DecodeEncodedChar(s[0], Utf8Encode(s[1..]));
    }
  }

  // ---------------------------------------------------------------------------
  // Base64 (section 4 of RFC 4648)

  type sextet = x: int | 0 <= x < 64

  /** The character of a 6-bit value in the base64 alphabet. */
  function Digit(v: sextet): (c: char)
    ensures c != '='
  {
    if v < 26 then ('A' as int + v) as char
    else if v < 52 then ('a' as int + v - 26) as char
    else if v < 62 then ('0' as int + v - 52) as char
    else if v == 62 then '+' else '/'
  }

  /** The value of a character when decoding: the base64 alphabet, plus `-` and `_` of the
      URL-safe alphabet, which Node accepts as well. */
  function DigitValue(c: char): Option<sextet> {
    if 'A' <= c <= 'Z' then Some(c as int - 'A' as int)
    else if 'a' <= c <= 'z' then Some(c as int - 'a' as int + 26)
    else if '0' <= c <= '9' then Some(c as int - '0' as int + 52)
    else if c == '+' || c == '-' then Some(62)
    else if c == '/' || c == '_' then Some(63)
    else None
  }

  lemma DigitValueOfDigit(v: sextet)
    ensures DigitValue(Digit(v)) == Some(v)
  {
  }

  /** The 6-bit values of a full group of three bytes. */
  function Group(b0: byte, b1: byte, b2: byte): (d: seq<sextet>)
    ensures |d| == 4
  {
    [b0 / 4, b0 % 4 * 16 + b1 / 16, b1 % 16 * 4 + b2 / 64, b2 % 64]
  }

  /** The 6-bit values of a last group of one byte, or of two. */
  function Tail(b: seq<byte>): (d: seq<sextet>)
    requires 1 <= |b| <= 2
    ensures |d| == |b| + 1
  {
    if |b| == 1 then [b[0] / 4, b[0] % 4 * 16]
    else [b[0] / 4, b[0] % 4 * 16 + b[1] / 16, b[1] % 16 * 4]
  }

  /** The characters of some 6-bit values. */
  function DigitsOf(d: seq<sextet>): (r: string)
    ensures |r| == |d|
    ensures forall k :: 0 <= k < |r| ==> DigitValue(r[k]) == Some(d[k])
  {
    if d == [] then []
    else
      DigitValueOfDigit(d[0]);
      [Digit(d[0])] + DigitsOf(d[1..])
  }

  /** `toString('base64')`: every three bytes become four characters, and a last group of
      one or two bytes is padded with `=` to four. */
  function Base64Encode(b: seq<byte>): (r: string)
    ensures |r| == 4 * ((|b| + 2) / 3)
  {
    if b == [] then []
    else if |b| == 1 then DigitsOf(Tail(b)) + "=="
    else if |b| == 2 then DigitsOf(Tail(b)) + "="
    else DigitsOf(Group(b[0], b[1], b[2])) + Base64Encode(b[3..])
  }

  /** The encoding holds characters of the alphabet, and `=` only in its last two places. */
  lemma {:induction false} Base64EncodeAlphabet(b: seq<byte>)
    ensures forall k :: 0 <= k < |Base64Encode(b)| ==>
      if Base64Encode(b)[k] == '=' then k >= |Base64Encode(b)| - 2 else DigitValue(Base64Encode(b)[k]).Some?
  {
    var r := Base64Encode(b);
    if |b| >= 3 {
      var rest := Base64Encode(b[3..]);
      Base64EncodeAlphabet(b[3..]);
      var d := DigitsOf(Group(b[0], b[1], b[2]));
      assert r == d + rest;
      assert DigitValue('=') == None;
      forall k | 0 <= k < |r| ensures if r[k] == '=' then k >= |r| - 2 else DigitValue(r[k]).Some? {
        if k >= 4 {
          assert r[k] == rest[k - 4];
          assert if rest[k - 4] == '=' then k - 4 >= |rest| - 2 else DigitValue(rest[k - 4]).Some?;
        } else {
          assert r[k] == d[k] && DigitValue(r[k]).Some?;
          assert r[k] != '=';
        }
      }
    } else if b != [] {
      var d := DigitsOf(Tail(b));
      forall k | 0 <= k < |r| ensures if r[k] == '=' then k >= |r| - 2 else DigitValue(r[k]).Some? {
        if k < |d| {
          assert r[k] == d[k] && DigitValue(r[k]).Some?;
        } else {
          assert r[k] == '=';
        }
      }
    }
  }

  /** The values of the characters before the first `=`, skipping characters outside the
      alphabet. */
  function Sextets(s: string): seq<sextet> {
    if s == [] || s[0] == '=' then []
    else
      match DigitValue(s[0])
      case Some(v) => [v] + Sextets(s[1..])
      case None => Sextets(s[1..])
  }

  /** Every four values become three bytes; a last group of three values gives two bytes,
      of two values one byte, and a single value none. */
  function FromSextets(q: seq<sextet>): (r: seq<byte>)
    ensures |r| == |q| * 3 / 4
  {
    if |q| < 2 then []
    else
      var b0 := q[0] as int * 4 + q[1] / 16;
      if |q| == 2 then [b0]
      else
        var b1 := q[1] as int % 16 * 16 + q[2] / 4;
        if |q| == 3 then [b0, b1]
        else [b0, b1, q[2] as int % 4 * 64 + q[3]] + FromSextets(q[4..])
  }

  /** `Buffer.from(s, 'base64')`: never fails, whatever the input. */
  function Base64Decode(s: string): (r: seq<byte>)
    ensures |r| <= |s|
  {
    SextetsBound(s);
    FromSextets(Sextets(s))
  }

  lemma {:induction false} SextetsBound(s: string)
    ensures |Sextets(s)| <= |s|
  {
    if s != [] && s[0] != '=' {
      SextetsBound(s[1..]);
    }
  }

  /** Characters of the alphabet in front contribute their values in order. */
  lemma {:induction false} SextetsOfDigits(d: seq<sextet>, rest: string)
    ensures Sextets(DigitsOf(d) + rest) == d + Sextets(rest)
  {
    if d != [] {
      var s := DigitsOf(d) + rest;
      assert DigitValue(s[0]) == Some(d[0]);
      assert DigitValue('=') == None;
      assert s[1..] == DigitsOf(d[1..]) + rest;
      SextetsOfDigits(d[1..], rest);
      assert Sextets(s) == [d[0]] + Sextets(s[1..]);
      assert d == [d[0]] + d[1..];
    } else {
      assert DigitsOf(d) + rest == rest;
    }
  }

  /** A full group of values decodes to its three bytes. */
  lemma FromGroup(b0: byte, b1: byte, b2: byte, q: seq<sextet>)
    ensures FromSextets(Group(b0, b1, b2) + q) == [b0, b1, b2] + FromSextets(q)
  {
    var g := Group(b0, b1, b2);
    assert (g + q)[4..] == q;
    assert (g + q)[..4] == g;
  }

  /** A last group of values decodes to its one or two bytes. */
  lemma FromTail(b: seq<byte>)
    requires 1 <= |b| <= 2
    ensures FromSextets(Tail(b)) == b
  {
  }

  /** Decoding undoes encoding: every byte string survives the trip through base64. */
  lemma {:induction false} Base64RoundTrip(b: seq<byte>)
    ensures Base64Decode(Base64Encode(b)) == b
  {
    if |b| == 1 || |b| == 2 {
      var pad := if |b| == 1 then "==" else "=";
      assert Sextets(pad) == [];
      SextetsOfDigits(Tail(b), pad);
      FromTail(b);
    } else if |b| >= 3 {
      var rest := Base64Encode(b[3..]);
      Base64RoundTrip(b[3..]);
      SextetsOfDigits(Group(b[0], b[1], b[2]), rest);
      FromGroup(b[0], b[1], b[2], Sextets(rest));
      assert b == [b[0], b[1], b[2]] + b[3..];
    }
  }

  // ---------------------------------------------------------------------------
  // The stored key

  /** `encryptApiKey(apiKey)`. */
  function EncryptApiKey(apiKey: string): (r: string)
    ensures |r| % 4 == 0
    ensures forall k :: 0 <= k < |r| ==> if r[k] == '=' then k >= |r| - 2 else DigitValue(r[k]).Some?
  {
    var bytes := Utf8Encode(apiKey);
    Base64EncodeAlphabet(bytes);
    var groups := (|bytes| + 2) / 3;
    assert |Base64Encode(bytes)| == groups * 4;
    Base64Encode(bytes)
  }

  /** `decryptApiKey(encryptedKey)`: total, as Node's decoders never throw. */
  function DecryptApiKey(encryptedKey: string): string {
    Utf8Decode(Base64Decode(encryptedKey))
  }

  /** A stored key reads back as the key that was stored. */
  lemma DecryptEncrypt(apiKey: string)
    ensures DecryptApiKey(EncryptApiKey(apiKey)) == apiKey
  {
    Base64RoundTrip(Utf8Encode(apiKey));
    Utf8RoundTrip(apiKey);
  }
}
