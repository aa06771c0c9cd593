/** Base64url without padding (section 5 of RFC 4648). */
module Base64Url {
  import opened Wrappers

  type Byte = x: int | 0 <= x < 256
  type Bytes = seq<Byte>

  /** Digit 0..63 as a character of the URL-safe alphabet. */
  function CharOf(d: int): char
    requires 0 <= d < 64
  {
    if d < 26 then 'A' + d as char
    else if d < 52 then 'a' + (d - 26) as char
    else if d < 62 then '0' + (d - 52) as char
    else if d == 62 then '-' else '_'
  }

  /** The value of a character; the standard alphabet's + and / are read too. */
  function DigitOf(c: char): (d: Option<int>)
    ensures d.Some? ==> 0 <= d.value < 64
  {
    if 'A' <= c <= 'Z' then Some(c as int - 'A' as int)
    else if 'a' <= c <= 'z' then Some(c as int - 'a' as int + 26)
    else if '0' <= c <= '9' then Some(c as int - '0' as int + 52)
    else if c == '-' || c == '+' then Some(62)
    else if c == '_' || c == '/' then Some(63)
    else None
  }

  function Group(a: Byte, b: Byte, c: Byte): (s: string)
    ensures |s| == 4
  {
    [CharOf(a / 4), CharOf(a % 4 * 16 + b / 16), CharOf(b % 16 * 4 + c / 64), CharOf(c % 64)]
  }

  /** The characters of a last group of fewer than three bytes. */
  function Tail(x: Bytes): string
    requires |x| < 3
  {
    if x == [] then ""
    else if |x| == 1 then [CharOf(x[0] / 4), CharOf(x[0] % 4 * 16)]
    else [CharOf(x[0] / 4), CharOf(x[0] % 4 * 16 + x[1] / 16), CharOf(x[1] % 16 * 4)]
  }

  function PadCount(n: nat): nat {
    (3 - n % 3) % 3
  }

  function Repeat(c: char, n: nat): (s: string)
    ensures |s| == n
  {
    seq(n, i => c)
  }

  /** urlsafe_b64encode: groups of three bytes as four characters, the last one padded with '='. */
  function Padded(x: Bytes): string {
    if |x| < 3 then Tail(x) + Repeat('=', PadCount(|x|)) else Group(x[0], x[1], x[2]) + Padded(x[3..])
  }

  function StripRight(s: string, c: char): string {
    if s != [] && s[|s| - 1] == c then StripRight(s[..|s| - 1], c) else s
  }

  /** b64url */
  function Encode(x: Bytes): string {
    StripRight(Padded(x), '=')
  }

  /** The decoder's state: how many characters of the current group are in, and their unused bits. */
  datatype Partial = Partial(count: int, rest: int, pads: int)

  /** The decoding loop: other characters are skipped, enough '=' end the text, and a text that
      ends inside a group is an error. */
  function DecodeFrom(s: string, p: Partial): (r: Result<Bytes>)
    requires 0 <= p.count < 4 && 0 <= p.rest
    requires (p.count == 1 ==> p.rest < 64) && (p.count == 2 ==> p.rest < 16) && (p.count == 3 ==> p.rest < 4)
    decreases |s|
  {
    if s == [] then (if p.count == 0 then Ok([]) else Err("incorrect padding"))
    else if s[0] == '=' then
      if p.count >= 2 && p.count + p.pads + 1 >= 4 then Ok([])
      else DecodeFrom(s[1..], p.(pads := if p.count >= 2 then p.pads + 1 else p.pads))
    else if DigitOf(s[0]).None? then DecodeFrom(s[1..], p)
    else
      var d := DigitOf(s[0]).value;
      if p.count == 0 then DecodeFrom(s[1..], Partial(1, d, 0))
      else if p.count == 1 then Prepend(p.rest * 4 + d / 16, DecodeFrom(s[1..], Partial(2, d % 16, 0)))
      else if p.count == 2 then Prepend(p.rest * 16 + d / 4, DecodeFrom(s[1..], Partial(3, d % 4, 0)))
      else Prepend(p.rest * 64 + d, DecodeFrom(s[1..], Partial(0, 0, 0)))
  }

  function Prepend(b: Byte, r: Result<Bytes>): Result<Bytes> {
    if r.Ok? then Ok([b] + r.value) else r
  }

  const START := Partial(0, 0, 0)

  /** b64url_decode: the padding is restored first. */
  function Decode(s: string): Result<Bytes> {
    DecodeFrom(s + Repeat('=', (4 - |s| % 4) % 4), START)
  }

  lemma CharRoundTrip(d: int)
    requires 0 <= d < 64
    ensures CharOf(d) != '=' && DigitOf(CharOf(d)) == Some(d)
  {
  }

  /** What is left after stripping the padding. */
  function Unpadded(x: Bytes): string {
    if |x| < 3 then Tail(x) else Group(x[0], x[1], x[2]) + Unpadded(x[3..])
  }

  lemma Reassociate(a: string, b: string, c: string)
    ensures a + (b + c) == (a + b) + c
  {
  }

  lemma {:induction false} PaddedSplits(x: Bytes)
    ensures Padded(x) == Unpadded(x) + Repeat('=', PadCount(|x|))
  {
    if |x| >= 3 {
      PaddedSplits(x[3..]);
      Reassociate(Group(x[0], x[1], x[2]), Unpadded(x[3..]), Repeat('=', PadCount(|x|)));
    }
  }

  lemma {:induction false} UnpaddedClean(x: Bytes)
    ensures forall k :: 0 <= k < |Unpadded(x)| ==> Unpadded(x)[k] != '='
    ensures |Unpadded(x)| == (4 * |x| + 2) / 3
  {
    if |x| >= 3 {
      UnpaddedClean(x[3..]);
    }
  }

  lemma PadRestored(n: nat)
    ensures (4 - (4 * n + 2) / 3 % 4) % 4 == PadCount(n)
  {
    var q, r := n / 3, n % 3;
    assert (4 * n + 2) / 3 == 4 * q + (4 * r + 2) / 3;
  }

  lemma {:induction false} StripPadding(s: string, n: nat)
    requires s != [] ==> s[|s| - 1] != '='
    ensures StripRight(s + Repeat('=', n), '=') == s
  {
    if n == 0 {
      assert s + Repeat('=', 0) == s;
    } else {
      StripPadding(s, n - 1);
      assert (s + Repeat('=', n))[..|s| + n - 1] == s + Repeat('=', n - 1);
    }
  }

  /** The digits of a group give its bytes back. */
  lemma Bits(a: Byte, b: Byte, c: Byte)
    ensures var d0, d1, d2, d3 := a / 4, a % 4 * 16 + b / 16, b % 16 * 4 + c / 64, c % 64;
            && 0 <= d0 < 64 && 0 <= d1 < 64 && 0 <= d2 < 64 && 0 <= d3 < 64
            && d0 * 4 + d1 / 16 == a && d1 % 16 * 16 + d2 / 4 == b && d2 % 4 * 64 + d3 == c
  {
  }

  lemma DecodeFirst(d: int, tail: string)
    requires 0 <= d < 64
    ensures DecodeFrom([CharOf(d)] + tail, START) == DecodeFrom(tail, Partial(1, d, 0))
  {
    CharRoundTrip(d);
    assert ([CharOf(d)] + tail)[1..] == tail;
  }

  lemma DecodeSecond(d: int, tail: string, rest: int)
    requires 0 <= d < 64 && 0 <= rest < 64
    ensures DecodeFrom([CharOf(d)] + tail, Partial(1, rest, 0))
         == Prepend(rest * 4 + d / 16, DecodeFrom(tail, Partial(2, d % 16, 0)))
  {
    CharRoundTrip(d);
    assert ([CharOf(d)] + tail)[1..] == tail;
  }

  lemma DecodeThird(d: int, tail: string, rest: int)
    requires 0 <= d < 64 && 0 <= rest < 16
    ensures DecodeFrom([CharOf(d)] + tail, Partial(2, rest, 0))
         == Prepend(rest * 16 + d / 4, DecodeFrom(tail, Partial(3, d % 4, 0)))
  {
    CharRoundTrip(d);
    assert ([CharOf(d)] + tail)[1..] == tail;
  }

  lemma DecodeFourth(d: int, tail: string, rest: int)
    requires 0 <= d < 64 && 0 <= rest < 4
    ensures DecodeFrom([CharOf(d)] + tail, Partial(3, rest, 0)) == Prepend(rest * 64 + d, DecodeFrom(tail, START))
  {
    CharRoundTrip(d);
    assert ([CharOf(d)] + tail)[1..] == tail;
  }

  /** Two characters of a group give its first byte. */
  lemma DecodePair(d0: int, d1: int, tail: string)
    requires 0 <= d0 < 64 && 0 <= d1 < 64
    ensures DecodeFrom([CharOf(d0), CharOf(d1)] + tail, START)
         == Prepend(d0 * 4 + d1 / 16, DecodeFrom(tail, Partial(2, d1 % 16, 0)))
  {
    DecodeSecond(d1, tail, d0);
    DecodeFirst(d0, [CharOf(d1)] + tail);
    assert [CharOf(d0), CharOf(d1)] + tail == [CharOf(d0)] + ([CharOf(d1)] + tail);
  }

  lemma DecodeGroup(a: Byte, b: Byte, c: Byte, tail: string)
    ensures DecodeFrom(Group(a, b, c) + tail, START) == Prepend(a, Prepend(b, Prepend(c, DecodeFrom(tail, START))))
  {
    Bits(a, b, c);
    DecodeFour(a / 4, a % 4 * 16 + b / 16, b % 16 * 4 + c / 64, c % 64, tail);
  }

  lemma DecodeFour(d0: int, d1: int, d2: int, d3: int, tail: string)
    requires 0 <= d0 < 64 && 0 <= d1 < 64 && 0 <= d2 < 64 && 0 <= d3 < 64
    ensures DecodeFrom([CharOf(d0), CharOf(d1), CharOf(d2), CharOf(d3)] + tail, START)
         == Prepend(d0 * 4 + d1 / 16,
                    Prepend(d1 % 16 * 16 + d2 / 4, Prepend(d2 % 4 * 64 + d3, DecodeFrom(tail, START))))
  {
    var last := [CharOf(d3)] + tail;
    var half := [CharOf(d2)] + last;
    DecodeFourth(d3, tail, d2 % 4);
    DecodeThird(d2, last, d1 % 16);
    DecodePair(d0, d1, half);
    assert [CharOf(d0), CharOf(d1), CharOf(d2), CharOf(d3)] + tail == [CharOf(d0), CharOf(d1)] + half;
  }

  lemma {:induction false} DecodePadded(x: Bytes)
    ensures DecodeFrom(Padded(x), START) == Ok(x)
  {
    if |x| == 1 {
      DecodeOne(x[0]);
      assert x == [x[0]];
    } else if |x| == 2 {
      DecodeTwo(x[0], x[1]);
      assert x == [x[0], x[1]];
    } else if |x| >= 3 {
      DecodePadded(x[3..]);
      DecodeGroup(x[0], x[1], x[2], Padded(x[3..]));
      assert [x[0]] + ([x[1]] + ([x[2]] + x[3..])) == x;
    }
  }

  /** Two digits, then padding. */
  lemma DecodeTwoDigits(d0: int, d1: int)
    requires 0 <= d0 < 64 && 0 <= d1 < 64
    ensures DecodeFrom([CharOf(d0), CharOf(d1)] + Repeat('=', 2), START) == Prepend(d0 * 4 + d1 / 16, Ok([]))
  {
    var pads := Repeat('=', 2);
    DecodePair(d0, d1, pads);
    assert pads[1..] == ['='];
    assert DecodeFrom(pads[1..], Partial(2, d1 % 16, 1)) == Ok([]);
  }

  /** Three digits, then padding. */
  lemma DecodeThreeDigits(d0: int, d1: int, d2: int)
    requires 0 <= d0 < 64 && 0 <= d1 < 64 && 0 <= d2 < 64
    ensures DecodeFrom([CharOf(d0), CharOf(d1), CharOf(d2)] + Repeat('=', 1), START)
         == Prepend(d0 * 4 + d1 / 16, Prepend(d1 % 16 * 16 + d2 / 4, Ok([])))
  {
    var pads := Repeat('=', 1);
    var half := [CharOf(d2)] + pads;
    DecodeThird(d2, pads, d1 % 16);
    DecodePair(d0, d1, half);
    assert [CharOf(d0), CharOf(d1)] + half == [CharOf(d0), CharOf(d1), CharOf(d2)] + pads;
    assert DecodeFrom(pads, Partial(3, d2 % 4, 0)) == Ok([]);
  }

  lemma DecodeOne(a: Byte)
    ensures DecodeFrom(Padded([a]), START) == Ok([a])
  {
    Bits(a, 0, 0);
    DecodeTwoDigits(a / 4, a % 4 * 16);
    assert [a] + [] == [a];
  }

  lemma DecodeTwo(a: Byte, b: Byte)
    ensures DecodeFrom(Padded([a, b]), START) == Ok([a, b])
  {
    Bits(a, b, 0);
    DecodeThreeDigits(a / 4, a % 4 * 16 + b / 16, b % 16 * 4);
    assert [b] + [] == [b] && [a] + [b] == [a, b];
  }

  /** No padding in the output, and four characters for every three bytes, rounded up. */
  lemma EncodeShape(x: Bytes)
    ensures Encode(x) == Unpadded(x)
    ensures forall k :: 0 <= k < |Encode(x)| ==> Encode(x)[k] != '='
    ensures |Encode(x)| == (4 * |x| + 2) / 3
  {
    PaddedSplits(x);
    UnpaddedClean(x);
    StripPadding(Unpadded(x), PadCount(|x|));
  }

  /** Decoding undoes encoding, for all bytes. */
  lemma RoundTrip(x: Bytes)
    ensures Decode(Encode(x)) == Ok(x)
  {
    EncodeShape(x);
    PaddedSplits(x);
    PadRestored(|x|);
    DecodePadded(x);
  }

  // ------------------------------------------------------------------ the encoding, in numbers

  /** Table 2 of RFC 4648: A to Z, a to z, 0 to 9, minus and underscore, as ASCII codes. */
  function Ascii(d: int): int {
    if d < 26 then 65 + d else if d < 52 then 71 + d else if d < 62 then d - 4 else if d == 62 then 45 else 95
  }

  /** The byte at place n of a string, 0 beyond its end. */
  function ByteAt(x: Bytes, n: nat): Byte {
    if n < |x| then x[n] else 0
  }

  /** The g-th group of 24 bits, as a number. */
  function Bits24(x: Bytes, g: nat): int {
    65536 * ByteAt(x, 3 * g) + 256 * ByteAt(x, 3 * g + 1) + ByteAt(x, 3 * g + 2)
  }

  /** The k-th six bits of a group. */
  function Sextet(bits: int, k: int): int {
    match k
    case 0 => bits / 262144 % 64
    case 1 => bits / 4096 % 64
    case 2 => bits / 64 % 64
    case _ => bits % 64
  }

  /** Six bits of a number made of higher bits, these six, and lower ones. */
  lemma Top(x: int, low: int)
    requires 0 <= x < 64 && 0 <= low < 262144
    ensures (262144 * x + low) / 262144 % 64 == x
  {
  }

  lemma Second(high: int, x: int, low: int)
    requires 0 <= high && 0 <= x < 64 && 0 <= low < 4096
    ensures (4096 * (64 * high + x) + low) / 4096 % 64 == x
  {
  }

  lemma Third(high: int, x: int, low: int)
    requires 0 <= high && 0 <= x < 64 && 0 <= low < 64
    ensures (64 * (64 * high + x) + low) / 64 % 64 == x
  {
  }

  lemma GroupSextets(a: Byte, b: Byte, c: Byte)
    ensures Sextet(65536 * a + 256 * b + c, 0) == a / 4
    ensures Sextet(65536 * a + 256 * b + c, 1) == a % 4 * 16 + b / 16
    ensures Sextet(65536 * a + 256 * b + c, 2) == b % 16 * 4 + c / 64
    ensures Sextet(65536 * a + 256 * b + c, 3) == c % 64
  {
    var bits := 65536 * a + 256 * b + c;
    var a1, a0, b1, b0, c1, c0 := a / 4, a % 4, b / 16, b % 16, c / 64, c % 64;
    Top(a1, 65536 * a0 + 256 * b + c);
    Second(a1, 16 * a0 + b1, 256 * b0 + c);
    Third(64 * a1 + 16 * a0 + b1, 4 * b0 + c1, c0);
    assert bits == 262144 * a1 + (65536 * a0 + 256 * b + c);
    assert bits == 4096 * (64 * a1 + (16 * a0 + b1)) + (256 * b0 + c);
    assert bits == 64 * (64 * (64 * a1 + 16 * a0 + b1) + (4 * b0 + c1)) + c0;
  }

  lemma SextetSmall(bits: int, k: nat)
    requires bits >= 0
    ensures 0 <= Sextet(bits, k) < 64
  {
  }

  lemma CharIs(d: int)
    requires 0 <= d < 64
    ensures CharOf(d) as int == Ascii(d)
  {
  }

  /** The digits of the first group. */
  function Digit(x: Bytes, k: nat): int {
    match k
    case 0 => ByteAt(x, 0) / 4
    case 1 => ByteAt(x, 0) % 4 * 16 + ByteAt(x, 1) / 16
    case 2 => ByteAt(x, 1) % 16 * 4 + ByteAt(x, 2) / 64
    case _ => ByteAt(x, 2) % 64
  }

  lemma FirstDigits(x: Bytes, k: nat)
    requires k < 4 && k < |Unpadded(x)|
    ensures 0 <= Digit(x, k) < 64 && Unpadded(x)[k] == CharOf(Digit(x, k))
  {
  }

  lemma FirstFour(x: Bytes, k: nat)
    requires k < 4 && k < |Unpadded(x)|
    ensures 0 <= Sextet(Bits24(x, 0), k) < 64 && Unpadded(x)[k] as int == Ascii(Sextet(Bits24(x, 0), k))
  {
    FirstDigits(x, k);
    GroupSextets(ByteAt(x, 0), ByteAt(x, 1), ByteAt(x, 2));
    assert Sextet(Bits24(x, 0), k) == Digit(x, k);
    CharIs(Digit(x, k));
  }

  lemma {:induction false} UnpaddedIs(x: Bytes, g: nat, k: nat)
    requires k < 4 && 4 * g + k < |Unpadded(x)|
    ensures 0 <= Sextet(Bits24(x, g), k) < 64
    ensures Unpadded(x)[4 * g + k] as int == Ascii(Sextet(Bits24(x, g), k))
  {
    if g == 0 {
      FirstFour(x, k);
    } else {
      assert Unpadded(x) == Group(x[0], x[1], x[2]) + Unpadded(x[3..]);
      UnpaddedIs(x[3..], g - 1, k);
      assert Bits24(x, g) == Bits24(x[3..], g - 1);
    }
  }

  /** Every three bytes, zero bytes added at the end, are four times six bits, and each six bits are the character
      of the table. */
  lemma EncodeIs(x: Bytes, g: nat, k: nat)
    requires k < 4 && 4 * g + k < |Encode(x)|
    ensures 0 <= Sextet(Bits24(x, g), k) < 64
    ensures Encode(x)[4 * g + k] as int == Ascii(Sextet(Bits24(x, g), k))
  {
    EncodeShape(x);
    UnpaddedIs(x, g, k);
  }
}

/** Web Push message encryption: framing by sections 2 and 2.1 of RFC 8188 and section 4 of RFC 8291.
    The primitives are functions with their usual laws. */
module Push {
  import opened Wrappers
  import opened Base64Url

  const RECORD_SIZE := 4096
  const KEY_LENGTH := 65  // an uncompressed P-256 point

  /** ECDH, HKDF and AES-GCM; private keys are numbers. */
  datatype Crypto = Crypto(
    publicOf: int -> Bytes,
    validPoint: Bytes -> bool,
    exchange: (int, Bytes) -> Bytes,
    hkdf: (Bytes, Bytes, Bytes, int) -> Bytes,
    seal: (Bytes, Bytes, Bytes) -> Bytes,
    open: (Bytes, Bytes, Bytes) -> Option<Bytes>)

  ghost predicate Laws(c: Crypto) {
    && (forall k :: |c.publicOf(k)| == KEY_LENGTH && c.validPoint(c.publicOf(k)))
    && (forall k, l :: c.exchange(k, c.publicOf(l)) == c.exchange(l, c.publicOf(k)))
    && (forall key, nonce, p ::
          |c.seal(key, nonce, p)| == |p| + 16 && c.open(key, nonce, c.seal(key, nonce, p)) == Some(p))
  }

  /** The given text as bytes, with a closing zero byte. */
  function Info(text: string): Bytes
    requires forall k :: 0 <= k < |text| ==> text[k] < 128 as char
  {
    seq(|text|, k requires 0 <= k < |text| => text[k] as int) + [0]
  }

  datatype Keys = Keys(cek: Bytes, nonce: Bytes)

  /** The content key and nonce from the shared secret, the same on both sides. */
  function DeriveKeys(c: Crypto, shared: Bytes, authSecret: Bytes, uaPublic: Bytes, asPublic: Bytes,
                      salt: Bytes): Keys {
    var ikm := c.hkdf(authSecret, shared, Info("WebPush: info") + uaPublic + asPublic, 32);
    Keys(c.hkdf(salt, ikm, Info("Content-Encoding: aes128gcm"), 16),
         c.hkdf(salt, ikm, Info("Content-Encoding: nonce"), 12))
  }

  /** n.to_bytes(4, "big") */
  function BigEndian(n: int): Bytes
    requires 0 <= n < 0x1_0000_0000
  {
    [n / 0x100_0000, n / 0x1_0000 % 256, n / 256 % 256, n % 256]
  }

  function FromBigEndian(b: Bytes): int
    requires |b| == 4
  {
    b[0] as int * 0x100_0000 + b[1] as int * 0x1_0000 + b[2] as int * 256 + b[3] as int
  }

  function Header(salt: Bytes, asPublic: Bytes): Bytes
    requires |asPublic| < 256
  {
    salt + BigEndian(RECORD_SIZE) + [|asPublic|] + asPublic
  }

  /** encrypt(): the request body for one subscription. */
  function Encrypt(c: Crypto, plaintext: Bytes, p256dh: string, auth: string, salt: Bytes,
                   serverKey: int): Result<Bytes>
    requires Laws(c)
  {
    var uaPublic, authSecret := Decode(p256dh), Decode(auth);
    if uaPublic.Err? then uaPublic
    else if authSecret.Err? then authSecret
    else if !c.validPoint(uaPublic.value) then Err("invalid point")
    else
      var asPublic := c.publicOf(serverKey);
      var shared := c.exchange(serverKey, uaPublic.value);
      var keys := DeriveKeys(c, shared, authSecret.value, uaPublic.value, asPublic, salt);
      if |plaintext| > RECORD_SIZE - 17 - 86 then Err("push payload too large for one record")
      else Ok(Header(salt, asPublic) + c.seal(keys.cek, keys.nonce, plaintext + [2]))
  }

  // ------------------------------------------------------------------ the receiving side of the RFC

  /** The header fields of section 2.1 of RFC 8188: salt, record size, key id, and what follows. */
  datatype Message = Message(salt: Bytes, recordSize: int, keyId: Bytes, record: Bytes)

  function Parse(body: Bytes): Result<Message> {
    if |body| < 21 then Err("truncated header")
    else
      var end := 21 + body[20] as int;
      if |body| < end then Err("truncated key id")
      else Ok(Message(body[..16], FromBigEndian(body[16..20]), body[21..end], body[end..]))
  }

  /** The last record: drop zero padding, then the delimiter 0x02. */
  function StripDelimiter(p: Bytes): Result<Bytes> {
    if p == [] then Err("no delimiter")
    else if p[|p| - 1] == 0 then StripDelimiter(p[..|p| - 1])
    else if p[|p| - 1] == 2 then Ok(p[..|p| - 1])
    else Err("not the last record")
  }

  // "WebPush: info" and a zero byte, section 3.4 of RFC 8291
  const KEY_INFO: Bytes := [87, 101, 98, 80, 117, 115, 104, 58, 32, 105, 110, 102, 111, 0]

  // "Content-Encoding: aes128gcm" and a zero byte, section 2.2 of RFC 8188
  const CEK_INFO: Bytes := [67, 111, 110, 116, 101, 110, 116, 45, 69, 110, 99, 111, 100, 105, 110, 103, 58, 32,
                            97, 101, 115, 49, 50, 56, 103, 99, 109, 0]

  // "Content-Encoding: nonce" and a zero byte, section 2.3 of RFC 8188
  const NONCE_INFO: Bytes := [67, 111, 110, 116, 101, 110, 116, 45, 69, 110, 99, 111, 100, 105, 110, 103, 58, 32,
                              110, 111, 110, 99, 101, 0]

  /** A user agent with the subscription's private key and auth secret. It derives the keys as the RFCs say:
      32 bytes of key material from both public keys, its own first; then 16 bytes of key and 12 of nonce. */
  function Receive(c: Crypto, body: Bytes, uaKey: int, authSecret: Bytes): Result<Bytes>
    requires Laws(c)
  {
    var m := Parse(body);
    if m.Err? then Err(m.error)
    else if m.value.recordSize < 18 || |m.value.record| > m.value.recordSize then Err("bad record size")
    else
      var ikm := c.hkdf(authSecret, c.exchange(uaKey, m.value.keyId), KEY_INFO + c.publicOf(uaKey) + m.value.keyId, 32);
      var plain := c.open(c.hkdf(m.value.salt, ikm, CEK_INFO, 16), c.hkdf(m.value.salt, ikm, NONCE_INFO, 12),
                          m.value.record);
      if plain.None? then Err("decryption failed") else StripDelimiter(plain.value)
  }

  /** The sender derives the same. */
  lemma InfosAgree()
    ensures Info("WebPush: info") == KEY_INFO
    ensures Info("Content-Encoding: aes128gcm") == CEK_INFO && Info("Content-Encoding: nonce") == NONCE_INFO
  {
  }

  lemma ParseHeader(salt: Bytes, asPublic: Bytes, record: Bytes)
    requires |salt| == 16 && |asPublic| == KEY_LENGTH
    ensures |Header(salt, asPublic)| == 86
    ensures Parse(Header(salt, asPublic) + record) == Ok(Message(salt, RECORD_SIZE, asPublic, record))
  {
    var body := Header(salt, asPublic) + record;
    assert BigEndian(RECORD_SIZE) == [0, 0, 16, 0];
    assert body[20] == KEY_LENGTH;
    assert body[..16] == salt;
    assert body[16..20] == BigEndian(RECORD_SIZE);
    assert body[21..86] == asPublic;
    assert body[86..] == record;
  }

  /** For a subscription made from the receiver's key and secret, every plaintext of at most 3993
      bytes is accepted and comes back unchanged, in a body of at most 4096 bytes, reached
      exactly at 3993; every longer one is refused. */
  lemma PushRoundTrip(c: Crypto, plaintext: Bytes, uaKey: int, authSecret: Bytes, salt: Bytes, serverKey: int)
    requires Laws(c) && |salt| == 16
    ensures var body := Encrypt(c, plaintext, Encode(c.publicOf(uaKey)), Encode(authSecret), salt, serverKey);
            && (body.Ok? <==> |plaintext| <= 3993)
            && (body.Ok? ==> && Receive(c, body.value, uaKey, authSecret) == Ok(plaintext)
                             && |body.value| == |plaintext| + 103 <= 4096
                             && (|body.value| == 4096 <==> |plaintext| == 3993))
  {
    RoundTrip(c.publicOf(uaKey));
    RoundTrip(authSecret);
    InfosAgree();
    var asPublic := c.publicOf(serverKey);
    var keys := DeriveKeys(c, c.exchange(serverKey, c.publicOf(uaKey)), authSecret, c.publicOf(uaKey), asPublic, salt);
    var record := c.seal(keys.cek, keys.nonce, plaintext + [2]);
    ParseHeader(salt, asPublic, record);
    assert (plaintext + [2])[..|plaintext|] == plaintext;
  }
}
