/**
 * `urlBase64ToUint8Array`: turns a base64url text (the URL- and
 * filename-safe alphabet of section 5 of RFC 4648, padding optional) into
 * bytes, by padding it, mapping it to the standard alphabet of section 4 of
 * RFC 4648 and decoding it with the browser's `atob`.
 */
module Navigator {
  import opened Wrappers

  type Byte = x: int | 0 <= x < 256

  /** The exception `atob` throws on text it cannot decode. */
  datatype AtobError = InvalidCharacterError

  // ---------------------------------------------------------------------------
  // Padding and alphabet
  // ---------------------------------------------------------------------------

  /** `(4 - n % 4) % 4`: how many `=` bring a length `n` to a multiple of four. */
  function PaddingLength(n: nat): (p: nat)
    ensures p <= 3 && (n + p) % 4 == 0
    ensures n % 4 == 0 <==> p == 0
  {
    (4 - n % 4) % 4
  }

  /** `'='.repeat(PaddingLength(|s|))`. */
  function Padding(s: string): (pad: string)
    ensures |pad| == PaddingLength(|s|)
    ensures forall k :: 0 <= k < |pad| ==> pad[k] == '='
  {
    seq(PaddingLength(|s|), _ => '=')
  }

  /** `s.replace(/from/g, to)` for single characters. */
  function ReplaceAll(s: string, from: char, to: char): (t: string)
    ensures |t| == |s|
    ensures forall k :: 0 <= k < |s| ==> t[k] == if s[k] == from then to else s[k]
  {
    seq(|s|, k requires 0 <= k < |s| => if s[k] == from then to else s[k])
  }

  /**
   * `.replace(/-/g, '+').replace(/_/g, '/')`: every `-` becomes `+`, every `_`
   * becomes `/`, and every other character stays where it is.
   */
  function UrlToStandard(s: string): (t: string)
    ensures |t| == |s|
    ensures forall k :: 0 <= k < |s| ==>
              && (s[k] == '-' ==> t[k] == '+')
              && (s[k] == '_' ==> t[k] == '/')
              && (s[k] != '-' && s[k] != '_' ==> t[k] == s[k])
  {
    ReplaceAll(ReplaceAll(s, '-', '+'), '_', '/')
  }

  /** The padded text in the standard alphabet that is handed to `atob`. */
  function PaddedStandard(s: string): string
  {
    UrlToStandard(s + Padding(s))
  }

  // ---------------------------------------------------------------------------
  // atob: the forgiving-base64 decode of the WHATWG Infra Standard
  // ---------------------------------------------------------------------------

  predicate IsAsciiWhitespace(c: char) {
    c == '\t' || c == '\n' || c == '\U{000C}' || c == '\r' || c == ' '
  }

  /** Step 1: remove all ASCII whitespace. */
  function StripWhitespace(s: string): (t: string)
    ensures |t| <= |s|
    ensures forall k :: 0 <= k < |t| ==> !IsAsciiWhitespace(t[k])
  {
    if s == [] then []
    else if IsAsciiWhitespace(s[0]) then StripWhitespace(s[1..])
    else [s[0]] + StripWhitespace(s[1..])
  }

  /** Step 2: when the length is a multiple of four, drop one or two trailing `=`. */
  function DropPadding(d: string): (t: string)
    ensures |d| % 4 != 0 ==> t == d
    ensures t <= d && |d| - |t| <= 2
    ensures forall k :: |t| <= k < |d| ==> d[k] == '='
  {
    if |d| % 4 == 0 && |d| >= 2 && d[|d| - 2] == '=' && d[|d| - 1] == '=' then d[..|d| - 2]
    else if |d| % 4 == 0 && |d| >= 1 && d[|d| - 1] == '=' then d[..|d| - 1]
    else d
  }

  /**
   * What step 2 removes: with a length that is a multiple of four, two final
   * `=` go, else one final `=` goes, else nothing; any other length is kept.
   */
  lemma DropPaddingRemoves(d: string)
    ensures |d| % 4 == 0 && |d| >= 2 && d[|d| - 2..] == "==" ==> DropPadding(d) == d[..|d| - 2]
    ensures |d| % 4 == 0 && |d| >= 1 && d[|d| - 1] == '=' && (|d| < 2 || d[|d| - 2] != '=') ==>
              DropPadding(d) == d[..|d| - 1]
    ensures |d| % 4 == 0 && (|d| == 0 || d[|d| - 1] != '=') ==> DropPadding(d) == d
    ensures |d| % 4 != 0 ==> DropPadding(d) == d
  {
    if |d| >= 2 && d[|d| - 2..] == "==" {
      assert d[|d| - 2] == d[|d| - 2..][0] && d[|d| - 1] == d[|d| - 2..][1];
    }
  }

  /** The value of a character of the standard alphabet (section 4 of RFC 4648). */
  function SextetValue(c: char): (v: Option<nat>)
    ensures v.Some? ==> v.value < 64
  {
    if 'A' <= c <= 'Z' then Some(c as int - 'A' as int)
    else if 'a' <= c <= 'z' then Some(c as int - 'a' as int + 26)
    else if '0' <= c <= '9' then Some(c as int - '0' as int + 52)
    else if c == '+' then Some(62)
    else if c == '/' then Some(63)
    else None
  }

  predicate AllSextets(v: seq<int>) {
    forall k :: 0 <= k < |v| ==> 0 <= v[k] < 64
  }

  /** The values of all characters, or None when one is outside the alphabet (step 4). */
  function Sextets(d: string): (v: Option<seq<int>>)
    ensures v.Some? ==> |v.value| == |d| && AllSextets(v.value)
    ensures v.None? <==> exists k :: 0 <= k < |d| && SextetValue(d[k]).None?
  {
    if d == [] then Some([])
    else
      match (SextetValue(d[0]), Sextets(d[1..]))
      case (Some(x), Some(rest)) => Some([x] + rest)
      case (None, _) => None
      case (_, None) =>
        assert forall k :: 0 <= k < |d| - 1 ==> d[1..][k] == d[k + 1];
        None
  }

  /**
   * Step 5 and 6: every four values give three bytes; a trailing two or three
   * values give one or two bytes, the left-over low bits being discarded.
   */
  function DecodeSextets(v: seq<int>): (bytes: seq<Byte>)
    requires AllSextets(v) && |v| % 4 != 1
    ensures |bytes| == 3 * (|v| / 4) + (if |v| % 4 == 0 then 0 else |v| % 4 - 1)
  {
    if |v| == 0 then []
    else if |v| == 2 then [v[0] * 4 + v[1] / 16]
    else if |v| == 3 then [v[0] * 4 + v[1] / 16, (v[1] % 16) * 16 + v[2] / 4]
    else [v[0] * 4 + v[1] / 16, (v[1] % 16) * 16 + v[2] / 4, (v[2] % 4) * 64 + v[3]] + DecodeSextets(v[4..])
  }

  /** The forgiving-base64 decode: the bytes, or failure. */
  function ForgivingDecode(s: string): (r: Option<seq<Byte>>)
    ensures var d := DropPadding(StripWhitespace(s));
            r.None? <==> |d| % 4 == 1 || exists k :: 0 <= k < |d| && SextetValue(d[k]).None?
  {
    var d := DropPadding(StripWhitespace(s));
    if |d| % 4 == 1 then None
    else match Sextets(d)
      case None => None
      case Some(v) => Some(DecodeSextets(v))
  }

  /**
   * `atob(s)`: the decoded bytes as a binary string (one character per byte,
   * so every character code is below 256), or the thrown InvalidCharacterError.
   */
  function Atob(s: string): (r: Result<string, AtobError>)
    ensures r.Success? <==> ForgivingDecode(s).Some?
    ensures r.Success? ==> |r.value| == |ForgivingDecode(s).value|
    ensures r.Success? ==> forall k :: 0 <= k < |r.value| ==>
              r.value[k] as int == ForgivingDecode(s).value[k] && r.value[k] as int < 256
  {
    match ForgivingDecode(s)
    case None => Failure(InvalidCharacterError)
    case Some(bytes) => Success(seq(|bytes|, k requires 0 <= k < |bytes| => bytes[k] as char))
  }

  /** The bytes `urlBase64ToUint8Array` returns, or the error `atob` throws. */
  function UrlBase64ToBytes(s: string): (r: Result<seq<Byte>, AtobError>)
    ensures r.Success? <==> Atob(PaddedStandard(s)).Success?
    ensures r.Success? ==>
              var raw := Atob(PaddedStandard(s)).value;
              |r.value| == |raw| && forall k :: 0 <= k < |raw| ==> r.value[k] == raw[k] as int
  {
    match Atob(PaddedStandard(s))
    case Failure(e) => Failure(e)
    case Success(raw) => Success(seq(|raw|, k requires 0 <= k < |raw| => ToUint8(raw[k] as int)))
  }

  /** Storing a number into a `Uint8Array` keeps it modulo 256. */
  function ToUint8(x: int): (b: Byte)
    ensures 0 <= x < 256 ==> b == x
  {
    x % 256
  }

  /**
   * `urlBase64ToUint8Array(base64String)`: fills a fresh byte array with the
   * character codes of the string `atob` returns; propagates its error.
   */
  method UrlBase64ToUint8Array(base64String: string) returns (result: Result<array<Byte>, AtobError>)
    ensures result.Failure? <==> Atob(PaddedStandard(base64String)).Failure?
    ensures result.Failure? ==> result.error == InvalidCharacterError
    ensures result.Success? ==>
              var raw := Atob(PaddedStandard(base64String)).value;
              && result.value.Length == |raw|
              && forall k :: 0 <= k < |raw| ==> result.value[k] == raw[k] as int
    ensures result.Failure? <==> UrlBase64ToBytes(base64String).Failure?
    ensures result.Success? ==> UrlBase64ToBytes(base64String) == Success(result.value[..])
  {
    var padding := Padding(base64String);
    var base64 := UrlToStandard(base64String + padding);
    var decoded := Atob(base64);
    if decoded.Failure? {
      return Failure(decoded.error);
    }
    var rawData := decoded.value;
    var outputArray := new Byte[|rawData|];
    for i := 0 to |rawData|
      invariant forall k :: 0 <= k < i ==> outputArray[k] == rawData[k] as int
    {
      outputArray[i] := ToUint8(rawData[i] as int);
    }
    assert outputArray[..] == seq(|rawData|, k requires 0 <= k < |rawData| => ToUint8(rawData[k] as int));
    return Success(outputArray);
  }

  // ---------------------------------------------------------------------------
  // Properties
  // ---------------------------------------------------------------------------

  lemma {:induction false} StripAppend(a: string, b: string)
    ensures StripWhitespace(a + b) == StripWhitespace(a) + StripWhitespace(b)
  {
    if a == [] {
      assert a + b == b;
    } else {
      assert (a + b)[0] == a[0];
      assert (a + b)[1..] == a[1..] + b;
      var rest := StripWhitespace(a[1..] + b);
      StripAppend(a[1..], b);
      if IsAsciiWhitespace(a[0]) {
        assert StripWhitespace(a + b) == rest;
      } else {
        assert StripWhitespace(a + b) == [a[0]] + rest;
      }
    }
  }

  lemma {:induction false} StripNoWhitespace(s: string)
    requires forall k :: 0 <= k < |s| ==> !IsAsciiWhitespace(s[k])
    ensures StripWhitespace(s) == s
  {
    if s != [] {
      StripNoWhitespace(s[1..]);
    }
  }

  /**
   * Step 1 on a single character: whitespace goes, anything else stays. With
   * `StripAppend` this fixes the result on every string.
   */
  lemma StripOne(c: char)
    ensures StripWhitespace([c]) == if IsAsciiWhitespace(c) then [] else [c]
  {
  }

  /** Step 1 only deletes: every character of its result comes from the input. */
  lemma {:induction false} StripOnlyDeletes(s: string)
    ensures forall c :: c in StripWhitespace(s) ==> c in s
    ensures forall c :: c in s && !IsAsciiWhitespace(c) ==> c in StripWhitespace(s)
  {
    if s != [] {
      StripOnlyDeletes(s[1..]);
      assert s == [s[0]] + s[1..];
    }
  }

  /** `atob` rejects every text that ends in three `=`, whatever precedes them. */
  lemma AtobRejectsTriplePadding(t: string)
    ensures Atob(t + "===").Failure?
  {
    StripAppend(t, "===");
    var w := StripWhitespace(t) + "===";
    assert StripWhitespace("===") == "===";
    var d := DropPadding(w);
    // At most two `=` are dropped, so one is left, and `=` is not in the alphabet.
    assert d[|d| - 1] == '=';
    assert SextetValue(d[|d| - 1]).None?;
  }

  /**
   * An input whose length leaves remainder 1 modulo 4 is padded with three `=`
   * and therefore always rejected.
   */
  lemma UrlBase64RejectsLengthOneModFour(s: string)
    requires |s| % 4 == 1
    ensures Padding(s) == "==="
    ensures UrlBase64ToBytes(s).Failure?
  {
    var t := UrlToStandard(s);
    assert PaddedStandard(s) == t + "===";
    AtobRejectsTriplePadding(t);
  }

  /** A run of `=` of length `p`. */
  function Equals(p: nat): (pad: string)
    ensures |pad| == p && forall k :: 0 <= k < p ==> pad[k] == '='
  {
    seq(p, _ => '=')
  }

  lemma DropPaddingOf(body: string, p: nat)
    requires p <= 2 && (|body| + p) % 4 == 0
    requires forall k :: 0 <= k < |body| ==> SextetValue(body[k]).Some?
    ensures DropPadding(body + Equals(p)) == body
  {
    var x := body + Equals(p);
    if p == 0 {
      assert x == body;
      if |body| > 0 { assert SextetValue(body[|body| - 1]).Some?; }
    } else if p == 1 {
      assert x[..|x| - 1] == body;
      assert x[|x| - 2] == body[|body| - 1];
      assert SextetValue(body[|body| - 1]).Some?;
    } else {
      assert x[..|x| - 2] == body;
    }
  }

  lemma {:induction false} SextetsOf(d: string, v: seq<int>)
    requires |d| == |v|
    requires forall k :: 0 <= k < |d| ==> SextetValue(d[k]) == Some(v[k])
    ensures Sextets(d) == Some(v)
  {
    if d != [] {
      SextetsOf(d[1..], v[1..]);
      assert [v[0]] + v[1..] == v;
    }
  }

  lemma PaddedRemainder(n: nat, p: nat)
    requires p <= 2 && (n + p) % 4 == 0
    ensures n % 4 == (if p == 0 then 0 else 4 - p)
    ensures n / 4 == (if p == 0 then (n + p) / 4 else (n + p) / 4 - 1)
    ensures 3 * (n / 4) + (if n % 4 == 0 then 0 else n % 4 - 1) == 3 * (n + p) / 4 - p
  {
  }

  /**
   * A text of alphabet characters followed by at most two `=` that make its
   * length a multiple of four is decoded value by value.
   */
  lemma DecodeWellFormed(body: string, p: nat, v: seq<int>)
    requires p <= 2 && (|body| + p) % 4 == 0 && |body| == |v|
    requires forall k :: 0 <= k < |body| ==> SextetValue(body[k]) == Some(v[k])
    ensures AllSextets(v) && |v| % 4 != 1
    ensures ForgivingDecode(body + Equals(p)) == Some(DecodeSextets(v))
  {
    var x := body + Equals(p);
    assert forall k :: 0 <= k < |x| ==> !IsAsciiWhitespace(x[k]) by {
      forall k | 0 <= k < |x| ensures !IsAsciiWhitespace(x[k]) {
        if k < |body| { assert x[k] == body[k]; assert SextetValue(body[k]).Some?; }
      }
    }
    StripNoWhitespace(x);
    DropPaddingOf(body, p);
    SextetsOf(body, v);
    PaddedRemainder(|v|, p);
    assert AllSextets(v);
    assert DropPadding(StripWhitespace(x)) == body;
  }

  /**
   * A well-formed padded text of `L` characters, `p` of them final padding `=`
   * (at most two) and the rest in the standard alphabet, decodes to
   * `3 * L / 4 - p` bytes.
   */
  lemma AtobLength(body: string, p: nat)
    requires p <= 2 && (|body| + p) % 4 == 0
    requires forall k :: 0 <= k < |body| ==> SextetValue(body[k]).Some?
    ensures Atob(body + Equals(p)).Success?
    ensures |Atob(body + Equals(p)).value| == 3 * (|body| + p) / 4 - p
  {
    var v := seq(|body|, k requires 0 <= k < |body| => SextetValue(body[k]).value);
    DecodeWellFormed(body, p, v);
    PaddedRemainder(|v|, p);
  }

  // ---------------------------------------------------------------------------
  // Round trip through an encoder (a proof device: the front end never encodes)
  // ---------------------------------------------------------------------------

  /** Base64 values of bytes, three bytes to four values, no padding. */
  function EncodeSextets(b: seq<Byte>): (v: seq<int>)
    ensures AllSextets(v) && |v| % 4 != 1
    ensures |v| == 4 * (|b| / 3) + (if |b| % 3 == 0 then 0 else |b| % 3 + 1)
  {
    if |b| == 0 then []
    else if |b| == 1 then [b[0] / 4, (b[0] % 4) * 16]
    else if |b| == 2 then [b[0] / 4, (b[0] % 4) * 16 + b[1] / 16, (b[1] % 16) * 4]
    else Group(b[0], b[1], b[2]) + EncodeSextets(b[3..])
  }

  /** The four values of one full group of three bytes. */
  function Group(b0: Byte, b1: Byte, b2: Byte): (v: seq<int>)
    ensures |v| == 4 && AllSextets(v)
  {
    [b0 / 4, (b0 % 4) * 16 + b1 / 16, (b1 % 16) * 4 + b2 / 64, b2 % 64]
  }

  /** Splitting a byte into high and low bits and joining them again gives it back. */
  lemma Rejoin(hi: int, lo: int, m: int)
    requires m == 4 || m == 16 || m == 64
    requires 0 <= lo < m
    ensures (hi * m + lo) / m == hi && (hi * m + lo) % m == lo
  {
  }

  lemma FirstByte(b0: Byte, b1: Byte)
    ensures (b0 / 4) * 4 + ((b0 % 4) * 16 + b1 / 16) / 16 == b0
    ensures (b0 / 4) * 4 + ((b0 % 4) * 16) / 16 == b0
  {
    Rejoin(b0 % 4, b1 / 16, 16);
    Rejoin(b0 % 4, 0, 16);
  }

  lemma SecondByte(b0: Byte, b1: Byte, b2: Byte)
    ensures (((b0 % 4) * 16 + b1 / 16) % 16) * 16 + ((b1 % 16) * 4 + b2 / 64) / 4 == b1
    ensures (((b0 % 4) * 16 + b1 / 16) % 16) * 16 + ((b1 % 16) * 4) / 4 == b1
  {
    Rejoin(b0 % 4, b1 / 16, 16);
    Rejoin(b1 % 16, b2 / 64, 4);
    Rejoin(b1 % 16, 0, 4);
  }

  lemma ThirdByte(b1: Byte, b2: Byte)
    ensures (((b1 % 16) * 4 + b2 / 64) % 4) * 64 + b2 % 64 == b2
  {
    Rejoin(b1 % 16, b2 / 64, 4);
  }

  lemma OneByteRoundTrip(b0: Byte)
    ensures DecodeSextets(EncodeSextets([b0])) == [b0]
  {
    var v := [b0 / 4, (b0 % 4) * 16];
    assert EncodeSextets([b0]) == v;
    FirstByte(b0, 0);
    assert DecodeSextets(v) == [v[0] * 4 + v[1] / 16];
  }

  lemma TwoBytesRoundTrip(b0: Byte, b1: Byte)
    ensures DecodeSextets(EncodeSextets([b0, b1])) == [b0, b1]
  {
    var v := [b0 / 4, (b0 % 4) * 16 + b1 / 16, (b1 % 16) * 4];
    assert EncodeSextets([b0, b1]) == v;
    FirstByte(b0, b1);
    SecondByte(b0, b1, 0);
    assert DecodeSextets(v) == [v[0] * 4 + v[1] / 16, (v[1] % 16) * 16 + v[2] / 4];
  }

  /** Decoding one full group gives its three bytes back. */
  lemma DecodeGroup(b0: Byte, b1: Byte, b2: Byte)
    ensures DecodeSextets(Group(b0, b1, b2)) == [b0, b1, b2]
  {
    var v := Group(b0, b1, b2);
    FirstByte(b0, b1);
    SecondByte(b0, b1, b2);
    ThirdByte(b1, b2);
    assert v[4..] == [];
    assert DecodeSextets(v) == [v[0] * 4 + v[1] / 16, (v[1] % 16) * 16 + v[2] / 4, (v[2] % 4) * 64 + v[3]] + DecodeSextets([]);
  }

  lemma ThreeBytesRoundTrip(b0: Byte, b1: Byte, b2: Byte)
    ensures DecodeSextets(EncodeSextets([b0, b1, b2])) == [b0, b1, b2]
  {
    assert [b0, b1, b2][3..] == [];
    assert EncodeSextets([b0, b1, b2]) == Group(b0, b1, b2) + [];
    DecodeGroup(b0, b1, b2);
  }

  lemma ShortSequence(b: seq<Byte>)
    requires 1 <= |b| <= 3
    ensures |b| == 1 ==> b == [b[0]]
    ensures |b| == 2 ==> b == [b[0], b[1]]
    ensures |b| == 3 ==> b == [b[0], b[1], b[2]]
  {
  }

  /** One group of up to three bytes survives encoding and decoding. */
  lemma GroupRoundTrip(b: seq<Byte>)
    requires 1 <= |b| <= 3
    ensures DecodeSextets(EncodeSextets(b)) == b
  {
    ShortSequence(b);
    if |b| == 1 {
      OneByteRoundTrip(b[0]);
    } else if |b| == 2 {
      TwoBytesRoundTrip(b[0], b[1]);
    } else {
      ThreeBytesRoundTrip(b[0], b[1], b[2]);
    }
  }

  lemma DecodeSplit(v: seq<int>)
    requires AllSextets(v) && |v| % 4 != 1 && |v| > 4
    ensures DecodeSextets(v) == DecodeSextets(v[..4]) + DecodeSextets(v[4..])
  {
    assert v[..4][4..] == [];
  }

  lemma {:induction false} DecodeEncode(b: seq<Byte>)
    ensures DecodeSextets(EncodeSextets(b)) == b
  {
    if 1 <= |b| <= 3 {
      GroupRoundTrip(b);
    } else if |b| > 3 {
      var head, tail := [b[0], b[1], b[2]], b[3..];
      var v := EncodeSextets(b);
      DecodeGroup(b[0], b[1], b[2]);
      DecodeEncode(tail);
      DecodeSplit(v);
      assert v[..4] == Group(b[0], b[1], b[2]);
      assert v[4..] == EncodeSextets(tail);
      assert b == head + tail;
    }
  }

  /** The character of the URL-safe alphabet (section 5 of RFC 4648) for a value. */
  function UrlChar(x: int): (c: char)
    requires 0 <= x < 64
    ensures c == '-' <==> x == 62
    ensures c == '_' <==> x == 63
    ensures x < 62 ==> SextetValue(c) == Some(x)
  {
    if x < 26 then (x + 'A' as int) as char
    else if x < 52 then (x - 26 + 'a' as int) as char
    else if x < 62 then (x - 52 + '0' as int) as char
    else if x == 62 then '-'
    else '_'
  }

  /** The unpadded base64url text of some bytes, as a VAPID public key is published. */
  function EncodeUrl(b: seq<Byte>): (s: string)
    ensures |s| == |EncodeSextets(b)|
    ensures forall k :: 0 <= k < |s| ==> s[k] == UrlChar(EncodeSextets(b)[k])
  {
    var v := EncodeSextets(b);
    seq(|v|, k requires 0 <= k < |v| => UrlChar(v[k]))
  }

  lemma PaddedStandardSplits(s: string)
    ensures PaddedStandard(s) == UrlToStandard(s) + Equals(PaddingLength(|s|))
  {
  }

  /** The padded standard text of an encoding decodes to the encoded bytes. */
  lemma PaddedDecodeEncode(b: seq<Byte>)
    ensures ForgivingDecode(PaddedStandard(EncodeUrl(b))) == Some(b)
  {
    var v := EncodeSextets(b);
    var s := EncodeUrl(b);
    var body := UrlToStandard(s);
    var p := PaddingLength(|s|);
    PaddedStandardSplits(s);
    forall k | 0 <= k < |body|
      ensures SextetValue(body[k]) == Some(v[k])
    {
      assert s[k] == UrlChar(v[k]);
    }
    assert p <= 2;
    DecodeWellFormed(body, p, v);
    DecodeEncode(b);
  }

  /**
   * Round trip: decoding the unpadded base64url text of any bytes gives those
   * bytes back, so the padding and alphabet mapping lose nothing.
   */
  lemma UrlBase64RoundTrip(b: seq<Byte>)
    ensures UrlBase64ToBytes(EncodeUrl(b)) == Success(b)
  {
    var x := PaddedStandard(EncodeUrl(b));
    PaddedDecodeEncode(b);
    var raw := Atob(x).value;
    assert |raw| == |b|;
    var bytes := seq(|raw|, k requires 0 <= k < |raw| => ToUint8(raw[k] as int));
    forall k | 0 <= k < |b|
      ensures bytes[k] == b[k]
    {
      assert raw[k] as int == b[k];
    }
    assert bytes == b;
  }
}


