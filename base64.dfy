/**
 * `base64_encode`, which builds the `Authorization: Basic` value. It is boost's
 * `base64_from_binary<transform_width<const char *, 6, 8>>`: the RFC 4648 section 4 alphabet,
 * the last partial group zero-filled, no padding; the function then appends one '='.
 */
module Base64 {
  import opened PduTypes

  type Byte = b: int | 0 <= b < 256

  type SixBits = v: int | 0 <= v < 64

  /** The character for a 6-bit value: table 1 of RFC 4648 section 4. */
  function Sextet(v: SixBits): char
  {
    if v < 26 then ('A' as int + v) as char
    else if v < 52 then ('a' as int + (v - 26)) as char
    else if v < 62 then ('0' as int + (v - 52)) as char
    else if v == 62 then '+'
    else '/'
  }

  /** The 6-bit value of an alphabet character. */
  function SextetValue(c: char): Option<SixBits>
  {
    if 'A' <= c <= 'Z' then Some(c as int - 'A' as int)
    else if 'a' <= c <= 'z' then Some(c as int - 'a' as int + 26)
    else if '0' <= c <= '9' then Some(c as int - '0' as int + 52)
    else if c == '+' then Some(62)
    else if c == '/' then Some(63)
    else None
  }

  lemma SextetRoundTrip(v: SixBits)
    ensures SextetValue(Sextet(v)) == Some(v) && Sextet(v) != '='
  {
  }

  /**
   * The 6-bit groups `transform_width` produces: four per three bytes, and two or three for a
   * final one or two bytes, whose missing low bits are zero.
   */
  function Sextets(s: seq<Byte>): seq<SixBits>
    decreases |s|
  {
    if |s| == 0 then []
    else if |s| == 1 then [s[0] / 4, (s[0] % 4) * 16]
    else if |s| == 2 then [s[0] / 4, (s[0] % 4) * 16 + s[1] / 16, (s[1] % 16) * 4]
    else [s[0] / 4, (s[0] % 4) * 16 + s[1] / 16, (s[1] % 16) * 4 + s[2] / 64, s[2] % 64] + Sextets(s[3..])
  }

  /** Four groups per three bytes, rounded up. */
  lemma {:induction false} SextetsLength(s: seq<Byte>)
    ensures |Sextets(s)| == (4 * |s| + 2) / 3
    decreases |s|
  {
    if |s| > 2 {
      SextetsLength(s[3..]);
    }
  }

  /** The encoding without any padding. */
  function Unpadded(s: seq<Byte>): string
  {
    var xs := Sextets(s);
    seq(|xs|, i requires 0 <= i < |xs| => Sextet(xs[i]))
  }

  /** `base64_encode(s)` as written: the unpadded encoding followed by exactly one '='. */
  function Base64Encode(s: seq<Byte>): string
  {
    Unpadded(s) + "="
  }

  /** RFC 4648 section 4: the unpadded encoding filled up with '=' to a multiple of four characters. */
  function StandardEncode(s: seq<Byte>): string
  {
    Unpadded(s) + (if |s| % 3 == 1 then "==" else if |s| % 3 == 2 then "=" else "")
  }

  /** The as-written result has ceil(4n/3) + 1 characters. */
  lemma Base64EncodeLength(s: seq<Byte>)
    ensures |Base64Encode(s)| == (4 * |s| + 2) / 3 + 1
  {
    SextetsLength(s);
  }

  lemma PaddingArithmetic(n: nat)
    ensures n % 3 == 0 ==> ((4 * n + 2) / 3) % 4 == 0
    ensures n % 3 == 1 ==> ((4 * n + 2) / 3) % 4 == 2
    ensures n % 3 == 2 ==> ((4 * n + 2) / 3) % 4 == 3
  {
    var k, r := n / 3, n % 3;
    assert n == 3 * k + r;
    assert (4 * n + 2) / 3 == 4 * k + (4 * r + 2) / 3;
  }

  /** The as-written result is the standard encoding exactly when the input length is 2 modulo 3. */
  lemma Base64EncodeIsStandardIff(s: seq<Byte>)
    ensures Base64Encode(s) == StandardEncode(s) <==> |s| % 3 == 2
  {
    if |s| % 3 != 2 {
      assert |Base64Encode(s)| != |StandardEncode(s)|;
    }
  }

  /** "a" is sent as "YQ=" where RFC 4648 requires "YQ=="; "abc" as "YWJj=" instead of "YWJj". */
  lemma Base64EncodeCounterexample()
    ensures Base64Encode([97]) == "YQ=" && StandardEncode([97]) == "YQ=="
    ensures Base64Encode([97, 98, 99]) == "YWJj=" && StandardEncode([97, 98, 99]) == "YWJj"
  {
    assert Sextets([97]) == [24, 16];
    assert Unpadded([97]) == "YQ";
    var abc: seq<Byte> := [97, 98, 99];
    assert abc[3..] == [];
    assert Sextets(abc) == [24, 22, 9, 35];
    assert Unpadded(abc) == "YWJj";
  }

  /** Reassembles bytes from 6-bit groups; a lone final group cannot occur and is rejected. */
  function DecodeSextets(xs: seq<SixBits>): Option<seq<Byte>>
    decreases |xs|
  {
    if |xs| == 0 then Some([])
    else if |xs| == 1 then None
    else
      var b0: Byte := (xs[0] as int) * 4 + xs[1] / 16;
      if |xs| == 2 then Some([b0])
      else
        var b1: Byte := (xs[1] as int % 16) * 16 + xs[2] / 4;
        if |xs| == 3 then Some([b0, b1])
        else
          var b2: Byte := (xs[2] as int % 4) * 64 + xs[3];
          var rest := DecodeSextets(xs[4..]);
          if rest.None? then None else Some([b0, b1, b2] + rest.value)
  }

  /** The 6-bit values of `t`, if every character is in the alphabet. */
  function Values(t: string): Option<seq<SixBits>>
  {
    if forall i :: 0 <= i < |t| ==> SextetValue(t[i]).Some? then
      Some(seq(|t|, i requires 0 <= i < |t| => SextetValue(t[i]).value))
    else None
  }

  function DecodeUnpadded(t: string): Option<seq<Byte>>
  {
    var xs := Values(t);
    if xs.None? then None else DecodeSextets(xs.value)
  }

  lemma GroupArithmetic(a: Byte, b: Byte, c: Byte)
    ensures (a / 4) * 4 + ((a % 4) * 16 + b / 16) / 16 == a
    ensures (((a % 4) * 16 + b / 16) % 16) * 16 + ((b % 16) * 4 + c / 64) / 4 == b
    ensures (((b % 16) * 4 + c / 64) % 4) * 64 + c % 64 == c
  {
  }

  lemma {:induction false} SextetsRoundTrip(s: seq<Byte>)
    ensures DecodeSextets(Sextets(s)) == Some(s)
    decreases |s|
  {
    if |s| == 1 {
      GroupArithmetic(s[0], 0, 0);
      assert s == [s[0]];
    } else if |s| == 2 {
      GroupArithmetic(s[0], s[1], 0);
      assert s == [s[0], s[1]];
    } else if |s| > 2 {
      SextetsRoundTrip(s[3..]);
      GroupArithmetic(s[0], s[1], s[2]);
      var xs := Sextets(s);
      assert xs[4..] == Sextets(s[3..]);
      assert s == [s[0], s[1], s[2]] + s[3..];
    }
  }

  /** Decoding undoes the unpadded encoding. */
  lemma UnpaddedRoundTrip(s: seq<Byte>)
    ensures DecodeUnpadded(Unpadded(s)) == Some(s)
  {
    var xs := Sextets(s);
    var t := Unpadded(s);
    forall i | 0 <= i < |t| ensures SextetValue(t[i]) == Some(xs[i]) {
      SextetRoundTrip(xs[i]);
    }
    var vs := seq(|t|, i requires 0 <= i < |t| => SextetValue(t[i]).value);
    assert vs == xs;
    assert Values(t) == Some(xs);
    SextetsRoundTrip(s);
  }

  /** Removes a trailing "==" or "=". */
  function StripPadding(t: string): string
  {
    if |t| >= 2 && t[|t| - 2..] == "==" then t[..|t| - 2]
    else if |t| >= 1 && t[|t| - 1] == '=' then t[..|t| - 1]
    else t
  }

  /** RFC 4648 section 4 decoding: whole 4-character groups, padding stripped. */
  function StandardDecode(t: string): Option<seq<Byte>>
  {
    if |t| % 4 != 0 then None else DecodeUnpadded(StripPadding(t))
  }

  /** The standard encoding is a whole number of 4-character groups and decodes back to its input. */
  lemma StandardRoundTrip(s: seq<Byte>)
    ensures |StandardEncode(s)| % 4 == 0
    ensures StandardDecode(StandardEncode(s)) == Some(s)
  {
    UnpaddedRoundTrip(s);
    var u := Unpadded(s);
    forall i | 0 <= i < |u| ensures u[i] != '=' {
      SextetRoundTrip(Sextets(s)[i]);
    }
    SextetsLength(s);
    PaddingArithmetic(|s|);
    var pad := if |s| % 3 == 1 then "==" else if |s| % 3 == 2 then "=" else "";
    assert StandardEncode(s) == u + pad;
    StripPad(u, pad);
  }

  lemma StripPad(u: string, pad: string)
    requires pad == "" || pad == "=" || pad == "=="
    requires pad == "" ==> |u| % 4 == 0
    requires pad == "=" ==> |u| % 4 == 3
    requires pad == "==" ==> |u| % 4 == 2
    requires forall i :: 0 <= i < |u| ==> u[i] != '='
    ensures |u + pad| % 4 == 0
    ensures StripPadding(u + pad) == u
  {
    var t := u + pad;
    if pad == "==" {
      assert t[|t| - 2..] == "==" && t[..|t| - 2] == u;
    } else if pad == "=" {
      assert t[|t| - 1] == '=' && t[..|t| - 1] == u;
      assert t[|t| - 2] == u[|u| - 1];
    } else if |u| > 0 {
      assert t == u && t[|t| - 1] == u[|u| - 1];
    }
  }

  /** The as-written value still decodes back to its input once its one '=' is stripped. */
  lemma Base64EncodeRoundTrip(s: seq<Byte>)
    ensures StripPadding(Base64Encode(s)) == Unpadded(s)
    ensures DecodeUnpadded(StripPadding(Base64Encode(s))) == Some(s)
  {
    var u := Unpadded(s);
    var t := u + "=";
    if |u| > 0 {
      SextetRoundTrip(Sextets(s)[|u| - 1]);
      assert t[|t| - 2] == u[|u| - 1];
    }
    assert t[|t| - 1] == '=' && t[..|t| - 1] == u;
    UnpaddedRoundTrip(s);
  }
}
