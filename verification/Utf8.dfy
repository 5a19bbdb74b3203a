/** UTF-8 as Python's strict codec treats it. */
module Utf8 {
  import opened Values

  predicate Continues(b: byte) { 0x80 <= b < 0xC0 }

  /** One six-bit digit at a time. */
  function Upper(n: nat): nat { n / 64 }
  function Lower(n: nat): (r: nat) ensures r < 64 { n % 64 }
  function Digit(high: nat, low: nat): nat { high * 64 + low }

  lemma DigitSplits(high: nat, low: nat)
    requires low < 64
    ensures Upper(Digit(high, low)) == high && Lower(Digit(high, low)) == low
  {
  }

  lemma SplitDigits(n: nat)
    ensures Digit(Upper(n), Lower(n)) == n
  {
  }

  function EncodeChar(c: char): (bs: seq<byte>)
    ensures 1 <= |bs| <= 4
  {
    var n := c as int;
    if n < 0x80 then [n]
    else if n < 0x800 then [0xC0 + Upper(n), 0x80 + Lower(n)]
    else if n < 0x10000 then [0xE0 + Upper(Upper(n)), 0x80 + Lower(Upper(n)), 0x80 + Lower(n)]
    else [0xF0 + Upper(Upper(Upper(n))), 0x80 + Lower(Upper(Upper(n))), 0x80 + Lower(Upper(n)), 0x80 + Lower(n)]
  }

  function Encode(s: string): seq<byte> {
    if s == "" then [] else EncodeChar(s[0]) + Encode(s[1..])
  }

  /** The code point that starts `bs` and its length; overlong forms, surrogates and anything past
      U+10FFFF are refused. */
  function DecodeFirst(bs: seq<byte>): Option<(char, nat)>
    requires bs != []
  {
    var a: int := bs[0];
    if a < 0x80 then Some((a as char, 1))
    else if 0xC2 <= a < 0xE0 && |bs| >= 2 && Continues(bs[1]) then
      Some((Digit(a - 0xC0, bs[1] - 0x80) as char, 2))
    else if 0xE0 <= a < 0xF0 && |bs| >= 3 && Continues(bs[1]) && Continues(bs[2]) then
      var n := Digit(Digit(a - 0xE0, bs[1] - 0x80), bs[2] - 0x80);
      if n < 0x800 || 0xD800 <= n < 0xE000 then None else Some((n as char, 3))
    else if 0xF0 <= a < 0xF5 && |bs| >= 4 && Continues(bs[1]) && Continues(bs[2]) && Continues(bs[3]) then
      var n := Digit(Digit(Digit(a - 0xF0, bs[1] - 0x80), bs[2] - 0x80), bs[3] - 0x80);
      if n < 0x10000 || n >= 0x110000 then None else Some((n as char, 4))
    else None
  }

  function Decode(bs: seq<byte>): Option<string> {
    if bs == [] then Some("")
    else
      match DecodeFirst(bs)
      case None => None
      case Some((c, n)) =>
        if n > |bs| || n == 0 then None
        else
          match Decode(bs[n..])
          case None => None
          case Some(rest) => Some([c] + rest)
  }

  lemma FirstOfEncoded(c: char, rest: seq<byte>)
    ensures DecodeFirst(EncodeChar(c) + rest) == Some((c, |EncodeChar(c)|))
  {
    var n := c as int;
    SplitDigits(n);
    SplitDigits(Upper(n));
    SplitDigits(Upper(Upper(n)));
    var bs := EncodeChar(c) + rest;
    assert forall i :: 0 <= i < |EncodeChar(c)| ==> bs[i] == EncodeChar(c)[i];
  }

  lemma EncodedFirst(bs: seq<byte>)
    requires bs != [] && DecodeFirst(bs).Some?
    ensures var (c, n) := DecodeFirst(bs).value; 1 <= n <= |bs| && bs[..n] == EncodeChar(c)
  {
    var a := bs[0];
    if a >= 0xF0 {
      var d1: nat, d2: nat, d3: nat := bs[1] - 0x80, bs[2] - 0x80, bs[3] - 0x80;
      DigitSplits(Digit(Digit(a - 0xF0, d1), d2), d3);
      DigitSplits(Digit(a - 0xF0, d1), d2);
      DigitSplits(a - 0xF0, d1);
    } else if a >= 0xE0 {
      var d1: nat, d2: nat := bs[1] - 0x80, bs[2] - 0x80;
      DigitSplits(Digit(a - 0xE0, d1), d2);
      DigitSplits(a - 0xE0, d1);
    } else if a >= 0xC2 {
      DigitSplits(a - 0xC0, bs[1] - 0x80);
    }
  }

  lemma {:induction false} DecodeEncoded(s: string)
    ensures Decode(Encode(s)) == Some(s)
  {
    if s != "" {
      FirstOfEncoded(s[0], Encode(s[1..]));
      assert (EncodeChar(s[0]) + Encode(s[1..]))[|EncodeChar(s[0])|..] == Encode(s[1..]);
      DecodeEncoded(s[1..]);
      assert [s[0]] + s[1..] == s;
    }
  }

  /** Only encodings decode, so decoding succeeds exactly on the encodings of strings. */
  lemma {:induction false} EncodeDecoded(bs: seq<byte>)
    ensures Decode(bs).Some? ==> Encode(Decode(bs).value) == bs
  {
    if bs != [] && Decode(bs).Some? {
      EncodedFirst(bs);
      var (c, n) := DecodeFirst(bs).value;
      EncodeDecoded(bs[n..]);
      assert ([c] + Decode(bs[n..]).value)[1..] == Decode(bs[n..]).value;
      assert bs[..n] + bs[n..] == bs;
    }
  }

  /** A byte below 0x80 in an encoding is a character of its own; text made of such characters is
      its own encoding. */
  /** The bit patterns of section 3 of RFC 3629, read from the bytes back to the code point. */
  lemma EncodedBits(c: char)
    ensures var n, bs := c as int, EncodeChar(c);
            && (forall i :: 0 < i < |bs| ==> 0x80 <= bs[i] <= 0xBF)
            && (n <= 0x7F ==> bs == [n])
            && (0x80 <= n <= 0x7FF ==>
                  |bs| == 2 && 0xC0 <= bs[0] < 0xE0 && n == 64 * (bs[0] as int - 0xC0) + (bs[1] as int - 0x80))
            && (0x800 <= n <= 0xFFFF ==>
                  && |bs| == 3 && 0xE0 <= bs[0] < 0xF0
                  && n == 4096 * (bs[0] as int - 0xE0) + 64 * (bs[1] as int - 0x80) + (bs[2] as int - 0x80))
            && (n >= 0x10000 ==>
                  && |bs| == 4 && 0xF0 <= bs[0] < 0xF8
                  && n == 262144 * (bs[0] as int - 0xF0) + 4096 * (bs[1] as int - 0x80) + 64 * (bs[2] as int - 0x80)
                          + (bs[3] as int - 0x80))
  {
    hide Upper, Lower;
    var n := c as int;
    DigitOf(n);
    DigitOf(Upper(n));
    DigitOf(Upper(Upper(n)));
  }

  lemma DigitOf(n: nat)
    ensures n == 64 * Upper(n) + Lower(n)
  {
  }

  lemma {:induction false} EncodeAscii(s: string)
    requires forall c :: c in s ==> c as int < 0x80
    ensures |Encode(s)| == |s| && forall i :: 0 <= i < |s| ==> Encode(s)[i] == s[i] as int
  {
    if s != "" {
      assert s[0] in s && forall c :: c in s[1..] ==> c in s;
      EncodeAscii(s[1..]);
    }
  }

  lemma {:induction false} EncodeHasHighByte(s: string, c: char)
    requires c in s && c as int >= 0x80
    ensures exists b :: b in Encode(s) && b >= 0x80
  {
    if s[0] == c {
      assert Encode(s)[0] == EncodeChar(c)[0] >= 0xC0;
      assert Encode(s)[0] in Encode(s);
    } else {
      EncodeHasHighByte(s[1..], c);
      var b :| b in Encode(s[1..]) && b >= 0x80;
      assert b in Encode(s);
    }
  }
}
