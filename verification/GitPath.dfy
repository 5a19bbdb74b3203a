/** Git's C-style quoted paths: the decoder of the diff reader, and the quoting it has to undo. */
module GitPath {
  import opened Values
  import opened Utf8

  /** `BadByte` is what an octal escape above \377 leads to: it does not fit a byte array, and the
      decoder raises instead of refusing the path. */
  datatype Decoded = Text(path: string) | Malformed | BadByte
  datatype Raw = Bytes(bytes: seq<byte>) | Broken | Overflow

  function Letter(c: char): Option<byte> {
    match c
    case '"' => Some(34)
    case '\\' => Some(92)
    case 'a' => Some(7)
    case 'b' => Some(8)
    case 'f' => Some(12)
    case 'n' => Some(10)
    case 'r' => Some(13)
    case 't' => Some(9)
    case 'v' => Some(11)
    case _ => None
  }

  predicate IsOctal(c: char) { '0' <= c <= '7' }

  /** Octal digits at the start of `s`, three at most. */
  function OctalRun(s: string): (k: nat)
    ensures k <= 3 && k <= |s|
    ensures s != "" && IsOctal(s[0]) ==> k >= 1
    ensures forall i :: 0 <= i < k ==> IsOctal(s[i])
  {
    if s == "" || !IsOctal(s[0]) then 0
    else if |s| == 1 || !IsOctal(s[1]) then 1
    else if |s| == 2 || !IsOctal(s[2]) then 2
    else 3
  }

  function OctalValue(s: string): nat
    requires forall i :: 0 <= i < |s| ==> IsOctal(s[i])
  {
    if s == "" then 0
    else
      assert IsOctal(s[|s| - 1]);
      8 * OctalValue(s[..|s| - 1]) + (s[|s| - 1] as int - '0' as int)
  }

  function Prepend(bytes: seq<byte>, r: Raw): Raw {
    if r.Bytes? then Bytes(bytes + r.bytes) else r
  }

  /** What stands at the front of a quoted text: some bytes and the length they are spelled with. */
  datatype Item = Item(bytes: seq<byte>, length: nat) | BadEscape | BigEscape

  function FirstItem(e: string): (item: Item)
    requires e != ""
    ensures item.Item? ==> 1 <= item.length <= |e|
  {
    if e[0] != '\\' then Item(EncodeChar(e[0]), 1)
    else if |e| == 1 then BadEscape
    else if Letter(e[1]).Some? then Item([Letter(e[1]).value], 2)
    else if !IsOctal(e[1]) then BadEscape
    else
      var k := OctalRun(e[1..]);
      var v := OctalValue(e[1..][..k]);
      if v > 255 then BigEscape else Item([v], 1 + k)
  }

  function Unescape(e: string): Raw
    decreases |e|
  {
    if e == "" then Bytes([])
    else
      match FirstItem(e)
      case BadEscape => Broken
      case BigEscape => Overflow
      case Item(bytes, length) => Prepend(bytes, Unescape(e[length..]))
  }

  function AsText(bytes: seq<byte>): Decoded {
    match Utf8.Decode(bytes)
    case None => Malformed
    case Some(s) => Text(s)
  }

  function DecodePath(value: string): Decoded {
    if value == "" || value[0] != '"' then Text(value)
    else if |value| < 2 || value[|value| - 1] != '"' then Malformed
    else
      match Unescape(value[1..|value| - 1])
      case Broken => Malformed
      case Overflow => BadByte
      case Bytes(bytes) => AsText(bytes)
  }

  lemma UnescapeStep(e: string)
    requires e != ""
    ensures var item := FirstItem(e);
            Unescape(e) ==
            if item.Item? then Prepend(item.bytes, Unescape(e[item.length..]))
            else if item.BadEscape? then Broken else Overflow
  {
    hide FirstItem;
  }

  lemma PrependTwice(a: seq<byte>, b: seq<byte>, r: Raw)
    ensures Prepend(a, Prepend(b, r)) == Prepend(a + b, r)
  {
    if r.Bytes? {
      assert a + (b + r.bytes) == a + b + r.bytes;
    }
  }

  lemma Advance(escaped: string, index: nat, decoded: seq<byte>)
    requires index < |escaped|
    ensures var item := FirstItem(escaped[index..]);
            Prepend(decoded, Unescape(escaped[index..])) ==
            match item
            case BadEscape => Broken
            case BigEscape => Overflow
            case Item(bytes, length) => Prepend(decoded + bytes, Unescape(escaped[index + length..]))
  {
    var rest := escaped[index..];
    match FirstItem(rest)
    case Item(bytes, length) =>
      PrependTwice(decoded, bytes, Unescape(rest[length..]));
      assert rest[length..] == escaped[index + length..];
    case _ =>
  }

  /** Where the octal digits from `index` on end, three at most. */
  method OctalEnd(escaped: string, index: nat) returns (end: nat)
    requires index <= |escaped|
    ensures index <= end <= |escaped| && end - index == OctalRun(escaped[index..])
  {
    var rest := escaped[index..];
    end := index;
    while end < |escaped| && end < index + 3 && IsOctal(escaped[end])
      invariant index <= end <= |escaped| && end <= index + 3
      invariant forall i :: 0 <= i < end - index ==> IsOctal(rest[i])
    {
      assert escaped[end] == rest[end - index];
      end := end + 1;
    }
  }

  /** The decoder's loop over an index and a growing byte array. */
  method DecodeGitPath(value: string) returns (result: Decoded)
    ensures result == DecodePath(value)
  {
    hide Unescape, OctalRun, OctalValue, EncodeChar, Letter, IsOctal, AsText;
    if value == "" || value[0] != '"' {
      return Text(value);
    }
    if |value| < 2 || value[|value| - 1] != '"' {
      return Malformed;
    }
    var escaped := value[1..|value| - 1];
    var decoded: seq<byte> := [];
    var index := 0;
    assert escaped[0..] == escaped;
    while index < |escaped|
      invariant index <= |escaped|
      invariant Unescape(escaped) == Prepend(decoded, Unescape(escaped[index..]))
    {
      ghost var rest := escaped[index..];
      Advance(escaped, index, decoded);
      var character := escaped[index];
      if character != '\\' {
        decoded := decoded + EncodeChar(character);
        index := index + 1;
        continue;
      }
      index := index + 1;
      if index == |escaped| {
        return Malformed;
      }
      character := escaped[index];
      assert character == rest[1] && escaped[index..] == rest[1..];
      if Letter(character).Some? {
        decoded := decoded + [Letter(character).value];
        index := index + 1;
        continue;
      }
      if !IsOctal(character) {
        return Malformed;
      }
      var end := OctalEnd(escaped, index);
      assert escaped[index..end] == rest[1..][..end - index];
      var v := OctalValue(escaped[index..end]);
      if v > 255 {
        return BadByte;
      }
      decoded := decoded + [v];
      index := end;
    }
    assert escaped[index..] == "";
    assert Unescape(escaped[index..]) == Bytes([]) by {
      UnescapeNothing();
    }
    assert decoded + [] == decoded;
    return AsText(decoded);
  }

  lemma UnescapeNothing()
    ensures Unescape("") == Bytes([])
  {
  }

  // ---------------------------------------------------------------- what Git prints

  function OctalDigit(n: nat): char
    requires n < 8
  {
    ('0' as int + n) as char
  }

  predicate PlainByte(b: byte) { 0x20 <= b < 0x7F && b != 34 && b != 92 }

  function QuotedByte(b: byte): string {
    if b == 7 then "\\a" else if b == 8 then "\\b" else if b == 9 then "\\t" else if b == 10 then "\\n"
    else if b == 11 then "\\v" else if b == 12 then "\\f" else if b == 13 then "\\r"
    else if b == 34 then "\\\"" else if b == 92 then "\\\\"
    else if PlainByte(b) then [b as char]
    else ['\\', OctalDigit(b / 64), OctalDigit(b / 8 % 8), OctalDigit(b % 8)]
  }

  function Quoted(bytes: seq<byte>): string {
    if bytes == [] then "" else QuotedByte(bytes[0]) + Quoted(bytes[1..])
  }

  function Enclosed(s: string): string { "\"" + s + "\"" }

  /** A path is printed as it is unless some byte of it needs quoting. */
  function PrintPath(path: string): string {
    if forall b :: b in Encode(path) ==> PlainByte(b) then path else Enclosed(Quoted(Encode(path)))
  }

  lemma ThreeDigits(a: nat, b: nat, c: nat, rest: string)
    requires a < 8 && b < 8 && c < 8
    ensures var s := [OctalDigit(a), OctalDigit(b), OctalDigit(c)] + rest;
            OctalRun(s) == 3 && OctalValue(s[..3]) == 64 * a + 8 * b + c && s[3..] == rest
  {
    var s := [OctalDigit(a), OctalDigit(b), OctalDigit(c)] + rest;
    assert s[..3] == [OctalDigit(a), OctalDigit(b), OctalDigit(c)];
    assert s[..3][..2] == s[..2] == [OctalDigit(a), OctalDigit(b)];
    assert s[..2][..1] == s[..1] == [OctalDigit(a)];
    assert s[..1][..0] == "";
    assert OctalValue(s[..1]) == a;
    assert OctalValue(s[..2]) == 8 * a + b;
  }

  /** Each byte's spelling is read back as one item. */
  lemma QuotedByteIsItem(b: byte, rest: string)
    ensures FirstItem(QuotedByte(b) + rest) == Item([b], |QuotedByte(b)|)
  {
    var e := QuotedByte(b) + rest;
    if PlainByte(b) {
      assert e[0] == b as char;
      assert EncodeChar(b as char) == [b];
    } else if |QuotedByte(b)| == 2 {
      assert e[0] == '\\' && e[1] == QuotedByte(b)[1];
    } else {
      hide OctalRun, OctalValue;
      ThreeDigits(b / 64, b / 8 % 8, b % 8, rest);
      assert e[1..] == [OctalDigit(b / 64), OctalDigit(b / 8 % 8), OctalDigit(b % 8)] + rest;
      assert e[0] == '\\' && e[1] == OctalDigit(b / 64);
      assert 64 * (b / 64) + 8 * (b / 8 % 8) + b % 8 == b;
    }
  }

  lemma UnescapeQuotedByte(b: byte, rest: string)
    ensures Unescape(QuotedByte(b) + rest) == Prepend([b], Unescape(rest))
  {
    QuotedByteIsItem(b, rest);
    hide FirstItem, QuotedByte;
    var e := QuotedByte(b) + rest;
    assert e[|QuotedByte(b)|..] == rest;
  }

  /** Unquoting undoes quoting on every byte string. */
  lemma {:induction false} UnescapeQuoted(bytes: seq<byte>)
    ensures Unescape(Quoted(bytes)) == Bytes(bytes)
  {
    if bytes != [] {
      UnescapeQuotedByte(bytes[0], Quoted(bytes[1..]));
      UnescapeQuoted(bytes[1..]);
      assert [bytes[0]] + bytes[1..] == bytes;
    }
  }

  /** So a quoted byte string decodes to the text it encodes, and is refused exactly when it encodes
      none; it never raises. */
  lemma DecodeQuotedBytes(bytes: seq<byte>)
    ensures DecodePath(Enclosed(Quoted(bytes))) == AsText(bytes)
  {
    UnescapeQuoted(bytes);
    var value := Enclosed(Quoted(bytes));
    assert value[1..|value| - 1] == Quoted(bytes);
  }

  /** Every path survives printing and reading. */
  lemma PathRoundTrip(path: string)
    ensures DecodePath(PrintPath(path)) == Text(path)
  {
    if path != "" {
      assert Encode(path)[0] == EncodeChar(path[0])[0];
      assert Encode(path)[0] in Encode(path);
    }
    if exists b :: b in Encode(path) && !PlainByte(b) {
      DecodeQuotedBytes(Encode(path));
      DecodeEncoded(path);
    }
  }

  lemma {:induction false} QuotedIsLonger(bytes: seq<byte>)
    ensures |Quoted(bytes)| >= |bytes|
  {
    if bytes != [] {
      QuotedIsLonger(bytes[1..]);
    }
  }

  lemma {:induction false} EncodeIsLonger(s: string)
    ensures |Encode(s)| >= |s|
  {
    if s != "" {
      EncodeIsLonger(s[1..]);
    }
  }

  predicate PlainChar(c: char) { 0x20 <= c as int < 0x7F && c != '"' && c != '\\' }

  /** A path is printed quoted exactly when some character of it is no plain one, and only then does
      its printed form begin with a quote, which is what the decoder goes by. */
  lemma QuotesExactly(path: string)
    ensures (forall c :: c in path ==> PlainChar(c)) <==> PrintPath(path) == path
    ensures (exists c :: c in path && !PlainChar(c)) <==> PrintPath(path) != "" && PrintPath(path)[0] == '"'
  {
    var plain := forall b :: b in Encode(path) ==> PlainByte(b);
    if high :| high in path && high as int >= 0x80 {
      EncodeHasHighByte(path, high);
    } else {
      EncodeAscii(path);
      forall i | 0 <= i < |path| ensures PlainByte(Encode(path)[i]) <==> PlainChar(path[i]) {
        assert Encode(path)[i] == path[i] as int;
      }
      assert plain <==> forall i :: 0 <= i < |path| ==> PlainChar(path[i]);
    }
    assert plain <==> forall c :: c in path ==> PlainChar(c);
    if plain {
      assert path != "" ==> path[0] in path;
    } else {
      QuotedIsLonger(Encode(path));
      EncodeIsLonger(path);
    }
  }

  // ---------------------------------------------------------------- every escape

  /** How quoted text goes on after its first character or escape: a plain character stands for its own
      bytes; nine letters have a meaning each; one to three octal digits, as many as there are, are a
      byte, if they are one; and any other escape is refused. */
  lemma EscapesExactly(e: string)
    requires e != ""
    ensures e[0] != '\\' ==> Unescape(e) == Prepend(EncodeChar(e[0]), Unescape(e[1..]))
    ensures e == "\\" ==> Unescape(e) == Broken
    ensures e[0] == '\\' && |e| > 1 ==>
              var c, rest := e[1], e[2..];
              && (c == '"' ==> Unescape(e) == Prepend([34], Unescape(rest)))
              && (c == '\\' ==> Unescape(e) == Prepend([92], Unescape(rest)))
              && (c == 'a' ==> Unescape(e) == Prepend([7], Unescape(rest)))
              && (c == 'b' ==> Unescape(e) == Prepend([8], Unescape(rest)))
              && (c == 't' ==> Unescape(e) == Prepend([9], Unescape(rest)))
              && (c == 'n' ==> Unescape(e) == Prepend([10], Unescape(rest)))
              && (c == 'v' ==> Unescape(e) == Prepend([11], Unescape(rest)))
              && (c == 'f' ==> Unescape(e) == Prepend([12], Unescape(rest)))
              && (c == 'r' ==> Unescape(e) == Prepend([13], Unescape(rest)))
              && (c !in "\"\\abtnvfr" && !('0' <= c <= '7') ==> Unescape(e) == Broken)
  {
    UnescapeStep(e);
    hide Unescape;
    if e[0] == '\\' && |e| > 1 {
      assert e[2..] == e[1..][1..];
    }
  }

  /** One or two octal digits that no third follows, and three. */
  lemma OctalsExactly(e: string)
    requires |e| > 1 && e[0] == '\\' && '0' <= e[1] <= '7'
    ensures var a := e[1] as int - '0' as int;
            if |e| == 2 || !('0' <= e[2] <= '7') then Unescape(e) == Prepend([a], Unescape(e[2..]))
            else
              var b := e[2] as int - '0' as int;
              if |e| == 3 || !('0' <= e[3] <= '7') then Unescape(e) == Prepend([8 * a + b], Unescape(e[3..]))
              else
                var v := 64 * a + 8 * b + (e[3] as int - '0' as int);
                if v > 255 then Unescape(e) == Overflow else Unescape(e) == Prepend([v], Unescape(e[4..]))
  {
    OctalItem(e);
    UnescapeStep(e);
    hide Unescape, FirstItem, Prepend;
  }

  lemma OctalItem(e: string)
    requires |e| > 1 && e[0] == '\\' && '0' <= e[1] <= '7'
    ensures var a := e[1] as int - '0' as int;
            if |e| == 2 || !('0' <= e[2] <= '7') then FirstItem(e) == Item([a], 2)
            else
              var b := e[2] as int - '0' as int;
              if |e| == 3 || !('0' <= e[3] <= '7') then FirstItem(e) == Item([8 * a + b], 3)
              else
                var v := 64 * a + 8 * b + (e[3] as int - '0' as int);
                FirstItem(e) == if v > 255 then BigEscape else Item([v], 4)
  {
    hide EncodeChar, OctalValue;
    var digits := e[1..];
    assert Letter(e[1]).None?;
    assert digits[0] == e[1];
    if |e| > 2 && IsOctal(e[2]) {
      assert digits[1] == e[2];
      if |e| > 3 && IsOctal(e[3]) {
        assert digits[2] == e[3];
        assert digits[..3] == [e[1], e[2], e[3]];
        OctalDigits(e[1], e[2], e[3]);
      } else {
        assert digits[..2] == [e[1], e[2]];
        OctalDigits(e[1], e[2], '0');
      }
    } else {
      assert digits[..1] == [e[1]];
      OctalDigits(e[1], '0', '0');
    }
  }

  lemma OctalDigits(a: char, b: char, c: char)
    requires IsOctal(a) && IsOctal(b) && IsOctal(c)
    ensures OctalValue([a]) == a as int - '0' as int
    ensures OctalValue([a, b]) == 8 * (a as int - '0' as int) + (b as int - '0' as int)
    ensures OctalValue([a, b, c]) == 64 * (a as int - '0' as int) + 8 * (b as int - '0' as int) + (c as int - '0' as int)
  {
    assert [a][..0] == "";
    assert [a, b][..1] == [a];
    assert [a, b, c][..2] == [a, b];
  }

  // ---------------------------------------------------------------- the input that raises

  /** A three-digit octal escape above \377 at position `i`. */
  predicate BigOctalAt(e: string, i: nat) {
    i + 3 < |e| && e[i] == '\\' && '4' <= e[i + 1] <= '7' && IsOctal(e[i + 2]) && IsOctal(e[i + 3])
  }

  lemma OctalBound(s: string)
    requires |s| <= 3 && forall i :: 0 <= i < |s| ==> IsOctal(s[i])
    ensures OctalValue(s) > 255 <==> |s| == 3 && s[0] >= '4'
  {
    if |s| == 3 {
      assert s[..2][..1] == s[..1] && s[..1][..0] == "";
      assert OctalValue(s[..1]) == s[0] as int - '0' as int;
    } else if |s| == 2 {
      assert s[..1][..0] == "";
      assert OctalValue(s[..1]) == s[0] as int - '0' as int;
    }
  }

  lemma FirstItemStays(p: string, e: string)
    requires p != "" && FirstItem(p).Item? && e != "" && e[0] == '\\'
    ensures FirstItem(p + e) == FirstItem(p)
  {
    if p[0] == '\\' && Letter(p[1]).None? {
      assert (p + e)[1..] == p[1..] + e;
      assert OctalRun(p[1..] + e) == OctalRun(p[1..]);
      assert (p[1..] + e)[..OctalRun(p[1..])] == p[1..][..OctalRun(p[1..])];
    }
  }

  lemma RestOfAppended(p: string, e: string)
    requires p != "" && FirstItem(p).Item? && e != "" && e[0] == '\\'
    ensures FirstItem(p + e) == FirstItem(p) && (p + e)[FirstItem(p).length..] == p[FirstItem(p).length..] + e
  {
    FirstItemStays(p, e);
    hide FirstItem;
  }

  /** Unescaping goes left to right, so text that starts with an escape adds on at the end. */
  lemma {:induction false} UnescapeAppend(p: string, e: string)
    requires Unescape(p).Bytes? && e != "" && e[0] == '\\'
    ensures Unescape(p + e) == Prepend(Unescape(p).bytes, Unescape(e))
    decreases |p|
  {
    if p == "" {
      assert p + e == e;
    } else {
      UnescapeStep(p);
      UnescapeStep(p + e);
      hide Unescape, FirstItem;
      hide Prepend;
      var item := FirstItem(p);
      var rest := p[item.length..];
      RestOfAppended(p, e);
      PrependedBytes(item.bytes, Unescape(rest));
      UnescapeAppend(rest, e);
      PrependTwice(item.bytes, Unescape(rest).bytes, Unescape(e));
    }
  }

  lemma PrependedBytes(bytes: seq<byte>, r: Raw)
    ensures Prepend(bytes, r).Bytes? <==> r.Bytes?
    ensures r.Bytes? ==> Prepend(bytes, r).bytes == bytes + r.bytes
  {
  }

  /** The escape that raises, with everything before it decoded. */
  ghost predicate RaisesAt(e: string, i: nat) {
    BigOctalAt(e, i) && Unescape(e[..i]).Bytes?
  }

  lemma {:induction false} OverflowRaisesSomewhere(e: string) returns (i: nat)
    requires Unescape(e).Overflow?
    ensures RaisesAt(e, i)
    decreases |e|
  {
    if FirstItem(e).BigEscape? {
      OctalBound(e[1..][..OctalRun(e[1..])]);
      i := 0;
    } else {
      hide FirstItem;
      var length := FirstItem(e).length;
      var j := OverflowRaisesSomewhere(e[length..]);
      i := length + j;
      assert e[..i][length..] == e[length..][..j];
      FirstItemOfPrefix(e, i);
    }
  }

  lemma FirstItemOfPrefix(e: string, n: nat)
    requires e != "" && FirstItem(e).Item? && FirstItem(e).length <= n <= |e|
    ensures FirstItem(e[..n]) == FirstItem(e)
  {
    if e[0] == '\\' && Letter(e[1]).None? {
      OctalRunOfPrefix(e[1..], n - 1);
      assert e[..n][1..] == e[1..][..n - 1];
      assert e[..n][1..][..OctalRun(e[1..])] == e[1..][..OctalRun(e[1..])];
    }
  }

  lemma OctalRunOfPrefix(s: string, n: nat)
    requires OctalRun(s) <= n <= |s|
    ensures OctalRun(s[..n]) == OctalRun(s)
  {
  }

  /** The decoder raises on exactly these inputs: a quoted value in which some octal escape above
      \377 is reached with everything before it decoded. */
  lemma RaisesExactly(e: string)
    ensures DecodePath(Enclosed(e)) == BadByte <==> exists i: nat :: RaisesAt(e, i)
  {
    var value := Enclosed(e);
    assert value[1..|value| - 1] == e;
    if Unescape(e).Overflow? {
      var i := OverflowRaisesSomewhere(e);
      assert RaisesAt(e, i);
    }
    forall i: nat | RaisesAt(e, i) ensures Unescape(e).Overflow? {
      assert e == e[..i] + e[i..];
      UnescapeAppend(e[..i], e[i..]);
      BigOctalOverflows(e[i..]);
    }
  }

  lemma BigOctalOverflows(e: string)
    requires BigOctalAt(e, 0)
    ensures Unescape(e).Overflow?
  {
    assert OctalRun(e[1..]) == 3;
    OctalBound(e[1..][..3]);
  }

  lemma DecoderCanRaise()
    ensures DecodePath(Enclosed("\\777")) == BadByte
  {
    var e := "\\777";
    assert e[..0] == "";
    assert RaisesAt(e, 0);
    RaisesExactly(e);
  }
}
