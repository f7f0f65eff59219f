/**
  Percent-encoding of text as UTF-8 bytes (section 2.1 of RFC 3986), with the
  unreserved characters of encodeURIComponent, and its inverse.
 */
module PercentEncoding {
  import opened Wrappers

  type Byte = b: int | 0 <= b < 256

  predicate Unreserved(c: char) {
    || 'A' <= c <= 'Z' || 'a' <= c <= 'z' || '0' <= c <= '9'
    || c in "-_.!~*'()"
  }

  function HexDigit(n: nat): char
    requires n < 16
  {
    "0123456789ABCDEF"[n]
  }

  function HexValue(c: char): Option<nat> {
    if '0' <= c <= '9' then Some((c - '0') as nat)
    else if 'A' <= c <= 'F' then Some((c - 'A') as nat + 10)
    else if 'a' <= c <= 'f' then Some((c - 'a') as nat + 10)
    else None
  }

  function EncodeByte(b: Byte): (s: string)
    ensures |s| == 3
  {
    ['%', HexDigit(b / 16), HexDigit(b % 16)]
  }

  /** A continuation byte with six bits. */
  function Tail(n: nat): Byte {
    0x80 + n % 64
  }

  function EncodeTwo(n: nat): string
    requires n < 0x800
  {
    EncodeByte(0xC0 + n / 64) + EncodeByte(Tail(n))
  }

  function EncodeThree(n: nat): string
    requires n < 0x1_0000
  {
    EncodeByte(0xE0 + n / 4096) + EncodeByte(Tail(n / 64)) + EncodeByte(Tail(n))
  }

  function EncodeFour(n: nat): string
    requires n < 0x11_0000
  {
    EncodeByte(0xF0 + n / 262144) + EncodeByte(Tail(n / 4096)) + EncodeByte(Tail(n / 64)) + EncodeByte(Tail(n))
  }

  function EncodeChar(c: char): string {
    var n := c as int;
    if Unreserved(c) then [c]
    else if n < 0x80 then EncodeByte(n)
    else if n < 0x800 then EncodeTwo(n)
    else if n < 0x1_0000 then EncodeThree(n)
    else EncodeFour(n)
  }

  function Encode(s: string): string {
    if s == "" then "" else EncodeChar(s[0]) + Encode(s[1..])
  }

  /** The byte a percent sign and two digits stand for. */
  function TakeByte(s: string): Option<Byte> {
    if |s| < 3 || s[0] != '%' then None
    else
      match (HexValue(s[1]), HexValue(s[2]))
      case (Some(h), Some(l)) => if h < 16 && l < 16 then Some(16 * h + l) else None
      case _ => None
  }

  /** The low six bits of a continuation byte. */
  function TakeTail(s: string): Option<nat> {
    match TakeByte(s)
    case Some(b) => if 0x80 <= b < 0xC0 then Some(b - 0x80) else None
    case None => None
  }

  function Scalar(n: int): Option<char> {
    if 0 <= n < 0xD800 || 0xE000 <= n < 0x11_0000 then Some(n as char) else None
  }

  /** The first character and how much text it takes. Overlong forms and surrogates are malformed. */
  function DecodeFirst(s: string): Option<(char, nat)>
    requires s != ""
  {
    if s[0] != '%' then Some((s[0], 1))
    else
      match TakeByte(s)
      case None => None
      case Some(b) =>
        if b < 0x80 then Some((b as char, 3))
        else if 0xC0 <= b < 0xE0 then DecodeTwo(b - 0xC0, s)
        else if 0xE0 <= b < 0xF0 then DecodeThree(b - 0xE0, s)
        else if 0xF0 <= b < 0xF8 then DecodeFour(b - 0xF0, s)
        else None
  }

  function DecodeTwo(lead: nat, s: string): Option<(char, nat)> {
    if |s| < 6 || TakeTail(s[3..]) == None then None
    else
      var n := lead * 64 + TakeTail(s[3..]).value;
      if n < 0x80 || Scalar(n) == None then None else Some((Scalar(n).value, 6))
  }

  function DecodeThree(lead: nat, s: string): Option<(char, nat)> {
    if |s| < 9 || TakeTail(s[3..]) == None || TakeTail(s[6..]) == None then None
    else
      var n := lead * 4096 + TakeTail(s[3..]).value * 64 + TakeTail(s[6..]).value;
      if n < 0x800 || Scalar(n) == None then None else Some((Scalar(n).value, 9))
  }

  function DecodeFour(lead: nat, s: string): Option<(char, nat)> {
    if |s| < 12 || TakeTail(s[3..]) == None || TakeTail(s[6..]) == None || TakeTail(s[9..]) == None then None
    else
      var n := lead * 262144 + TakeTail(s[3..]).value * 4096 + TakeTail(s[6..]).value * 64 + TakeTail(s[9..]).value;
      if n < 0x1_0000 || Scalar(n) == None then None else Some((Scalar(n).value, 12))
  }

  function Decode(s: string): Option<string>
    decreases |s|
  {
    if s == "" then Some("")
    else
      match DecodeFirst(s)
      case None => None
      case Some((c, k)) =>
        if k > |s| || k == 0 then None
        else
          match Decode(s[k..])
          case None => None
          case Some(rest) => Some([c] + rest)
  }

  // ---------------------------------------------------------------------
  // Round trip
  // ---------------------------------------------------------------------

  lemma HexRoundTrip(n: nat)
    requires n < 16
    ensures HexValue(HexDigit(n)) == Some(n) && HexDigit(n) != ':' && HexDigit(n) != '%'
  {
  }

  lemma ByteRoundTrip(b: Byte, rest: string)
    ensures TakeByte(EncodeByte(b) + rest) == Some(b) && (EncodeByte(b) + rest)[3..] == rest
    ensures ':' !in EncodeByte(b) && EncodeByte(b)[0] == '%'
  {
    HexRoundTrip(b / 16);
    HexRoundTrip(b % 16);
    var s := EncodeByte(b) + rest;
    assert s[1] == HexDigit(b / 16) && s[2] == HexDigit(b % 16);
  }

  lemma TwoDigits(n: nat)
    ensures n == n / 64 * 64 + n % 64
  {
  }

  lemma DivideTwice(n: nat)
    ensures n / 4096 == n / 64 / 64
  {
  }

  lemma DivideThrice(n: nat)
    ensures n / 262144 == n / 4096 / 64
  {
  }

  lemma ThreeDigits(n: nat)
    ensures n == n / 4096 * 4096 + n / 64 % 64 * 64 + n % 64
  {
    TwoDigits(n);
    TwoDigits(n / 64);
    DivideTwice(n);
  }

  lemma FourDigits(n: nat)
    ensures n == n / 262144 * 262144 + n / 4096 % 64 * 4096 + n / 64 % 64 * 64 + n % 64
  {
    ThreeDigits(n);
    TwoDigits(n / 4096);
    DivideThrice(n);
  }

  lemma Regroup(front: string, middle: string, rest: string)
    ensures front + middle + rest == front + (middle + rest)
  {
  }

  lemma SuffixTwice(s: string, from: nat, to: nat)
    requires to == from + 3 <= |s|
    ensures s[from..][3..] == s[to..]
  {
  }

  lemma TwoBytes(a: Byte, b: Byte, rest: string)
    ensures var s := EncodeByte(a) + EncodeByte(b) + rest;
            |s| >= 6 && s[0] == '%' && TakeByte(s) == Some(a) && TakeByte(s[3..]) == Some(b) && s[6..] == rest
  {
    var s := EncodeByte(a) + EncodeByte(b) + rest;
    Regroup(EncodeByte(a), EncodeByte(b), rest);
    ByteRoundTrip(a, EncodeByte(b) + rest);
    ByteRoundTrip(b, rest);
    SuffixTwice(s, 3, 6);
  }

  lemma ThreeBytes(a: Byte, b: Byte, c: Byte, rest: string)
    ensures var s := EncodeByte(a) + EncodeByte(b) + EncodeByte(c) + rest;
            && |s| >= 9 && s[0] == '%' && TakeByte(s) == Some(a) && TakeByte(s[3..]) == Some(b)
            && TakeByte(s[6..]) == Some(c) && s[9..] == rest
  {
    var s := EncodeByte(a) + EncodeByte(b) + EncodeByte(c) + rest;
    Regroup(EncodeByte(a) + EncodeByte(b), EncodeByte(c), rest);
    TwoBytes(a, b, EncodeByte(c) + rest);
    ByteRoundTrip(c, rest);
    SuffixTwice(s, 6, 9);
  }

  lemma FourBytes(a: Byte, b: Byte, c: Byte, d: Byte, rest: string)
    ensures var s := EncodeByte(a) + EncodeByte(b) + EncodeByte(c) + EncodeByte(d) + rest;
            && |s| >= 12 && s[0] == '%' && TakeByte(s) == Some(a) && TakeByte(s[3..]) == Some(b)
            && TakeByte(s[6..]) == Some(c) && TakeByte(s[9..]) == Some(d) && s[12..] == rest
  {
    var s := EncodeByte(a) + EncodeByte(b) + EncodeByte(c) + EncodeByte(d) + rest;
    Regroup(EncodeByte(a) + EncodeByte(b) + EncodeByte(c), EncodeByte(d), rest);
    ThreeBytes(a, b, c, EncodeByte(d) + rest);
    ByteRoundTrip(d, rest);
    SuffixTwice(s, 9, 12);
  }

  lemma TailRoundTrip(n: nat, s: string)
    requires TakeByte(s) == Some(Tail(n))
    ensures TakeTail(s) == Some(n % 64)
  {
  }

  lemma CodeOfChar(c: char)
    ensures Scalar(c as int) == Some(c)
  {
  }

  lemma LeadByte(s: string, b: Byte, lead: nat)
    requires s != "" && s[0] == '%' && TakeByte(s) == Some(b)
    ensures 0xC0 <= b < 0xE0 && lead == b - 0xC0 ==> DecodeFirst(s) == DecodeTwo(lead, s)
    ensures 0xE0 <= b < 0xF0 && lead == b - 0xE0 ==> DecodeFirst(s) == DecodeThree(lead, s)
    ensures 0xF0 <= b < 0xF8 && lead == b - 0xF0 ==> DecodeFirst(s) == DecodeFour(lead, s)
  {
  }

  lemma TwoRoundTrip(c: char, n: nat, rest: string)
    requires n == c as int && 0x80 <= n < 0x800
    ensures var s := EncodeTwo(n) + rest;
            s != "" && DecodeFirst(s) == Some((c, |EncodeTwo(n)|)) && s[|EncodeTwo(n)|..] == rest
  {
    var s := EncodeTwo(n) + rest;
    TwoBytes(0xC0 + n / 64, Tail(n), rest);
    LeadByte(s, 0xC0 + n / 64, n / 64);
    TailRoundTrip(n, s[3..]);
    TwoTails(c, n, s);
  }

  lemma TwoTails(c: char, n: nat, s: string)
    requires n == c as int && 0x80 <= n && |s| >= 6 && TakeTail(s[3..]) == Some(n % 64)
    ensures DecodeTwo(n / 64, s) == Some((c, 6))
  {
    TwoDigits(n);
    CodeOfChar(c);
  }

  lemma ThreeRoundTrip(c: char, n: nat, rest: string)
    requires n == c as int && 0x800 <= n < 0x1_0000
    ensures var s := EncodeThree(n) + rest;
            s != "" && DecodeFirst(s) == Some((c, |EncodeThree(n)|)) && s[|EncodeThree(n)|..] == rest
  {
    var s := EncodeThree(n) + rest;
    ThreeBytes(0xE0 + n / 4096, Tail(n / 64), Tail(n), rest);
    LeadByte(s, 0xE0 + n / 4096, n / 4096);
    TailRoundTrip(n / 64, s[3..]);
    TailRoundTrip(n, s[6..]);
    ThreeTails(c, n, s);
  }

  lemma ThreeTails(c: char, n: nat, s: string)
    requires n == c as int && 0x800 <= n && |s| >= 9
    requires TakeTail(s[3..]) == Some(n / 64 % 64) && TakeTail(s[6..]) == Some(n % 64)
    ensures DecodeThree(n / 4096, s) == Some((c, 9))
  {
    ThreeDigits(n);
    CodeOfChar(c);
  }

  lemma FourRoundTrip(c: char, n: nat, rest: string)
    requires n == c as int && 0x1_0000 <= n
    ensures var s := EncodeFour(n) + rest;
            s != "" && DecodeFirst(s) == Some((c, |EncodeFour(n)|)) && s[|EncodeFour(n)|..] == rest
  {
    var s := EncodeFour(n) + rest;
    FourBytes(0xF0 + n / 262144, Tail(n / 4096), Tail(n / 64), Tail(n), rest);
    LeadByte(s, 0xF0 + n / 262144, n / 262144);
    TailRoundTrip(n / 4096, s[3..]);
    TailRoundTrip(n / 64, s[6..]);
    TailRoundTrip(n, s[9..]);
    FourTails(c, n, s);
  }

  lemma FourTails(c: char, n: nat, s: string)
    requires n == c as int && 0x1_0000 <= n && |s| >= 12
    requires TakeTail(s[3..]) == Some(n / 4096 % 64) && TakeTail(s[6..]) == Some(n / 64 % 64)
    requires TakeTail(s[9..]) == Some(n % 64)
    ensures DecodeFour(n / 262144, s) == Some((c, 12))
  {
    FourDigits(n);
    CodeOfChar(c);
  }

  /** The first character of an encoded text decodes to itself and leaves the rest. */
  lemma CharRoundTrip(c: char, rest: string)
    ensures var s := EncodeChar(c) + rest;
            s != "" && DecodeFirst(s) == Some((c, |EncodeChar(c)|)) && s[|EncodeChar(c)|..] == rest
  {
    var n := c as int;
    if Unreserved(c) {
      assert ([c] + rest)[1..] == rest;
    } else if n < 0x80 {
      ByteRoundTrip(n, rest);
    } else if n < 0x800 {
      TwoRoundTrip(c, n, rest);
    } else if n < 0x1_0000 {
      ThreeRoundTrip(c, n, rest);
    } else {
      FourRoundTrip(c, n, rest);
    }
  }

  lemma {:induction false} DecodeNext(s: string, c: char, k: nat, rest: string)
    requires s != "" && 0 < k <= |s| && DecodeFirst(s) == Some((c, k)) && s[k..] == rest && Decode(rest).Some?
    ensures Decode(s) == Some([c] + Decode(rest).value)
  {
  }

  /** The characters that encodeURIComponent leaves alone. */
  predicate LeftAlone(c: char) {
    || 'A' <= c <= 'Z' || 'a' <= c <= 'z' || '0' <= c <= '9'
    || c == '-' || c == '_' || c == '.' || c == '!' || c == '~' || c == '*' || c == '\'' || c == '(' || c == ')'
  }

  /** A byte in upper-case hexadecimal. */
  predicate IsHex(s: string, b: int) {
    && |s| == 3 && s[0] == '%' && 0 <= b < 256
    && s[1] == "0123456789ABCDEF"[b / 16] && s[2] == "0123456789ABCDEF"[b % 16]
  }

  /** Which characters stay as they are; any other ASCII one becomes its code in hexadecimal. */
  lemma EncodedExactly(c: char)
    ensures EncodeChar(c) == [c] <==> LeftAlone(c)
    ensures !LeftAlone(c) && c as int < 0x80 ==> IsHex(EncodeChar(c), c as int)
  {
    if !Unreserved(c) {
      assert |EncodeChar(c)| >= 3;
    }
  }

  /** Every text survives encoding and decoding. */
  lemma {:induction false} RoundTrip(s: string)
    ensures Decode(Encode(s)) == Some(s)
  {
    if s != "" {
      RoundTrip(s[1..]);
      CharRoundTrip(s[0], Encode(s[1..]));
      CharHasNoColon(s[0]);
      DecodeNext(Encode(s), s[0], |EncodeChar(s[0])|, Encode(s[1..]));
      assert s == [s[0]] + s[1..];
    }
  }

  lemma ByteHasNoColon(b: Byte)
    ensures ':' !in EncodeByte(b)
  {
    ByteRoundTrip(b, "");
  }

  lemma BytesHaveNoColon(a: Byte, b: Byte, c: Byte, d: Byte)
    ensures ':' !in EncodeByte(a) + EncodeByte(b) + EncodeByte(c) + EncodeByte(d)
    ensures ':' !in EncodeByte(a) + EncodeByte(b) + EncodeByte(c)
    ensures ':' !in EncodeByte(a) + EncodeByte(b)
  {
    ByteHasNoColon(a);
    ByteHasNoColon(b);
    ByteHasNoColon(c);
    ByteHasNoColon(d);
  }

  lemma CharHasNoColon(c: char)
    ensures ':' !in EncodeChar(c) && EncodeChar(c) != ""
  {
    var n := c as int;
    if Unreserved(c) {
      assert EncodeChar(c) == [c];
    } else if n < 0x80 {
      ByteHasNoColon(n);
    } else if n < 0x800 {
      BytesHaveNoColon(0xC0 + n / 64, Tail(n), 0, 0);
    } else if n < 0x1_0000 {
      BytesHaveNoColon(0xE0 + n / 4096, Tail(n / 64), Tail(n), 0);
    } else {
      BytesHaveNoColon(0xF0 + n / 262144, Tail(n / 4096), Tail(n / 64), Tail(n));
    }
  }

  /** An encoded text has no colon, and is empty only for the empty text. */
  lemma {:induction false} EncodedHasNoColon(s: string)
    ensures ':' !in Encode(s) && (Encode(s) == "" <==> s == "")
  {
    if s != "" {
      CharHasNoColon(s[0]);
      EncodedHasNoColon(s[1..]);
    }
  }
}
