/**
 * The browser's `btoa` and `atob`: base64 as defined in section 4 of RFC 4648,
 * with the "forgiving-base64 decode" of the WHATWG Infra standard that `atob`
 * applies (ASCII whitespace is ignored, padding is optional, leftover bits are dropped).
 * Both work on "binary strings", whose characters all have codes below 256.
 */
module Base64 {
  import opened Wrappers

  type Byte = x: int | 0 <= x < 256
  type Sextet = x: int | 0 <= x < 64

  /** The DOMException both functions throw. */
  datatype DomError = InvalidCharacterError

  predicate IsBinary(s: string) {
    forall i :: 0 <= i < |s| ==> s[i] as int < 256
  }

  /** `charCodeAt` over a whole binary string. */
  function Codes(s: string): (r: seq<Byte>)
    requires IsBinary(s)
    ensures |r| == |s| && forall i :: 0 <= i < |s| ==> r[i] == s[i] as int
  {
    seq(|s|, i requires 0 <= i < |s| => s[i] as int)
  }

  /** `String.fromCharCode` over a whole byte sequence. */
  function Chars(b: seq<Byte>): (r: string)
    ensures |r| == |b| && IsBinary(r)
    ensures forall i :: 0 <= i < |b| ==> r[i] as int == b[i]
  {
    seq(|b|, i requires 0 <= i < |b| => b[i] as char)
  }

  lemma CharsCodes(s: string)
    requires IsBinary(s)
    ensures Chars(Codes(s)) == s
  {
    assert forall i :: 0 <= i < |s| ==> Chars(Codes(s))[i] as int == s[i] as int;
  }

  /** The value of an alphabet character (Table 1 of RFC 4648). */
  function Value(c: char): (r: Option<Sextet>)
  {
    if 'A' <= c <= 'Z' then Some(c as int - 'A' as int)
    else if 'a' <= c <= 'z' then Some(c as int - 'a' as int + 26)
    else if '0' <= c <= '9' then Some(c as int - '0' as int + 52)
    else if c == '+' then Some(62)
    else if c == '/' then Some(63)
    else None
  }

  /** The alphabet character of a 6-bit value; `Value` is its inverse. */
  function Letter(v: Sextet): (c: char)
    ensures Value(c) == Some(v)
  {
    if v < 26 then ('A' as int + v) as char
    else if v < 52 then ('a' as int + (v - 26)) as char
    else if v < 62 then ('0' as int + (v - 52)) as char
    else if v == 62 then '+'
    else '/'
  }

  function Letters(v: seq<Sextet>): (r: string)
    ensures |r| == |v| && forall i :: 0 <= i < |v| ==> r[i] == Letter(v[i])
  {
    seq(|v|, i requires 0 <= i < |v| => Letter(v[i]))
  }

  /** Splits each group of three bytes into four 6-bit values; a final group of one or
      two bytes gives two or three values, its missing low bits zero. */
  function Sextets(b: seq<Byte>): (r: seq<Sextet>)
    ensures |r| == 4 * (|b| / 3) + (if |b| % 3 == 0 then 0 else |b| % 3 + 1)
    decreases |b|
  {
    if |b| == 0 then []
    else if |b| == 1 then [b[0] / 4, (b[0] % 4) * 16]
    else if |b| == 2 then [b[0] / 4, (b[0] % 4) * 16 + b[1] / 16, (b[1] % 16) * 4]
    else Quad(b[0], b[1], b[2]) + Sextets(b[3..])
  }

  /** The four 6-bit values of a full group of three bytes. */
  function Quad(b0: Byte, b1: Byte, b2: Byte): (r: seq<Sextet>)
    ensures |r| == 4
  {
    [b0 / 4, (b0 % 4) * 16 + b1 / 16, (b1 % 16) * 4 + b2 / 64, b2 % 64]
  }

  /** Joins groups of four 6-bit values back into three bytes; a final group of two or
      three values gives one or two bytes, its leftover bits dropped. */
  function Bytes(v: seq<Sextet>): (r: seq<Byte>)
    requires |v| % 4 != 1
    decreases |v|
  {
    if |v| == 0 then []
    else if |v| == 2 then [High(v[0], v[1])]
    else if |v| == 3 then [High(v[0], v[1]), Middle(v[1], v[2])]
    else [High(v[0], v[1]), Middle(v[1], v[2]), Low(v[2], v[3])] + Bytes(v[4..])
  }

  /** The first byte of a group: all six bits of `a`, the top two of `b`. */
  function High(a: Sextet, b: Sextet): Byte { a as int * 4 + b as int / 16 }
  /** The second byte: the low four bits of `b`, the top four of `c`. */
  function Middle(b: Sextet, c: Sextet): Byte { (b as int % 16) * 16 + c as int / 4 }
  /** The third byte: the low two bits of `c`, all six of `d`. */
  function Low(c: Sextet, d: Sextet): Byte { (c as int % 4) * 64 + d as int }

  function Padding(n: nat): string {
    if n % 3 == 1 then "==" else if n % 3 == 2 then "=" else ""
  }

  /** The base64 encoding of a byte sequence, padded to a multiple of four characters. */
  function Encode(b: seq<Byte>): string {
    Letters(Sextets(b)) + Padding(|b|)
  }

  /** `btoa`: throws on a character outside the binary range. */
  function Btoa(s: string): (r: Result<string, DomError>)
    ensures r.Failure? <==> !IsBinary(s)
  {
    if IsBinary(s) then Success(Encode(Codes(s))) else Failure(InvalidCharacterError)
  }

  /** ASCII whitespace of the Infra standard: TAB, LF, FF, CR and SPACE. */
  predicate IsAsciiWhitespace(c: char) {
    c == '\t' || c == '\n' || c == '\U{000C}' || c == '\r' || c == ' '
  }

  function StripWhitespace(s: string): (r: string)
    ensures forall i :: 0 <= i < |r| ==> !IsAsciiWhitespace(r[i])
  {
    if s == [] then []
    else if IsAsciiWhitespace(s[0]) then StripWhitespace(s[1..])
    else [s[0]] + StripWhitespace(s[1..])
  }

  /** Stripping works character by character: a whitespace character goes, any other stays. */
  lemma StripChar(c: char)
    ensures StripWhitespace([c]) == if IsAsciiWhitespace(c) then [] else [c]
  {
  }

  /** Stripping keeps the other characters in order: it distributes over concatenation. */
  lemma {:induction false} StripAppend(a: string, b: string)
    ensures StripWhitespace(a + b) == StripWhitespace(a) + StripWhitespace(b)
    decreases |a|
  {
    if a == [] {
      assert a + b == b;
    } else {
      assert (a + b)[0] == a[0];
      assert (a + b)[1..] == a[1..] + b;
      StripAppend(a[1..], b);
    }
  }

  /** One or two trailing `=` are removed when the length is a multiple of four. */
  function DropPadding(s: string): string {
    if |s| % 4 == 0 && |s| >= 2 && s[|s| - 2..] == "==" then s[..|s| - 2]
    else if |s| % 4 == 0 && |s| >= 1 && s[|s| - 1] == '=' then s[..|s| - 1]
    else s
  }

  predicate InAlphabet(s: string) {
    forall i :: 0 <= i < |s| ==> Value(s[i]).Some?
  }

  function Values(s: string): (r: seq<Sextet>)
    requires InAlphabet(s)
    ensures |r| == |s| && forall i :: 0 <= i < |s| ==> Some(r[i]) == Value(s[i])
  {
    seq(|s|, i requires 0 <= i < |s| => Value(s[i]).value)
  }

  /** `atob`: the forgiving-base64 decode, throwing when what is left after removing
      whitespace and padding has length 1 modulo 4 or a character outside the alphabet. */
  function Atob(s: string): (r: Result<string, DomError>)
    ensures r.Success? ==> IsBinary(r.value)
  {
    var t := DropPadding(StripWhitespace(s));
    if |t| % 4 == 1 || !InAlphabet(t) then Failure(InvalidCharacterError)
    else Success(Chars(Bytes(Values(t))))
  }

  lemma GroupRoundTrip(b0: Byte, b1: Byte, b2: Byte)
    ensures var q := Quad(b0, b1, b2);
      High(q[0], q[1]) == b0 && Middle(q[1], q[2]) == b1 && Low(q[2], q[3]) == b2
  {
  }

  /** A final group of two bytes. */
  lemma PairRoundTrip(b0: Byte, b1: Byte)
    ensures Bytes([b0 / 4, (b0 % 4) * 16 + b1 / 16, (b1 % 16) * 4]) == [b0, b1]
  {
    assert High(b0 / 4, (b0 % 4) * 16 + b1 / 16) == b0;
    assert Middle((b0 % 4) * 16 + b1 / 16, (b1 % 16) * 4) == b1;
  }

  /** A final group of one byte. */
  lemma SingleRoundTrip(b0: Byte)
    ensures Bytes([b0 / 4, (b0 % 4) * 16]) == [b0]
  {
    assert High(b0 / 4, (b0 % 4) * 16) == b0;
  }

  /** A full group in front decodes to its three bytes in front. */
  lemma BytesCons(g: seq<Sextet>, w: seq<Sextet>)
    requires |g| == 4 && |w| % 4 != 1
    ensures Bytes(g + w) == [High(g[0], g[1]), Middle(g[1], g[2]), Low(g[2], g[3])] + Bytes(w)
  {
    var v := g + w;
    assert v[4..] == w;
    assert v[0] == g[0] && v[1] == g[1] && v[2] == g[2] && v[3] == g[3];
  }

  lemma {:induction false} BytesOfSextets(b: seq<Byte>)
    ensures Bytes(Sextets(b)) == b
    decreases |b|
  {
    if |b| == 1 {
      SingleRoundTrip(b[0]);
    } else if |b| == 2 {
      PairRoundTrip(b[0], b[1]);
    } else if |b| >= 3 {
      var b0, b1, b2, rest := b[0], b[1], b[2], b[3..];
      var g := Quad(b0, b1, b2);
      var w := Sextets(rest);
      assert Sextets(b) == g + w;
      BytesCons(g, w);
      GroupRoundTrip(b0, b1, b2);
      BytesOfSextets(rest);
      assert b == [b0, b1, b2] + rest;
    }
  }

  /** No encoding leaves a lone character in its last group. */
  lemma SextetsLength(b: seq<Byte>)
    ensures |Sextets(b)| % 4 != 1
  {
    var q, r := |b| / 3, |b| % 3;
    assert |Sextets(b)| == 4 * q + (if r == 0 then 0 else r + 1);
  }

  lemma ValuesOfLetters(v: seq<Sextet>)
    ensures InAlphabet(Letters(v)) && Values(Letters(v)) == v
  {
  }

  lemma {:induction false} StripNoWhitespace(s: string)
    requires forall i :: 0 <= i < |s| ==> !IsAsciiWhitespace(s[i])
    ensures StripWhitespace(s) == s
    decreases |s|
  {
    if s != [] {
      StripNoWhitespace(s[1..]);
      assert s == [s[0]] + s[1..];
    }
  }

  /** The encoding is four characters for every started group of three bytes. */
  lemma EncodeLength(b: seq<Byte>)
    ensures |Encode(b)| == 4 * ((|b| + 2) / 3)
  {
  }

  lemma EncodeHasNoWhitespace(b: seq<Byte>)
    ensures StripWhitespace(Encode(b)) == Encode(b)
  {
    var body := Letters(Sextets(b));
    var e := Encode(b);
    forall i | 0 <= i < |e| ensures !IsAsciiWhitespace(e[i]) {
      if i < |body| { assert e[i] == Letter(Sextets(b)[i]); }
    }
    StripNoWhitespace(e);
  }

  lemma DropTwo(body: string)
    requires |body| % 4 == 2
    ensures DropPadding(body + "==") == body
  {
    var e := body + "==";
    assert e[|e| - 2..] == "==";
    assert e[..|e| - 2] == body;
  }

  lemma DropOne(body: string)
    requires |body| % 4 == 3 && Value(body[|body| - 1]).Some?
    ensures DropPadding(body + "=") == body
  {
    var e := body + "=";
    assert e[|e| - 2] == body[|body| - 1];
    assert e[|e| - 2..] != "==";
    assert e[..|e| - 1] == body;
  }

  lemma DropNone(body: string)
    requires |body| % 4 == 0 && (body == [] || Value(body[|body| - 1]).Some?)
    ensures DropPadding(body) == body
  {
    if body != [] {
      assert body[|body| - 1] != '=';
      assert body[|body| - 2..] != "==";
    }
  }

  lemma DropPaddingCases(body: string, pad: string)
    requires body == [] || Value(body[|body| - 1]).Some?
    requires || (pad == "" && |body| % 4 == 0)
             || (pad == "=" && |body| % 4 == 3)
             || (pad == "==" && |body| % 4 == 2)
    ensures DropPadding(body + pad) == body
  {
    if pad == "==" {
      DropTwo(body);
    } else if pad == "=" {
      DropOne(body);
    } else {
      assert body + pad == body;
      DropNone(body);
    }
  }

  /** Removing the padding of an encoding leaves exactly its alphabet characters. */
  lemma DropPaddingOfEncode(b: seq<Byte>)
    ensures DropPadding(Encode(b)) == Letters(Sextets(b))
  {
    var v := Sextets(b);
    var body := Letters(v);
    if body != [] { assert body[|body| - 1] == Letter(v[|v| - 1]); }
    DropPaddingCases(body, Padding(|b|));
  }

  lemma AtobAccepts(e: string, t: string)
    requires t == DropPadding(StripWhitespace(e))
    requires |t| % 4 != 1 && InAlphabet(t)
    ensures Atob(e) == Success(Chars(Bytes(Values(t))))
  {
  }

  /** Decoding an encoding gives back its bytes. */
  lemma AtobOfEncode(b: seq<Byte>)
    ensures Atob(Encode(b)) == Success(Chars(b))
  {
    var v := Sextets(b);
    var e := Encode(b);
    var t := Letters(v);
    EncodeHasNoWhitespace(b);
    DropPaddingOfEncode(b);
    assert t == DropPadding(StripWhitespace(e));
    ValuesOfLetters(v);
    SextetsLength(b);
    BytesOfSextets(b);
    AtobAccepts(e, t);
  }

  /** `atob(btoa(s)) == s` for every binary string. */
  lemma AtobBtoa(s: string)
    requires IsBinary(s)
    ensures Btoa(s).Success? && Atob(Btoa(s).value) == Success(s)
  {
    AtobOfEncode(Codes(s));
    CharsCodes(s);
  }
}
