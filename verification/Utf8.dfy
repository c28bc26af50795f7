/** UTF-8 (RFC 3629, section 3) over bytes 0..255: encoding, and decoding that skips errors. */
module Utf8 {
  import opened Numbers

  /** The code point ranges a character can have: no surrogates, at most U+10FFFF. */
  lemma CharRange(c: char)
    ensures 0 <= c as int < 0xD800 || 0xE000 <= c as int < 0x11_0000
  {
  }

  function CharSize(c: char): (n: nat)
    ensures 1 <= n <= 4
  {
    var u := c as int;
    if u < 0x80 then 1 else if u < 0x800 then 2 else if u < 0x1_0000 then 3 else 4
  }

  function Size(s: string): nat {
    if s == "" then 0 else CharSize(s[0]) + Size(s[1..])
  }

  function Continuation(u: nat): (b: Byte)
    ensures IsContinuation(b)
  {
    0x80 + u % 64
  }

  function EncodeChar(c: char): (b: seq<Byte>)
    ensures |b| == CharSize(c)
  {
    var u := c as int;
    if u < 0x80 then [u]
    else if u < 0x800 then [0xC0 + u / 64, Continuation(u)]
    else if u < 0x1_0000 then [0xE0 + u / 4096, Continuation(u / 64), Continuation(u)]
    else [0xF0 + u / 262144, Continuation(u / 4096), Continuation(u / 64), Continuation(u)]
  }

  function Encode(s: string): (b: seq<Byte>)
    ensures |b| == Size(s)
  {
    if s == "" then [] else EncodeChar(s[0]) + Encode(s[1..])
  }

  // ---------------------------------------------------------------- decoding

  predicate IsContinuation(b: Byte) { 0x80 <= b < 0xC0 }

  /** The six bits a continuation byte carries. */
  function Payload(b: Byte): int { b as int - 0x80 }

  /** Length announced by a lead byte; 0 for a byte that cannot lead. */
  function LeadLength(b: Byte): nat {
    if b < 0x80 then 1
    else if 0xC2 <= b < 0xE0 then 2
    else if 0xE0 <= b < 0xF0 then 3
    else if 0xF0 <= b < 0xF5 then 4
    else 0
  }

  /** The second byte of a sequence is restricted after some lead bytes: no overlong forms, no
      surrogates, nothing above U+10FFFF. */
  predicate ValidSecond(lead: Byte, second: Byte) {
    && IsContinuation(second)
    && (lead == 0xE0 ==> second >= 0xA0) && (lead == 0xED ==> second < 0xA0)
    && (lead == 0xF0 ==> second >= 0x90) && (lead == 0xF4 ==> second < 0x90)
  }

  datatype Decoded = Char(c: char, length: nat) | Bad(skip: nat)

  /** Decodes the first character, or says how many bytes form the ill-formed start. */
  function DecodeFirst(b: seq<Byte>): (d: Decoded)
    requires b != []
    ensures d.Char? ==> 1 <= d.length <= |b|
    ensures d.Bad? ==> 1 <= d.skip <= |b|
  {
    var n := LeadLength(b[0]);
    if n == 0 then Bad(1)
    else if n == 1 then Char(b[0] as char, 1)
    else if |b| < 2 || !ValidSecond(b[0], b[1]) then Bad(1)
    else if n == 2 then Char(((b[0] as int - 0xC0) * 64 + Payload(b[1])) as char, 2)
    else if |b| < 3 || !IsContinuation(b[2]) then Bad(2)
    else if n == 3 then
      var u := (b[0] as int - 0xE0) * 4096 + Payload(b[1]) * 64 + Payload(b[2]);
      Char(u as char, 3)
    else if |b| < 4 || !IsContinuation(b[3]) then Bad(3)
    else
      var u := (b[0] as int - 0xF0) * 262144 + Payload(b[1]) * 4096 + Payload(b[2]) * 64 + Payload(b[3]);
      Char(u as char, 4)
  }

  /** A byte that cannot lead a character is dropped on its own. */
  lemma StrayByteIsBad(lead: Byte, rest: seq<Byte>)
    requires 0x80 <= lead < 0xC2 || lead >= 0xF5
    ensures DecodeFirst([lead] + rest) == Bad(1)
  {
  }

  /** Decoding with errors ignored: each ill-formed start is dropped. */
  function DecodeIgnoringErrors(b: seq<Byte>): string {
    if b == [] then ""
    else
      match DecodeFirst(b)
      case Char(c, n) => [c] + DecodeIgnoringErrors(b[n..])
      case Bad(n) => DecodeIgnoringErrors(b[n..])
  }

  /** A character's encoding decodes to it, whatever follows. */
  lemma DecodeEncodedChar(c: char, rest: seq<Byte>)
    ensures EncodeChar(c) + rest != []
    ensures DecodeFirst(EncodeChar(c) + rest) == Char(c, CharSize(c))
  {
    CharRange(c);
    var u, b := c as int, EncodeChar(c) + rest;
    SixBitGroups(u);
    if u >= 0x80 {
      assert b[0] == EncodeChar(c)[0] && b[1] == EncodeChar(c)[1];
      if u >= 0x800 { assert b[2] == EncodeChar(c)[2]; }
      if u >= 0x1_0000 { assert b[3] == EncodeChar(c)[3]; }
      LeadAndSecond(u);
    }
  }

  lemma SixBitGroups(u: nat)
    ensures u == u / 64 * 64 + u % 64
    ensures u == u / 4096 * 4096 + u / 64 % 64 * 64 + u % 64
    ensures u == u / 262144 * 262144 + u / 4096 % 64 * 4096 + u / 64 % 64 * 64 + u % 64
  {
    var q := u / 64;
    var r := q / 64;
    Quotients(u, q, r);
  }

  lemma Quotients(u: nat, q: nat, r: nat)
    requires q == u / 64 && r == q / 64
    ensures u / 4096 == r && u / 262144 == r / 64
  {
    assert u == 64 * q + u % 64 && q == 64 * r + q % 64 && r == 64 * (r / 64) + r % 64;
    assert 4096 * r <= u < 4096 * r + 4096;
    assert 262144 * (r / 64) <= u < 262144 * (r / 64) + 262144;
  }

  /** The lead byte announces the right length and admits the second byte. */
  lemma LeadAndSecond(u: nat)
    requires 0x80 <= u < 0xD800 || 0xE000 <= u < 0x11_0000
    ensures u < 0x800 ==> LeadLength(0xC0 + u / 64) == 2
    ensures 0x800 <= u < 0x1_0000 ==>
      LeadLength(0xE0 + u / 4096) == 3 && ValidSecond(0xE0 + u / 4096, Continuation(u / 64))
    ensures 0x1_0000 <= u ==>
      LeadLength(0xF0 + u / 262144) == 4 && ValidSecond(0xF0 + u / 262144, Continuation(u / 4096))
  {
  }

  /** A cut-off encoding of one character is dropped whole. */
  lemma CutCharIsDropped(c: char, n: nat)
    requires n < CharSize(c)
    ensures DecodeIgnoringErrors(EncodeChar(c)[..n]) == ""
  {
    CharRange(c);
    var b := EncodeChar(c)[..n];
    if n > 0 {
      LeadAndSecond(c as int);
      hide Continuation;
      assert DecodeFirst(b) == Bad(n);
      hide DecodeFirst;
      assert b[n..] == [];
    }
  }

  lemma {:induction false} DecodeEncoded(s: string)
    ensures DecodeIgnoringErrors(Encode(s)) == s
  {
    if s != "" {
      DecodeEncoded(s[1..]);
      DecodeEncodedChar(s[0], Encode(s[1..]));
      assert Encode(s)[CharSize(s[0])..] == Encode(s[1..]);
    }
  }

  /** The longest prefix of whole characters whose encoding fits `budget` bytes. */
  function LongestFittingPrefix(s: string, budget: nat): (p: string)
    ensures p <= s && Size(p) <= budget
  {
    if s == "" || CharSize(s[0]) > budget then ""
    else
      var rest := LongestFittingPrefix(s[1..], budget - CharSize(s[0]));
      assert ([s[0]] + rest)[1..] == rest;
      [s[0]] + rest
  }

  /** ... is the longest: any fitting prefix is a prefix of it. */
  lemma {:induction false} LongestIsLongest(s: string, budget: nat, k: nat)
    requires k <= |s| && Size(s[..k]) <= budget
    ensures k <= |LongestFittingPrefix(s, budget)|
  {
    if k > 0 {
      assert s[..k][1..] == s[1..][..k - 1];
      LongestIsLongest(s[1..], budget - CharSize(s[0]), k - 1);
    }
  }

  /** Cutting the UTF-8 bytes anywhere and decoding with errors ignored yields exactly that prefix. */
  lemma {:induction false} CutDecodesToLongestPrefix(s: string, budget: nat)
    ensures var bytes := Encode(s);
      DecodeIgnoringErrors(bytes[..Min(budget, |bytes|)]) == LongestFittingPrefix(s, budget)
  {
    if s != "" {
      var bytes, n := Encode(s), CharSize(s[0]);
      if n <= budget {
        CutDecodesToLongestPrefix(s[1..], budget - n);
        var rest := Encode(s[1..])[..Min(budget - n, |Encode(s[1..])|)];
        assert bytes[..Min(budget, |bytes|)] == EncodeChar(s[0]) + rest;
        DecodeEncodedChar(s[0], rest);
        assert (EncodeChar(s[0]) + rest)[n..] == rest;
      } else {
        assert bytes[..budget] == EncodeChar(s[0])[..budget];
        CutCharIsDropped(s[0], budget);
      }
    }
  }

  lemma {:induction false} SizeConcat(a: string, b: string)
    ensures Size(a + b) == Size(a) + Size(b)
  {
    if a == "" {
      assert a + b == b;
    } else {
      SizeConcat(a[1..], b);
      assert (a + b)[1..] == a[1..] + b;
    }
  }
}
