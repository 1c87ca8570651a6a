/** Text as the bytes Go holds it in: UTF-8 (RFC 3629, section 3), and how wide
    `utf8.DecodeRuneInString` takes the character at the front to be. */
module TextBytes {

  newtype byte = x: int | 0 <= x < 0x100

  type Bytes = seq<byte>

  function Encode(c: char): (r: Bytes)
    ensures 1 <= |r| <= 4
    ensures c as int < 0x80 ==> r == [c as int as byte]
    ensures c as int >= 0x80 ==> |r| > 1 && forall b :: b in r ==> b >= 0x80
  {
    var n := c as int;
    if n < 0x80 then [n as byte]
    else if n < 0x800 then [(0xC0 + n / 0x40) as byte, Trailing(n)]
    else if n < 0x1_0000 then [(0xE0 + n / 0x1000) as byte, Trailing(n / 0x40), Trailing(n)]
    else [(0xF0 + n / 0x4_0000) as byte, Trailing(n / 0x1000), Trailing(n / 0x40), Trailing(n)]
  }

  function Trailing(n: nat): (b: byte)
    ensures Continues(b)
  {
    (0x80 + n % 0x40) as byte
  }

  predicate Continues(b: byte) { 0x80 <= b <= 0xBF }

  function Utf8(s: string): Bytes {
    if s == "" then [] else Encode(s[0]) + Utf8(s[1..])
  }

  /** The width of the first character; a byte that starts no valid encoding is
      a character of its own. */
  function Width(s: Bytes): (n: nat)
    requires s != []
    ensures 1 <= n <= |s|
    ensures s[0] < 0x80 ==> n == 1
    ensures forall i :: 0 < i < n ==> s[i] >= 0x80
  {
    var b := s[0];
    if b < 0xC2 || b > 0xF4 then 1
    else if b < 0xE0 then
      if |s| >= 2 && Continues(s[1]) then 2 else 1
    else if b < 0xF0 then
      var least, most := if b == 0xE0 then 0xA0 else 0x80, if b == 0xED then 0x9F else 0xBF;
      if |s| >= 3 && least <= s[1] <= most && Continues(s[2]) then 3 else 1
    else
      var least, most := if b == 0xF0 then 0x90 else 0x80, if b == 0xF4 then 0x8F else 0xBF;
      if |s| >= 4 && least <= s[1] <= most && Continues(s[2]) && Continues(s[3]) then 4 else 1
  }

  /** Decoding undoes encoding: a character is as wide as its encoding. */
  lemma WidthOfEncoding(c: char, tail: Bytes)
    ensures Width(Encode(c) + tail) == |Encode(c)|
  {
    var n := c as int;
    var s := Encode(c) + tail;
    if 0x800 <= n < 0x1_0000 {
      assert s[0] == (0xE0 + n / 0x1000) as byte && s[1] == Trailing(n / 0x40) && s[2] == Trailing(n);
      if n / 0x1000 == 0 { assert n / 0x40 % 0x40 == n / 0x40; }
      if n / 0x1000 == 0xD { assert n < 0xD800; assert n / 0x40 % 0x40 == n / 0x40 - 0x340; }
    } else if n >= 0x1_0000 {
      assert s[0] == (0xF0 + n / 0x4_0000) as byte && s[1] == Trailing(n / 0x1000);
      assert s[2] == Trailing(n / 0x40) && s[3] == Trailing(n);
      if n / 0x4_0000 == 0 { assert n / 0x1000 % 0x40 == n / 0x1000; }
      if n / 0x4_0000 == 4 { assert n / 0x1000 % 0x40 == n / 0x1000 - 0x100; }
    }
  }

  predicate Ascii(s: string) { forall c :: c in s ==> c as int < 0x80 }

  lemma AsciiFront(s: string)
    requires s != ""
    ensures Ascii(s) <==> s[0] as int < 0x80 && Ascii(s[1..])
  {
    assert s == [s[0]] + s[1..];
    assert s[0] in s && forall c :: c in s[1..] ==> c in s;
  }

  /** One byte to a character, in a text of only such characters. */
  lemma {:induction false} AsciiIsItsBytes(s: string)
    requires Ascii(s)
    ensures |Utf8(s)| == |s| && forall b :: b in Utf8(s) ==> b < 0x80
  {
    if s != "" {
      AsciiFront(s);
      AsciiIsItsBytes(s[1..]);
    }
  }

  /** A text is at least as many bytes as characters, and exactly as many only
      when every character is one byte. */
  lemma {:induction false} BytesAndCharacters(s: string)
    ensures |Utf8(s)| >= |s|
    ensures |Utf8(s)| == |s| <==> Ascii(s)
  {
    if s != "" {
      AsciiFront(s);
      BytesAndCharacters(s[1..]);
    }
  }

  lemma {:induction false} WideByte(s: string)
    requires !Ascii(s)
    ensures exists b :: b in Utf8(s) && b >= 0x80
  {
    if s[0] as int >= 0x80 {
      assert Encode(s[0])[0] in Utf8(s);
    } else {
      assert s == [s[0]] + s[1..];
      WideByte(s[1..]);
      var b :| b in Utf8(s[1..]) && b >= 0x80;
      assert b in Utf8(s);
    }
  }

  /** A one-byte character is found among the bytes exactly where it is found
      in the text. */
  lemma {:induction false} AsciiByteIn(s: string, c: char)
    requires c as int < 0x80
    ensures c as int as byte in Utf8(s) <==> c in s
  {
    if s != "" {
      AsciiByteIn(s[1..], c);
      assert s == [s[0]] + s[1..];
    }
  }
}
