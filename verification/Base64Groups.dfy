/** The encoding group by group, over the alphabet of section 5 of RFC 4648 written out. */
module Base64Groups {
  import opened Text
  import opened Base64Url

  const UPPER := "ABCDEFGHIJKLMNOPQRSTUVWXYZ"
  const LOWER := "abcdefghijklmnopqrstuvwxyz"
  const TAIL := "0123456789-_"

  /** The digit for a value. */
  function Letter(v: int): char
    requires 0 <= v < 64
  {
    if v < 26 then UPPER[v] else if v < 52 then LOWER[v - 26] else TAIL[v - 52]
  }

  /** Six bits for each digit, most significant first. */
  function Group(a: int, b: int, c: int): string
    requires 0 <= a < 256 && 0 <= b < 256 && 0 <= c < 256
  {
    [Letter(a / 4), Letter(a % 4 * 16 + b / 16), Letter(b % 16 * 4 + c / 64), Letter(c % 64)]
  }

  lemma LetterIsDigit(v: int)
    requires 0 <= v < 64
    ensures Letter(v) == Digit(v)
  {
  }

  /** Three bytes give four digits. */
  lemma GroupExactly(data: Bytes)
    requires |data| >= 3
    ensures EncodePadded(data) == Group(data[0] as int, data[1] as int, data[2] as int) + EncodePadded(data[3..])
  {
    EncodeThree(data);
    QuadBits(data[0] as int, data[1] as int, data[2] as int);
  }

  lemma EncodeThree(data: Bytes)
    requires |data| >= 3
    ensures EncodePadded(data) == Quad(Word(data[0] as int, data[1] as int, data[2] as int)) + EncodePadded(data[3..])
  {
  }

  /** The last one or two bytes give two or three digits, their missing bits zero. */
  lemma LastGroupExactly(data: Bytes)
    requires 1 <= |data| <= 2
    ensures |data| == 1 ==> EncodePadded(data) == Group(data[0] as int, 0, 0)[..2] + "=="
    ensures |data| == 2 ==> EncodePadded(data) == Group(data[0] as int, data[1] as int, 0)[..3] + "="
  {
    if |data| == 1 {
      QuadBits(data[0] as int, 0, 0);
    } else {
      QuadBits(data[0] as int, data[1] as int, 0);
    }
  }

  lemma QuadBits(a: int, b: int, c: int)
    requires 0 <= a < 256 && 0 <= b < 256 && 0 <= c < 256
    ensures Quad(Word(a, b, c)) == Group(a, b, c)
  {
    WordBits(a, b, c);
    LetterIsDigit(a / 4);
    LetterIsDigit(a % 4 * 16 + b / 16);
    LetterIsDigit(b % 16 * 4 + c / 64);
    LetterIsDigit(c % 64);
  }

  lemma Sextet(y: int, u: int)
    requires 0 <= u < 64
    ensures (y * 64 + u) / 64 == y && (y * 64 + u) % 64 == u
  {
  }

  lemma DivideTwice(x: int)
    ensures x / 4096 == x / 64 / 64 && x / 262144 == x / 64 / 64 / 64
  {
  }

  lemma WordIsSextets(a: int, b: int, c: int)
    ensures Word(a, b, c) == ((a / 4 * 64 + (a % 4 * 16 + b / 16)) * 64 + (b % 16 * 4 + c / 64)) * 64 + c % 64
  {
    assert a == a / 4 * 4 + a % 4 && b == b / 16 * 16 + b % 16 && c == c / 64 * 64 + c % 64;
  }

  lemma WordBits(a: int, b: int, c: int)
    requires 0 <= a < 256 && 0 <= b < 256 && 0 <= c < 256
    ensures var x := Word(a, b, c);
      && x / 262144 == a / 4 && x / 4096 % 64 == a % 4 * 16 + b / 16
      && x / 64 % 64 == b % 16 * 4 + c / 64 && x % 64 == c % 64
  {
    var p, q, r, u := a / 4, a % 4 * 16 + b / 16, b % 16 * 4 + c / 64, c % 64;
    WordIsSextets(a, b, c);
    DivideTwice(Word(a, b, c));
    Sextet((p * 64 + q) * 64 + r, u);
    Sextet(p * 64 + q, r);
    Sextet(p, q);
  }
}
