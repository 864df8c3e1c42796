/** Unpadded base64url (section 5 of RFC 4648), written through Go's padded codec as utility/auth/jwt.go does. */
module Base64Url {
  import opened Text

  newtype byte = x: int | 0 <= x < 256

  type Bytes = seq<byte>

  datatype Option<T> = None | Some(value: T)

  // ---------------------------------------------------------------- the alphabet

  function Digit(d: int): (c: char)
    requires 0 <= d < 64
  {
    if d < 26 then (d + 'A' as int) as char
    else if d < 52 then (d - 26 + 'a' as int) as char
    else if d < 62 then (d - 52 + '0' as int) as char
    else if d == 62 then '-'
    else '_'
  }

  /** Value of a digit, or -1. */
  function Value(c: char): (v: int)
    ensures -1 <= v < 64
  {
    if 'A' <= c <= 'Z' then c as int - 'A' as int
    else if 'a' <= c <= 'z' then c as int - 'a' as int + 26
    else if '0' <= c <= '9' then c as int - '0' as int + 52
    else if c == '-' then 62
    else if c == '_' then 63
    else -1
  }

  lemma ValueOfDigit(d: int)
    requires 0 <= d < 64
    ensures Value(Digit(d)) == d
  {
  }

  predicate InAlphabet(s: string) {
    forall i | 0 <= i < |s| :: Value(s[i]) >= 0
  }

  // ---------------------------------------------------------------- the padded codec

  function Word(a: int, b: int, c: int): int {
    a * 65536 + b * 256 + c
  }

  function Quad(x: int): string
    requires 0 <= x < 16777216
  {
    [Digit(x / 262144), Digit(x / 4096 % 64), Digit(x / 64 % 64), Digit(x % 64)]
  }

  /** Three bytes to four digits; a shorter tail is padded. */
  function EncodePadded(data: Bytes): string
    decreases |data|
  {
    if data == [] then ""
    else if |data| == 1 then Quad(Word(data[0] as int, 0, 0))[..2] + "=="
    else if |data| == 2 then Quad(Word(data[0] as int, data[1] as int, 0))[..3] + "="
    else Quad(Word(data[0] as int, data[1] as int, data[2] as int)) + EncodePadded(data[3..])
  }

  function Bytes3(x: int): Bytes
    requires 0 <= x < 16777216
  {
    [(x / 65536) as byte, (x / 256 % 256) as byte, (x % 256) as byte]
  }

  function Combine(a: int, b: int, c: int, d: int): int {
    a * 262144 + b * 4096 + c * 64 + d
  }

  /** The decoder skips line ends wherever they are. */
  function WithoutLineEnds(s: string): string {
    if s == "" then ""
    else (if s[0] == '\r' || s[0] == '\n' then "" else [s[0]]) + WithoutLineEnds(s[1..])
  }

  function DecodeQuads(s: string): Option<Bytes>
    decreases |s|
  {
    if s == "" then Some([])
    else if |s| < 4 then None
    else
      var a, b, c, d := Value(s[0]), Value(s[1]), Value(s[2]), Value(s[3]);
      if a < 0 || b < 0 then None
      else if s[2] == '=' then
        if s[3] == '=' && |s| == 4 then Some(Bytes3(Combine(a, b, 0, 0))[..1]) else None
      else if c < 0 then None
      else if s[3] == '=' then
        if |s| == 4 then Some(Bytes3(Combine(a, b, c, 0))[..2]) else None
      else if d < 0 then None
      else
        match DecodeQuads(s[4..])
        case None => None
        case Some(rest) => Some(Bytes3(Combine(a, b, c, d)) + rest)
  }

  function DecodePadded(s: string): Option<Bytes> {
    DecodeQuads(WithoutLineEnds(s))
  }

  // ---------------------------------------------------------------- without padding

  function TrimRightPadding(s: string): string {
    if s != "" && s[|s| - 1] == '=' then TrimRightPadding(s[..|s| - 1]) else s
  }

  function Encode(data: Bytes): string {
    TrimRightPadding(EncodePadded(data))
  }

  function Repad(s: string): string {
    if |s| % 4 == 2 then s + "==" else if |s| % 4 == 3 then s + "=" else s
  }

  function Decode(s: string): Option<Bytes> {
    DecodePadded(Repad(s))
  }

  // ---------------------------------------------------------------- round trip

  lemma QuadValues(x: int)
    requires 0 <= x < 16777216
    ensures Value(Quad(x)[0]) == x / 262144 && Value(Quad(x)[1]) == x / 4096 % 64
    ensures Value(Quad(x)[2]) == x / 64 % 64 && Value(Quad(x)[3]) == x % 64
  {
    ValueOfDigit(x / 262144);
    ValueOfDigit(x / 4096 % 64);
    ValueOfDigit(x / 64 % 64);
    ValueOfDigit(x % 64);
  }

  lemma CombineQuad(x: int)
    requires 0 <= x < 16777216
    ensures Combine(x / 262144, x / 4096 % 64, x / 64 % 64, x % 64) == x
  {
    var p := x / 64;
    var q := p / 64;
    assert x / 4096 == q && x / 262144 == q / 64;
  }

  lemma BytesOfWord(a: byte, b: byte, c: byte)
    ensures Bytes3(Word(a as int, b as int, c as int)) == [a, b, c]
  {
    var x := Word(a as int, b as int, c as int);
    assert x / 65536 == a as int && x / 256 == a as int * 256 + b as int;
  }

  /** Four digits that stand for `x`. */
  ghost predicate StandsFor(q: string, x: int) {
    && |q| == 4 && InAlphabet(q) && 0 <= x < 16777216
    && Combine(Value(q[0]), Value(q[1]), Value(q[2]), Value(q[3])) == x
  }

  lemma QuadStandsFor(x: int)
    requires 0 <= x < 16777216
    ensures StandsFor(Quad(x), x)
  {
    QuadValues(x);
    CombineQuad(x);
  }

  lemma DecodeWhole(q: string, x: int, rest: string, data: Bytes)
    requires StandsFor(q, x) && DecodeQuads(rest) == Some(data)
    ensures DecodeQuads(q + rest) == Some(Bytes3(x) + data)
  {
    var s := q + rest;
    assert s[0] == q[0] && s[1] == q[1] && s[2] == q[2] && s[3] == q[3] && s[4..] == rest;
  }

  lemma DecodeTwo(q: string, x: int)
    requires StandsFor(q, x) && Value(q[3]) == 0
    ensures DecodeQuads(q[..3] + "=") == Some(Bytes3(x)[..2])
  {
    var s := q[..3] + "=";
    assert s[0] == q[0] && s[1] == q[1] && s[2] == q[2] && s[3] == '=';
  }

  lemma DecodeOne(q: string, x: int)
    requires StandsFor(q, x) && Value(q[2]) == 0 && Value(q[3]) == 0
    ensures DecodeQuads(q[..2] + "==") == Some(Bytes3(x)[..1])
  {
    var s := q[..2] + "==";
    assert s[0] == q[0] && s[1] == q[1] && s[2] == '=' && s[3] == '=';
  }

  lemma TimesSixtyFour(k: int)
    ensures 64 * k % 64 == 0 && 64 * k / 64 == k
  {
  }

  lemma TwoByteWord(a: int, b: int)
    ensures Word(a, b, 0) % 64 == 0
  {
    TimesSixtyFour(a * 1024 + b * 4);
  }

  lemma OneByteWord(a: int)
    ensures Word(a, 0, 0) % 64 == 0 && Word(a, 0, 0) / 64 % 64 == 0
  {
    TimesSixtyFour(a * 1024);
    TimesSixtyFour(a * 16);
  }

  lemma OneRoundTrip(a: byte, x: int)
    requires x == Word(a as int, 0, 0)
    ensures DecodeQuads(Quad(x)[..2] + "==") == Some([a])
  {
    QuadStandsFor(x);
    QuadValues(x);
    OneByteWord(a as int);
    BytesOfWord(a, 0, 0);
    DecodeOne(Quad(x), x);
    assert [a, 0, 0][..1] == [a];
  }

  lemma TwoRoundTrip(a: byte, b: byte, x: int)
    requires x == Word(a as int, b as int, 0)
    ensures DecodeQuads(Quad(x)[..3] + "=") == Some([a, b])
  {
    QuadStandsFor(x);
    QuadValues(x);
    TwoByteWord(a as int, b as int);
    BytesOfWord(a, b, 0);
    DecodeTwo(Quad(x), x);
    assert [a, b, 0][..2] == [a, b];
  }

  lemma SplitThree(data: Bytes)
    requires |data| >= 3
    ensures data == [data[0], data[1], data[2]] + data[3..]
  {
  }

  /** Decoding what the padded codec wrote. */
  lemma {:induction false} PaddedRoundTrip(data: Bytes)
    ensures DecodeQuads(EncodePadded(data)) == Some(data)
    decreases |data|
  {
    if |data| == 1 {
      OneRoundTrip(data[0], Word(data[0] as int, 0, 0));
      assert data == [data[0]];
    } else if |data| == 2 {
      TwoRoundTrip(data[0], data[1], Word(data[0] as int, data[1] as int, 0));
      assert data == [data[0], data[1]];
    } else if |data| > 2 {
      var x := Word(data[0] as int, data[1] as int, data[2] as int);
      PaddedRoundTrip(data[3..]);
      QuadStandsFor(x);
      BytesOfWord(data[0], data[1], data[2]);
      DecodeWhole(Quad(x), x, EncodePadded(data[3..]), data[3..]);
      SplitThree(data);
    }
  }

  // ---------------------------------------------------------------- trimming and padding

  /** Digits, then at most two padding characters that fill up the last group. */
  ghost predicate Shaped(s: string, body: string, data: Bytes) {
    && InAlphabet(body)
    && s == Repad(body)
    && |body| == (|data| * 4 + 2) / 3
  }

  lemma QuadAlphabet(x: int, n: nat)
    requires 0 <= x < 16777216 && n <= 4
    ensures InAlphabet(Quad(x)[..n])
  {
    QuadValues(x);
    assert forall i | 0 <= i < n :: Quad(x)[..n][i] == Quad(x)[i];
  }

  lemma RepadPrefix(q: string, body: string)
    requires |q| == 4
    ensures Repad(q + body) == q + Repad(body)
  {
    assert |q + body| % 4 == |body| % 4;
    if |body| % 4 == 2 {
      assert q + body + "==" == q + (body + "==");
    } else if |body| % 4 == 3 {
      assert q + body + "=" == q + (body + "=");
    }
  }

  lemma AlphabetConcat(a: string, b: string)
    requires InAlphabet(a) && InAlphabet(b)
    ensures InAlphabet(a + b)
  {
  }

  /** The padded form is some digits filled up to a multiple of four. */
  lemma {:induction false} PaddedShape(data: Bytes) returns (body: string)
    ensures Shaped(EncodePadded(data), body, data)
    decreases |data|
  {
    if data == [] {
      body := "";
    } else if |data| == 1 {
      var x := Word(data[0] as int, 0, 0);
      QuadAlphabet(x, 2);
      body := Quad(x)[..2];
    } else if |data| == 2 {
      var x := Word(data[0] as int, data[1] as int, 0);
      QuadAlphabet(x, 3);
      body := Quad(x)[..3];
    } else {
      var x := Word(data[0] as int, data[1] as int, data[2] as int);
      var rest := PaddedShape(data[3..]);
      QuadAlphabet(x, 4);
      assert Quad(x)[..4] == Quad(x);
      AlphabetConcat(Quad(x), rest);
      RepadPrefix(Quad(x), rest);
      body := Quad(x) + rest;
    }
  }

  lemma TrimOnce(s: string)
    ensures TrimRightPadding(s + "=") == TrimRightPadding(s)
  {
    assert (s + "=")[..|s|] == s;
  }

  lemma TrimsRepad(body: string)
    requires InAlphabet(body)
    ensures TrimRightPadding(Repad(body)) == body
  {
    assert body != "" ==> Value(body[|body| - 1]) >= 0;
    if |body| % 4 == 2 {
      assert body + "==" == (body + "=") + "=";
      TrimOnce(body + "=");
      TrimOnce(body);
    } else if |body| % 4 == 3 {
      TrimOnce(body);
    }
  }

  lemma {:induction false} NoLineEnds(s: string)
    requires forall i | 0 <= i < |s| :: s[i] != '\r' && s[i] != '\n'
    ensures WithoutLineEnds(s) == s
  {
    if s != "" {
      NoLineEnds(s[1..]);
      assert s == [s[0]] + s[1..];
    }
  }

  lemma RepadHasNoLineEnds(body: string)
    requires InAlphabet(body)
    ensures WithoutLineEnds(Repad(body)) == Repad(body)
  {
    var s := Repad(body);
    forall i | 0 <= i < |s| ensures s[i] != '\r' && s[i] != '\n' {
      if i < |body| {
        assert Value(body[i]) >= 0;
      }
    }
    NoLineEnds(s);
  }

  /** Bytes of any length survive encoding and decoding. */
  lemma RoundTrip(data: Bytes)
    ensures Decode(Encode(data)) == Some(data)
  {
    var body := PaddedShape(data);
    TrimsRepad(body);
    RepadHasNoLineEnds(body);
    PaddedRoundTrip(data);
  }

  /** The encoding has no separator, no padding, and the length of the bytes in groups of six bits. */
  lemma EncodingShape(data: Bytes)
    ensures InAlphabet(Encode(data)) && '.' !in Encode(data)
    ensures |Encode(data)| == (|data| * 4 + 2) / 3
  {
    var body := PaddedShape(data);
    TrimsRepad(body);
    assert forall i | 0 <= i < |body| :: Value(body[i]) >= 0 && body[i] != '.';
  }

  lemma EncodeInjective(a: Bytes, b: Bytes)
    requires Encode(a) == Encode(b)
    ensures a == b
  {
    RoundTrip(a);
    RoundTrip(b);
  }
}
