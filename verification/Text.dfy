/** Strings as the modelled languages handle them: splitting, joining, trimming. */
module Text {

  predicate StartsWith(s: string, prefix: string) {
    prefix <= s
  }

  /** Position of the first `c`, or the length if there is none. */
  function IndexOf(s: string, c: char): (i: nat)
    ensures i <= |s|
    ensures i < |s| ==> s[i] == c
    ensures c !in s[..i]
    ensures i == |s| <==> c !in s
  {
    if s == "" then 0 else if s[0] == c then 0 else 1 + IndexOf(s[1..], c)
  }

  function Split(s: string, c: char): (parts: seq<string>)
    ensures |parts| > 0
    ensures forall k | 0 <= k < |parts| :: c !in parts[k]
    decreases |s|
  {
    var i := IndexOf(s, c);
    if i == |s| then [s] else [s[..i]] + Split(s[i + 1..], c)
  }

  function Join(parts: seq<string>, sep: string): string {
    if parts == [] then ""
    else if |parts| == 1 then parts[0]
    else parts[0] + sep + Join(parts[1..], sep)
  }

  lemma CutAt(s: string, i: nat)
    requires i < |s|
    ensures s == s[..i] + [s[i]] + s[i + 1..]
  {
  }

  lemma JoinCons(part: string, parts: seq<string>, sep: string)
    ensures Join([part] + parts, sep) == if parts == [] then part else part + sep + Join(parts, sep)
  {
    assert ([part] + parts)[1..] == parts;
  }

  lemma {:induction false} JoinSplit(s: string, c: char)
    ensures Join(Split(s, c), [c]) == s
    decreases |s|
  {
    var i := IndexOf(s, c);
    if i < |s| {
      JoinSplit(s[i + 1..], c);
      JoinCons(s[..i], Split(s[i + 1..], c), [c]);
      CutAt(s, i);
    }
  }

  lemma {:induction false} IndexOfAfter(p: string, c: char, rest: string)
    requires c !in p
    ensures IndexOf(p + [c] + rest, c) == |p|
  {
    if p == "" {
      assert ("" + [c] + rest)[0] == c;
    } else {
      IndexOfAfter(p[1..], c, rest);
      assert (p + [c] + rest)[1..] == p[1..] + [c] + rest;
    }
  }

  lemma {:induction false} SplitJoin(parts: seq<string>, c: char)
    requires parts != []
    requires forall k | 0 <= k < |parts| :: c !in parts[k]
    ensures Split(Join(parts, [c]), c) == parts
  {
    if |parts| == 1 {
      assert IndexOf(parts[0], c) == |parts[0]|;
    } else {
      var p, rest := parts[0], Join(parts[1..], [c]);
      SplitJoin(parts[1..], c);
      IndexOfAfter(p, c, rest);
      assert (p + [c] + rest)[..|p|] == p;
      assert (p + [c] + rest)[|p| + 1..] == rest;
    }
  }

  /** JavaScript's white space, which `trim` and `\s` share. */
  predicate JsSpace(c: char) {
    || '\t' <= c <= '\r' || c == ' ' || c == '\U{00A0}' || c == '\U{1680}'
    || '\U{2000}' <= c <= '\U{200A}' || c == '\U{2028}' || c == '\U{2029}'
    || c == '\U{202F}' || c == '\U{205F}' || c == '\U{3000}' || c == '\U{FEFF}'
  }

  /** White space of Go's `TrimSpace` and, with the separators 1C to 1F, Python's `strip`. */
  predicate UnicodeSpace(c: char) {
    || '\t' <= c <= '\r' || c == ' ' || c == '\U{0085}' || c == '\U{00A0}' || c == '\U{1680}'
    || '\U{2000}' <= c <= '\U{200A}' || c == '\U{2028}' || c == '\U{2029}'
    || c == '\U{202F}' || c == '\U{205F}' || c == '\U{3000}'
  }

  predicate PythonSpace(c: char) {
    UnicodeSpace(c) || '\U{001C}' <= c <= '\U{001F}'
  }

  /** Whose notion of white space. */
  datatype Whitespace = JavaScript | Go | Python

  predicate IsSpace(kind: Whitespace, c: char) {
    match kind
    case JavaScript => JsSpace(c)
    case Go => UnicodeSpace(c)
    case Python => PythonSpace(c)
  }

  function TrimStart(s: string, kind: Whitespace): (t: string)
    ensures |t| <= |s|
    ensures t != "" ==> !IsSpace(kind, t[0])
    ensures |t| == |s| <==> s == "" || !IsSpace(kind, s[0])
  {
    if s == "" || !IsSpace(kind, s[0]) then s else TrimStart(s[1..], kind)
  }

  function TrimEnd(s: string, kind: Whitespace): (t: string)
    ensures |t| <= |s|
    ensures t != "" ==> !IsSpace(kind, t[|t| - 1])
    ensures |t| == |s| <==> s == "" || !IsSpace(kind, s[|s| - 1])
    ensures s != "" && !IsSpace(kind, s[0]) ==> t != ""
  {
    if s == "" || !IsSpace(kind, s[|s| - 1]) then s else TrimEnd(s[..|s| - 1], kind)
  }

  lemma {:induction false} TrimStartPart(s: string, kind: Whitespace)
    ensures var t := TrimStart(s, kind); t == s[|s| - |t|..]
  {
    if s != "" && IsSpace(kind, s[0]) {
      TrimStartPart(s[1..], kind);
    }
  }

  lemma {:induction false} TrimEndPart(s: string, kind: Whitespace)
    ensures var t := TrimEnd(s, kind); t == s[..|t|]
  {
    if s != "" && IsSpace(kind, s[|s| - 1]) {
      TrimEndPart(s[..|s| - 1], kind);
    }
  }

  function Trim(s: string, kind: Whitespace): string {
    TrimEnd(TrimStart(s, kind), kind)
  }

  /** Trimmed strings are the fixed points of trimming. */
  predicate Trimmed(s: string, kind: Whitespace) {
    s == "" || (!IsSpace(kind, s[0]) && !IsSpace(kind, s[|s| - 1]))
  }

  lemma TrimFixes(s: string, kind: Whitespace)
    ensures Trimmed(Trim(s, kind), kind)
    ensures Trim(s, kind) == s <==> Trimmed(s, kind)
  {
    var t := TrimStart(s, kind);
    var u := TrimEnd(t, kind);
    TrimEndPart(t, kind);
    if u != "" {
      assert u[0] == t[0];
    }
    if u == s {
      assert |t| == |s|;
    }
  }

  // ---------------------------------------------------------------- Go's strings package

  /** ASCII letters only. */
  function LowerChar(c: char): char {
    if 'A' <= c <= 'Z' then c - 'A' + 'a' else c
  }

  function Lower(s: string): (t: string)
    ensures |t| == |s|
    ensures forall i | 0 <= i < |s| :: t[i] == LowerChar(s[i])
  {
    seq(|s|, i requires 0 <= i < |s| => LowerChar(s[i]))
  }

  lemma LowerFixes(s: string)
    requires forall i | 0 <= i < |s| :: LowerChar(s[i]) == s[i]
    ensures Lower(s) == s
  {
  }

  function TrimSpace(s: string): string {
    Trim(s, Go)
  }

  lemma TrimPart(s: string, kind: Whitespace)
    ensures exists i, j | 0 <= i <= j <= |s| :: Trim(s, kind) == s[i..j]
  {
    var t := TrimStart(s, kind);
    var u := TrimEnd(t, kind);
    var i := |s| - |t|;
    TrimStartPart(s, kind);
    TrimEndPart(t, kind);
    assert u == t[..|u|] == s[i..i + |u|];
  }

  predicate Contains(s: string, part: string) {
    part <= s || (s != "" && Contains(s[1..], part))
  }

  predicate ContainsAny(s: string, parts: seq<string>) {
    parts != [] && ((parts[0] != "" && Contains(s, parts[0])) || ContainsAny(s, parts[1..]))
  }

  predicate OccursAt(s: string, part: string, i: nat) {
    i + |part| <= |s| && s[i..i + |part|] == part
  }

  lemma {:induction false} ContainsExactly(s: string, part: string)
    ensures Contains(s, part) <==> exists i: nat :: OccursAt(s, part, i)
    decreases |s|
  {
    if part <= s {
      assert OccursAt(s, part, 0);
    } else if s != "" {
      ContainsExactly(s[1..], part);
      if i: nat :| OccursAt(s[1..], part, i) {
        assert s[1..][i..i + |part|] == s[i + 1..i + 1 + |part|];
        assert OccursAt(s, part, i + 1);
      }
      if i: nat :| OccursAt(s, part, i) {
        OccursLater(s, part, i);
      }
    }
  }

  lemma OccursLater(s: string, part: string, i: nat)
    requires OccursAt(s, part, i) && !(part <= s)
    ensures i > 0 && OccursAt(s[1..], part, i - 1)
  {
    assert s[0..|part|] == s[..|part|];
    if i > 0 {
      assert s[1..][i - 1..i - 1 + |part|] == s[i..i + |part|];
    }
  }

  lemma {:induction false} ContainsAnyExactly(s: string, parts: seq<string>)
    ensures ContainsAny(s, parts) <==> exists k | 0 <= k < |parts| :: parts[k] != "" && Contains(s, parts[k])
  {
    if parts != [] {
      ContainsAnyExactly(s, parts[1..]);
      assert forall k | 1 <= k < |parts| :: parts[k] == parts[1..][k - 1];
    }
  }

  /** Length of the leading run without white space. */
  function WordLength(s: string): (n: nat)
    ensures n <= |s|
    ensures forall i | 0 <= i < n :: !UnicodeSpace(s[i])
    ensures n < |s| ==> UnicodeSpace(s[n])
  {
    if s == "" || UnicodeSpace(s[0]) then 0 else 1 + WordLength(s[1..])
  }

  /** The maximal runs without white space. */
  function Fields(s: string): (words: seq<string>)
    decreases |s|
  {
    if s == "" then []
    else if UnicodeSpace(s[0]) then Fields(s[1..])
    else [s[..WordLength(s)]] + Fields(s[WordLength(s)..])
  }
}
