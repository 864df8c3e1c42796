/**
 * The code fingerprint (cmd/gos_eval/main.go, `contentFilesSHA256`): the bytes that are
 * hashed. Bytes are written as characters; path names are those of a Unix system.
 */
module Fingerprint {
  import opened Text
  import opened Sorting

  /** A file as the stream records it. */
  datatype Record = Record(name: string, content: string)

  // ---------------------------------------------------------------- decimal lengths

  predicate IsDigit(c: char) {
    '0' <= c <= '9'
  }

  function Decimal(n: nat): (s: string)
    ensures s != "" && forall i | 0 <= i < |s| :: IsDigit(s[i])
  {
    if n < 10 then [(n + '0' as int) as char] else Decimal(n / 10) + [(n % 10 + '0' as int) as char]
  }

  function Number(s: string): nat {
    if s == "" then 0
    else
      var c := s[|s| - 1];
      Number(s[..|s| - 1]) * 10 + if IsDigit(c) then c as int - '0' as int else 0
  }

  lemma {:induction false} NumberOfDecimal(n: nat)
    ensures Number(Decimal(n)) == n
  {
    if n >= 10 {
      NumberOfDecimal(n / 10);
      assert Decimal(n)[..|Decimal(n)| - 1] == Decimal(n / 10);
    } else {
      assert Decimal(n)[..0] == "";
    }
  }

  lemma DecimalHasNoColon(n: nat)
    ensures ':' !in Decimal(n)
  {
    assert forall i | 0 <= i < |Decimal(n)| :: IsDigit(Decimal(n)[i]) && Decimal(n)[i] != ':';
  }

  // ---------------------------------------------------------------- the stream

  /** A string with its length before it. */
  function Prefixed(s: string): string {
    Decimal(|s|) + ":" + s
  }

  function RecordBytes(r: Record): string {
    Prefixed(r.name) + Prefixed(r.content) + "\n"
  }

  function Stream(records: seq<Record>): string {
    if records == [] then "" else Stream(records[..|records| - 1]) + RecordBytes(records[|records| - 1])
  }

  // ---------------------------------------------------------------- reading it back

  datatype Read = Failed | Read(value: string, rest: string)

  /** Reads a string by the length before it. */
  function ReadPrefixed(s: string): Read {
    var i := IndexOf(s, ':');
    if i == |s| then Failed
    else
      var n, rest := Number(s[..i]), s[i + 1..];
      if n > |rest| then Failed else Read(rest[..n], rest[n..])
  }

  datatype ReadRecord = NoRecord | ReadRecord(record: Record, rest: string)

  function ReadRecordFrom(s: string): ReadRecord {
    match ReadPrefixed(s)
    case Failed => NoRecord
    case Read(name, afterName) =>
      match ReadPrefixed(afterName)
      case Failed => NoRecord
      case Read(content, rest) =>
        if rest == "" || rest[0] != '\n' then NoRecord else ReadRecord(Record(name, content), rest[1..])
  }

  /** As many whole records as there are. */
  function ReadStream(s: string): seq<Record>
    decreases |s|
  {
    match ReadRecordFrom(s)
    case NoRecord => []
    case ReadRecord(r, rest) => if |rest| < |s| then [r] + ReadStream(rest) else [r]
  }

  lemma TakeApart(a: string, b: string)
    ensures (a + b)[..|a|] == a && (a + b)[|a|..] == b
  {
  }

  lemma ReadsPrefixed(s: string, rest: string)
    ensures ReadPrefixed(Prefixed(s) + rest) == Read(s, rest)
  {
    var d := Decimal(|s|);
    var whole := Prefixed(s) + rest;
    DecimalHasNoColon(|s|);
    NumberOfDecimal(|s|);
    assert whole == d + [':'] + (s + rest);
    IndexOfAfter(d, ':', s + rest);
    TakeApart(d, [':'] + (s + rest));
    assert whole == d + ([':'] + (s + rest));
    TakeApart(d + [':'], s + rest);
    TakeApart(s, rest);
  }

  lemma ReadsRecord(r: Record, rest: string)
    ensures ReadRecordFrom(RecordBytes(r) + rest) == ReadRecord(r, rest)
  {
    var afterName := Prefixed(r.content) + "\n" + rest;
    assert RecordBytes(r) + rest == Prefixed(r.name) + afterName;
    ReadsPrefixed(r.name, afterName);
    assert afterName == Prefixed(r.content) + ("\n" + rest);
    ReadsPrefixed(r.content, "\n" + rest);
    assert ("\n" + rest)[1..] == rest;
  }

  lemma {:induction false} StreamCons(r: Record, records: seq<Record>)
    ensures Stream([r] + records) == RecordBytes(r) + Stream(records)
  {
    if records == [] {
      assert [r] + records == [r] && [r][..0] == [];
    } else {
      var n := |records| - 1;
      StreamCons(r, records[..n]);
      assert ([r] + records)[..n + 1] == [r] + records[..n];
      assert RecordBytes(r) + Stream(records[..n]) + RecordBytes(records[n]) ==
             RecordBytes(r) + (Stream(records[..n]) + RecordBytes(records[n]));
    }
  }

  /** The stream can be read back, whatever bytes names and contents consist of. */
  lemma {:induction false} StreamReadsBack(records: seq<Record>)
    ensures ReadStream(Stream(records)) == records
  {
    if records != [] {
      var r, rest := records[0], records[1..];
      assert records == [r] + rest;
      StreamCons(r, rest);
      ReadsRecord(r, Stream(rest));
      StreamReadsBack(rest);
    }
  }

  /** Two lists of files give the same stream exactly when they are the same list. */
  lemma StreamInjective(a: seq<Record>, b: seq<Record>)
    ensures Stream(a) == Stream(b) <==> a == b
  {
    StreamReadsBack(a);
    StreamReadsBack(b);
  }

  // ---------------------------------------------------------------- the files

  datatype File =
    | Missing
    | Symlink(target: string)
    | BrokenLink
    | Regular(content: string)
    | Unreadable
    | Special

  /** Path cleaning and the file tree. */
  datatype Tree = Tree(clean: string -> string, file: string -> File)

  datatype FingerprintError = EscapesRoot(path: string) | CannotStat | CannotReadLink | NotRegular | CannotRead

  datatype Result<T> = Ok(value: T) | Err(error: FingerprintError)

  predicate Escapes(name: string) {
    StartsWith(name, "/") || name == ".." || StartsWith(name, "../")
  }

  /** The bytes that stand for a file's content. */
  function Hashed(f: File): Result<string> {
    match f
    case Missing => Err(CannotStat)
    case Symlink(target) => Ok("symlink:" + target)
    case BrokenLink => Err(CannotReadLink)
    case Regular(content) => Ok(content)
    case Unreadable => Err(CannotRead)
    case Special => Err(NotRegular)
  }

  function RecordOf(t: Tree, path: string): Result<Record> {
    var name := t.clean(path);
    if Escapes(name) then Err(EscapesRoot(path))
    else
      match Hashed(t.file(name))
      case Err(e) => Err(e)
      case Ok(content) => Ok(Record(name, content))
  }

  /** The records of the paths in order, or the first error. */
  function RecordsOf(t: Tree, paths: seq<string>): Result<seq<Record>> {
    if paths == [] then Ok([])
    else
      match RecordsOf(t, paths[..|paths| - 1])
      case Err(e) => Err(e)
      case Ok(before) =>
        match RecordOf(t, paths[|paths| - 1])
        case Err(e) => Err(e)
        case Ok(r) => Ok(before + [r])
  }

  function Sorted(paths: seq<string>): seq<string> {
    SortBy(StringLeq, paths)
  }

  /** What is hashed for a set of paths. */
  function Preimage(t: Tree, paths: seq<string>): Result<string> {
    match RecordsOf(t, Sorted(paths))
    case Err(e) => Err(e)
    case Ok(records) => Ok(Stream(records))
  }

  /** The order in which paths are given does not matter, not even for which error is reported. */
  lemma PreimageIgnoresOrder(t: Tree, a: seq<string>, b: seq<string>)
    requires multiset(a) == multiset(b)
    ensures Preimage(t, a) == Preimage(t, b)
  {
    StringOrder();
    SortIgnoresOrder(StringLeq, a, b);
  }

  /** Two trees are indistinguishable exactly when their names and hashed contents agree one by one. */
  lemma SamePreimageExactly(t: Tree, a: seq<string>, u: Tree, b: seq<string>)
    requires Preimage(t, a).Ok? && Preimage(u, b).Ok?
    ensures Preimage(t, a) == Preimage(u, b) <==> RecordsOf(t, Sorted(a)) == RecordsOf(u, Sorted(b))
  {
    StreamInjective(RecordsOf(t, Sorted(a)).value, RecordsOf(u, Sorted(b)).value);
  }

  /**
   * Different files have the same hashed content exactly when one is a link and the other a
   * regular file that spells the link out.
   */
  lemma ConfusedExactly(f: File, g: File)
    requires Hashed(f).Ok? && Hashed(g).Ok?
    ensures Hashed(f) == Hashed(g) && f != g <==>
            || (f.Symlink? && g == Regular("symlink:" + f.target))
            || (g.Symlink? && f == Regular("symlink:" + g.target))
  {
    if f.Symlink? && g.Symlink? {
      TakeApart("symlink:", f.target);
      TakeApart("symlink:", g.target);
    }
  }

  /** Sorts a copy of the paths and feeds the running hash record by record. */
  method ContentFiles(t: Tree, paths: seq<string>) returns (result: Result<string>)
    ensures result == Preimage(t, paths)
  {
    var sorted := Sorted(paths);
    var written := "";
    ghost var records: seq<Record> := [];
    for i := 0 to |sorted|
      invariant RecordsOf(t, sorted[..i]) == Ok(records) && written == Stream(records)
    {
      var path := sorted[i];
      var name := t.clean(path);
      assert sorted[..i + 1][..i] == sorted[..i];
      ErrorsStay(t, sorted, i + 1);
      if Escapes(name) {
        return Err(EscapesRoot(path));
      }
      var content := Hashed(t.file(name));
      if content.Err? {
        return Err(content.error);
      }
      written := written + Prefixed(name) + Prefixed(content.value);
      written := written + "\n";
      var record := Record(name, content.value);
      assert (records + [record])[..|records|] == records;
      assert written == Stream(records) + RecordBytes(record);
      records := records + [record];
    }
    assert sorted[..|sorted|] == sorted;
    result := Ok(written);
  }

  lemma {:induction false} ErrorsStay(t: Tree, paths: seq<string>, n: nat)
    requires n <= |paths|
    ensures RecordsOf(t, paths[..n]).Err? ==> RecordsOf(t, paths) == Err(RecordsOf(t, paths[..n]).error)
    decreases |paths|
  {
    if n == |paths| {
      assert paths[..n] == paths;
    } else {
      var m := |paths| - 1;
      ErrorsStay(t, paths[..m], n);
      assert paths[..m][..n] == paths[..n];
    }
  }
}
