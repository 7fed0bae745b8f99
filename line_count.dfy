// The file-counting logic shared by the two socket servers of task 2:
// count_lines_in_file, the request parser and the COUNT_ALL / COUNT_FILE
// responses.  The test directory is a map from file name to entry; what
// TEST_DIR.glob("*.txt") yields is passed in as a listing.

module LineCount {
  import opened Common

  /** A directory entry: a file whose bytes decode as UTF-8 (its decoded
      text), or something open(..., 'r', encoding='utf-8') cannot read to
      the end (a sub-directory, bytes that are not UTF-8, no permission). */
  datatype Entry = TextFile(content: string) | Unreadable

  type Dir = map<string, Entry>

  // ---------------------------------------------------------------------
  // Reading a file in text mode

  /** Universal-newline translation applied by a text-mode read: "\r\n" and
      a lone "\r" both become "\n". */
  function Translate(s: string): (t: string)
    ensures '\r' !in t
    ensures |t| <= |s|
    decreases |s|
  {
    if s == [] then []
    else if s[0] == '\r' then
      if |s| > 1 && s[1] == '\n' then "\n" + Translate(s[2..]) else "\n" + Translate(s[1..])
    else [s[0]] + Translate(s[1..])
  }

  /** The translation is the documented one: first every "\r\n", then
      every remaining "\r", replaced by "\n". */
  lemma {:induction false} TranslateIsReplace(s: string)
    ensures Translate(s) == Replace(Replace(s, "\r\n", "\n"), "\r", "\n")
    decreases |s|
  {
    if s != [] {
      var c := s[0];
      if c == '\r' && |s| > 1 && s[1] == '\n' {
        var x := Replace(s[2..], "\r\n", "\n");
        assert s[..2] == "\r\n";
        assert Replace(s, "\r\n", "\n") == "\n" + x;
        assert ("\n" + x)[1..] == x;
        TranslateIsReplace(s[2..]);
      } else {
        var x := Replace(s[1..], "\r\n", "\n");
        assert Replace(s, "\r\n", "\n") == [c] + x;
        assert ([c] + x)[1..] == x;
        assert ([c] + x)[..1] == [c];
        TranslateIsReplace(s[1..]);
      }
    }
  }

  /** A lone "\r" ends a line as "\n" does: "a\rb" reads as two lines. */
  lemma LoneCarriageReturnEndsLine()
    ensures Lines(Translate("a\rb")) == ["a\n", "b"]
  {
    assert Translate("a\rb") == "a\nb" by {
      assert "a\rb"[1..] == "\rb" && "\rb"[1..] == "b" && "b"[1..] == [];
    }
    var t := "a\nb";
    assert t[1..] == "\nb";
    assert FirstLineLength(t) == 2;
    assert t[..2] == "a\n" && t[2..] == "b";
    assert FirstLineLength("b") == 1 && "b"[..1] == "b" && "b"[1..] == [];
    assert Lines("b") == ["b"];
  }

  /** Text without carriage returns reads back unchanged. */
  lemma {:induction false} TranslateWithoutCarriageReturn(s: string)
    requires '\r' !in s
    ensures Translate(s) == s
    decreases |s|
  {
    if s != [] {
      assert '\r' !in s[1..];
      TranslateWithoutCarriageReturn(s[1..]);
    }
  }

  /** Length of the first line of a non-empty translated text: up to and
      including its first "\n", or all of it. */
  function FirstLineLength(t: string): (n: nat)
    requires t != []
    ensures 1 <= n <= |t|
    decreases |t|
  {
    if t[0] == '\n' || |t| == 1 then 1 else 1 + FirstLineLength(t[1..])
  }

  /** The first line holds no "\n" before its end, and ends with "\n"
      unless it is all of the text. */
  lemma {:induction false} FirstLineEnds(t: string)
    requires t != []
    ensures forall q :: 0 <= q < FirstLineLength(t) - 1 ==> t[q] != '\n'
    ensures FirstLineLength(t) < |t| ==> t[FirstLineLength(t) - 1] == '\n'
    decreases |t|
  {
    if !(t[0] == '\n' || |t| == 1) {
      FirstLineEnds(t[1..]);
    }
  }

  /** The lines that iterating over a text file yields, each with its
      trailing "\n" except perhaps the last. */
  function Lines(t: string): seq<string>
    decreases |t|
  {
    if t == [] then [] else
      var n := FirstLineLength(t);
      [t[..n]] + Lines(t[n..])
  }

  /** The lines are non-empty, give the text back when joined, and every
      line but the last ends with "\n" and holds no other "\n". */
  lemma LinesShape(t: string)
    ensures Concat(Lines(t)) == t
    ensures forall k :: 0 <= k < |Lines(t)| ==> Lines(t)[k] != []
    ensures forall k :: 0 <= k < |Lines(t)| - 1 ==> Lines(t)[k][|Lines(t)[k]| - 1] == '\n'
    ensures forall k, q :: 0 <= k < |Lines(t)| && 0 <= q < |Lines(t)[k]| - 1 ==> Lines(t)[k][q] != '\n'
  {
    LinesJoin(t);
    LinesForm(t);
  }

  lemma {:induction false} LinesJoin(t: string)
    ensures Concat(Lines(t)) == t
    decreases |t|
  {
    if t != [] {
      var n := FirstLineLength(t);
      LinesJoin(t[n..]);
      ConcatFront(t[..n], Lines(t[n..]));
      assert t[..n] + t[n..] == t;
    }
  }

  lemma {:induction false} LinesForm(t: string)
    ensures forall k :: 0 <= k < |Lines(t)| ==> Lines(t)[k] != []
    ensures forall k :: 0 <= k < |Lines(t)| - 1 ==> Lines(t)[k][|Lines(t)[k]| - 1] == '\n'
    ensures forall k, q :: 0 <= k < |Lines(t)| && 0 <= q < |Lines(t)[k]| - 1 ==> Lines(t)[k][q] != '\n'
    decreases |t|
  {
    if t != [] {
      var n := FirstLineLength(t);
      FirstLineEnds(t);
      LinesForm(t[n..]);
      var ls := Lines(t);
      assert ls == [t[..n]] + Lines(t[n..]);
      forall k | 0 < k < |ls|
        ensures ls[k] == Lines(t[n..])[k - 1]
      {
      }
    }
  }

  function NewlineValue(c: char): int { if c == '\n' then 1 else 0 }

  function CountNewlines(t: string): int { SumBy(t, NewlineValue) }

  /** The number of lines is the number of "\n" plus one for a last line
      that does not end with "\n". */
  lemma {:induction false} LineCountFormula(t: string)
    ensures |Lines(t)| == CountNewlines(t) + (if t != [] && t[|t| - 1] != '\n' then 1 else 0)
    decreases |t|
  {
    if t != [] {
      var n := FirstLineLength(t);
      FirstLineEnds(t);
      assert t == t[..n] + t[n..];
      SumByAppend(t[..n], t[n..], NewlineValue);
      assert t[..n] == t[..n - 1] + [t[n - 1]];
      SumByConstant(t[..n - 1], NewlineValue, 0);
      LineCountFormula(t[n..]);
      if n < |t| {
        assert t[n..][|t[n..]| - 1] == t[|t| - 1];
      }
    }
  }

  /** Text ending in "\n" splits into lines independently of what follows. */
  lemma {:induction false} LinesAppend(a: string, b: string)
    requires a == [] || a[|a| - 1] == '\n'
    ensures Lines(a + b) == Lines(a) + Lines(b)
    decreases |a|
  {
    if a == [] {
      assert a + b == b;
    } else {
      var n := FirstLineLength(a);
      SplitAfterFirstLine(a, b);
      LinesAppend(a[n..], b);
    }
  }

  /** The first line of a + b is the first line of a, and what follows it
      is the rest of a followed by b. */
  lemma SplitAfterFirstLine(a: string, b: string)
    requires a != [] && a[|a| - 1] == '\n'
    ensures var n := FirstLineLength(a);
      && Lines(a + b) == [a[..n]] + Lines(a[n..] + b)
      && Lines(a) == [a[..n]] + Lines(a[n..])
      && (a[n..] == [] || a[n..][|a[n..]| - 1] == '\n')
  {
    var n := FirstLineLength(a);
    FirstLineLengthOfPrefix(a, b);
    assert (a + b)[..n] == a[..n];
    assert (a + b)[n..] == a[n..] + b;
  }

  lemma FirstLineLengthOfPrefix(a: string, b: string)
    requires a != [] && a[|a| - 1] == '\n'
    ensures FirstLineLength(a + b) == FirstLineLength(a)
    decreases |a|
  {
    if a[0] != '\n' {
      assert (a + b)[1..] == a[1..] + b;
      FirstLineLengthOfPrefix(a[1..], b);
    }
  }

  /** count_lines_in_file: the number of lines of a readable file, -1 when
      the file is missing or cannot be read. */
  function FileLineCount(dir: Dir, name: string): int {
    if name in dir && dir[name].TextFile? then |Lines(Translate(dir[name].content))| else -1
  }

  /** count_lines_in_file, reading one line per step as sum(1 for _ in f)
      does. */
  method CountLinesInFile(dir: Dir, name: string) returns (count: int)
    ensures count == FileLineCount(dir, name)
    ensures count >= -1
    ensures count >= 0 <==> name in dir && dir[name].TextFile?
  {
    if name !in dir || dir[name].Unreadable? {
      return -1;
    }
    var text := Translate(dir[name].content);
    var rest := text;
    count := 0;
    while rest != []
      invariant count >= 0
      invariant count + |Lines(rest)| == |Lines(text)|
      decreases |rest|
    {
      var n := FirstLineLength(rest);
      rest := rest[n..];
      count := count + 1;
    }
  }

  // ---------------------------------------------------------------------
  // Requests

  datatype Command = CountAll | CountFile(name: string) | Unknown

  /** Position of the first occurrence of c in s. */
  function IndexOf(s: string, c: char): (r: Option<nat>)
    ensures r.None? <==> c !in s
    ensures r.Some? ==> r.value < |s| && s[r.value] == c && c !in s[..r.value]
    decreases |s|
  {
    if s == [] then None
    else if s[0] == c then Some(0)
    else match IndexOf(s[1..], c)
      case None => None
      case Some(i) => assert s[..i + 1] == [s[0]] + s[1..][..i]; Some(i + 1)
  }

  /** s.split(" ", 1): the text before and after the first space, or the
      whole text when it has no space. */
  function SplitOnce(s: string): (parts: seq<string>)
    ensures 1 <= |parts| <= 2
    ensures |parts| == 1 <==> ' ' !in s
    ensures |parts| == 1 ==> parts[0] == s
    ensures |parts| == 2 ==> s == parts[0] + " " + parts[1] && ' ' !in parts[0]
  {
    match IndexOf(s, ' ')
    case None => [s]
    case Some(i) => assert s == s[..i] + " " + s[i + 1..]; [s[..i], s[i + 1..]]
  }

  const CountAllWord := "COUNT_ALL"
  const CountFilePrefix := "COUNT_FILE "

  /** The dispatch of handle_client on the stripped request text. */
  function ParseCommand(request: string): Command {
    if request == CountAllWord then CountAll
    else if StartsWith(request, CountFilePrefix) then
      assert ' ' in request by { assert request[10] == ' '; }
      CountFile(SplitOnce(request)[1])
    else Unknown
  }

  /** The file name is everything after "COUNT_FILE ", spaces included. */
  lemma CountFileNameIsRest(request: string)
    requires StartsWith(request, CountFilePrefix)
    ensures ParseCommand(request) == CountFile(request[|CountFilePrefix|..])
  {
    assert request[..11] == CountFilePrefix;
    assert forall k :: 0 <= k < 10 ==> request[k] != ' ';
    var i := IndexOf(request, ' ');
    assert request[10] == ' ';
    assert i == Some(10);
  }

  /** COUNT_ALL is recognised exactly on the text "COUNT_ALL", and
      COUNT_FILE n exactly on "COUNT_FILE " followed by n. */
  lemma ParseCommandExact(request: string, name: string)
    ensures ParseCommand(request) == CountAll <==> request == CountAllWord
    ensures ParseCommand(request) == CountFile(name) <==> request == CountFilePrefix + name
  {
    if StartsWith(request, CountFilePrefix) {
      CountFileNameIsRest(request);
      assert request == CountFilePrefix + request[|CountFilePrefix|..];
    }
    if request == CountFilePrefix + name {
      assert StartsWith(request, CountFilePrefix);
      CountFileNameIsRest(request);
      assert request[|CountFilePrefix|..] == name;
    }
  }

  /** A COUNT_FILE request whose name does not end in whitespace survives
      strip() and names that file. */
  lemma StripThenParse(name: string)
    requires name != [] && !IsPySpace(name[|name| - 1])
    ensures ParseCommand(Strip(CountFilePrefix + name)) == CountFile(name)
  {
    var s := CountFilePrefix + name;
    assert s[|s| - 1] == name[|name| - 1];
    StripOfTrimmed(s);
    ParseCommandExact(s, name);
  }

  // ---------------------------------------------------------------------
  // Responses

  predicate IsTxtName(name: string) { EndsWith(name, ".txt") }

  /** A possible result of TEST_DIR.glob("*.txt"): every entry whose name
      ends in ".txt", each once, in some order. */
  ghost predicate IsGlobListing(dir: Dir, listing: seq<string>) {
    Distinct(listing) && forall x :: x in listing <==> x in dir && IsTxtName(x)
  }

  /** The COUNT_ALL rule for one listed name: a file whose count is -1 is
      skipped; any other adds one file ... */
  function FileTally(dir: Dir): string -> int {
    (x: string) => if FileLineCount(dir, x) >= 0 then 1 else 0
  }

  /** ... and its lines. */
  function LineTally(dir: Dir): string -> int {
    (x: string) => if FileLineCount(dir, x) >= 0 then FileLineCount(dir, x) else 0
  }

  /** How many of the listed files the COUNT_ALL loop counts. */
  function CountedFiles(dir: Dir, listing: seq<string>): int {
    SumBy(listing, FileTally(dir))
  }

  /** The lines the COUNT_ALL loop adds up. */
  function CountedLines(dir: Dir, listing: seq<string>): int {
    SumBy(listing, LineTally(dir))
  }

  /** The COUNT_ALL loop: files that cannot be read are skipped. */
  method CountAllFiles(dir: Dir, listing: seq<string>) returns (fileCount: int, totalLines: int)
    ensures fileCount == CountedFiles(dir, listing)
    ensures totalLines == CountedLines(dir, listing)
  {
    fileCount, totalLines := 0, 0;
    for i := 0 to |listing|
      invariant fileCount == CountedFiles(dir, listing[..i])
      invariant totalLines == CountedLines(dir, listing[..i])
    {
      assert listing[..i + 1][..i] == listing[..i];
      var lines := CountLinesInFile(dir, listing[i]);
      if lines >= 0 {
        totalLines := totalLines + lines;
        fileCount := fileCount + 1;
      }
    }
    assert listing[..|listing|] == listing;
  }

  /** Counts are never negative and at most one file per listed name. */
  lemma CountAllBounds(dir: Dir, listing: seq<string>)
    ensures 0 <= CountedFiles(dir, listing) <= |listing|
    ensures CountedLines(dir, listing) >= 0
  {
    SumByBounded(listing, FileTally(dir));
    SumByNonNegative(listing, LineTally(dir));
  }

  /** The COUNT_ALL totals do not depend on the order the glob yields. */
  lemma CountAllOrderIrrelevant(dir: Dir, a: seq<string>, b: seq<string>)
    requires IsGlobListing(dir, a) && IsGlobListing(dir, b)
    ensures CountedFiles(dir, a) == CountedFiles(dir, b)
    ensures CountedLines(dir, a) == CountedLines(dir, b)
  {
    DistinctSameElements(a, b);
    SumByPermutation(a, b, FileTally(dir));
    SumByPermutation(a, b, LineTally(dir));
  }

  /** A listed file that cannot be read adds to neither total. */
  lemma UnreadableNotCounted(dir: Dir, listing: seq<string>, k: nat)
    requires k < |listing| && FileLineCount(dir, listing[k]) == -1
    ensures CountedFiles(dir, listing) == CountedFiles(dir, listing[..k] + listing[k + 1..])
    ensures CountedLines(dir, listing) == CountedLines(dir, listing[..k] + listing[k + 1..])
  {
    SumByRemove(listing, k, FileTally(dir));
    SumByRemove(listing, k, LineTally(dir));
  }

  /** When every listed file has the same number of lines, COUNT_ALL counts
      every file and that many lines each. */
  lemma CountAllUniform(dir: Dir, listing: seq<string>, lines: nat)
    requires forall k :: 0 <= k < |listing| ==> FileLineCount(dir, listing[k]) == lines
    ensures CountedFiles(dir, listing) == |listing|
    ensures CountedLines(dir, listing) == |listing| * lines
  {
    SumByConstant(listing, FileTally(dir), 1);
    SumByConstant(listing, LineTally(dir), lines);
  }

  function CountAllText(fileCount: int, totalLines: int): string {
    "Файлы: " + IntToString(fileCount) + ", Всего строк: " + IntToString(totalLines)
  }

  function CountFileText(name: string, lines: int): string {
    "Строк в " + name + ": " + IntToString(lines)
  }

  function NotFoundText(name: string): string {
    "Файл " + name + " не найден"
  }

  /** The response handle_client builds for a command; the two servers
      differ only in the text for an unknown command. */
  function CommandResponse(cmd: Command, dir: Dir, listing: seq<string>, unknownText: string): string {
    match cmd
    case CountAll => CountAllText(CountedFiles(dir, listing), CountedLines(dir, listing))
    case CountFile(name) =>
      if name in dir then CountFileText(name, FileLineCount(dir, name)) else NotFoundText(name)
    case Unknown => unknownText
  }

  /** The body of handle_client between reading the request and sending
      the response. */
  method Respond(cmd: Command, dir: Dir, listing: seq<string>, unknownText: string) returns (response: string)
    ensures response == CommandResponse(cmd, dir, listing, unknownText)
  {
    match cmd {
      case CountAll =>
        var fileCount, totalLines := CountAllFiles(dir, listing);
        response := CountAllText(fileCount, totalLines);
      case CountFile(name) =>
        if name in dir {
          var lines := CountLinesInFile(dir, name);
          response := CountFileText(name, lines);
        } else {
          response := NotFoundText(name);
        }
      case Unknown =>
        response := unknownText;
    }
  }

  /** A COUNT_FILE answer says "not found" exactly for a missing name; for
      an existing one it carries a count that is -1 exactly when the file
      cannot be read. */
  lemma CountFileResponseCases(dir: Dir, name: string, listing: seq<string>, unknownText: string)
    ensures CommandResponse(CountFile(name), dir, listing, unknownText) == NotFoundText(name) <==> name !in dir
    ensures name in dir ==>
      (exists c: int :: c >= -1 && (c == -1 <==> dir[name].Unreadable?) &&
                        CommandResponse(CountFile(name), dir, listing, unknownText) == CountFileText(name, c))
  {
    if name in dir {
      var c := FileLineCount(dir, name);
      var r := CountFileText(name, c);
      assert r[0] == 'С' && NotFoundText(name)[0] == 'Ф';
      assert CommandResponse(CountFile(name), dir, listing, unknownText) == CountFileText(name, c);
    }
  }

  /** Distinct counts give distinct COUNT_FILE answers, so a client can read
      the count back from the text. */
  lemma CountFileTextInjective(name: string, m: int, n: int)
    requires CountFileText(name, m) == CountFileText(name, n)
    ensures m == n
  {
    var p := "Строк в " + name + ": ";
    assert CountFileText(name, m) == p + IntToString(m);
    assert CountFileText(name, n) == p + IntToString(n);
    assert IntToString(m) == CountFileText(name, m)[|p|..];
    IntToStringInjective(m, n);
  }

  /** An existing file that cannot be read is reported with -1 lines, not
      as missing. */
  lemma UnreadableFileReportsMinusOne(dir: Dir, name: string, listing: seq<string>, unknownText: string)
    requires name in dir && dir[name].Unreadable?
    ensures CommandResponse(CountFile(name), dir, listing, unknownText) == "Строк в " + name + ": -1"
  {
    assert IntToString(-1) == "-1";
  }
}
