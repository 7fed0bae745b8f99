// config.py of task 2: the generated test directory.  create_test_files
// writes file_<i>.txt with the lines "Line <j> in file <i>", and importing
// the module creates the default 50 files of 100 lines when the directory
// holds no .txt file.

module TestFiles {
  import opened Common
  import opened LineCount

  const DefaultFileCount := 50
  const DefaultLinesPerFile := 100

  function FileName(i: nat): string {
    "file_" + NatToString(i) + ".txt"
  }

  function LineText(j: nat, i: nat): string {
    "Line " + NatToString(j) + " in file " + NatToString(i) + "\n"
  }

  /** The text of file i after writing its first `lines` lines. */
  function FileContent(i: nat, lines: int): string
    decreases lines
  {
    if lines <= 0 then "" else FileContent(i, lines - 1) + LineText(lines - 1, i)
  }

  /** The files create_test_files(numFiles, lines) writes. */
  function GeneratedFiles(numFiles: int, lines: int): Dir
    decreases numFiles
  {
    if numFiles <= 0 then map[]
    else GeneratedFiles(numFiles - 1, lines)[FileName(numFiles - 1) := TextFile(FileContent(numFiles - 1, lines))]
  }

  /** The directory after create_test_files: generated files replace any
      file of the same name, other entries stay. */
  function WithTestFiles(dir: Dir, numFiles: int, lines: int): Dir {
    dir + GeneratedFiles(numFiles, lines)
  }

  predicate HasTxtFile(dir: Dir) {
    exists name :: name in dir && IsTxtName(name)
  }

  lemma FileNameInjective(i: nat, k: nat)
    requires FileName(i) == FileName(k)
    ensures i == k
  {
    var a, b := NatToString(i), NatToString(k);
    assert FileName(i)[5..|FileName(i)| - 4] == a;
    assert FileName(k)[5..|FileName(k)| - 4] == b;
    NatToStringInjective(i, k);
  }

  lemma FileNameIsTxt(i: nat)
    ensures IsTxtName(FileName(i))
  {
  }

  /** The generated directory holds exactly the names file_0.txt up to
      file_<n-1>.txt, each with its own content. */
  lemma GeneratedEntries(numFiles: int, lines: int)
    ensures forall x :: x in GeneratedFiles(numFiles, lines) <==>
      exists i: nat :: i < numFiles && x == FileName(i)
    ensures forall i: nat :: i < numFiles ==>
      FileName(i) in GeneratedFiles(numFiles, lines) &&
      GeneratedFiles(numFiles, lines)[FileName(i)] == TextFile(FileContent(i, lines))
  {
    GeneratedKeys(numFiles, lines);
    GeneratedValues(numFiles, lines);
    forall x
      ensures x in GeneratedFiles(numFiles, lines) <==> exists i: nat :: i < numFiles && x == FileName(i)
    {
      if x in GeneratedFiles(numFiles, lines) {
        assert NamedBelow(x, numFiles);
      }
    }
  }

  /** x is one of file_0.txt, ..., file_<numFiles-1>.txt. */
  ghost predicate NamedBelow(x: string, numFiles: int) {
    exists i: nat :: i < numFiles && x == FileName(i)
  }

  lemma {:induction false} GeneratedKeys(numFiles: int, lines: int)
    ensures forall x :: x in GeneratedFiles(numFiles, lines) ==> NamedBelow(x, numFiles)
    decreases numFiles
  {
    if numFiles > 0 {
      var n: nat := numFiles - 1;
      GeneratedKeys(n, lines);
      forall x | x in GeneratedFiles(numFiles, lines)
        ensures NamedBelow(x, numFiles)
      {
        if x == FileName(n) {
          assert n < numFiles && x == FileName(n);
        } else {
          assert NamedBelow(x, n);
          var i: nat :| i < n && x == FileName(i);
          assert i < numFiles && x == FileName(i);
        }
      }
    }
  }

  lemma {:induction false} GeneratedValues(numFiles: int, lines: int)
    ensures forall i: nat :: i < numFiles ==>
      FileName(i) in GeneratedFiles(numFiles, lines) &&
      GeneratedFiles(numFiles, lines)[FileName(i)] == TextFile(FileContent(i, lines))
    decreases numFiles
  {
    if numFiles > 0 {
      var n: nat := numFiles - 1;
      GeneratedValues(n, lines);
      var g := GeneratedFiles(numFiles, lines);
      assert g == GeneratedFiles(n, lines)[FileName(n) := TextFile(FileContent(n, lines))];
      forall i: nat | i < numFiles
        ensures FileName(i) in g && g[FileName(i)] == TextFile(FileContent(i, lines))
      {
        if i < n && FileName(i) == FileName(n) {
          FileNameInjective(i, n);
        }
      }
    }
  }

  /** create_test_files(n, ...) produces n distinct files. */
  lemma {:induction false} GeneratedFileCount(numFiles: nat, lines: int)
    ensures |GeneratedFiles(numFiles, lines)| == numFiles
    decreases numFiles
  {
    if numFiles > 0 {
      var n: nat := numFiles - 1;
      GeneratedFileCount(n, lines);
      GeneratedKeys(n, lines);
      if FileName(n) in GeneratedFiles(n, lines) {
        assert NamedBelow(FileName(n), n);
        var i: nat :| i < n && FileName(n) == FileName(i);
        FileNameInjective(i, n);
      }
    }
  }

  /** The lines create_test_files writes to file i, in order. */
  function WrittenLines(i: nat, lines: int): (w: seq<string>)
    ensures |w| == if lines < 0 then 0 else lines
    decreases lines
  {
    if lines <= 0 then [] else WrittenLines(i, lines - 1) + [LineText(lines - 1, i)]
  }

  /** Reading a generated file back yields exactly the lines written to it. */
  lemma {:induction false} GeneratedLines(i: nat, lines: int)
    ensures Lines(FileContent(i, lines)) == WrittenLines(i, lines)
    ensures FileContent(i, lines) == [] || FileContent(i, lines)[|FileContent(i, lines)| - 1] == '\n'
    decreases lines
  {
    if lines > 0 {
      GeneratedLines(i, lines - 1);
      var prev := FileContent(i, lines - 1);
      var line := LineText(lines - 1, i);
      assert FileContent(i, lines) == prev + line;
      LinesAppend(prev, line);
      SingleLine(lines - 1, i);
    }
  }

  /** One written line reads back as one line. */
  lemma SingleLine(j: nat, i: nat)
    ensures Lines(LineText(j, i)) == [LineText(j, i)]
    ensures LineText(j, i)[|LineText(j, i)| - 1] == '\n'
  {
    var l := LineText(j, i);
    LineFirstLength(j, i);
    assert l[..|l|] == l && l[|l|..] == [];
  }

  lemma LineFirstLength(j: nat, i: nat)
    ensures FirstLineLength(LineText(j, i)) == |LineText(j, i)|
  {
    var l := LineText(j, i);
    var n := FirstLineLength(l);
    FirstLineEnds(l);
    if n < |l| {
      NoNewlineBeforeEnd(j, i, n - 1);
    }
  }

  lemma NoNewlineBeforeEnd(j: nat, i: nat, q: nat)
    requires q < |LineText(j, i)| - 1
    ensures LineText(j, i)[q] != '\n'
  {
    var a := NatToString(j);
    var b := NatToString(i);
    var l := LineText(j, i);
    assert l == "Line " + a + " in file " + b + "\n";
    if q < 5 {
    } else if q < 5 + |a| {
      assert l[q] == a[q - 5];
    } else if q < 5 + |a| + 9 {
    } else {
      assert l[q] == b[q - 14 - |a|];
    }
  }

  /** Every generated file counts lines_per_file lines. */
  lemma GeneratedLineCount(numFiles: int, lines: nat, i: nat)
    requires i < numFiles
    ensures FileLineCount(GeneratedFiles(numFiles, lines), FileName(i)) == lines
  {
    GeneratedEntries(numFiles, lines);
    GeneratedLines(i, lines);
    assert '\r' !in FileContent(i, lines) by { NoCarriageReturn(i, lines); }
    TranslateWithoutCarriageReturn(FileContent(i, lines));
  }

  lemma {:induction false} NoCarriageReturn(i: nat, lines: int)
    ensures '\r' !in FileContent(i, lines)
    decreases lines
  {
    if lines > 0 {
      NoCarriageReturn(i, lines - 1);
      var l := LineText(lines - 1, i);
      assert '\r' !in l by {
        var a := NatToString(lines - 1);
        var b := NatToString(i);
        assert l == "Line " + a + " in file " + b + "\n";
        assert forall q :: 0 <= q < |a| ==> IsDigit(a[q]);
        assert forall q :: 0 <= q < |b| ==> IsDigit(b[q]);
      }
    }
  }

  /** How many files create_test_files writes, counting from file i: it
      stops at the first file_<k>.txt that open(..., 'w') refuses, where it
      raises, and otherwise writes up to numFiles. */
  function WrittenCount(refused: set<string>, numFiles: int, i: nat): (k: nat)
    ensures i <= k && (k == i || k <= numFiles)
    ensures forall q: nat :: i <= q < k ==> FileName(q) !in refused
    ensures k < numFiles ==> FileName(k) in refused
    decreases numFiles - i
  {
    if i >= numFiles || FileName(i) in refused then i else WrittenCount(refused, numFiles, i + 1)
  }

  class TestDirectory {
    var files: Dir
    /** The names open(..., 'w') raises on: sub-directories and files
        without write permission. */
    const unwritable: set<string>

    ghost predicate Valid()
      reads this
    {
      unwritable <= files.Keys
    }

    constructor (initial: Dir, refused: set<string>)
      requires refused <= initial.Keys
      ensures files == initial && unwritable == refused && Valid()
    {
      files := initial;
      unwritable := refused;
    }

    /** create_test_files: for each i, open file_<i>.txt for writing and
        write its lines; ok is false when an open raised, which ends the
        call with the files before it written. */
    method CreateTestFiles(numFiles: int, linesPerFile: int) returns (ok: bool)
      requires Valid()
      modifies this
      ensures Valid()
      ensures ok <==> forall i: nat :: i < numFiles ==> FileName(i) !in unwritable
      ensures ok ==> files == WithTestFiles(old(files), numFiles, linesPerFile)
      ensures !ok ==> files == WithTestFiles(old(files), WrittenCount(unwritable, numFiles, 0), linesPerFile)
    {
      var i: nat := 0;
      while i < numFiles
        invariant numFiles >= 0 ==> i <= numFiles
        invariant numFiles < 0 ==> i == 0
        invariant forall q: nat :: q < i ==> FileName(q) !in unwritable
        invariant WrittenCount(unwritable, numFiles, i) == WrittenCount(unwritable, numFiles, 0)
        invariant files == WithTestFiles(old(files), i, linesPerFile)
        invariant Valid()
        decreases numFiles - i
      {
        var wrote := WriteFile(i, linesPerFile);
        if !wrote {
          return false;
        }
        WithTestFilesStep(old(files), i, linesPerFile);
        i := i + 1;
      }
      GeneratedComplete(i, numFiles, linesPerFile);
      return true;
    }

    /** One iteration of create_test_files: open(..., 'w') raises on a
        refused name and changes nothing; otherwise it empties file_<i>.txt
        and its lines are written one by one. */
    method WriteFile(i: nat, linesPerFile: int) returns (wrote: bool)
      requires Valid()
      modifies this
      ensures Valid()
      ensures wrote <==> FileName(i) !in unwritable
      ensures files == if wrote then old(files)[FileName(i) := TextFile(FileContent(i, linesPerFile))]
                       else old(files)
    {
      var name := FileName(i);
      if name in unwritable {
        return false;
      }
      files := files[name := TextFile("")];
      var j: nat := 0;
      while j < linesPerFile
        invariant linesPerFile >= 0 ==> j <= linesPerFile
        invariant linesPerFile < 0 ==> j == 0
        invariant files == old(files)[name := TextFile(FileContent(i, j))]
        decreases linesPerFile - j
      {
        assert files[name].content == FileContent(i, j);
        assert FileContent(i, j + 1) == FileContent(i, j) + LineText(j, i);
        files := files[name := TextFile(files[name].content + LineText(j, i))];
        j := j + 1;
      }
      ContentComplete(i, j, linesPerFile);
      return true;
    }

    /** The module-level guard: the default files are created only when the
        directory holds no .txt file; since every refused name is an entry
        of the directory and every generated name ends in .txt, the call it
        makes then cannot raise. */
    method ImportGuard()
      requires Valid()
      modifies this
      ensures Valid()
      ensures files == (if HasTxtFile(old(files)) then old(files)
                        else WithTestFiles(old(files), DefaultFileCount, DefaultLinesPerFile))
    {
      if !HasTxtFile(files) {
        NoTxtNoneRefused(files, unwritable);
        var ok := CreateTestFiles(DefaultFileCount, DefaultLinesPerFile);
        assert ok;
      }
    }
  }

  /** Without .txt entries no generated name is an entry, so none is
      refused. */
  lemma NoTxtNoneRefused(dir: Dir, refused: set<string>)
    requires refused <= dir.Keys && !HasTxtFile(dir)
    ensures forall q: nat :: FileName(q) !in refused
  {
    forall q: nat
      ensures FileName(q) !in refused
    {
      FileNameIsTxt(q);
    }
  }

  /** The guard `not list(TEST_DIR.glob("*.txt"))`: whatever order the glob
      yields the names in, the listing is empty exactly when no entry is a
      .txt file. */
  lemma GlobEmptyIffNoTxt(dir: Dir, listing: seq<string>)
    requires IsGlobListing(dir, listing)
    ensures listing == [] <==> !HasTxtFile(dir)
  {
    if listing != [] {
      assert listing[0] in listing;
    }
    if HasTxtFile(dir) {
      var name :| name in dir && IsTxtName(name);
      assert name in listing;
    }
  }

  lemma ContentComplete(i: nat, j: nat, lines: int)
    requires (lines >= 0 ==> j == lines) && (lines < 0 ==> j == 0)
    ensures FileContent(i, j) == FileContent(i, lines)
  {
  }

  lemma GeneratedComplete(i: nat, numFiles: int, lines: int)
    requires (numFiles >= 0 ==> i == numFiles) && (numFiles < 0 ==> i == 0)
    ensures GeneratedFiles(i, lines) == GeneratedFiles(numFiles, lines)
  {
  }

  lemma WithTestFilesStep(dir: Dir, i: nat, lines: int)
    ensures WithTestFiles(dir, i + 1, lines) == WithTestFiles(dir, i, lines)[FileName(i) := TextFile(FileContent(i, lines))]
  {
  }

  /** Running create_test_files twice gives the directory it gave once. */
  lemma CreateTestFilesIdempotent(dir: Dir, numFiles: int, lines: int)
    ensures WithTestFiles(WithTestFiles(dir, numFiles, lines), numFiles, lines) == WithTestFiles(dir, numFiles, lines)
  {
  }

  /** Entries create_test_files does not name are left as they were. */
  lemma CreateTestFilesKeepsOthers(dir: Dir, numFiles: int, lines: int, x: string)
    requires forall i: nat :: i < numFiles ==> x != FileName(i)
    ensures x in WithTestFiles(dir, numFiles, lines) <==> x in dir
    ensures x in dir ==> WithTestFiles(dir, numFiles, lines)[x] == dir[x]
  {
    GeneratedEntries(numFiles, lines);
  }

  /** On a directory without .txt files, the .txt files after
      create_test_files are exactly the generated ones. */
  lemma TxtFilesAfterCreate(dir: Dir, numFiles: int, lines: int)
    requires !HasTxtFile(dir)
    ensures forall x :: x in WithTestFiles(dir, numFiles, lines) && IsTxtName(x) <==> x in GeneratedFiles(numFiles, lines)
  {
    GeneratedEntries(numFiles, lines);
    forall x | x in GeneratedFiles(numFiles, lines)
      ensures IsTxtName(x)
    {
      var i: nat :| i < numFiles && x == FileName(i);
      FileNameIsTxt(i);
    }
  }

  /** Every generated file, seen in the directory after creation, counts
      lines_per_file lines. */
  lemma GeneratedCountsInDirectory(dir: Dir, numFiles: int, lines: nat, x: string)
    requires x in GeneratedFiles(numFiles, lines)
    ensures FileLineCount(WithTestFiles(dir, numFiles, lines), x) == lines
  {
    GeneratedEntries(numFiles, lines);
    var i: nat :| i < numFiles && x == FileName(i);
    GeneratedLineCount(numFiles, lines, i);
  }

  /** create_test_files(n, l) on a directory without .txt files: COUNT_ALL
      then reports n files and n * l lines whatever order the glob yields. */
  lemma CountAllAfterCreate(dir: Dir, listing: seq<string>, n: nat, l: nat)
    requires !HasTxtFile(dir)
    requires IsGlobListing(WithTestFiles(dir, n, l), listing)
    ensures CountedFiles(WithTestFiles(dir, n, l), listing) == n
    ensures CountedLines(WithTestFiles(dir, n, l), listing) == n * l
  {
    var d := WithTestFiles(dir, n, l);
    var g := GeneratedFiles(n, l);
    TxtFilesAfterCreate(dir, n, l);
    assert forall x :: x in listing <==> x in g;
    forall k | 0 <= k < |listing|
      ensures FileLineCount(d, listing[k]) == l
    {
      GeneratedCountsInDirectory(dir, n, l, listing[k]);
    }
    CountAllUniform(d, listing, l);
    ListingLength(listing, g, n, l);
  }

  /** After the import guard on a directory without .txt files, COUNT_ALL
      reports 50 files and 5000 lines. */
  lemma CountAllAfterImport(dir: Dir, listing: seq<string>)
    requires !HasTxtFile(dir)
    requires IsGlobListing(WithTestFiles(dir, DefaultFileCount, DefaultLinesPerFile), listing)
    ensures CountedFiles(WithTestFiles(dir, DefaultFileCount, DefaultLinesPerFile), listing) == 50
    ensures CountedLines(WithTestFiles(dir, DefaultFileCount, DefaultLinesPerFile), listing) == 5000
  {
    CountAllAfterCreate(dir, listing, DefaultFileCount, DefaultLinesPerFile);
  }

  lemma ListingLength(listing: seq<string>, g: Dir, n: nat, l: int)
    requires g == GeneratedFiles(n, l)
    requires Distinct(listing) && forall x :: x in listing <==> x in g
    ensures |listing| == n
  {
    GeneratedFileCount(n, l);
    DistinctCardinality(listing);
    assert (set x | x in listing) == g.Keys;
  }
}
