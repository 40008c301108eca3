/** `write_code_summary`: for each collected relative path, in order, writes a
    framed section to `code_summary.txt` in the scanned directory. The output
    file is a growing text buffer; reading a collected file as text is an
    oracle on its path, since the file may have changed or vanished since it
    was classified (or, for an old `code_summary.txt`, been truncated by this
    very call). */
module Summary {
  import opened Strings

  /** Opening a file as UTF-8 text: its (already decoded) content, or the
      exception's message. */
  datatype TextRead = Text(text: string) | ReadFailure(message: string)

  /** Stands for `open(path, 'r', encoding='utf-8', errors='replace').read()`. */
  type TextOracle = string -> TextRead

  const SeparatorWidth: nat := 80
  const SummaryFileName := "code_summary.txt"
  const HeaderPrefix := "File: "
  const ErrorPrefix := "Error reading file: "

  /** `'-' * 80` and `'=' * 80`. */
  const Dashes := Repeat('-', SeparatorWidth)
  const Equals := Repeat('=', SeparatorWidth)

  /** What stands between the two separators: the text, or the error marker line. */
  function Body(read: TextRead): (body: string) {
    match read
    case Text(text) => text
    case ReadFailure(message) => ErrorPrefix + message + "\n"
  }

  /** The first write of a section: `f"File: {relative_path}\n"`. */
  function Header(relPath: string): (header: string) {
    HeaderPrefix + relPath + "\n"
  }

  /** The second write: the dash line. */
  const Rule := Dashes + "\n"

  /** The last write: a newline, the equals line and a blank line. */
  const Closing := "\n" + Equals + "\n\n"

  /** The writes made for one path, concatenated. */
  function Section(relPath: string, read: TextRead): (section: string) {
    Header(relPath) + Rule + Body(read) + Closing
  }

  /** The section of one collected path, read at `os.path.join(dir, path)`. */
  function SectionOf(dir: string, readText: TextOracle, relPath: string): (section: string) {
    Section(relPath, readText(JoinPath(dir, relPath)))
  }

  /** The whole summary: the sections of `paths`, in order. */
  function SummaryText(dir: string, readText: TextOracle, paths: seq<string>): (summary: string) {
    if paths == [] then "" else SectionOf(dir, readText, paths[0]) + SummaryText(dir, readText, paths[1..])
  }

  /** The summary file handle: `write` appends to what is already there. */
  class OutputFile {
    var contents: string

    /** `open(summary_path, 'w')` truncates. */
    constructor ()
      ensures contents == ""
    {
      contents := "";
    }

    method Write(s: string)
      modifies this
      ensures contents == old(contents) + s
    {
      contents := contents + s;
    }
  }

  /** The body of `write_code_summary`'s loop: the writes made for one path,
      the content write guarded by the read's success. */
  method WriteSection(summaryFile: OutputFile, relativePath: string, read: TextRead)
    modifies summaryFile
    ensures summaryFile.contents == old(summaryFile.contents) + Section(relativePath, read)
  {
    summaryFile.Write(Header(relativePath));
    summaryFile.Write(Rule);
    match read {
      case Text(text) =>
        summaryFile.Write(text);
      case ReadFailure(message) =>
        summaryFile.Write(ErrorPrefix + message + "\n");
    }
    summaryFile.Write(Closing);
    ghost var s0 := old(summaryFile.contents);
    AppendAssoc(s0, Header(relativePath), Rule);
    AppendAssoc(s0, Header(relativePath) + Rule, Body(read));
    AppendAssoc(s0, Header(relativePath) + Rule + Body(read), Closing);
  }

  /** Writes the summary and returns the path it was written to (the script
      `dum.py` computes the same path but does not return it). */
  method WriteCodeSummary(dir: string, textFiles: seq<string>, readText: TextOracle)
    returns (summaryPath: string, written: string)
    ensures summaryPath == JoinPath(dir, SummaryFileName)
    ensures written == SummaryText(dir, readText, textFiles)
  {
    summaryPath := JoinPath(dir, SummaryFileName);
    var summaryFile := new OutputFile();
    var i := 0;
    while i < |textFiles|
      invariant 0 <= i <= |textFiles|
      invariant summaryFile.contents == SummaryText(dir, readText, textFiles[..i])
    {
      var relativePath := textFiles[i];
      var absolutePath := JoinPath(dir, relativePath);
      WriteSection(summaryFile, relativePath, readText(absolutePath));
      SummaryStep(dir, readText, textFiles, i);
      i := i + 1;
    }
    assert textFiles[..i] == textFiles;
    written := summaryFile.contents;
  }

  /** The returned summary path lies in the scanned directory and names
      `code_summary.txt`. */
  lemma SummaryPathInDir(dir: string)
    ensures StartsWith(JoinPath(dir, SummaryFileName), dir)
    ensures EndsWith(JoinPath(dir, SummaryFileName), "/" + SummaryFileName) || dir == "" || EndsWith(dir, "/")
    ensures EndsWith(JoinPath(dir, SummaryFileName), SummaryFileName)
  {
    assert SummaryFileName[0] != '/';
    JoinPathShape(dir, SummaryFileName);
    var r := JoinPath(dir, SummaryFileName);
    if dir != "" && !EndsWith(dir, "/") {
      assert r[|r| - |"/" + SummaryFileName|..] == "/" + SummaryFileName;
    }
  }

  /** One more path: its section is appended. */
  lemma SummaryStep(dir: string, readText: TextOracle, paths: seq<string>, i: nat)
    requires i < |paths|
    ensures SummaryText(dir, readText, paths[..i + 1])
         == SummaryText(dir, readText, paths[..i]) + SectionOf(dir, readText, paths[i])
  {
    assert paths[..i + 1] == paths[..i] + [paths[i]];
    SummaryAppend(dir, readText, paths[..i], [paths[i]]);
    assert [paths[i]][1..] == [];
  }

  /** Sections concatenate: the summary of `a + b` is that of `a` followed by
      that of `b`. */
  lemma {:induction false} SummaryAppend(dir: string, readText: TextOracle, a: seq<string>, b: seq<string>)
    ensures SummaryText(dir, readText, a + b) == SummaryText(dir, readText, a) + SummaryText(dir, readText, b)
  {
    if a == [] {
      assert a + b == b;
    } else {
      assert (a + b)[0] == a[0];
      assert (a + b)[1..] == a[1..] + b;
      SummaryAppend(dir, readText, a[1..], b);
    }
  }

  /** No section is dropped and none moves: the section of the i-th path sits
      between the summary of the paths before it and that of the paths after
      it. */
  lemma SectionAt(dir: string, readText: TextOracle, paths: seq<string>, i: nat)
    requires i < |paths|
    ensures SummaryText(dir, readText, paths)
         == SummaryText(dir, readText, paths[..i])
            + SectionOf(dir, readText, paths[i])
            + SummaryText(dir, readText, paths[i + 1..])
  {
    assert paths == paths[..i] + ([paths[i]] + paths[i + 1..]);
    SummaryAppend(dir, readText, paths[..i], [paths[i]] + paths[i + 1..]);
    assert ([paths[i]] + paths[i + 1..])[1..] == paths[i + 1..];
  }

  /** Every section opens with `File: <path>` and a dash line and closes with
      an equals line and a blank line, whatever the read gave. */
  lemma SectionFraming(relPath: string, read: TextRead)
    ensures StartsWith(Section(relPath, read), HeaderPrefix + relPath + "\n" + Dashes + "\n")
    ensures EndsWith(Section(relPath, read), "\n" + Equals + "\n\n")
  {
    var head := HeaderPrefix + relPath + "\n" + Dashes + "\n";
    var tail := "\n" + Equals + "\n\n";
    assert Section(relPath, read) == head + Body(read) + tail;
    assert (head + Body(read) + tail)[..|head|] == head;
    assert (head + Body(read) + tail)[|head + Body(read) + tail| - |tail|..] == tail;
  }

  /** A failed read keeps its section: header, both separators, and the
      `Error reading file: ` line in place of the content. */
  lemma FailedReadKeepsSection(relPath: string, message: string)
    ensures Section(relPath, ReadFailure(message))
         == HeaderPrefix + relPath + "\n" + Dashes + "\n"
            + ErrorPrefix + message + "\n"
            + "\n" + Equals + "\n\n"
  {
  }

  /** Framing alone takes this many characters per section: `File: `, the two
      separator lines, and five newlines (after the path, after the dashes,
      before the equals line, and the two that end the section). */
  const SectionOverhead: nat := |HeaderPrefix| + 2 * SeparatorWidth + 5

  /** A section is its path and its body plus the fixed framing. */
  lemma SectionLength(relPath: string, read: TextRead)
    ensures |Section(relPath, read)| == |relPath| + |Body(read)| + SectionOverhead
  {
  }

  /** The summary of N paths holds N framed sections: at least N times the
      framing, and empty exactly when there are no paths. */
  lemma {:induction false} SummarySize(dir: string, readText: TextOracle, paths: seq<string>)
    ensures |SummaryText(dir, readText, paths)| >= |paths| * SectionOverhead
    ensures SummaryText(dir, readText, paths) == "" <==> paths == []
  {
    if paths != [] {
      var rest := SummaryText(dir, readText, paths[1..]);
      var first := SectionOf(dir, readText, paths[0]);
      SectionLength(paths[0], readText(JoinPath(dir, paths[0])));
      SummarySize(dir, readText, paths[1..]);
      assert |first| >= SectionOverhead;
      assert |SummaryText(dir, readText, paths)| == |first| + |rest|;
      assert |paths| * SectionOverhead == SectionOverhead + |paths[1..]| * SectionOverhead;
    }
  }
}
