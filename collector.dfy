/** `collect_text_files`: walks the tree and keeps, in walk order, the relative
    paths of the files the classifier accepts. The walk is given as the
    sequence of directories `os.walk` yields, each with its files; every file
    carries the outcome of opening it in binary mode, and the MIME guess is an
    oracle on the path handed to the classifier. */
module Collector {
  import opened Strings
  import opened Classifier

  /** A file name in a walked directory and what reading its bytes gives. */
  datatype WalkFile = WalkFile(name: string, content: ByteRead)

  /** One `(root, dirs, files)` triple of `os.walk`, its root given relative to
      the top directory ("" for the top itself); `dirs` only steers the walk. */
  datatype WalkDir = WalkDir(relDir: string, files: seq<WalkFile>)

  /** Stands for `mimetypes.guess_type(path)[0]`. */
  type MimeOracle = string -> Option<string>

  /** The `root` that `os.walk(top)` yields for a directory. */
  function DirPath(top: string, relDir: string): (root: string) {
    if relDir == "" then top else JoinPath(top, relDir)
  }

  /** `os.path.join(root, file)`, the path given to the classifier. */
  function FilePath(top: string, relDir: string, name: string): (path: string) {
    JoinPath(DirPath(top, relDir), name)
  }

  /** `os.path.relpath(os.path.join(root, file), top)` for normalised names. */
  function RelativePath(relDir: string, name: string): (rel: string) {
    if relDir == "" then name else relDir + "/" + name
  }

  /** The classifier's verdict on one walked file: `is_text_file` applied to
      `os.path.join(root, file)`, with the MIME oracle asked about that path. */
  predicate Accepts(v: Variant, top: string, guess: MimeOracle, relDir: string, f: WalkFile) {
    var p := FilePath(top, relDir, f.name);
    IsTextFile(v, p, guess(p), f.content)
  }

  /** A verdict on a walked file, given the directory it was found in. */
  type Verdict = (string, WalkFile) -> bool

  /** The verdict the collector uses. */
  function ClassifierVerdict(v: Variant, top: string, guess: MimeOracle): (accept: Verdict) {
    (relDir: string, f: WalkFile) => Accepts(v, top, guess, relDir, f)
  }

  /** What one file contributes: its relative path if accepted, else nothing. */
  function Kept(accept: Verdict, relDir: string, f: WalkFile): (kept: seq<string>) {
    if accept(relDir, f) then [RelativePath(relDir, f.name)] else []
  }

  /** The relative paths kept from the files of one directory, in order. */
  function SelectedIn(accept: Verdict, relDir: string, files: seq<WalkFile>): (kept: seq<string>)
  {
    if files == [] then []
    else SelectedIn(accept, relDir, files[..|files| - 1]) + Kept(accept, relDir, files[|files| - 1])
  }

  /** The relative paths kept from the whole walk, in walk order. */
  function Selected(accept: Verdict, walk: seq<WalkDir>): (kept: seq<string>)
  {
    if walk == [] then []
    else
      var d := walk[|walk| - 1];
      Selected(accept, walk[..|walk| - 1]) + SelectedIn(accept, d.relDir, d.files)
  }

  /** `collect_text_files`'s outer loop over `os.walk`, one directory at a time. */
  method CollectTextFiles(v: Variant, top: string, guess: MimeOracle, walk: seq<WalkDir>)
    returns (textFiles: seq<string>)
    ensures textFiles == Selected(ClassifierVerdict(v, top, guess), walk)
  {
    var accept := ClassifierVerdict(v, top, guess);
    textFiles := [];
    var i := 0;
    while i < |walk|
      invariant 0 <= i <= |walk|
      invariant textFiles == Selected(accept, walk[..i])
    {
      textFiles := CollectFromDirectory(accept, walk[i].relDir, walk[i].files, textFiles);
      SelectedStep(accept, walk, i);
      i := i + 1;
    }
    assert walk[..i] == walk;
  }

  /** `collect_text_files`'s inner loop, over the files of one directory: appends to
      `textFiles` the relative path of each file the verdict accepts. */
  method CollectFromDirectory(accept: Verdict, relDir: string, files: seq<WalkFile>, textFiles: seq<string>)
    returns (result: seq<string>)
    ensures result == textFiles + SelectedIn(accept, relDir, files)
  {
    result := textFiles;
    var j := 0;
    while j < |files|
      invariant 0 <= j <= |files|
      invariant result == textFiles + SelectedIn(accept, relDir, files[..j])
    {
      var f := files[j];
      ghost var before := result;
      // is_text_file(os.path.join(root, file))
      if accept(relDir, f) {
        result := result + [RelativePath(relDir, f.name)];
      }
      assert result == before + Kept(accept, relDir, f);
      SelectedInStep(accept, textFiles, relDir, files, j);
      j := j + 1;
    }
    assert files[..j] == files;
  }

  /** One more file of a directory: its path is appended when it is accepted. */
  lemma SelectedInStep(accept: Verdict, prefix: seq<string>, relDir: string, files: seq<WalkFile>, j: nat)
    requires j < |files|
    ensures prefix + SelectedIn(accept, relDir, files[..j + 1])
         == (prefix + SelectedIn(accept, relDir, files[..j])) + Kept(accept, relDir, files[j])
  {
    assert files[..j + 1][..j] == files[..j];
    AppendAssoc(prefix, SelectedIn(accept, relDir, files[..j]), Kept(accept, relDir, files[j]));
  }

  /** One more directory of the walk: the paths kept from it are appended. */
  lemma SelectedStep(accept: Verdict, walk: seq<WalkDir>, i: nat)
    requires i < |walk|
    ensures Selected(accept, walk[..i + 1]) == Selected(accept, walk[..i]) + SelectedIn(accept, walk[i].relDir, walk[i].files)
  {
    assert walk[..i + 1][..i] == walk[..i];
  }

  /** Filtering one directory's files splits over concatenation: the kept
      paths of `a + b` are those of `a` followed by those of `b`. */
  lemma {:induction false} SelectedInAppend(accept: Verdict, relDir: string, a: seq<WalkFile>, b: seq<WalkFile>)
    ensures SelectedIn(accept, relDir, a + b)
         == SelectedIn(accept, relDir, a) + SelectedIn(accept, relDir, b)
    decreases |b|
  {
    if b == [] {
      assert a + b == a;
    } else {
      var n := |b| - 1;
      assert (a + b)[..|a + b| - 1] == a + b[..n];
      assert (a + b)[|a + b| - 1] == b[n];
      SelectedInAppend(accept, relDir, a, b[..n]);
      AppendAssoc(SelectedIn(accept, relDir, a), SelectedIn(accept, relDir, b[..n]), Kept(accept, relDir, b[n]));
    }
  }

  /** The collected list follows walk order: the paths kept from walk
      `a + b` are those of `a` followed by those of `b`. */
  lemma {:induction false} SelectedAppend(accept: Verdict, a: seq<WalkDir>, b: seq<WalkDir>)
    ensures Selected(accept, a + b) == Selected(accept, a) + Selected(accept, b)
    decreases |b|
  {
    if b == [] {
      assert a + b == a;
    } else {
      var n := |b| - 1;
      assert (a + b)[..|a + b| - 1] == a + b[..n];
      assert (a + b)[|a + b| - 1] == b[n];
      SelectedAppend(accept, a, b[..n]);
      AppendAssoc(Selected(accept, a), Selected(accept, b[..n]), SelectedIn(accept, b[n].relDir, b[n].files));
    }
  }

  /** A path is kept from a directory exactly when some file of it is accepted
      by the classifier and has that relative path. */
  lemma {:induction false} SelectedInMembers(accept: Verdict, relDir: string, files: seq<WalkFile>, p: string)
    ensures p in SelectedIn(accept, relDir, files) <==>
            exists j :: 0 <= j < |files| && accept(relDir, files[j])
                        && RelativePath(relDir, files[j].name) == p
  {
    if files != [] {
      var n := |files| - 1;
      var init := files[..n];
      SelectedInMembers(accept, relDir, init, p);
      if p in SelectedIn(accept, relDir, files) {
        if p !in SelectedIn(accept, relDir, init) {
          assert accept(relDir, files[n]) && RelativePath(relDir, files[n].name) == p;
        } else {
          var j :| 0 <= j < |init| && accept(relDir, init[j]) && RelativePath(relDir, init[j].name) == p;
          assert files[j] == init[j];
        }
      } else {
        forall j | 0 <= j < |files|
          ensures !(accept(relDir, files[j]) && RelativePath(relDir, files[j].name) == p)
        {
          if j < n {
            assert files[j] == init[j];
          }
        }
      }
    }
  }

  /** Every accepted file of the walk contributes its relative path. */
  lemma {:induction false} SelectedComplete(accept: Verdict, walk: seq<WalkDir>, i: nat, j: nat)
    requires i < |walk| && j < |walk[i].files| && accept(walk[i].relDir, walk[i].files[j])
    ensures RelativePath(walk[i].relDir, walk[i].files[j].name) in Selected(accept, walk)
  {
    var n := |walk| - 1;
    var p := RelativePath(walk[i].relDir, walk[i].files[j].name);
    if i < n {
      assert walk[..n][i] == walk[i];
      SelectedComplete(accept, walk[..n], i, j);
    } else {
      SelectedInMembers(accept, walk[n].relDir, walk[n].files, p);
    }
  }

  /** Every collected path comes from an accepted file of the walk. */
  lemma {:induction false} SelectedSound(accept: Verdict, walk: seq<WalkDir>, p: string)
    requires p in Selected(accept, walk)
    ensures exists i, j :: 0 <= i < |walk| && 0 <= j < |walk[i].files|
                           && accept(walk[i].relDir, walk[i].files[j])
                           && RelativePath(walk[i].relDir, walk[i].files[j].name) == p
  {
    var n := |walk| - 1;
    var init := walk[..n];
    var d := walk[n];
    if p in Selected(accept, init) {
      SelectedSound(accept, init, p);
      var i, j :| 0 <= i < |init| && 0 <= j < |init[i].files|
                  && accept(init[i].relDir, init[i].files[j])
                  && RelativePath(init[i].relDir, init[i].files[j].name) == p;
      assert walk[i] == init[i];
    } else {
      SelectedInMembers(accept, d.relDir, d.files, p);
      var j :| 0 <= j < |d.files| && accept(d.relDir, d.files[j])
               && RelativePath(d.relDir, d.files[j].name) == p;
      assert walk[n] == d;
    }
  }

  /** A path is collected exactly when some accepted file of the walk has it
      as its relative path. */
  lemma SelectedMembers(accept: Verdict, walk: seq<WalkDir>, p: string)
    ensures p in Selected(accept, walk) <==>
            exists i, j :: 0 <= i < |walk| && 0 <= j < |walk[i].files|
                           && accept(walk[i].relDir, walk[i].files[j])
                           && RelativePath(walk[i].relDir, walk[i].files[j].name) == p
  {
    if p in Selected(accept, walk) {
      SelectedSound(accept, walk, p);
    } else {
      forall i, j | 0 <= i < |walk| && 0 <= j < |walk[i].files| && accept(walk[i].relDir, walk[i].files[j])
        ensures RelativePath(walk[i].relDir, walk[i].files[j].name) != p
      {
        SelectedComplete(accept, walk, i, j);
      }
    }
  }

  /** The number of files the walk lists, over all its directories. */
  function FileCount(walk: seq<WalkDir>): (n: nat) {
    if walk == [] then 0 else FileCount(walk[..|walk| - 1]) + |walk[|walk| - 1].files|
  }

  /** At most one path per walked file: |Selected| never exceeds the number of
      files in the walk. */
  lemma {:induction false} SelectedBounded(accept: Verdict, walk: seq<WalkDir>)
    ensures |Selected(accept, walk)| <= FileCount(walk)
  {
    if walk != [] {
      var d := walk[|walk| - 1];
      SelectedBounded(accept, walk[..|walk| - 1]);
      SelectedInBounded(accept, d.relDir, d.files);
    }
  }

  /** One directory contributes at most one path per file. */
  lemma {:induction false} SelectedInBounded(accept: Verdict, relDir: string, files: seq<WalkFile>)
    ensures |SelectedIn(accept, relDir, files)| <= |files|
  {
    if files != [] {
      SelectedInBounded(accept, relDir, files[..|files| - 1]);
    }
  }

  /** A walk that finds no files (an empty tree) collects nothing. */
  lemma {:induction false} NoFilesNothingSelected(accept: Verdict, walk: seq<WalkDir>)
    requires forall i :: 0 <= i < |walk| ==> walk[i].files == []
    ensures Selected(accept, walk) == []
  {
    if walk != [] {
      NoFilesNothingSelected(accept, walk[..|walk| - 1]);
    }
  }

  /** Every collected path names a walked file that `is_text_file` accepts,
      and every such file is collected. */
  lemma CollectedExactlyText(v: Variant, top: string, guess: MimeOracle, walk: seq<WalkDir>, p: string)
    ensures p in Selected(ClassifierVerdict(v, top, guess), walk) <==>
            exists i, j :: 0 <= i < |walk| && 0 <= j < |walk[i].files|
                           && IsTextFile(v, FilePath(top, walk[i].relDir, walk[i].files[j].name),
                                         guess(FilePath(top, walk[i].relDir, walk[i].files[j].name)),
                                         walk[i].files[j].content)
                           && RelativePath(walk[i].relDir, walk[i].files[j].name) == p
  {
    SelectedMembers(ClassifierVerdict(v, top, guess), walk, p);
  }

  /** `a` can be obtained from `b` by deleting elements (order kept). */
  predicate IsSubsequence(a: seq<string>, b: seq<string>) {
    if b == [] then a == []
    else
      IsSubsequence(a, b[..|b| - 1])
      || (a != [] && a[|a| - 1] == b[|b| - 1] && IsSubsequence(a[..|a| - 1], b[..|b| - 1]))
  }

  /** Subsequences concatenate: `a1 + a2` is a subsequence of `b1 + b2`. */
  lemma {:induction false} SubsequenceAppend(a1: seq<string>, b1: seq<string>, a2: seq<string>, b2: seq<string>)
    requires IsSubsequence(a1, b1) && IsSubsequence(a2, b2)
    ensures IsSubsequence(a1 + a2, b1 + b2)
    decreases |b2|
  {
    if b2 == [] {
      assert a1 + a2 == a1 && b1 + b2 == b1;
    } else {
      var m := |b2| - 1;
      assert (b1 + b2)[..|b1 + b2| - 1] == b1 + b2[..m];
      assert (b1 + b2)[|b1 + b2| - 1] == b2[m];
      if IsSubsequence(a2, b2[..m]) {
        SubsequenceAppend(a1, b1, a2, b2[..m]);
      } else {
        var k := |a2| - 1;
        assert (a1 + a2)[..|a1 + a2| - 1] == a1 + a2[..k];
        assert (a1 + a2)[|a1 + a2| - 1] == a2[k];
        SubsequenceAppend(a1, b1, a2[..k], b2[..m]);
      }
    }
  }

  /** Every list is a subsequence of itself. */
  lemma {:induction false} SubsequenceRefl(a: seq<string>)
    ensures IsSubsequence(a, a)
  {
    if a != [] {
      SubsequenceRefl(a[..|a| - 1]);
    }
  }

  /** A verdict that accepts more keeps a supersequence, in the same order. */
  lemma {:induction false} SelectedInMonotone(accept1: Verdict, accept2: Verdict, relDir: string, files: seq<WalkFile>)
    requires forall r, f :: accept1(r, f) ==> accept2(r, f)
    ensures IsSubsequence(SelectedIn(accept1, relDir, files), SelectedIn(accept2, relDir, files))
  {
    if files != [] {
      var f := files[|files| - 1];
      var init := files[..|files| - 1];
      SelectedInMonotone(accept1, accept2, relDir, init);
      var x1 := Kept(accept1, relDir, f);
      var x2 := Kept(accept2, relDir, f);
      if accept1(relDir, f) {
        SubsequenceRefl(x2);
      } else {
        assert IsSubsequence([], []);
      }
      assert IsSubsequence(x1, x2);
      SubsequenceAppend(SelectedIn(accept1, relDir, init), SelectedIn(accept2, relDir, init), x1, x2);
    }
  }

  /** Across the whole walk, a verdict that accepts more keeps a supersequence, in walk order. */
  lemma {:induction false} SelectedMonotone(accept1: Verdict, accept2: Verdict, walk: seq<WalkDir>)
    requires forall r, f :: accept1(r, f) ==> accept2(r, f)
    ensures IsSubsequence(Selected(accept1, walk), Selected(accept2, walk))
  {
    if walk != [] {
      var d := walk[|walk| - 1];
      SelectedMonotone(accept1, accept2, walk[..|walk| - 1]);
      SelectedInMonotone(accept1, accept2, d.relDir, d.files);
      SubsequenceAppend(Selected(accept1, walk[..|walk| - 1]), Selected(accept2, walk[..|walk| - 1]),
                        SelectedIn(accept1, d.relDir, d.files), SelectedIn(accept2, d.relDir, d.files));
    }
  }

  /** The packaged variant collects every path the script collects, in the
      same relative order, and possibly more (`.rs` files). */
  lemma PackageCollectsScriptFiles(top: string, guess: MimeOracle, walk: seq<WalkDir>)
    ensures IsSubsequence(Selected(ClassifierVerdict(Script, top, guess), walk),
                          Selected(ClassifierVerdict(Package, top, guess), walk))
  {
    forall r, f | ClassifierVerdict(Script, top, guess)(r, f)
      ensures ClassifierVerdict(Package, top, guess)(r, f)
    {
      var p := FilePath(top, r, f.name);
      PackageExtendsScript(p, guess(p), f.content);
    }
    SelectedMonotone(ClassifierVerdict(Script, top, guess), ClassifierVerdict(Package, top, guess), walk);
  }
}
