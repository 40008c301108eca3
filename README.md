# dum.py — a Dafny model of the text-file summariser

`dum.py` walks a directory tree, keeps the files it judges to be text, and
writes every kept file into `code_summary.txt` in the scanned directory. Each
file gets a section with a `File: <path>` header, a line of 80 dashes, the
content, and a line of 80 equals signs. The repository has two copies of the
script. `dum.py` is the stand-alone one. `dumpy/dum.py` is the packaged one:
it also trusts `.rs` files and returns the path of the summary it wrote.

This project models the three decision pieces of both copies, with the
filesystem replaced by inputs:

- `strings.dfy` (module `Strings`): Python's `str.startswith` and
  `str.endswith`, `c * n`, and `os.path.join` with POSIX semantics for two
  arguments.
- `classifier.dfy` (module `Classifier`): `is_text_file` as one pure
  function of the variant (`Script` for `dum.py`, `Package` for
  `dumpy/dum.py`), the path, the MIME guess (`Option<string>`) and the outcome
  of reading the file's bytes (`Bytes(content)` or `ReadError(message)`).
  The guess uses Python truthiness, so an empty guess counts as no guess.
- `collector.dfy` (module `Collector`): `collect_text_files` as two methods,
  one per loop of the source. The inner loop, over one directory's files, is
  its own method. Together they are proved equal to `Selected`, an
  order-preserving filter of the walk.
  - The walk is given as the sequence of `(root, dirs, files)` directories
    that `os.walk` yields. Each directory is named relative to the top
    (`""` for the top itself), and each file carries its byte-read outcome.
  - `mimetypes.guess_type` is an oracle from paths to `Option<string>`. It is
    asked about the same joined path that the classifier receives.
- `summary.dfy` (module `Summary`): `write_code_summary` as a method.
  - The summary file is an `OutputFile` object whose `Write` appends to
    `contents`.
  - Reading a kept file as text is a second oracle on its path, because the
    file may have changed or vanished since it was classified.
  - The method returns the summary path and the text written, and it is proved
    equal to `SummaryText`, the concatenation of one `Section` per path.

Two facts about the code shape the model:
- Only `dumpy/dum.py` trusts a suffix, and only `.rs` (dumpy/dum.py:18).
- The summary always goes to `code_summary.txt` in the scanned directory
  (dum.py:67). For an empty tree that file is written empty (dum.py:69-70).

## Model

| member | source | states |
|---|---|---|
| `Classifier.IsTextFile` | dum.py:17-34 | A trusted path (`.rs` in the packaged variant) is text. Any other path is text exactly when the MIME guess does not say binary, the read succeeded, and no 0x00 byte is among the first 1024 bytes. |
| `Classifier.Sample` | dum.py:26 | `file.read(1024)` gives a prefix of the content of length min(1024, length). |
| `Classifier.BinaryMimeSkipsRead` | dum.py:18-21 | A present, non-empty guess outside `text/` gives false, and the read outcome cannot change that. |
| `Classifier.SampleDecides` | dum.py:24-30 | With no guess or a `text/` guess, a readable file is text iff none of its first min(1024, len) bytes is NUL. |
| `Classifier.BytesPastSampleIgnored` | dum.py:26-27 | Changing any byte at offset 1024 or later (to NUL or anything else) never changes the verdict. |
| `Classifier.EmptyFileIsText` | dum.py:26-30 | A zero-length readable file is text unless the guess says binary. |
| `Classifier.ReadErrorIsNotText` | dum.py:31-34 | A read failure yields false, never true. |
| `Classifier.RustSourceAlwaysText` | dumpy/dum.py:17-19 | In the packaged variant a path ending in `.rs` is text whatever the guess, the NUL bytes or the read outcome. |
| `Classifier.PackageExtendsScript` | dumpy/dum.py:17-33 | Off `.rs` paths the two variants agree, so the MIME, NUL-prefix and read-error rules hold for `dumpy/dum.py` too. Everywhere, the packaged classifier accepts whatever the script's accepts. |
| `Strings.JoinPathShape` | dum.py:67 | `os.path.join(dir, name)` ends with `name`. For a relative `name` it starts with `dir`, and it is `dir + "/" + name` when `dir` is non-empty and does not end with `/`. |
| `Strings.Repeat` | dum.py:73 | `'-' * 80` has length 80 and every character is `-`. |
| `Collector.CollectTextFiles` | dum.py:46-57 | The outer loop over the walk returns exactly `Selected(ClassifierVerdict(...), walk)`: the accepted files' relative paths, in walk order. |
| `Collector.CollectFromDirectory` | dum.py:50-55 | The inner loop over one directory's files appends exactly `SelectedIn(...)` to the list so far: each accepted file's relative path, in listing order. |
| `Collector.SelectedInAppend` | dum.py:50-55 | Within one directory, the paths kept from files `a + b` are those kept from `a` followed by those kept from `b`. |
| `Collector.SelectedAppend` | dum.py:49-55 | The collected list follows walk order: the paths from walk `a + b` are those of `a` followed by those of `b`. |
| `Collector.SelectedInMembers` | dum.py:50-55 | A path is kept from a directory iff some file there is accepted and has that relative path. |
| `Collector.SelectedMembers` | dum.py:49-55 | A path is collected iff some walked file is accepted and has that relative path. Nothing else is collected, and no accepted file is dropped. |
| `Collector.CollectedExactlyText` | dumpy/dum.py:40-47 | The membership statement with the verdict spelled out: every collected entry satisfies `is_text_file` on its joined path, and every walked file that does is collected. |
| `Collector.SelectedBounded` | dum.py:46-57 | The collected list has at most one entry per walked file. |
| `Collector.SelectedInBounded` | dum.py:50-55 | One directory contributes at most one entry per file. |
| `Collector.NoFilesNothingSelected` | dum.py:46-57 | A walk with no files (an empty tree) collects nothing. |
| `Collector.SelectedMonotone` | dum.py:49-55 | A verdict that accepts more collects a supersequence: the same entries in the same order, plus possibly others. |
| `Collector.PackageCollectsScriptFiles` | dumpy/dum.py:17-47 | The packaged variant collects every path the script collects, in the same relative order. |
| `Summary.WriteSection` | dum.py:72-81 | One loop iteration appends exactly `Section(path, read)` to the summary file. |
| `Summary.WriteCodeSummary` | dumpy/dum.py:49-66 | The text written is `SummaryText(dir, read, textFiles)`, and the returned path is `os.path.join(dir, 'code_summary.txt')`. |
| `Summary.SummaryPathInDir` | dumpy/dum.py:53 | The summary path starts with `dir` and ends with `code_summary.txt`. When `dir` needs a separator, it ends with `/code_summary.txt`. |
| `Summary.SummaryAppend` | dum.py:70-81 | The summary of paths `a + b` is the summary of `a` followed by that of `b`. |
| `Summary.SectionAt` | dumpy/dum.py:55-64 | There is one section per input path, in input order. The i-th path's section sits between the summaries of the paths before it and the paths after it. |
| `Summary.SectionFraming` | dum.py:72-81 | Each section opens with `File: <p>\n` and 80 dashes plus `\n`, and closes with `\n`, 80 `=` and `\n\n`, whatever the read gave. |
| `Summary.SectionLength` | dum.py:72-81 | A section is its path and its body plus 171 characters of framing. |
| `Summary.FailedReadKeepsSection` | dumpy/dum.py:59-64 | A failed read still produces a complete section, with `Error reading file: <e>\n` in place of the content. |
| `Summary.SummarySize` | dum.py:69-81 | N paths produce at least N × 171 characters, and the summary is empty exactly when there are no paths. |

## Left out

- `main` in both copies (argument checks, `os.path.abspath`, `os.path.isdir`, `print`, `sys.exit`): process control and I/O.
- The `print` of a classification read error (dum.py:33, dumpy/dum.py:31): a diagnostic. If the print itself raises (a path that stdout cannot encode), the exception escapes `is_text_file`, `collect_text_files` and `main` and aborts the run before any summary is written; the model does not capture that abort and returns false instead.
- `mimetypes.guess_type`: a platform table, taken as an oracle on the path.
- `os.walk` itself and its listing order: the walk is an input sequence. Subdirectory lists only steer the walk, so they are not modelled.
- Collector.RelativePath: `os.path.relpath` is modelled as `relDir + "/" + name` (just `name` at the top). This assumes the walked paths are already normalised, with no `.`, `..` or doubled separators.
- File opening and UTF-8 decoding with `errors='replace'`: content is an already-decoded string, and exception text is an opaque message. The `errors='replace'` on the summary file's own encoding is not modelled either.
- Summary.WriteCodeSummary: for `dum.py` the model also returns the summary path, which that copy computes but does not return.
- Summary.WriteCodeSummary: the read of a listed file is a function of its path fixed before the first write, so the model cannot tie it to the summary being written. On a second run over the same directory, the old `code_summary.txt` (a NUL-free `.txt` file) is among the collected paths. `open(summary_path, 'w')` truncates it (dum.py:69, dumpy/dum.py:54) before the loop, and its own section then reads back whatever part of the new summary has been flushed so far (dum.py:76-77, dumpy/dum.py:60-61). The model leaves that section's content unconstrained.
- Summary.WriteCodeSummary: `OutputFile`'s constructor and `Write` cannot fail, so the model does not capture the output's failure paths. A failure to open `code_summary.txt` (dum.py:69, dumpy/dum.py:54), such as a read-only directory or a directory of that name, raises with nothing written. A failed framing write (dum.py:72, 73, 81; dumpy/dum.py:57, 58, 64), for example a full disk, raises and leaves on disk whatever was already flushed. A failed content write (dum.py:77, dumpy/dum.py:61) is caught by the `except` at dum.py:78 (dumpy/dum.py:62) and reported in the summary as `Error reading file: <e>`, as if the read had failed.
- Opening a file that blocks, such as a named pipe (FIFO) listed by `os.walk`, is not modelled: every read in the model returns content or an error. In the source, `open(file_path, 'rb')` (dum.py:25, dumpy/dum.py:26) on a FIFO without a binary MIME guess waits for a writer, so `collect_text_files` never returns. In `dumpy/dum.py` a FIFO named `*.rs` is trusted unread and then blocks at the text read in `write_code_summary` (dumpy/dum.py:60).
- `setup.py`: packaging metadata with no logic.
