/** `is_text_file` of both variants of the script. The filesystem is replaced
    by inputs: the MIME guess that `mimetypes.guess_type` would return, and
    the outcome of opening the file and reading it as bytes. */
module Classifier {
  import opened Strings

  type byte = bv8

  datatype Option<T> = None | Some(value: T)

  /** Which copy of the script: `dum.py` (Script) or `dumpy/dum.py` (Package).
      Only the packaged copy trusts the `.rs` suffix. */
  datatype Variant = Script | Package

  /** Opening the file in binary mode: its whole content, or the exception. */
  datatype ByteRead = Bytes(content: seq<byte>) | ReadError(message: string)

  /** The number of bytes `file.read(1024)` asks for. */
  const SampleSize: nat := 1024

  const RustSuffix := ".rs"
  const TextMimePrefix := "text/"

  /** The packaged variant returns true at once for a path ending in `.rs`. */
  predicate Trusts(v: Variant, path: string) {
    v == Package && EndsWith(path, RustSuffix)
  }

  /** `mime_type and not mime_type.startswith('text/')`: a guess that exists,
      is non-empty (Python truthiness) and is outside the `text/` family. */
  predicate MimeSaysBinary(mime: Option<string>) {
    mime.Some? && mime.value != "" && !StartsWith(mime.value, TextMimePrefix)
  }

  /** `file.read(1024)`: at most the first 1024 bytes. */
  function Sample(content: seq<byte>): (chunk: seq<byte>)
    ensures |chunk| <= SampleSize
    ensures chunk <= content
    ensures |chunk| == if |content| < SampleSize then |content| else SampleSize
  {
    if |content| <= SampleSize then content else content[..SampleSize]
  }

  /** No byte 0x00 among the first `n` bytes of `s`. */
  predicate NulFreePrefix(s: seq<byte>, n: nat) {
    forall i :: 0 <= i < |s| && i < n ==> s[i] != 0
  }

  /** The classifier: an ordered decision with early returns. */
  function IsTextFile(v: Variant, path: string, mime: Option<string>, read: ByteRead): (r: bool)
    ensures Trusts(v, path) ==> r
    ensures !Trusts(v, path) ==>
              (r <==> !MimeSaysBinary(mime) && read.Bytes? && NulFreePrefix(read.content, SampleSize))
  {
    if Trusts(v, path) then true
    else if MimeSaysBinary(mime) then false
    else match read
      case ReadError(_) => false
      case Bytes(content) => !(0 in Sample(content))
  }

  /** A binary MIME guess decides on its own: the content is never consulted. */
  lemma BinaryMimeSkipsRead(v: Variant, path: string, mime: Option<string>, read1: ByteRead, read2: ByteRead)
    requires !Trusts(v, path) && MimeSaysBinary(mime)
    ensures !IsTextFile(v, path, mime, read1)
    ensures IsTextFile(v, path, mime, read1) == IsTextFile(v, path, mime, read2)
  {
  }

  /** With no guess or a `text/` guess, a readable file is text exactly when
      its first min(1024, length) bytes hold no NUL. */
  lemma SampleDecides(v: Variant, path: string, mime: Option<string>, content: seq<byte>)
    requires !Trusts(v, path) && !MimeSaysBinary(mime)
    ensures IsTextFile(v, path, mime, Bytes(content)) <==>
            forall i :: 0 <= i < |content| && i < SampleSize ==> content[i] != 0
  {
  }

  /** Only the sampled prefix matters: a byte at offset 1024 or later, NUL or
      not, never changes the verdict. */
  lemma BytesPastSampleIgnored(v: Variant, path: string, mime: Option<string>, content: seq<byte>, k: nat, b: byte)
    requires SampleSize <= k < |content|
    ensures IsTextFile(v, path, mime, Bytes(content[k := b])) == IsTextFile(v, path, mime, Bytes(content))
  {
    assert Sample(content[k := b]) == Sample(content);
  }

  /** An empty readable file is text unless the MIME guess says binary. */
  lemma EmptyFileIsText(v: Variant, path: string, mime: Option<string>)
    requires !MimeSaysBinary(mime)
    ensures IsTextFile(v, path, mime, Bytes([]))
  {
  }

  /** A read failure gives "not text", never "text". */
  lemma ReadErrorIsNotText(v: Variant, path: string, mime: Option<string>, message: string)
    requires !Trusts(v, path)
    ensures !IsTextFile(v, path, mime, ReadError(message))
  {
  }

  /** In the packaged variant a `.rs` path is text whatever the guess, the
      bytes or the read outcome. */
  lemma RustSourceAlwaysText(path: string, mime: Option<string>, read: ByteRead)
    requires EndsWith(path, RustSuffix)
    ensures IsTextFile(Package, path, mime, read)
  {
  }

  /** Off `.rs` paths the two variants agree, so every property of the
      script's classifier carries over to the packaged one; on all paths the
      packaged classifier accepts at least what the script's accepts. */
  lemma PackageExtendsScript(path: string, mime: Option<string>, read: ByteRead)
    ensures !EndsWith(path, RustSuffix) ==>
              IsTextFile(Package, path, mime, read) == IsTextFile(Script, path, mime, read)
    ensures IsTextFile(Script, path, mime, read) ==> IsTextFile(Package, path, mime, read)
  {
  }
}
