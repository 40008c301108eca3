/** String helpers the script relies on from Python: `str.startswith`,
    `str.endswith`, string repetition (`'-' * 80`) and `os.path.join` for two
    arguments with POSIX semantics. */
module Strings {

  /** Regrouping appends, for proofs that build a result piece by piece. */
  lemma AppendAssoc<T>(x: seq<T>, y: seq<T>, z: seq<T>)
    ensures (x + y) + z == x + (y + z)
  {
  }

  /** `s.startswith(prefix)` */
  predicate StartsWith(s: string, prefix: string) {
    |prefix| <= |s| && s[..|prefix|] == prefix
  }

  /** `s.endswith(suffix)` */
  predicate EndsWith(s: string, suffix: string) {
    |suffix| <= |s| && s[|s| - |suffix|..] == suffix
  }

  /** `c * n` for a one-character string `c`. */
  function Repeat(c: char, n: nat): (r: string)
    ensures |r| == n
    ensures forall i :: 0 <= i < n ==> r[i] == c
  {
    seq(n, _ => c)
  }

  /** `os.path.join(a, b)` on POSIX: an absolute `b` discards `a`; otherwise
      `b` is appended to `a`, with one '/' in between unless `a` is empty or
      already ends with '/'. */
  function JoinPath(a: string, b: string): (joined: string) {
    if StartsWith(b, "/") then b
    else if a == "" || EndsWith(a, "/") then a + b
    else a + "/" + b
  }

  /** The joined path ends with `b`; for a relative `b` it starts with `a`,
      and a separator stands between them when `a` needs one. */
  lemma JoinPathShape(a: string, b: string)
    ensures EndsWith(JoinPath(a, b), b)
    ensures !StartsWith(b, "/") ==> StartsWith(JoinPath(a, b), a)
    ensures !StartsWith(b, "/") && a != "" && !EndsWith(a, "/") ==>
              JoinPath(a, b) == a + "/" + b && |JoinPath(a, b)| == |a| + 1 + |b|
  {
    if !StartsWith(b, "/") {
      if a == "" || EndsWith(a, "/") {
        assert (a + b)[|a + b| - |b|..] == b;
        assert (a + b)[..|a|] == a;
      } else {
        assert (a + "/" + b)[|a + "/" + b| - |b|..] == b;
        assert (a + "/" + b)[..|a|] == a;
      }
    }
  }
}
