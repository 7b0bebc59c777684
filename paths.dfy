/** POSIX `os.path.join`, as the dataset handler uses it to build file paths. */
module Paths {
  import opened Strings

  /** `os.path.join(a, b)`: an absolute `b` replaces `a`; a `/` is inserted unless `a` is empty
      or already ends with one. */
  function Join2(a: string, b: string): string
  {
    if |b| > 0 && b[0] == '/' then b
    else if |a| == 0 || a[|a| - 1] == '/' then a + b
    else a + "/" + b
  }

  /** `os.path.join(a, *rest)`: components joined from left to right. */
  function JoinPath(a: string, rest: seq<string>): string
    decreases |rest|
  {
    if |rest| == 0 then a else JoinPath(Join2(a, rest[0]), rest[1..])
  }

  lemma JoinPathTwo(a: string, b: string, c: string)
    ensures JoinPath(a, [b, c]) == Join2(Join2(a, b), c)
  {
    assert [b, c][1..] == [c];
    assert [c][1..] == [];
    assert JoinPath(a, [b, c]) == JoinPath(Join2(a, b), [c]);
    assert JoinPath(Join2(a, b), [c]) == JoinPath(Join2(Join2(a, b), c), []);
  }

  lemma JoinPathThree(a: string, b: string, c: string, d: string)
    ensures JoinPath(a, [b, c, d]) == Join2(Join2(Join2(a, b), c), d)
  {
    assert [b, c, d][1..] == [c, d];
    JoinPathTwo(Join2(a, b), c, d);
  }

  /** A component that does not start with `/`. */
  predicate Relative(b: string)
  {
    |b| == 0 || b[0] != '/'
  }

  /** After a non-empty directory that does not end in `/`, a relative component adds its own
      pieces to the directory's. */
  lemma JoinPieces(a: string, b: string)
    requires |a| > 0 && a[|a| - 1] != '/' && Relative(b)
    ensures Join2(a, b) == a + "/" + b
    ensures Split(Join2(a, b), '/') == Split(a, '/') + Split(b, '/')
  {
    SplitConcat(a, b, '/');
  }

  /** A relative component without `/` is the last piece (the file name) of the joined path. */
  lemma JoinLastPiece(a: string, b: string)
    requires Relative(b) && '/' !in b
    ensures LastPiece(Join2(a, b), '/') == b
  {
    SplitNoSeparator(b, '/');
    if |a| == 0 {
      assert Join2(a, b) == b;
    } else if a[|a| - 1] == '/' {
      var front := a[..|a| - 1];
      assert Join2(a, b) == front + ['/'] + b;
      SplitConcat(front, b, '/');
    } else {
      SplitConcat(a, b, '/');
    }
  }
}
