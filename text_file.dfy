/**
 * A text file as Python's `open(path, 'r')` / `open(path, 'w')` see it on a
 * POSIX system: what was written is the concatenation of the `write` calls,
 * and iterating the file for reading yields its lines, after universal-newline
 * translation, each with its terminating "\n" (the last one may lack it).
 */
module TextFile {
  import opened Text

  /** The file contents after the given `write` calls, in order. */
  function Concat(chunks: seq<string>): string {
    if chunks == [] then [] else chunks[0] + Concat(chunks[1..])
  }

  lemma {:induction false} ConcatExcludes(chunks: seq<string>, c: char)
    requires forall i :: 0 <= i < |chunks| ==> c !in chunks[i]
    ensures c !in Concat(chunks)
  {
    if chunks != [] {
      ConcatExcludes(chunks[1..], c);
    }
  }

  /** Universal newlines on reading: "\r\n" and a lone "\r" both read as "\n". */
  function TranslateNewlines(s: string): (r: string)
    ensures '\r' !in r
    ensures '\r' !in s ==> r == s
  {
    if s == [] then []
    else if s[0] == '\r' then "\n" + TranslateNewlines(if |s| > 1 && s[1] == '\n' then s[2..] else s[1..])
    else [s[0]] + TranslateNewlines(s[1..])
  }

  /** A piece of text that reads back as exactly one line. */
  predicate IsLine(l: string) {
    l != [] && l[|l| - 1] == '\n' && '\n' !in l[..|l| - 1]
  }

  /** Splitting translated text into the lines `for line in f` yields. */
  function SplitLines(s: string): (lines: seq<string>)
    ensures Concat(lines) == s
    ensures forall i :: 0 <= i < |lines| ==> lines[i] != [] && '\n' !in lines[i][..|lines[i]| - 1]
    ensures forall i :: 0 <= i < |lines| - 1 ==> IsLine(lines[i])
    decreases |s|
  {
    if s == [] then []
    else if '\n' in s then
      var i := IndexOf(s, '\n');
      var head, rest := s[..i + 1], SplitLines(s[i + 1..]);
      var lines := [head] + rest;
      assert lines[0] == head && lines[1..] == rest;
      assert head[..|head| - 1] == s[..i];
      assert IsLine(head);
      assert s == head + s[i + 1..];
      assert Concat(lines) == head + Concat(rest);
      assert forall j :: 1 <= j < |lines| ==> lines[j] == rest[j - 1];
      lines
    else [s]
  }

  /** The lines Python yields when iterating a file whose contents are `text`. */
  function ReadLines(text: string): seq<string> {
    SplitLines(TranslateNewlines(text))
  }

  /** Writing whole lines and reading the file back yields those same lines. */
  lemma {:induction false} SplitConcat(chunks: seq<string>)
    requires forall i :: 0 <= i < |chunks| ==> IsLine(chunks[i])
    ensures SplitLines(Concat(chunks)) == chunks
  {
    if chunks != [] {
      var c := chunks[0];
      var s := Concat(chunks);
      assert s == c + Concat(chunks[1..]);
      assert s[|c| - 1] == '\n';
      var i := IndexOf(s, '\n');
      assert i == |c| - 1 by {
        assert s[..|c| - 1] == c[..|c| - 1];
      }
      assert s[..i + 1] == c;
      assert s[i + 1..] == Concat(chunks[1..]);
      SplitConcat(chunks[1..]);
    }
  }
}
