/**
 * The line the probe prints for the server's host key: the base64 text of
 * the key blob, the key's type name and its fingerprint, separated by single
 * spaces and ended by a newline. Parse is its inverse; the round-trip lemmas
 * say that the three fields can be recovered from the printed text, and that
 * a line that parses is exactly one such rendering.
 */
module KeyLine {
  import opened Wrappers

  datatype KeyLineFields = KeyLineFields(blob: string, algorithm: string, fingerprint: string)

  /** The text written by the two writes of the key line. */
  function Render(f: KeyLineFields): string {
    f.blob + " " + f.algorithm + " " + f.fingerprint + "\n"
  }

  /** A field holds no separator: no space and no line break. */
  predicate IsField(s: string) {
    ' ' !in s && '\n' !in s
  }

  predicate WellFormed(f: KeyLineFields) {
    IsField(f.blob) && IsField(f.algorithm) && IsField(f.fingerprint)
  }

  /** The pieces of s between occurrences of sep, in order (always at least one). */
  function SplitOn(s: string, sep: char): (parts: seq<string>)
    ensures |parts| >= 1
  {
    if s == [] then [[]]
    else
      var rest := SplitOn(s[1..], sep);
      if s[0] == sep then [[]] + rest
      else [[s[0]] + rest[0]] + rest[1..]
  }

  /** The pieces glued back together with sep between them. */
  function Join(parts: seq<string>, sep: char): string
    requires |parts| >= 1
  {
    if |parts| == 1 then parts[0] else parts[0] + [sep] + Join(parts[1..], sep)
  }

  /** The fields of a printed key line, or None if the text is not one key line. */
  function Parse(line: string): Option<KeyLineFields> {
    if |line| == 0 || line[|line| - 1] != '\n' then None
    else
      var body := line[..|line| - 1];
      if '\n' in body then None
      else
        var parts := SplitOn(body, ' ');
        if |parts| != 3 then None
        else Some(KeyLineFields(parts[0], parts[1], parts[2]))
  }

  /** Splitting a text without the separator gives the text itself. */
  lemma {:induction false} SplitOnNoSep(s: string, sep: char)
    requires sep !in s
    ensures SplitOn(s, sep) == [s]
  {
    if s != [] {
      SplitOnNoSep(s[1..], sep);
      assert [s[0]] + s[1..] == s;
    }
  }

  /** A separator after a separator-free prefix splits off exactly that prefix. */
  lemma {:induction false} SplitOnAppend(a: string, sep: char, b: string)
    requires sep !in a
    ensures SplitOn(a + [sep] + b, sep) == [a] + SplitOn(b, sep)
  {
    var s := a + [sep] + b;
    if a == [] {
      assert s[1..] == b;
    } else {
      assert s[1..] == a[1..] + [sep] + b;
      SplitOnAppend(a[1..], sep, b);
      assert [a[0]] + a[1..] == a;
    }
  }

  /** No piece of a split contains the separator. */
  lemma {:induction false} SplitOnPiecesSepFree(s: string, sep: char)
    ensures forall i :: 0 <= i < |SplitOn(s, sep)| ==> sep !in SplitOn(s, sep)[i]
  {
    if s != [] {
      SplitOnPiecesSepFree(s[1..], sep);
    }
  }

  lemma JoinCons(c: char, parts: seq<string>, sep: char)
    requires |parts| >= 1
    ensures Join([[c] + parts[0]] + parts[1..], sep) == [c] + Join(parts, sep)
  {
    var q := [[c] + parts[0]] + parts[1..];
    assert q[1..] == parts[1..];
  }

  /** Joining the pieces of a split gives the text back. */
  lemma {:induction false} JoinSplitOn(s: string, sep: char)
    ensures Join(SplitOn(s, sep), sep) == s
  {
    if s != [] {
      var rest := SplitOn(s[1..], sep);
      JoinSplitOn(s[1..], sep);
      if s[0] == sep {
        assert ([[]] + rest)[1..] == rest;
      } else {
        JoinCons(s[0], rest, sep);
      }
      assert [s[0]] + s[1..] == s;
    }
  }

  /** The printed line of well-formed fields parses back to those fields. */
  lemma ParseRender(f: KeyLineFields)
    requires WellFormed(f)
    ensures Parse(Render(f)) == Some(f)
  {
    var line := Render(f);
    var body := f.blob + " " + f.algorithm + " " + f.fingerprint;
    assert line == body + "\n";
    assert line[..|line| - 1] == body;
    SplitOnNoSep(f.fingerprint, ' ');
    SplitOnAppend(f.algorithm, ' ', f.fingerprint);
    assert f.blob + " " + (f.algorithm + " " + f.fingerprint) == body;
    SplitOnAppend(f.blob, ' ', f.algorithm + " " + f.fingerprint);
  }

  /** A text that parses is exactly the printed line of well-formed fields. */
  lemma RenderParse(line: string, f: KeyLineFields)
    requires Parse(line) == Some(f)
    ensures WellFormed(f) && Render(f) == line
  {
    var body := line[..|line| - 1];
    var parts := SplitOn(body, ' ');
    JoinSplitOn(body, ' ');
    SplitOnPiecesSepFree(body, ' ');
    assert parts[1..][1..] == [parts[2]];
    assert Join(parts[1..], ' ') == parts[1] + " " + parts[2];
    assert body == parts[0] + " " + parts[1] + " " + parts[2];
    assert line == body + "\n";
  }
}
