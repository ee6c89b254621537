/** Text made of lines: each line ended by a newline, and Python's
    `str.split('\n')` that takes such text apart again. */
module Lines {

  /** The text of a list of lines, each ended by a newline. */
  function Text(lines: seq<string>): string {
    if lines == [] then "" else lines[0] + "\n" + Text(lines[1..])
  }

  /** Python's `s.split('\n')`: the pieces between newlines, so one more
      piece than there are newlines. */
  function SplitLines(s: string): (pieces: seq<string>)
    ensures |pieces| >= 1
    ensures forall p :: p in pieces ==> '\n' !in p
    decreases |s|
  {
    if s == [] then [""]
    else
      var rest := SplitLines(s[1..]);
      if s[0] == '\n' then [""] + rest
      else [[s[0]] + rest[0]] + rest[1..]
  }

  /** Text without a newline is a single piece. */
  lemma {:induction false} SplitLinesOneLine(s: string)
    ensures (forall i :: 0 <= i < |s| ==> s[i] != '\n') ==> SplitLines(s) == [s]
  {
    if s != [] && forall i :: 0 <= i < |s| ==> s[i] != '\n' {
      assert forall i :: 0 <= i < |s[1..]| ==> s[1..][i] != '\n';
      SplitLinesOneLine(s[1..]);
      assert [s[0]] + s[1..] == s;
    }
  }

  lemma {:induction false} TextAppend(a: seq<string>, b: seq<string>)
    ensures Text(a + b) == Text(a) + Text(b)
  {
    if a == [] {
      assert a + b == b;
    } else {
      assert (a + b)[0] == a[0];
      assert (a + b)[1..] == a[1..] + b;
      TextAppend(a[1..], b);
    }
  }

  lemma {:induction false} SplitLinesAfterLine(line: string, rest: string)
    requires '\n' !in line
    ensures SplitLines(line + "\n" + rest) == [line] + SplitLines(rest)
    decreases |line|
  {
    var s := line + "\n" + rest;
    if line == [] {
      assert s == "\n" + rest;
      assert s[1..] == rest;
    } else {
      assert s[0] == line[0];
      assert s[1..] == line[1..] + "\n" + rest;
      SplitLinesAfterLine(line[1..], rest);
      assert [line[0]] + line[1..] == line;
    }
  }

  /** Splitting the text of newline-free lines gives the lines back,
      followed by the empty piece after the last newline. */
  lemma {:induction false} SplitText(lines: seq<string>)
    requires forall l :: l in lines ==> '\n' !in l
    ensures SplitLines(Text(lines)) == lines + [""]
  {
    if lines != [] {
      SplitLinesAfterLine(lines[0], Text(lines[1..]));
      SplitText(lines[1..]);
      assert lines == [lines[0]] + lines[1..];
    }
  }
}
