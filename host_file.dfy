/** readFile (cs/cs.go): the lines of a hosts file or a script file, each
    with its terminating newline, comment lines left out. The file's bytes
    are given as text; opening the file is part of the caller's model. */
module HostFile {
  import opened GoStrings

  /** bufio.Reader.ReadString('\n') on the unread text: everything up to and
      including the first newline, or all that is left when there is none
      ("" once the input is used up). */
  function NextLine(rest: string): (line: string)
    ensures |line| <= |rest| && line == rest[..|line|]
    ensures rest != [] ==> line != []
    decreases |rest|
  {
    if rest == [] then ""
    else if rest[0] == '\n' then "\n"
    else [rest[0]] + NextLine(rest[1..])
  }

  /** The line read holds a newline only as its last character, and runs to
      the end of the input when it holds none. */
  lemma {:induction false} NextLineShape(rest: string)
    ensures var line := NextLine(rest);
            ('\n' in line ==> line[|line| - 1] == '\n') &&
            (forall k :: 0 <= k < |line| - 1 ==> line[k] != '\n') &&
            ('\n' !in line ==> line == rest)
    decreases |rest|
  {
    if rest != [] && rest[0] != '\n' {
      NextLineShape(rest[1..]);
      var tail := NextLine(rest[1..]);
      var line := [rest[0]] + tail;
      assert forall k :: 1 <= k < |line| ==> line[k] == tail[k - 1];
      assert '\n' in line ==> '\n' in tail;
    }
  }

  /** The successive results of ReadString until the input is used up. */
  function Lines(text: string): seq<string>
    decreases |text|
  {
    if text == [] then []
    else
      var line := NextLine(text);
      [line] + Lines(text[|line|..])
  }

  /** The comment test of readFile: the line starts with '#'. */
  predicate IsComment(line: string) {
    HasPrefix(line, "#")
  }

  /** The lines that readFile keeps, in their order. */
  function Uncommented(lines: seq<string>): seq<string> {
    if lines == [] then []
    else if IsComment(lines[0]) then Uncommented(lines[1..])
    else [lines[0]] + Uncommented(lines[1..])
  }

  /** readFile: read line after line, skip comments, stop at the empty read
      that marks the end of the input. The reader is the text not read yet. */
  method ReadFile(text: string) returns (s: seq<string>)
    ensures s == Uncommented(Lines(text))
  {
    s := [];
    var unread := text;
    while true
      invariant s + Uncommented(Lines(unread)) == Uncommented(Lines(text))
      decreases |unread|
    {
      var line := NextLine(unread);
      ghost var later := ReadStep(unread);
      unread := unread[|line|..];
      if IsComment(line) {
        continue;
      } else if line == "" {
        break;
      }
      s := s + [line];
    }
  }

  /** One read of the loop: the line read is empty exactly at the end of the
      text; otherwise the loop keeps or skips it and reads on after it. */
  lemma ReadStep(unread: string) returns (later: seq<string>)
    ensures var line := NextLine(unread);
            later == Uncommented(Lines(unread[|line|..])) &&
            (line == "" <==> unread == []) &&
            (line == "" ==> Uncommented(Lines(unread)) == []) &&
            (line != "" ==> |unread[|line|..]| < |unread|) &&
            (line != "" && IsComment(line) ==> Uncommented(Lines(unread)) == later) &&
            (line != "" && !IsComment(line) ==> Uncommented(Lines(unread)) == [line] + later)
  {
    later := Uncommented(Lines(unread[|NextLine(unread)|..]));
  }

  /** Nothing of the input is lost: the lines put back together are the text,
      so reading goes on past blank lines and stops only at the end. */
  lemma {:induction false} LinesConcat(text: string)
    ensures Concat(Lines(text)) == text
    decreases |text|
  {
    if text != [] {
      var line := NextLine(text);
      var rest := text[|line|..];
      LinesConcat(rest);
      var ls := [line] + Lines(rest);
      assert Lines(text) == ls;
      assert ls[0] == line && ls[1..] == Lines(rest);
      assert Concat(ls) == line + Concat(Lines(rest));
      assert text == line + rest;
    }
  }

  /** Each line is non-empty, contains a newline only as its last character,
      and every line but the last one ends with its newline. */
  lemma {:induction false} LinesShape(text: string)
    ensures forall i :: 0 <= i < |Lines(text)| ==> Lines(text)[i] != []
    ensures forall i, k :: 0 <= i < |Lines(text)| && 0 <= k < |Lines(text)[i]| - 1 ==> Lines(text)[i][k] != '\n'
    ensures forall i :: 0 <= i < |Lines(text)| - 1 ==> Lines(text)[i][|Lines(text)[i]| - 1] == '\n'
    decreases |text|
  {
    if text != [] {
      var line := NextLine(text);
      var rest := text[|line|..];
      NextLineShape(text);
      LinesShape(rest);
      if |Lines(text)| > 1 {
        assert rest != [];
        assert '\n' in line;
      }
    }
  }

  /** A line with its newline in front of more text is read as one line and
      reading carries on with the rest; in particular a blank line "\n" is
      read, kept, and does not end the reading. */
  lemma LinesCons(line: string, rest: string)
    requires line != [] && line[|line| - 1] == '\n'
    requires forall k :: 0 <= k < |line| - 1 ==> line[k] != '\n'
    ensures Lines(line + rest) == [line] + Lines(rest)
  {
    var t := line + rest;
    var l := NextLine(t);
    NextLineOfLine(line, rest);
    assert t[|l|..] == rest;
  }

  /** Text without a newline is read as one final line. */
  lemma LastLine(s: string)
    requires s != [] && '\n' !in s
    ensures Lines(s) == [s]
  {
    var l := NextLine(s);
    NextLineShape(s);
    assert '\n' !in l by {
      forall k | 0 <= k < |l| ensures l[k] != '\n' { assert l[k] == s[k]; }
    }
    assert s[|l|..] == [];
  }

  lemma {:induction false} NextLineOfLine(line: string, rest: string)
    requires line != [] && line[|line| - 1] == '\n'
    requires forall k :: 0 <= k < |line| - 1 ==> line[k] != '\n'
    ensures NextLine(line + rest) == line
    decreases |line|
  {
    if |line| > 1 {
      assert (line + rest)[1..] == line[1..] + rest;
      NextLineOfLine(line[1..], rest);
    }
  }

  /** readFile keeps exactly the non-comment lines: each kept line was read
      from the input and does not start with '#', and each such line is kept. */
  lemma {:induction false} UncommentedMembers(lines: seq<string>, x: string)
    ensures x in Uncommented(lines) <==> x in lines && !IsComment(x)
  {
    if lines != [] {
      UncommentedMembers(lines[1..], x);
      assert x in lines <==> x == lines[0] || x in lines[1..];
    }
  }

  /** A comment line, newline included, is dropped and reading goes on. */
  lemma CommentSkipped(line: string, rest: string)
    requires line != [] && line[|line| - 1] == '\n'
    requires forall k :: 0 <= k < |line| - 1 ==> line[k] != '\n'
    requires IsComment(line)
    ensures Uncommented(Lines(line + rest)) == Uncommented(Lines(rest))
  {
    LinesCons(line, rest);
    assert ([line] + Lines(rest))[1..] == Lines(rest);
  }

  /** Any other line is kept with its newline, and reading goes on. */
  lemma LineKept(line: string, rest: string)
    requires line != [] && line[|line| - 1] == '\n'
    requires forall k :: 0 <= k < |line| - 1 ==> line[k] != '\n'
    requires !IsComment(line)
    ensures Uncommented(Lines(line + rest)) == [line] + Uncommented(Lines(rest))
  {
    LinesCons(line, rest);
    assert ([line] + Lines(rest))[1..] == Lines(rest);
  }

  /** In particular a blank line is kept as "\n" (an empty host name once
      trimmed): it does not end the reading. */
  lemma BlankLineKept(rest: string)
    ensures Uncommented(Lines("\n" + rest)) == ["\n"] + Uncommented(Lines(rest))
  {
    LineKept("\n", rest);
  }

  /** A last line without its newline is kept unless it is a comment. */
  lemma LastLineKept(s: string)
    requires s != [] && '\n' !in s
    ensures Uncommented(Lines(s)) == if IsComment(s) then [] else [s]
  {
    LastLine(s);
  }
}
