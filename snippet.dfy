/**
 * Code snippets are authored in the JSON content as arrays of lines and
 * stored in a record as one string, `lines.join('\n')`.  This module models
 * that join, and the matching `split('\n')` under which it is invertible.
 */
module Snippet {

  /** A line that can be stored in a snippet without being split apart later. */
  predicate SingleLine(line: string) {
    '\n' !in line
  }

  predicate AllSingleLine(lines: seq<string>) {
    forall k :: 0 <= k < |lines| ==> SingleLine(lines[k])
  }

  /** `lines.join('\n')`: the lines with one newline between neighbours; the text starts with the first line. */
  function Join(lines: seq<string>): (s: string)
    ensures |lines| >= 1 ==> lines[0] <= s
  {
    if |lines| == 0 then ""
    else if |lines| == 1 then lines[0]
    else lines[0] + "\n" + Join(lines[1..])
  }

  /**
   * `s.split('\n')`: the pieces between newlines.  There is always at least
   * one piece, the pieces hold no newline, and there is one more piece than
   * there are newlines in `s`.
   */
  function Split(s: string): (r: seq<string>)
    ensures |r| == 1 + multiset(s)['\n']
    ensures AllSingleLine(r)
  {
    if |s| == 0 then [""]
    else
      var rest := Split(s[1..]);
      assert s == [s[0]] + s[1..];
      if s[0] == '\n' then [""] + rest
      else [[s[0]] + rest[0]] + rest[1..]
  }

  /** Sum of the lengths of the lines. */
  function TotalLength(lines: seq<string>): nat
  {
    if |lines| == 0 then 0 else |lines[0]| + TotalLength(lines[1..])
  }

  /** When no line holds a newline, the joined text has exactly one newline fewer than there are lines. */
  lemma {:induction false} JoinNewlines(lines: seq<string>)
    requires |lines| >= 1 && AllSingleLine(lines)
    ensures multiset(Join(lines))['\n'] == |lines| - 1
  {
    if |lines| > 1 {
      JoinNewlines(lines[1..]);
      assert Join(lines) == lines[0] + "\n" + Join(lines[1..]);
    }
  }

  /** The empty list and the list of one empty line join to the same text. */
  lemma JoinOfNoLinesOrOneLine(line: string)
    ensures Join([]) == ""
    ensures Join([line]) == line
    ensures Join([]) == Join([""])
  {
  }

  /** A joined snippet is as long as its lines plus one newline between each pair. */
  lemma {:induction false} JoinLength(lines: seq<string>)
    requires |lines| >= 1
    ensures |Join(lines)| == TotalLength(lines) + |lines| - 1
  {
    if |lines| > 1 {
      JoinLength(lines[1..]);
    }
  }

  /** A line without newline splits to itself. */
  lemma {:induction false} SplitSingleLine(line: string)
    requires SingleLine(line)
    ensures Split(line) == [line]
  {
    if |line| > 0 {
      SplitSingleLine(line[1..]);
      assert [line[0]] + line[1..] == line;
    }
  }

  /** Splitting at the first newline peels off the text before it. */
  lemma {:induction false} SplitAtFirstNewline(head: string, tail: string)
    requires SingleLine(head)
    ensures Split(head + "\n" + tail) == [head] + Split(tail)
  {
    var s := head + "\n" + tail;
    if |head| == 0 {
      assert s[1..] == tail;
    } else {
      assert s[1..] == head[1..] + "\n" + tail;
      SplitAtFirstNewline(head[1..], tail);
      assert [head[0]] + head[1..] == head;
    }
  }

  /** Splitting a joined snippet gives back its lines, when there is at least one. */
  lemma {:induction false} SplitJoin(lines: seq<string>)
    requires |lines| >= 1 && AllSingleLine(lines)
    ensures Split(Join(lines)) == lines
  {
    if |lines| == 1 {
      SplitSingleLine(lines[0]);
    } else {
      SplitJoin(lines[1..]);
      SplitAtFirstNewline(lines[0], Join(lines[1..]));
      assert [lines[0]] + lines[1..] == lines;
    }
  }

  /** Joining moves a leading character of the first line to the front. */
  lemma JoinConsChar(c: char, first: string, rest: seq<string>)
    ensures Join([[c] + first] + rest) == [c] + Join([first] + rest)
  {
    var longer := [[c] + first] + rest;
    var shorter := [first] + rest;
    if |rest| > 0 {
      assert longer[1..] == rest && shorter[1..] == rest;
      assert Join(longer) == ([c] + first) + "\n" + Join(rest);
      assert Join(shorter) == first + "\n" + Join(rest);
    } else {
      assert Join(longer) == [c] + first;
    }
  }

  /** How `Split` takes apart a non-empty text: by its first character and the pieces of the rest. */
  lemma SplitUnfold(s: string)
    requires |s| > 0
    ensures s[0] == '\n' ==> Split(s) == [""] + Split(s[1..])
    ensures s[0] != '\n' ==> Split(s) == [[s[0]] + Split(s[1..])[0]] + Split(s[1..])[1..]
  {
  }

  /** Joining the pieces of any text with newlines gives the text back. */
  lemma {:induction false} JoinSplit(s: string)
    ensures Join(Split(s)) == s
  {
    if |s| > 0 {
      var tail := s[1..];
      var rest := Split(tail);
      JoinSplit(tail);
      SplitUnfold(s);
      assert s == [s[0]] + tail;
      if s[0] == '\n' {
        assert ([""] + rest)[1..] == rest;
      } else {
        JoinConsChar(s[0], rest[0], rest[1..]);
        assert [rest[0]] + rest[1..] == rest;
      }
    }
  }
}
