/**
 * Line structure of text: counting line feeds, and Python's `s.split("\n")`
 * together with its inverse `"\n".join(lines)`.
 */
module Text {

  /** Concatenation is associative (stated generically, where it is cheap to prove). */
  lemma AppendAssoc<T>(a: seq<T>, b: seq<T>, c: seq<T>)
    ensures (a + b) + c == a + (b + c)
  {
  }

  /** Python's `s.count("\n")`. */
  function NewlineCount(s: string): (n: nat)
    ensures n <= |s|
    ensures n == 0 <==> '\n' !in s
  {
    if s == [] then 0
    else
      assert s == [s[0]] + s[1..];
      (if s[0] == '\n' then 1 else 0) + NewlineCount(s[1..])
  }

  lemma {:induction false} NewlineCountAppend(a: string, b: string)
    ensures NewlineCount(a + b) == NewlineCount(a) + NewlineCount(b)
  {
    if a == [] {
      assert a + b == b;
    } else {
      assert (a + b)[1..] == a[1..] + b;
      NewlineCountAppend(a[1..], b);
    }
  }

  /** A line followed by a line feed adds exactly one line feed to what follows. */
  lemma NewlineCountLine(line: string, rest: string)
    requires '\n' !in line
    ensures NewlineCount(line + "\n" + rest) == 1 + NewlineCount(rest)
  {
    NewlineCountAppend(line, "\n" + rest);
    NewlineCountAppend("\n", rest);
    assert line + "\n" + rest == line + ("\n" + rest);
  }

  /** Index of the first line feed of `s`, or `|s|` when it has none. */
  function LineEnd(s: string): (k: nat)
    ensures k <= |s|
    ensures '\n' !in s[..k]
    ensures k < |s| ==> s[k] == '\n'
  {
    if s == [] || s[0] == '\n' then 0
    else
      var k := 1 + LineEnd(s[1..]);
      assert s[..k] == [s[0]] + s[1..][..k - 1];
      k
  }

  /** Python's `s.split("\n")`: the text between consecutive line feeds. */
  function Split(s: string): (lines: seq<string>)
    ensures |lines| == NewlineCount(s) + 1
    ensures forall i :: 0 <= i < |lines| ==> '\n' !in lines[i]
    decreases |s|
  {
    var k := LineEnd(s);
    if k == |s| then
      assert s[..k] == s;
      [s]
    else
      assert s == s[..k] + ([s[k]] + s[k + 1..]);
      NewlineCountAppend(s[..k], [s[k]] + s[k + 1..]);
      NewlineCountAppend([s[k]], s[k + 1..]);
      [s[..k]] + Split(s[k + 1..])
  }

  /** Three lines, each ended by a line feed, peel off in order. */
  lemma SplitThreeLines(a: string, b: string, c: string, rest: string)
    requires '\n' !in a && '\n' !in b && '\n' !in c
    ensures Split(a + "\n" + (b + "\n" + (c + "\n" + rest))) == [a, b, c] + Split(rest)
  {
    SplitLine(a, b + "\n" + (c + "\n" + rest));
    SplitLine(b, c + "\n" + rest);
    SplitLine(c, rest);
    AppendAssoc([b], [c], Split(rest));
    AppendAssoc([a], [b] + [c], Split(rest));
    assert [a] + ([b] + [c]) == [a, b, c];
  }

  /** Three texts without a line feed joined together have none. */
  lemma NoNewlineJoin(a: string, b: string, c: string)
    requires '\n' !in a && '\n' !in b && '\n' !in c
    ensures '\n' !in a + b + c
  {
  }

  /** Text without a line feed is a single line. */
  lemma SplitSingle(s: string)
    requires '\n' !in s
    ensures Split(s) == [s]
  {
  }

  /** Python's `"\n".join(lines)`. */
  function JoinLines(lines: seq<string>): string
    requires |lines| >= 1
  {
    if |lines| == 1 then lines[0] else lines[0] + "\n" + JoinLines(lines[1..])
  }

  /** Splitting after a line that holds no line feed peels exactly that line off. */
  lemma SplitLine(line: string, rest: string)
    requires '\n' !in line
    ensures Split(line + "\n" + rest) == [line] + Split(rest)
  {
    var s := line + "\n" + rest;
    var k := LineEnd(s);
    assert forall j :: 0 <= j < |line| ==> s[j] == line[j] && s[j] != '\n';
    assert s[|line|] == '\n';
    assert k == |line|;
    assert s[..k] == line;
    assert s[k + 1..] == rest;
  }

  /** Splitting a joined list of line-feed-free lines gives the list back. */
  lemma {:induction false} SplitJoin(lines: seq<string>)
    requires |lines| >= 1
    requires forall i :: 0 <= i < |lines| ==> '\n' !in lines[i]
    ensures Split(JoinLines(lines)) == lines
  {
    if |lines| == 1 {
      assert LineEnd(lines[0]) == |lines[0]|;
    } else {
      SplitJoin(lines[1..]);
      SplitLine(lines[0], JoinLines(lines[1..]));
      assert lines == [lines[0]] + lines[1..];
    }
  }

  /** Joining the pieces of a split gives the text back. */
  lemma {:induction false} JoinSplit(s: string)
    ensures JoinLines(Split(s)) == s
    decreases |s|
  {
    var k := LineEnd(s);
    if k < |s| {
      var rest := Split(s[k + 1..]);
      JoinSplit(s[k + 1..]);
      var lines := [s[..k]] + rest;
      assert Split(s) == lines;
      assert lines[1..] == rest;
      calc {
        JoinLines(lines);
        lines[0] + "\n" + JoinLines(rest);
        s[..k] + "\n" + s[k + 1..];
        { assert s == s[..k] + [s[k]] + s[k + 1..]; }
        s;
      }
    } else {
      assert s[..k] == s;
    }
  }
}
