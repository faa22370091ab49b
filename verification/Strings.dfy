/** Characters, lines, concatenation and order of strings. */
module Strings {

  function HexChar(d: nat): char
    requires d < 16
  {
    "0123456789abcdef"[d]
  }

  /** The position of the first `c`, or the length if there is none. */
  function IndexOf(s: string, c: char): (i: nat)
    ensures i <= |s|
    ensures i < |s| ==> s[i] == c
    ensures c !in s[..i]
  {
    if s == "" || s[0] == c then 0
    else
      var i := 1 + IndexOf(s[1..], c);
      assert s[..i] == [s[0]] + s[1..][..i - 1];
      i
  }

  /** A string that starts with `a` without a `c` and goes on with `c` has its first `c` there. */
  lemma {:induction false} FirstAt(a: string, c: char, b: string)
    requires c !in a
    ensures IndexOf(a + [c] + b, c) == |a|
    ensures (a + [c] + b)[..|a|] == a && (a + [c] + b)[|a| + 1..] == b
  {
    var s := a + [c] + b;
    if a != "" {
      assert s[1..] == a[1..] + [c] + b;
      FirstAt(a[1..], c, b);
      assert s[0] in a;
    }
  }

  predicate OneLine(s: string) {
    '\n' !in s
  }

  /** Ends with a line feed, unless empty. */
  predicate Terminated(text: string) {
    text != "" ==> text[|text| - 1] == '\n'
  }

  /** The lines of a text, without their line feeds; an empty piece after the last line feed is not one. */
  function Lines(text: string): (lines: seq<string>)
    ensures forall l :: l in lines ==> OneLine(l)
    decreases |text|
  {
    var end := IndexOf(text, '\n');
    if text == "" then []
    else if end == |text| then (assert text[..end] == text; [text])
    else [text[..end]] + Lines(text[end + 1..])
  }

  lemma {:induction false} FirstLine(line: string, rest: string)
    requires OneLine(line)
    ensures Lines(line + ['\n'] + rest) == [line] + Lines(rest)
  {
    FirstAt(line, '\n', rest);
  }

  /** The first line of a terminated text, and what follows it. */
  lemma {:induction false} SplitFirst(text: string) returns (first: string, rest: string)
    requires Terminated(text) && text != ""
    ensures text == first + ['\n'] + rest && OneLine(first) && Terminated(rest)
  {
    var end := IndexOf(text, '\n');
    assert text[|text| - 1] in text;
    assert end < |text| by {
      assert text[..|text|] == text;
    }
    first, rest := text[..end], text[end + 1..];
  }

  /** One more line behind a terminated text is one more line of it. */
  lemma {:induction false} LastLine(text: string, line: string)
    requires Terminated(text) && OneLine(line)
    ensures Lines(text + (line + ['\n'])) == Lines(text) + [line]
    decreases |text|
  {
    if text == "" {
      LoneLine(line);
    } else {
      var first, rest := SplitFirst(text);
      LastLine(rest, line);
      LineInFront(first, rest, line);
    }
  }

  lemma {:induction false} LoneLine(line: string)
    requires OneLine(line)
    ensures Lines("" + (line + ['\n'])) == Lines("") + [line]
  {
    FirstLine(line, "");
    assert "" + (line + ['\n']) == line + ['\n'] + "";
    assert Lines("") + [line] == [line] + Lines("");
  }

  lemma {:induction false} LineInFront(first: string, rest: string, line: string)
    requires OneLine(first) && Lines(rest + (line + ['\n'])) == Lines(rest) + [line]
    ensures Lines(first + ['\n'] + rest + (line + ['\n'])) == Lines(first + ['\n'] + rest) + [line]
  {
    FirstLine(first, rest);
    FirstLine(first, rest + (line + ['\n']));
    Join(first + ['\n'], rest, line + ['\n']);
    assert [first] + (Lines(rest) + [line]) == [first] + Lines(rest) + [line];
  }

  // ----- Concatenation -----

  lemma {:induction false} Join<T>(a: seq<T>, b: seq<T>, c: seq<T>)
    ensures a + b + c == a + (b + c)
  {
  }

  lemma {:induction false} JoinFour<T>(a: seq<T>, b: seq<T>, c: seq<T>, d: seq<T>)
    ensures a + b + c + d == a + (b + (c + d))
  {
  }

  // ----- Lexicographic order -----

  predicate Before(s: string, t: string) {
    if t == "" then false
    else if s == "" then true
    else if s[0] != t[0] then s[0] < t[0]
    else Before(s[1..], t[1..])
  }
}
