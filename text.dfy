/** The pieces of Python's str and text-file behaviour that the label layer relies on:
    str.isspace, str.strip, str.split() without a separator, str.split(sep),
    and file.readlines() in text mode (universal newlines). */
module Text {

  /** Python's str.isspace() for one character: the whitespace that str.split()
      and str.strip() remove. */
  predicate IsSpace(c: char) {
    var n := c as int;
    (9 <= n <= 13) || (28 <= n <= 32) || n == 0x85 || n == 0xA0 || n == 0x1680
    || (0x2000 <= n <= 0x200A) || n == 0x2028 || n == 0x2029 || n == 0x202F
    || n == 0x205F || n == 0x3000
  }

  predicate NoSpace(s: string) {
    forall i :: 0 <= i < |s| ==> !IsSpace(s[i])
  }

  /** str.lstrip(): drops the leading whitespace. */
  function StripLeft(s: string): string
    decreases |s|
  {
    if s != [] && IsSpace(s[0]) then StripLeft(s[1..]) else s
  }

  /** str.rstrip(): drops the trailing whitespace. */
  function StripRight(s: string): string
    decreases |s|
  {
    if s != [] && IsSpace(s[|s| - 1]) then StripRight(s[..|s| - 1]) else s
  }

  /** str.strip(): drops whitespace at both ends. */
  function Strip(s: string): string {
    StripRight(StripLeft(s))
  }

  /** lstrip() removes a run of whitespace from the front and nothing else. */
  lemma {:induction false} StripLeftMeaning(s: string)
    ensures var r := StripLeft(s);
      |r| <= |s| && r == s[|s| - |r|..]
      && (forall i :: 0 <= i < |s| - |r| ==> IsSpace(s[i]))
      && (r == [] || !IsSpace(r[0]))
    decreases |s|
  {
    if s != [] && IsSpace(s[0]) {
      StripLeftMeaning(s[1..]);
    }
  }

  /** rstrip() removes a run of whitespace from the back and nothing else. */
  lemma {:induction false} StripRightMeaning(s: string)
    ensures var r := StripRight(s);
      |r| <= |s| && r == s[..|r|]
      && (forall i :: |r| <= i < |s| ==> IsSpace(s[i]))
      && (r == [] || !IsSpace(r[|r| - 1]))
    decreases |s|
  {
    if s != [] && IsSpace(s[|s| - 1]) {
      StripRightMeaning(s[..|s| - 1]);
    }
  }

  /** strip() keeps a middle part of its input that neither starts nor ends
      with whitespace, and everything it drops before and after is whitespace. */
  lemma StripMeaning(s: string)
    ensures var r, i := Strip(s), |s| - |StripLeft(s)|;
      0 <= i && i + |r| <= |s| && r == s[i..i + |r|]
      && (r == [] || (!IsSpace(r[0]) && !IsSpace(r[|r| - 1])))
      && (forall j :: 0 <= j < i ==> IsSpace(s[j]))
      && (forall j :: i + |r| <= j < |s| ==> IsSpace(s[j]))
  {
    var l := StripLeft(s);
    StripLeftMeaning(s);
    StripRightMeaning(l);
  }

  /** A string that neither starts nor ends with whitespace is its own strip. */
  lemma StripUnchanged(s: string)
    requires s == [] || (!IsSpace(s[0]) && !IsSpace(s[|s| - 1]))
    ensures Strip(s) == s
  {
  }

  /** Length of the leading run of non-whitespace characters. */
  function WordEnd(s: string): (n: nat)
    ensures n <= |s|
    ensures forall i :: 0 <= i < n ==> !IsSpace(s[i])
    ensures n < |s| ==> IsSpace(s[n])
  {
    if s == [] || IsSpace(s[0]) then 0 else 1 + WordEnd(s[1..])
  }

  /** Python's str.split() without a separator: the maximal runs of
      non-whitespace characters, in order. */
  function Split(s: string): (words: seq<string>)
    ensures forall k :: 0 <= k < |words| ==> words[k] != [] && NoSpace(words[k])
    decreases |s|
  {
    if s == [] then []
    else if IsSpace(s[0]) then Split(s[1..])
    else
      var n := WordEnd(s);
      [s[..n]] + Split(s[n..])
  }

  /** A word followed by whitespace (or by nothing) is the first item split() yields. */
  lemma SplitWord(w: string, rest: string)
    requires w != [] && NoSpace(w)
    requires rest == [] || IsSpace(rest[0])
    ensures Split(w + rest) == [w] + Split(rest)
  {
    var s := w + rest;
    var n := WordEnd(s);
    assert forall i :: 0 <= i < |w| ==> s[i] == w[i];
    assert rest != [] ==> IsSpace(s[|w|]);
    assert n == |w|;
    assert s[..n] == w;
    assert s[n..] == rest;
  }

  /** Leading whitespace does not change what split() yields. */
  lemma SplitSkipsSpace(c: char, rest: string)
    requires IsSpace(c)
    ensures Split([c] + rest) == Split(rest)
  {
    assert ([c] + rest)[1..] == rest;
  }

  predicate IsLineBreak(c: char) {
    c == '\n' || c == '\r'
  }

  predicate NoLineBreak(s: string) {
    forall i :: 0 <= i < |s| ==> !IsLineBreak(s[i])
  }

  /** Position of the first line break, or the length when there is none. */
  function LineEnd(s: string): (n: nat)
    ensures n <= |s|
    ensures forall i :: 0 <= i < n ==> !IsLineBreak(s[i])
    ensures n < |s| ==> IsLineBreak(s[n])
  {
    if s == [] || IsLineBreak(s[0]) then 0 else 1 + LineEnd(s[1..])
  }

  /** file.readlines() on a file opened in text mode, without the line
      terminators: "\n", "\r\n" and a lone "\r" each end a line, and a final
      line without a terminator still counts. */
  function Lines(s: string): (lines: seq<string>)
    ensures forall k :: 0 <= k < |lines| ==> NoLineBreak(lines[k])
    ensures |lines| <= |s|
    decreases |s|
  {
    if s == [] then []
    else
      var i := LineEnd(s);
      if i == |s| then [s]
      else
        var next := if s[i] == '\r' && i + 1 < |s| && s[i + 1] == '\n' then i + 2 else i + 1;
        [s[..i]] + Lines(s[next..])
  }

  /** A line followed by "\n" is the first line readlines() yields. */
  lemma LinesCons(line: string, rest: string)
    requires NoLineBreak(line)
    ensures Lines(line + "\n" + rest) == [line] + Lines(rest)
  {
    var s := line + "\n" + rest;
    var i := LineEnd(s);
    assert s[|line|] == '\n';
    assert i == |line|;
    assert s[..i] == line;
    assert s[i + 1..] == rest;
  }

  /** Position of the first `sep`, or the length when there is none. */
  function CharIndex(s: string, sep: char): (n: nat)
    ensures n <= |s|
    ensures forall i :: 0 <= i < n ==> s[i] != sep
    ensures n < |s| ==> s[n] == sep
  {
    if s == [] || s[0] == sep then 0 else 1 + CharIndex(s[1..], sep)
  }

  /** Python's str.split(sep) for a one-character separator: the pieces between
      separators, empty pieces included, so there is always at least one. */
  function SplitOn(s: string, sep: char): (parts: seq<string>)
    ensures |parts| >= 1
    ensures forall k :: 0 <= k < |parts| ==> sep !in parts[k]
    decreases |s|
  {
    var i := CharIndex(s, sep);
    if i == |s| then [s] else [s[..i]] + SplitOn(s[i + 1..], sep)
  }

  /** Python's sep.join(parts). */
  function JoinWith(parts: seq<string>, sep: char): string
  {
    if parts == [] then []
    else if |parts| == 1 then parts[0]
    else parts[0] + [sep] + JoinWith(parts[1..], sep)
  }

  /** split(sep) undoes sep.join() when no piece contains the separator. */
  lemma {:induction false} SplitOnJoin(parts: seq<string>, sep: char)
    requires |parts| >= 1
    requires forall k :: 0 <= k < |parts| ==> sep !in parts[k]
    ensures SplitOn(JoinWith(parts, sep), sep) == parts
    decreases |parts|
  {
    var s := JoinWith(parts, sep);
    var p := parts[0];
    if |parts| == 1 {
      assert CharIndex(s, sep) == |s|;
    } else {
      var rest := JoinWith(parts[1..], sep);
      assert s == p + [sep] + rest;
      var i := CharIndex(s, sep);
      assert s[|p|] == sep;
      assert i == |p|;
      assert s[..i] == p;
      assert s[i + 1..] == rest;
      SplitOnJoin(parts[1..], sep);
    }
  }

  /** The piece after the last separator is the last piece split(sep) yields. */
  lemma {:induction false} SplitOnLast(s: string, sep: char, x: string)
    requires sep !in x
    ensures var parts := SplitOn(s + [sep] + x, sep); parts[|parts| - 1] == x
    decreases |s|
  {
    var t := s + [sep] + x;
    var i := CharIndex(s, sep);
    assert forall j :: 0 <= j < |s| ==> t[j] == s[j];
    assert t[|s|] == sep;
    if i == |s| {
      assert CharIndex(t, sep) == |s|;
      assert t[|s| + 1..] == x;
      assert CharIndex(x, sep) == |x|;
    } else {
      assert CharIndex(t, sep) == i;
      assert t[i + 1..] == s[i + 1..] + [sep] + x;
      SplitOnLast(s[i + 1..], sep, x);
    }
  }

  /** What writing each line followed by "\n" produces. */
  function Terminated(lines: seq<string>): (text: string)
    ensures text == [] <==> lines == []
  {
    if lines == [] then [] else lines[0] + "\n" + Terminated(lines[1..])
  }

  /** Writing one more line appends it and its terminator. */
  lemma {:induction false} TerminatedAppend(lines: seq<string>, line: string)
    ensures Terminated(lines + [line]) == Terminated(lines) + line + "\n"
  {
    if lines != [] {
      assert (lines + [line])[1..] == lines[1..] + [line];
      TerminatedAppend(lines[1..], line);
    }
  }

  /** readlines() gives back the lines written with terminators, when none of
      them holds a line break. */
  lemma {:induction false} LinesOfTerminated(lines: seq<string>)
    requires forall k :: 0 <= k < |lines| ==> NoLineBreak(lines[k])
    ensures Lines(Terminated(lines)) == lines
  {
    if lines != [] {
      LinesCons(lines[0], Terminated(lines[1..]));
      LinesOfTerminated(lines[1..]);
    }
  }

  /** split() takes apart words joined by single spaces. */
  lemma {:induction false} SplitJoin(words: seq<string>)
    requires |words| >= 1
    requires forall k :: 0 <= k < |words| ==> words[k] != [] && NoSpace(words[k])
    ensures Split(JoinWith(words, ' ')) == words
    decreases |words|
  {
    if |words| == 1 {
      SplitWord(words[0], []);
      assert words[0] + [] == words[0];
    } else {
      var rest := JoinWith(words[1..], ' ');
      assert JoinWith(words, ' ') == words[0] + ([' '] + rest);
      SplitWord(words[0], [' '] + rest);
      SplitSkipsSpace(' ', rest);
      SplitJoin(words[1..]);
    }
  }

  /** A join of non-empty words starts with the first word's first character and
      ends with the last word's last character. */
  lemma {:induction false} JoinWithEnds(words: seq<string>, sep: char)
    requires |words| >= 1 && forall k :: 0 <= k < |words| ==> words[k] != []
    ensures var s, last := JoinWith(words, sep), words[|words| - 1];
      s != [] && s[0] == words[0][0] && s[|s| - 1] == last[|last| - 1]
    decreases |words|
  {
    if |words| > 1 {
      JoinWithEnds(words[1..], sep);
    }
  }

  /** Joining line-break-free words with a separator that is not a line break
      gives a single line. */
  lemma {:induction false} JoinWithOneLine(words: seq<string>, sep: char)
    requires !IsLineBreak(sep)
    requires forall k :: 0 <= k < |words| ==> NoLineBreak(words[k])
    ensures NoLineBreak(JoinWith(words, sep))
    decreases |words|
  {
    if |words| > 1 {
      JoinWithOneLine(words[1..], sep);
      var rest := JoinWith(words[1..], sep);
      var s := words[0] + [sep] + rest;
      forall i | 0 <= i < |s|
        ensures !IsLineBreak(s[i])
      {
        if i < |words[0]| {
          assert s[i] == words[0][i];
        } else if i > |words[0]| {
          assert s[i] == rest[i - |words[0]| - 1];
        }
      }
    }
  }
}
