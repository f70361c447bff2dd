/** Python's line splitting, stripping and indentation, with '\n' as the only line end. */
module Lines {

  predicate IsSpace(c: char) {
    || '\t' <= c <= '\r'
    || '\U{1c}' <= c <= ' '
    || c in {'\U{85}', '\U{a0}', '\U{1680}', '\U{2028}', '\U{2029}', '\U{202f}', '\U{205f}', '\U{3000}'}
    || '\U{2000}' <= c <= '\U{200a}'
  }

  /** Among the ASCII characters the blanks are tab, line feed, vertical tab, form feed, carriage return, the four
      separators and the space. */
  lemma AsciiSpaces(c: char)
    requires c as int < 128
    ensures IsSpace(c) <==> c as int in {9, 10, 11, 12, 13, 28, 29, 30, 31, 32}
  {
  }

  function StripLeft(s: string): string {
    if s != "" && IsSpace(s[0]) then StripLeft(s[1..]) else s
  }

  function StripRight(s: string): string {
    if s != "" && IsSpace(s[|s| - 1]) then StripRight(s[..|s| - 1]) else s
  }

  /** `s.strip()`. */
  function Strip(s: string): string {
    StripRight(StripLeft(s))
  }

  /** `s.rstrip("\n")`. */
  function ChompAll(s: string): string {
    if s != "" && s[|s| - 1] == '\n' then ChompAll(s[..|s| - 1]) else s
  }

  /** `s.strip("\n")`. */
  function StripNewlines(s: string): string {
    if s != "" && s[0] == '\n' then StripNewlines(s[1..]) else ChompAll(s)
  }

  /** `s.replace("\r\n", "\n")`. */
  function UnixEnds(s: string): string {
    if |s| >= 2 && s[0] == '\r' && s[1] == '\n' then ['\n'] + UnixEnds(s[2..])
    else if s == "" then ""
    else [s[0]] + UnixEnds(s[1..])
  }

  // ----- what stripping leaves -----

  ghost predicate AllSpace(s: string) {
    forall k :: 0 <= k < |s| ==> IsSpace(s[k])
  }

  ghost predicate AllEnds(s: string) {
    forall k :: 0 <= k < |s| ==> s[k] == '\n'
  }

  lemma {:induction false} StripLeftIs(s: string) returns (i: nat)
    ensures i <= |s| && StripLeft(s) == s[i..] && AllSpace(s[..i]) && (i < |s| ==> !IsSpace(s[i]))
  {
    if s != "" && IsSpace(s[0]) {
      var rest := StripLeftIs(s[1..]);
      i := rest + 1;
      assert s[1..][rest..] == s[i..];
      assert s[..i] == [s[0]] + s[1..][..rest];
    } else {
      i := 0;
    }
  }

  lemma {:induction false} StripRightIs(s: string) returns (j: nat)
    ensures j <= |s| && StripRight(s) == s[..j] && AllSpace(s[j..]) && (j > 0 ==> !IsSpace(s[j - 1]))
  {
    if s != "" && IsSpace(s[|s| - 1]) {
      j := StripRightIs(s[..|s| - 1]);
      assert s[..|s| - 1][..j] == s[..j];
      assert s[j..] == s[..|s| - 1][j..] + [s[|s| - 1]];
    } else {
      j := |s|;
      assert s[..j] == s;
    }
  }

  /** `strip` cuts exactly the blanks off both ends. */
  lemma StripIs(s: string) returns (i: nat, j: nat)
    ensures i <= j <= |s| && Strip(s) == s[i..j] && AllSpace(s[..i]) && AllSpace(s[j..])
    ensures i < j ==> !IsSpace(s[i]) && !IsSpace(s[j - 1])
  {
    i := StripLeftIs(s);
    var n := StripRightIs(s[i..]);
    j := i + n;
    assert s[i..][..n] == s[i..j] && s[i..][n..] == s[j..];
  }

  lemma {:induction false} ChompAllIs(s: string) returns (j: nat)
    ensures j <= |s| && ChompAll(s) == s[..j] && AllEnds(s[j..]) && (j > 0 ==> s[j - 1] != '\n')
  {
    if s != "" && s[|s| - 1] == '\n' {
      j := ChompAllIs(s[..|s| - 1]);
      assert s[..|s| - 1][..j] == s[..j];
      assert s[j..] == s[..|s| - 1][j..] + [s[|s| - 1]];
    } else {
      j := |s|;
      assert s[..j] == s;
    }
  }

  lemma TailSlices(s: string, i: nat, j: nat)
    requires i <= j < |s|
    ensures s[1..][i..j] == s[i + 1..j + 1]
    ensures s[1..][j..] == s[j + 1..]
    ensures s[..i + 1] == [s[0]] + s[1..][..i]
  {
  }

  /** `strip("\n")` cuts exactly the line ends off both ends. */
  lemma {:induction false} StripNewlinesIs(s: string) returns (i: nat, j: nat)
    ensures i <= j <= |s| && StripNewlines(s) == s[i..j] && AllEnds(s[..i]) && AllEnds(s[j..])
    ensures i < j ==> s[i] != '\n' && s[j - 1] != '\n'
  {
    if s != "" && s[0] == '\n' {
      i, j := StripNewlinesIs(s[1..]);
      TailSlices(s, i, j);
      i, j := i + 1, j + 1;
    } else {
      i := 0;
      j := ChompAllIs(s);
      assert s[0..j] == s[..j];
    }
  }

  /** A line is blank exactly when it has nothing but blanks. */
  lemma BlankIff(line: string)
    ensures Blank(line) <==> AllSpace(line)
  {
    var i, j := StripIs(line);
    if i == j {
      forall k | 0 <= k < |line| ensures IsSpace(line[k]) {
        assert IsSpace(if k < i then line[..i][k] else line[j..][k - j]);
      }
    } else {
      assert !IsSpace(line[i]) && Strip(line)[0] == line[i];
    }
  }

  predicate Blank(line: string) {
    Strip(line) == ""
  }

  lemma {:induction false} BlankNewlines(s: string)
    ensures s == "" || s == "\n" ==> Blank(s)
  {
    if s == "\n" {
      assert s[1..] == "";
      assert StripLeft(s) == "";
    }
  }

  /** Position of the first line end, or the length. */
  function LineEnd(s: string): (k: nat)
    ensures k <= |s|
    ensures k < |s| ==> s[k] == '\n'
  {
    if s == "" || s[0] == '\n' then 0 else 1 + LineEnd(s[1..])
  }

  lemma {:induction false} LineEndPlain(s: string)
    ensures '\n' !in s[..LineEnd(s)]
  {
    if s != "" && s[0] != '\n' {
      LineEndPlain(s[1..]);
      assert s[..LineEnd(s)] == [s[0]] + s[1..][..LineEnd(s[1..])];
    }
  }

  /** `s.splitlines()`. */
  function SplitLines(s: string): seq<string> {
    if s == "" then []
    else
      var k := LineEnd(s);
      if k == |s| then [s] else [s[..k]] + SplitLines(s[k + 1..])
  }

  /** `s.splitlines(keepends=True)`. */
  function SplitKeep(s: string): seq<string> {
    if s == "" then []
    else
      var k := LineEnd(s);
      if k == |s| then [s] else [s[..k + 1]] + SplitKeep(s[k + 1..])
  }

  /** `"\n".join(lines)`. */
  function Join(lines: seq<string>): string {
    if lines == [] then ""
    else if |lines| == 1 then lines[0]
    else lines[0] + "\n" + Join(lines[1..])
  }

  /** `"".join(lines)`. */
  function Concat(lines: seq<string>): string {
    if lines == [] then "" else lines[0] + Concat(lines[1..])
  }

  /** A kept line: a line end can stand only at its end. */
  ghost predicate KeptLine(line: string) {
    line != "" && '\n' !in line[..|line| - 1]
  }

  /** Every kept line but the last has its line end, and the last one has it exactly when the text does. */
  lemma {:induction false} SplitKeepEnds(s: string, k: nat)
    requires k < |SplitKeep(s)|
    ensures var lines := SplitKeep(s);
      && lines[k] != ""
      && (k < |lines| - 1 ==> lines[k][|lines[k]| - 1] == '\n')
      && (k == |lines| - 1 ==> (lines[k][|lines[k]| - 1] == '\n' <==> s != "" && s[|s| - 1] == '\n'))
    decreases |s|
  {
    var e := LineEnd(s);
    LineEndPlain(s);
    if e < |s| {
      var tail := s[e + 1..];
      if k > 0 {
        SplitKeepEnds(tail, k - 1);
      }
      assert tail != "" ==> tail[|tail| - 1] == s[|s| - 1];
      assert tail == "" ==> s[|s| - 1] == s[e];
    }
  }

  lemma {:induction false} SplitKeepLines(s: string)
    ensures forall k :: 0 <= k < |SplitKeep(s)| ==> KeptLine(SplitKeep(s)[k])
    ensures Concat(SplitKeep(s)) == s
    decreases |s|
  {
    if s != "" {
      var k := LineEnd(s);
      LineEndPlain(s);
      if k == |s| {
        assert s[..k] == s;
        assert Concat([s]) == s + Concat([s][1..]);
      } else {
        SplitKeepLines(s[k + 1..]);
        assert s[..k + 1][..k] == s[..k];
        var rest := SplitKeep(s[k + 1..]);
        assert ([s[..k + 1]] + rest)[1..] == rest;
        assert s == s[..k + 1] + s[k + 1..];
      }
    }
  }

  lemma TailAppend(a: seq<string>, b: seq<string>)
    requires a != []
    ensures (a + b)[1..] == a[1..] + b && (a + b)[0] == a[0]
  {
  }

  lemma Associate(x: string, y: string, z: string)
    ensures x + (y + z) == x + y + z
  {
  }

  lemma {:induction false} ConcatAppend(a: seq<string>, b: seq<string>)
    ensures Concat(a + b) == Concat(a) + Concat(b)
  {
    if a == [] {
      assert a + b == b;
    } else {
      ConcatAppend(a[1..], b);
      ConcatHead(a);
      ConcatHead(a + b);
      TailAppend(a, b);
      Associate(a[0], Concat(a[1..]), Concat(b));
    }
  }

  lemma ConcatHead(s: seq<string>)
    requires s != []
    ensures Concat(s) == s[0] + Concat(s[1..])
  {
  }

  lemma ConcatOne(line: string)
    ensures Concat([line]) == line
  {
    assert Concat([line]) == line + Concat([line][1..]);
  }

  lemma {:induction false} LineEndOf(line: string, rest: string)
    requires '\n' !in line
    ensures LineEnd(line + "\n" + rest) == |line|
    ensures LineEnd(line) == |line|
  {
    if line != "" {
      assert (line + "\n" + rest)[1..] == line[1..] + "\n" + rest;
      LineEndOf(line[1..], rest);
    }
  }

  ghost predicate PlainLines(lines: seq<string>) {
    forall k :: 0 <= k < |lines| ==> '\n' !in lines[k]
  }

  /** Splitting undoes joining, with or without a final line end. */
  lemma {:induction false} SplitJoin(lines: seq<string>, ended: bool)
    requires lines != [] && PlainLines(lines) && (ended || lines[|lines| - 1] != "")
    ensures SplitLines(Join(lines) + if ended then "\n" else "") == lines
  {
    var line := lines[0];
    if |lines| == 1 {
      assert lines == [line];
      if ended {
        SplitCons(line, "");
        assert line + "\n" + "" == line + "\n" && SplitLines("") == [];
      } else {
        SplitOnly(line);
        assert line + "" == line;
      }
    } else {
      var tail := if ended then "\n" else "";
      var rest := Join(lines[1..]) + tail;
      SplitJoin(lines[1..], ended);
      SplitCons(line, rest);
      AssocEnd(line, Join(lines[1..]), tail);
      assert lines == [line] + lines[1..];
    }
  }

  lemma SplitOnly(line: string)
    requires '\n' !in line && line != ""
    ensures SplitLines(line) == [line]
  {
    LineEndOf(line, "");
  }

  lemma SplitCons(line: string, rest: string)
    requires '\n' !in line
    ensures SplitLines(line + "\n" + rest) == [line] + SplitLines(rest)
  {
    var s := line + "\n" + rest;
    LineEndOf(line, rest);
    assert s[..|line|] == line && s[|line| + 1..] == rest;
  }

  predicate Ended(s: string) {
    s != "" && s[|s| - 1] == '\n'
  }

  lemma JoinCons(line: string, lines: seq<string>)
    requires lines != []
    ensures Join([line] + lines) == line + "\n" + Join(lines)
  {
    assert ([line] + lines)[1..] == lines;
  }

  lemma SplitLast(s: string)
    requires s != "" && LineEnd(s) == |s|
    ensures SplitLines(s) == [s] && !Ended(s) && '\n' !in s
  {
    LineEndPlain(s);
    assert s[..|s|] == s;
    assert s[|s| - 1] in s;
  }

  lemma SplitFirst(s: string, line: string, rest: string)
    requires LineEnd(s) < |s| && line == s[..LineEnd(s)] && rest == s[LineEnd(s) + 1..]
    ensures SplitLines(s) == [line] + SplitLines(rest)
    ensures s == line + "\n" + rest
    ensures '\n' !in line
  {
    LineEndPlain(s);
    CutAt(s, LineEnd(s));
  }

  lemma CutAt(s: string, k: nat)
    requires k < |s| && s[k] == '\n'
    ensures s == s[..k] + "\n" + s[k + 1..]
  {
  }

  lemma EndedSuffix(s: string, k: nat)
    requires k < |s| && s[k] == '\n'
    ensures Ended(s) == (s[k + 1..] == "" || Ended(s[k + 1..]))
  {
  }

  /** Joining undoes splitting. */
  lemma {:induction false} JoinSplit(s: string)
    requires s != ""
    ensures SplitLines(s) != [] && PlainLines(SplitLines(s))
    ensures Join(SplitLines(s)) + (if Ended(s) then "\n" else "") == s
    ensures Ended(s) || SplitLines(s)[|SplitLines(s)| - 1] != ""
    decreases |s|
  {
    var k := LineEnd(s);
    if k == |s| {
      SplitLast(s);
    } else {
      var line, rest := s[..k], s[k + 1..];
      SplitFirst(s, line, rest);
      EndedSuffix(s, k);
      if rest == "" {
        assert SplitLines(rest) == [];
      } else {
        JoinSplit(rest);
        JoinCons(line, SplitLines(rest));
        AssocEnd(line, Join(SplitLines(rest)), if Ended(s) then "\n" else "");
      }
    }
  }

  lemma AssocEnd(line: string, body: string, end: string)
    ensures line + "\n" + body + end == line + "\n" + (body + end)
  {
  }

  // ----- indentation -----

  /** The match of `^[ \t]*`. */
  function Indent(line: string): (r: string)
    ensures forall c :: c in r ==> c == ' ' || c == '\t'
  {
    if line != "" && (line[0] == ' ' || line[0] == '\t') then [line[0]] + Indent(line[1..]) else ""
  }

  /** The longest beginning of blanks and tabs. */
  lemma {:induction false} IndentIs(line: string)
    ensures var n := |Indent(line)|;
      && n <= |line| && Indent(line) == line[..n]
      && (forall k :: 0 <= k < n ==> line[k] == ' ' || line[k] == '\t')
      && (n < |line| ==> line[n] != ' ' && line[n] != '\t')
  {
    if line != "" && (line[0] == ' ' || line[0] == '\t') {
      IndentIs(line[1..]);
      var n := |Indent(line[1..])|;
      assert line[..n + 1] == [line[0]] + line[1..][..n];
    }
  }

  predicate IsIndent(s: string) {
    forall k :: 0 <= k < |s| ==> s[k] == ' ' || s[k] == '\t'
  }

  lemma {:induction false} IndentPrefixed(indent: string, line: string)
    requires IsIndent(indent)
    ensures Indent(indent + line) == indent + Indent(line)
    ensures StripLeft(indent + line) == StripLeft(line)
  {
    if indent == "" {
      assert indent + line == line && indent + Indent(line) == Indent(line);
    } else {
      IndentPrefixed(indent[1..], line);
      assert (indent + line)[1..] == indent[1..] + line;
    }
  }

  /** `_first_non_empty_indent`, on the lines of the text. */
  function FirstIndentOf(lines: seq<string>): (r: string)
    ensures IsIndent(r)
  {
    if lines == [] then ""
    else if Blank(lines[0]) then FirstIndentOf(lines[1..])
    else
      var r := Indent(lines[0]);
      assert forall k :: 0 <= k < |r| ==> r[k] in r;
      r
  }

  function FirstIndent(text: string): (r: string)
    ensures IsIndent(r)
  {
    FirstIndentOf(SplitLines(text))
  }

  /** The indent of the first line that is not blank; none when all are. */
  lemma {:induction false} FirstIndentOfIs(lines: seq<string>)
    ensures (forall k :: 0 <= k < |lines| ==> Blank(lines[k])) ==> FirstIndentOf(lines) == ""
    ensures forall k :: 0 <= k < |lines| && !Blank(lines[k]) && (forall j :: 0 <= j < k ==> Blank(lines[j])) ==>
              FirstIndentOf(lines) == Indent(lines[k])
  {
    if lines != [] && Blank(lines[0]) {
      FirstIndentOfIs(lines[1..]);
      assert forall k :: 0 < k < |lines| ==> lines[k] == lines[1..][k - 1];
    }
  }

  function IndentLines(indent: string, lines: seq<string>): seq<string> {
    if lines == [] then []
    else [if Blank(lines[0]) then lines[0] else indent + lines[0]] + IndentLines(indent, lines[1..])
  }

  predicate AllBlank(lines: seq<string>) {
    lines == [] || (Blank(lines[0]) && AllBlank(lines[1..]))
  }

  lemma {:induction false} IndentLinesShape(indent: string, lines: seq<string>)
    requires IsIndent(indent) && PlainLines(lines)
    ensures |IndentLines(indent, lines)| == |lines| && PlainLines(IndentLines(indent, lines))
    ensures lines != [] && lines[|lines| - 1] != "" ==> IndentLines(indent, lines)[|lines| - 1] != ""
  {
    if lines != [] {
      IndentLinesShape(indent, lines[1..]);
      var first := if Blank(lines[0]) then lines[0] else indent + lines[0];
      assert IndentLines(indent, lines) == [first] + IndentLines(indent, lines[1..]);
      assert '\n' !in first;
    }
  }

  lemma {:induction false} IndentLinesFirst(indent: string, lines: seq<string>)
    requires IsIndent(indent)
    ensures AllBlank(lines) ==> IndentLines(indent, lines) == lines && FirstIndentOf(lines) == ""
    ensures !AllBlank(lines) ==> FirstIndentOf(IndentLines(indent, lines)) == indent + FirstIndentOf(lines)
  {
    if lines != [] {
      IndentLinesFirst(indent, lines[1..]);
      IndentPrefixed(indent, lines[0]);
      var out := IndentLines(indent, lines);
      assert out[1..] == IndentLines(indent, lines[1..]);
      assert lines == [lines[0]] + lines[1..];
    }
  }

  /** Every line keeps its text: a blank one as it is, any other after the indent. */
  lemma {:induction false} IndentLinesAt(indent: string, lines: seq<string>, k: nat)
    requires k < |lines|
    ensures k < |IndentLines(indent, lines)|
    ensures IndentLines(indent, lines)[k] == if Blank(lines[k]) then lines[k] else indent + lines[k]
  {
    if k > 0 {
      IndentLinesAt(indent, lines[1..], k - 1);
    }
  }

  predicate StartsWith(s: string, prefix: string) {
    |prefix| <= |s| && s[..|prefix|] == prefix
  }

  /** `_align_new_text_indentation`. */
  function AlignNewText(oldText: string, newText: string): string {
    var oldIndent := FirstIndent(oldText);
    if oldIndent == "" || StartsWith(FirstIndent(newText), oldIndent) || SplitLines(newText) == [] then newText
    else Join(IndentLines(oldIndent, SplitLines(newText))) + if Ended(newText) then "\n" else ""
  }

  /** Re-indentation settles after one application. */
  lemma AlignNewTextIdempotent(oldText: string, newText: string)
    ensures AlignNewText(oldText, AlignNewText(oldText, newText)) == AlignNewText(oldText, newText)
  {
    var indent, lines := FirstIndent(oldText), SplitLines(newText);
    if indent != "" && !StartsWith(FirstIndent(newText), indent) && lines != [] {
      JoinSplit(newText);
      IndentLinesShape(indent, lines);
      IndentLinesFirst(indent, lines);
      SplitJoin(IndentLines(indent, lines), Ended(newText));
      var once := AlignNewText(oldText, newText);
      assert SplitLines(once) == IndentLines(indent, lines);
      if !AllBlank(lines) {
        PrefixStarts(indent, FirstIndent(newText));
      }
    }
  }

  /** A re-indented text with a non-blank line starts at least as deep as the old text. */
  lemma AlignedIndent(oldText: string, newText: string)
    requires !AllBlank(SplitLines(newText))
    ensures StartsWith(FirstIndent(AlignNewText(oldText, newText)), FirstIndent(oldText))
  {
    var indent, lines := FirstIndent(oldText), SplitLines(newText);
    if indent != "" && !StartsWith(FirstIndent(newText), indent) {
      JoinSplit(newText);
      IndentLinesShape(indent, lines);
      IndentLinesFirst(indent, lines);
      SplitJoin(IndentLines(indent, lines), Ended(newText));
      assert SplitLines(AlignNewText(oldText, newText)) == IndentLines(indent, lines);
      PrefixStarts(indent, FirstIndent(newText));
    }
  }

  /** The new text is re-indented: the old text is indented and the new text does not start as deep. */
  predicate Reindents(oldText: string, newText: string) {
    FirstIndent(oldText) != "" && !StartsWith(FirstIndent(newText), FirstIndent(oldText)) && newText != ""
  }

  lemma {:induction false} JoinEnds(lines: seq<string>)
    requires lines != [] && lines[|lines| - 1] != ""
    ensures var s, last := Join(lines), lines[|lines| - 1]; s != "" && s[|s| - 1] == last[|last| - 1]
  {
    if |lines| > 1 {
      JoinEnds(lines[1..]);
    }
  }

  lemma AlignedEnds(lines: seq<string>, ended: bool)
    requires lines != [] && PlainLines(lines) && (ended || lines[|lines| - 1] != "")
    ensures Ended(Join(lines) + if ended then "\n" else "") == ended
  {
    if !ended {
      var last := lines[|lines| - 1];
      JoinEnds(lines);
      assert last[|last| - 1] in last;
    }
  }

  /** Re-indentation in full: it puts the old text's first indent before every line that is not blank, changes no line
      otherwise and keeps the final line end; without need it changes nothing. */
  lemma AlignNewTextLines(oldText: string, newText: string)
    ensures !Reindents(oldText, newText) ==> AlignNewText(oldText, newText) == newText
    ensures Reindents(oldText, newText) ==>
      var aligned, lines := AlignNewText(oldText, newText), SplitLines(newText);
      && |SplitLines(aligned)| == |lines| && Ended(aligned) == Ended(newText)
      && forall k :: 0 <= k < |lines| ==>
           SplitLines(aligned)[k] == if Blank(lines[k]) then lines[k] else FirstIndent(oldText) + lines[k]
  {
    var indent, lines := FirstIndent(oldText), SplitLines(newText);
    if Reindents(oldText, newText) {
      JoinSplit(newText);
      IndentLinesShape(indent, lines);
      SplitJoin(IndentLines(indent, lines), Ended(newText));
      AlignedEnds(IndentLines(indent, lines), Ended(newText));
      forall k | 0 <= k < |lines|
        ensures SplitLines(AlignNewText(oldText, newText))[k] == if Blank(lines[k]) then lines[k] else indent + lines[k]
      {
        IndentLinesAt(indent, lines, k);
      }
    }
  }

  lemma PrefixStarts(prefix: string, rest: string)
    ensures StartsWith(prefix + rest, prefix)
  {
  }
}
