// The line-based YAML merge of cli/src/config-files.ts on texts: marked blocks and the choice
// between them and the Continue entry (`mergeMarked`, `mergeYaml`).
module YamlMerge {
  import opened Sequences
  import opened Text
  import opened YamlKeys
  import C = ContinueYaml

  // ---- Marker lines ----

  const HASH_START := "# freellmapi:start"
  const HASH_END := "# freellmapi:end"
  const SLASH_START := "// freellmapi:start"
  const SLASH_END := "// freellmapi:end"

  // A line without its indentation.
  function Body(line: string): string { line[Run(line, IsIndent)..] }

  // A line that the marker pattern can begin at: anything may follow the marker.
  predicate IsStart(line: string) { HASH_START <= Body(line) || SLASH_START <= Body(line) }

  // What follows an end marker on its line.
  function AfterEnd(line: string): Option<string> {
    if HASH_END <= Body(line) then Some(Body(line)[|HASH_END|..])
    else if SLASH_END <= Body(line) then Some(Body(line)[|SLASH_END|..])
    else None
  }

  predicate IsEnd(line: string) { AfterEnd(line).Some? }

  lemma FirstAt(p: string -> bool, before: seq<string>, rest: seq<string>)
    requires forall l :: l in before ==> !p(l)
    requires rest != [] ==> p(rest[0])
    ensures First(p, before + rest) == |before|
  {
    FirstIs(p, before + rest, |before|);
  }

  // Lines, each ended by a line break.
  function Terminated(lines: seq<string>): string {
    if lines == [] then "" else lines[0] + "\n" + Terminated(lines[1..])
  }

  datatype Block = Block(above: seq<string>, below: string)

  // The first block from a start line through the white space behind the next end marker,
  // cut out.
  function CutBetween(isStart: string -> bool, afterEnd: string -> Option<string>, lines: seq<string>): Option<Block> {
    var i := First(isStart, lines);
    if i == |lines| then None else
      var rest := lines[i + 1..];
      var j := FirstSome(afterEnd, rest);
      if j == |rest| then None
      else Some(Block(lines[..i], TrimStart(Join([afterEnd(rest[j]).value] + rest[j + 1..], '\n'))))
  }

  function FirstSome(f: string -> Option<string>, lines: seq<string>): (i: nat)
    ensures i <= |lines|
    ensures i < |lines| ==> f(lines[i]).Some?
  {
    if lines == [] || f(lines[0]).Some? then 0 else 1 + FirstSome(f, lines[1..])
  }

  lemma {:induction false} FirstSomeAt(f: string -> Option<string>, before: seq<string>, rest: seq<string>)
    requires forall l :: l in before ==> f(l) == None
    requires rest != [] ==> f(rest[0]).Some?
    ensures FirstSome(f, before + rest) == |before|
  {
    if before == [] {
      assert before + rest == rest;
    } else {
      assert (before + rest)[1..] == before[1..] + rest;
      FirstSomeAt(f, before[1..], rest);
    }
  }

  // The first marked block cut out.
  function CutBlock(lines: seq<string>): Option<Block> { CutBetween(IsStart, AfterEnd, lines) }

  predicate IsExactStart(line: string) { Body(line) == HASH_START || Body(line) == SLASH_START }

  predicate IsExactEnd(line: string) { Body(line) == HASH_END || Body(line) == SLASH_END }

  // ---- The merges ----

  // `mergeMarked`
  function MergeMarked(existing: string, generated: string): string {
    var wanted := Split(generated, '\n');
    if First(IsExactStart, wanted) == |wanted| || First(IsExactEnd, wanted) == |wanted| then generated
    else
      match CutBlock(Split(existing, '\n'))
      case Some(block) => Terminated(block.above) + (TrimEnd(generated) + "\n") + block.below
      case None =>
        existing
        + (if existing != "" && existing[|existing| - 1] != '\n' then "\n" else "")
        + (if TrimStart(existing) != "" then "\n" else "")
        + generated
  }

  function ClassifyAll(lines: seq<string>): (r: seq<C.Line>)
    ensures |r| == |lines|
  {
    seq(|lines|, i requires 0 <= i < |lines| => C.Classify(lines[i]))
  }

  function Texts(lines: seq<C.Line>): (r: seq<string>)
    ensures |r| == |lines|
  {
    seq(|lines|, i requires 0 <= i < |lines| => lines[i].text)
  }

  function JoinTexts(lines: seq<C.Line>): string {
    if lines == [] then "" else Join(Texts(lines), '\n')
  }

  // A generated Continue configuration.
  predicate IsContinue(generated: string) {
    var wanted := Split(generated, '\n');
    "name: FreeLLMAPI" in wanted && C.MODELS.text in wanted
  }

  // An existing text without its first marked block.
  function WithoutBlock(existing: string): string {
    TrimEnd(match CutBlock(Split(existing, '\n'))
            case Some(block) => Terminated(block.above) + block.below
            case None => existing)
  }

  function MergeContinue(existing: string, generated: string): string {
    var lines, wanted := ClassifyAll(Split(WithoutBlock(existing), '\n')), ClassifyAll(Split(generated, '\n'));
    JoinTexts(C.MergeLines(lines, wanted)) + "\n"
  }

  // `mergeYaml`
  function MergeYaml(existing: string, generated: string): string {
    if IsContinue(generated) then MergeContinue(existing, generated)
    else if TrimStart(existing) == "" then generated
    else if HASH_START in Split(existing, '\n') then MergeMarked(existing, generated)
    else MergeMarked(Without(existing, Keys(Split(generated, '\n'))), generated)
  }

  // ---- Texts made of lines ----

  lemma {:induction false} SplitTerminated(lines: seq<string>, rest: string)
    requires Free(lines, '\n')
    ensures Split(Terminated(lines) + rest, '\n') == lines + Split(rest, '\n')
  {
    if lines == [] {
      assert Terminated(lines) + rest == rest;
    } else {
      var tail := Terminated(lines[1..]);
      SplitTerminated(lines[1..], rest);
      assert Terminated(lines) + rest == lines[0] + ['\n'] + (tail + rest);
      SplitConcat(lines[0], tail + rest, '\n');
      SplitWord(lines[0], '\n');
      assert lines == [lines[0]] + lines[1..];
      Associate([lines[0]], lines[1..], Split(rest, '\n'));
    }
  }

  lemma {:induction false} TerminatedAppend(a: seq<string>, b: seq<string>)
    ensures Terminated(a + b) == Terminated(a) + Terminated(b)
  {
    if a == [] {
      assert a + b == b;
    } else {
      assert (a + b)[1..] == a[1..] + b;
      TerminatedAppend(a[1..], b);
    }
  }

  lemma {:induction false} TerminatedIsJoin(lines: seq<string>)
    requires lines != []
    ensures Terminated(lines) == Join(lines, '\n') + "\n"
  {
    if |lines| > 1 {
      TerminatedIsJoin(lines[1..]);
    } else {
      assert lines[1..] == [];
    }
  }

  lemma {:induction false} TrimStartTwice(s: string)
    ensures TrimStart(TrimStart(s)) == TrimStart(s)
  {
    if s != "" && IsSpace(s[0]) { TrimStartTwice(s[1..]); }
  }

  // ---- Marked blocks ----

  // A generated block: its markers around lines without markers.
  predicate IsBlock(middle: seq<string>) {
    Free(middle, '\n') && forall l :: l in middle ==> !IsStart(l) && !IsEnd(l)
  }

  function BlockLines(middle: seq<string>): seq<string> { [HASH_START] + middle + [HASH_END] }

  function BlockText(middle: seq<string>): string { Terminated(BlockLines(middle)) }

  lemma BodyOfMarker(s: string)
    requires s != "" && s[0] == '#'
    ensures Body(s) == s
  {
  }

  lemma StartMarker(s: string, e: string)
    requires s == HASH_START && e == HASH_END
    ensures IsStart(s) && IsExactStart(s) && '\n' !in s
    ensures Body(s) == s && |s| == |e| + 2 && s[|e| - 1] != e[|e| - 1] && s[0] != '/'
  {
    BodyOfMarker(s);
  }

  lemma EndBody(e: string)
    requires e == HASH_END
    ensures e != "" && e[0] == '#' && '\n' !in e && !IsSpace(e[|e| - 1])
  {
  }

  lemma EndMarker(e: string)
    requires e == HASH_END
    ensures AfterEnd(e) == Some("") && IsExactEnd(e) && '\n' !in e && !IsSpace(e[|e| - 1])
  {
    EndBody(e);
    BodyOfMarker(e);
    assert e[|e|..] == "";
  }

  lemma StartIsNoEnd(s: string)
    requires Body(s) == s && |s| > |HASH_END| && s[|HASH_END| - 1] != HASH_END[|HASH_END| - 1] && s[0] != '/'
    ensures !IsEnd(s)
  {
    assert SLASH_END[0] == '/';
  }

  lemma Markers()
    ensures IsStart(HASH_START) && IsExactStart(HASH_START) && !IsEnd(HASH_START)
    ensures AfterEnd(HASH_END) == Some("") && IsExactEnd(HASH_END)
    ensures '\n' !in HASH_START && '\n' !in HASH_END
    ensures !IsSpace(HASH_END[|HASH_END| - 1])
  {
    StartMarker(HASH_START, HASH_END);
    StartIsNoEnd(HASH_START);
    EndMarker(HASH_END);
  }

  lemma Around(above: seq<string>, line: string, below: seq<string>)
    ensures var lines := above + ([line] + below);
      && lines[|above|] == line && lines[..|above|] == above && lines[|above| + 1..] == below
  {
  }

  lemma FirstStart(isStart: string -> bool, above: seq<string>, start: string, rest: seq<string>)
    requires (forall l :: l in above ==> !isStart(l)) && isStart(start)
    ensures First(isStart, above + ([start] + rest)) == |above|
  {
    FirstAt(isStart, above, [start] + rest);
  }

  lemma FirstEnd(afterEnd: string -> Option<string>, middle: seq<string>, end: string, below: seq<string>)
    requires (forall l :: l in middle ==> afterEnd(l) == None) && afterEnd(end).Some?
    ensures FirstSome(afterEnd, middle + ([end] + below)) == |middle|
  {
    FirstSomeAt(afterEnd, middle, [end] + below);
  }

  lemma CutLines(isStart: string -> bool, afterEnd: string -> Option<string>,
                 above: seq<string>, start: string, middle: seq<string>, end: string, below: seq<string>)
    requires (forall l :: l in above ==> !isStart(l)) && isStart(start)
    requires (forall l :: l in middle ==> afterEnd(l) == None) && afterEnd(end).Some?
    ensures CutBetween(isStart, afterEnd, above + ([start] + (middle + ([end] + below))))
         == Some(Block(above, TrimStart(Join([afterEnd(end).value] + below, '\n'))))
  {
    var rest := middle + ([end] + below);
    FirstStart(isStart, above, start, rest);
    FirstEnd(afterEnd, middle, end, below);
    Around(above, start, rest);
    Around(middle, end, below);
  }

  lemma BreakIsTrimmed(below: string)
    ensures TrimStart(Join([""] + Split(below, '\n'), '\n')) == TrimStart(below)
  {
    var lines := [""] + Split(below, '\n');
    assert lines[1..] == Split(below, '\n');
    JoinSplit(below, '\n');
    assert Join(lines, '\n') == "" + ['\n'] + below == "\n" + below;
    assert ("\n" + below)[1..] == below;
  }

  lemma LinesOfText(above: seq<string>, start: string, middle: seq<string>, end: string, below: string)
    requires Free(above, '\n') && Free(middle, '\n') && '\n' !in start && '\n' !in end
    ensures Split(Terminated(above) + Terminated([start] + middle + [end]) + below, '\n')
         == above + ([start] + (middle + ([end] + Split(below, '\n'))))
  {
    var block, rest := [start] + middle + [end], Split(below, '\n');
    TerminatedAppend(above, block);
    SplitTerminated(above + block, below);
    Regroup(above, start, middle, end, rest);
  }

  lemma Regroup(above: seq<string>, start: string, middle: seq<string>, end: string, rest: seq<string>)
    ensures (above + ([start] + middle + [end])) + rest == above + ([start] + (middle + ([end] + rest)))
  {
  }

  lemma LinesOfBlock(above: seq<string>, middle: seq<string>, below: string)
    requires Free(above, '\n') && IsBlock(middle)
    ensures Split(Terminated(above) + BlockText(middle) + below, '\n')
         == above + ([HASH_START] + (middle + ([HASH_END] + Split(below, '\n'))))
  {
    Markers();
    LinesOfText(above, HASH_START, middle, HASH_END, below);
  }

  // A block between lines without start marker and a text is cut out as it is.
  lemma CutAgain(above: seq<string>, middle: seq<string>, below: string)
    requires Free(above, '\n') && (forall l :: l in above ==> !IsStart(l)) && IsBlock(middle)
    ensures CutBlock(Split(Terminated(above) + BlockText(middle) + below, '\n')) == Some(Block(above, TrimStart(below)))
  {
    Markers();
    LinesOfBlock(above, middle, below);
    CutLines(IsStart, AfterEnd, above, HASH_START, middle, HASH_END, Split(below, '\n'));
    BreakIsTrimmed(below);
  }

  lemma FirstReaches(p: string -> bool, lines: seq<string>, i: nat)
    requires i < |lines| && p(lines[i])
    ensures First(p, lines) <= i
  {
    FirstMeans(p, lines);
  }

  lemma TerminatedOne(line: string)
    ensures Terminated([line]) == line + "\n"
  {
    assert [line][1..] == [];
    assert line + "\n" + "" == line + "\n";
  }

  lemma EndsWith(lines: seq<string>, end: string)
    requires end != "" && !IsSpace(end[|end| - 1])
    ensures TrimEnd(Terminated(lines + [end])) + "\n" == Terminated(lines + [end])
  {
    var inner := Terminated(lines) + end;
    TerminatedAppend(lines, [end]);
    TerminatedOne(end);
    Associate(Terminated(lines), end, "\n");
    assert inner[|inner| - 1] == end[|end| - 1];
    TrimBreak(inner);
  }

  lemma BlockIsTerminated(middle: seq<string>)
    ensures TrimEnd(BlockText(middle)) + "\n" == BlockText(middle)
  {
    Markers();
    EndsWith([HASH_START] + middle, HASH_END);
  }

  lemma LinesOfBlockAlone(middle: seq<string>)
    requires IsBlock(middle)
    ensures Split(BlockText(middle), '\n') == [] + ([HASH_START] + (middle + ([HASH_END] + Split("", '\n'))))
  {
    LinesOfBlock([], middle, "");
    var text := BlockText(middle);
    assert Terminated([]) + text + "" == text;
  }

  lemma BlockIsMarked(middle: seq<string>)
    requires IsBlock(middle)
    ensures var wanted := Split(BlockText(middle), '\n');
            First(IsExactStart, wanted) < |wanted| && First(IsExactEnd, wanted) < |wanted|
    ensures TrimEnd(BlockText(middle)) + "\n" == BlockText(middle)
  {
    BlockIsTerminated(middle);
    Markers();
    LinesOfBlockAlone(middle);
    var start, end := HASH_START, HASH_END;
    TwoReached(IsExactStart, IsExactEnd, start, middle, end, Split("", '\n'));
  }

  lemma TwoReached(p: string -> bool, q: string -> bool, start: string, middle: seq<string>, end: string,
          below: seq<string>)
    requires p(start) && q(end)
    ensures var lines := [] + ([start] + (middle + ([end] + below)));
            First(p, lines) < |lines| && First(q, lines) < |lines|
  {
    var lines := [] + ([start] + (middle + ([end] + below)));
    assert lines[0] == start && lines[|middle| + 1] == end;
    FirstReaches(p, lines, 0);
    FirstReaches(q, lines, |middle| + 1);
  }

  // Merging a block into a file that has it already changes nothing.
  lemma MergedAgain(above: seq<string>, middle: seq<string>, below: string)
    requires Free(above, '\n') && (forall l :: l in above ==> !IsStart(l)) && IsBlock(middle)
    requires TrimStart(below) == below && !IsContinue(BlockText(middle))
    ensures var text := Terminated(above) + BlockText(middle) + below;
            MergeYaml(text, BlockText(middle)) == text
  {
    var text := Terminated(above) + BlockText(middle) + below;
    LinesOfBlock(above, middle, below);
    var lines := Split(text, '\n');
    assert lines[|above|] == HASH_START;
    StartNotBlank(text, |above|);
    CutAgain(above, middle, below);
    BlockIsMarked(middle);
  }

  // A block in the file gives way to the generated one. Nothing else changes but the white
  // space behind it.
  lemma MarkedReplaces(above: seq<string>, was: seq<string>, middle: seq<string>, below: string)
    requires Free(above, '\n') && (forall l :: l in above ==> !IsStart(l)) && IsBlock(was) && IsBlock(middle)
    ensures MergeMarked(Terminated(above) + BlockText(was) + below, BlockText(middle))
         == Terminated(above) + BlockText(middle) + TrimStart(below)
  {
    CutAgain(above, was, below);
    BlockIsMarked(middle);
  }

  lemma StartNotBlank(text: string, i: nat)
    requires i < |Split(text, '\n')| && Split(text, '\n')[i] == HASH_START
    ensures TrimStart(text) != "" && HASH_START in Split(text, '\n')
  {
    var c := HASH_START[0];
    assert c == '#' && c in Split(text, '\n')[i];
    SplitChars(text, '\n', c);
    TrimStartBlank(text);
  }

  // ---- Removing keys leaves no marker behind ----

  predicate NoStart(lines: seq<string>) { forall i :: 0 <= i < |lines| ==> !IsStart(lines[i]) }

  predicate PrefixesOf(a: seq<string>, b: seq<string>) {
    |a| <= |b| && forall i :: 0 <= i < |a| ==> a[i] <= b[i]
  }

  lemma OneMoreBreak(a: seq<string>, b: seq<string>)
    requires PrefixesOf(a, b)
    ensures PrefixesOf([""] + a, [""] + b)
  {
  }

  lemma OneMoreChar(c: char, a: seq<string>, b: seq<string>)
    requires a != [] && b != [] && PrefixesOf(a, b)
    ensures PrefixesOf([[c] + a[0]] + a[1..], [[c] + b[0]] + b[1..])
  {
    var x, y := [[c] + a[0]] + a[1..], [[c] + b[0]] + b[1..];
    assert a[0] <= b[0];
    forall i | 0 <= i < |x|
      ensures x[i] <= y[i]
    {
      if i > 0 { assert x[i] == a[i] && y[i] == b[i]; }
    }
  }

  // The lines of a prefix of a text are prefixes of its lines.
  lemma {:induction false} SplitPrefix(s: string, n: nat)
    requires n <= |s|
    ensures PrefixesOf(Split(s[..n], '\n'), Split(s, '\n'))
  {
    if n == 0 {
      assert s[..0] == "";
    } else {
      var rest := s[1..];
      SplitPrefix(rest, n - 1);
      assert s == [s[0]] + rest && s[..n] == [s[0]] + rest[..n - 1];
      SplitStep(s[0], rest, '\n');
      SplitStep(s[0], rest[..n - 1], '\n');
      if s[0] == '\n' {
        OneMoreBreak(Split(rest[..n - 1], '\n'), Split(rest, '\n'));
      } else {
        OneMoreChar(s[0], Split(rest[..n - 1], '\n'), Split(rest, '\n'));
      }
    }
  }

  lemma {:induction false} RunOfPrefix(a: string, b: string)
    requires a <= b
    ensures Body(a) <= Body(b) || Body(a) == ""
  {
    if a != "" && IsIndent(a[0]) {
      RunOfPrefix(a[1..], b[1..]);
      assert Body(a) == Body(a[1..]) && Body(b) == Body(b[1..]);
    }
  }

  lemma PrefixNotStart(a: string, b: string)
    requires a <= b && !IsStart(b)
    ensures !IsStart(a)
  {
    RunOfPrefix(a, b);
    assert |HASH_START| > 0 && |SLASH_START| > 0;
  }

  lemma {:induction false} StayingMembers(lines: seq<string>, dropping: bool, keys: set<string>)
    ensures forall l :: l in Staying(lines, dropping, keys) ==> l in lines
  {
    if lines != [] {
      StayingMembers(lines[1..], true, keys);
      StayingMembers(lines[1..], false, keys);
      StayingMembers(lines[1..], dropping, keys);
    }
  }

  lemma EmptyIsNoStart()
    ensures !IsStart("")
  {
    assert |HASH_START| > 0 && |SLASH_START| > 0;
  }

  lemma JoinedNoStart(lines: seq<string>, staying: seq<string>)
    requires NoStart(lines) && Free(lines, '\n')
    requires forall l :: l in staying ==> l in lines
    ensures NoStart(Split(JoinLines(staying), '\n'))
  {
    EmptyIsNoStart();
    if staying == [] {
      assert Split("", '\n') == [""];
    } else {
      forall i | 0 <= i < |staying|
        ensures '\n' !in staying[i] && !IsStart(staying[i])
      {
        assert staying[i] in lines;
      }
      SplitJoin(staying, '\n');
    }
  }

  lemma RemovalNoStart(existing: string, keys: set<string>)
    requires NoStart(Split(existing, '\n'))
    ensures NoStart(Split(Without(existing, keys), '\n'))
  {
    var lines := Split(existing, '\n');
    var staying := Staying(lines, false, keys);
    StayingMembers(lines, false, keys);
    SplitFree(existing, '\n');
    var joined := JoinLines(staying);
    var squeezed := Squeeze(joined);
    EmptyIsNoStart();
    JoinedNoStart(lines, staying);
    SqueezeKeepsLines(joined);
    FilterMembers(YamlKeys.NotEmpty, Split(joined, '\n'));
    FilterMembers(YamlKeys.NotEmpty, Split(squeezed, '\n'));
    assert NoStart(Split(squeezed, '\n')) by {
      var parts := Split(squeezed, '\n');
      forall i | 0 <= i < |parts|
        ensures !IsStart(parts[i])
      {
        if parts[i] != "" {
          assert parts[i] in Filter(YamlKeys.NotEmpty, parts);
        }
      }
    }
    TrimEndPrefix(squeezed);
    var rest := TrimEnd(squeezed);
    SplitPrefix(squeezed, |rest|);
    forall i | 0 <= i < |Split(rest, '\n')|
      ensures !IsStart(Split(rest, '\n')[i])
    {
      PrefixNotStart(Split(rest, '\n')[i], Split(squeezed, '\n')[i]);
    }
  }

  // ---- Merging a marked block again ----

  lemma NoStartNoBlock(lines: seq<string>)
    requires NoStart(lines)
    ensures CutBlock(lines) == None
  {
    FirstMeans(IsStart, lines);
  }

  lemma CutShape(isStart: string -> bool, afterEnd: string -> Option<string>, lines: seq<string>)
    requires CutBetween(isStart, afterEnd, lines).Some?
    ensures var block := CutBetween(isStart, afterEnd, lines).value;
      && block.above <= lines && (forall l :: l in block.above ==> !isStart(l))
      && TrimStart(block.below) == block.below
  {
    FirstMeans(isStart, lines);
    var rest := lines[First(isStart, lines) + 1..];
    var j := FirstSome(afterEnd, rest);
    TrimStartTwice(Join([afterEnd(rest[j]).value] + rest[j + 1..], '\n'));
  }

  lemma BlockAbove(existing: string)
    requires CutBlock(Split(existing, '\n')).Some?
    ensures var block := CutBlock(Split(existing, '\n')).value;
            && Free(block.above, '\n') && (forall l :: l in block.above ==> !IsStart(l))
            && TrimStart(block.below) == block.below
  {
    SplitFree(existing, '\n');
    CutShape(IsStart, AfterEnd, Split(existing, '\n'));
  }

  lemma BlockAlone(middle: seq<string>)
    requires IsBlock(middle) && !IsContinue(BlockText(middle))
    ensures MergeYaml(BlockText(middle), BlockText(middle)) == BlockText(middle)
  {
    BlockBelow([], middle);
    NothingBefore(BlockText(middle));
  }

  lemma NothingBefore(text: string)
    ensures Terminated([]) + text == text
  {
  }

  lemma BlockBelow(above: seq<string>, middle: seq<string>)
    requires Free(above, '\n') && (forall l :: l in above ==> !IsStart(l)) && IsBlock(middle)
    requires !IsContinue(BlockText(middle))
    ensures MergeYaml(Terminated(above) + BlockText(middle), BlockText(middle)) == Terminated(above) + BlockText(middle)
  {
    MergedAgain(above, middle, "");
    assert Terminated(above) + BlockText(middle) + "" == Terminated(above) + BlockText(middle);
  }

  lemma AboveUnmarked(rest: string)
    requires NoStart(Split(rest, '\n'))
    ensures Free(LinesAbove(rest), '\n') && forall l :: l in LinesAbove(rest) ==> !IsStart(l)
  {
    AboveIsFree(rest);
    EmptyIsNoStart();
  }

  lemma AddedToNothing(middle: seq<string>)
    requires IsBlock(middle) && !IsContinue(BlockText(middle))
    ensures MergeMarked("", BlockText(middle)) == BlockText(middle)
  {
    BlockIsMarked(middle);
    EmptyIsNoStart();
    NoStartNoBlock(Split("", '\n'));
    assert "" + "" + "" + BlockText(middle) == BlockText(middle);
  }

  lemma AddedToText(rest: string, middle: seq<string>)
    requires NoStart(Split(rest, '\n')) && IsBlock(middle) && rest != "" && TrimEnd(rest) == rest
    ensures MergeMarked(rest, BlockText(middle)) == Terminated(LinesAbove(rest)) + BlockText(middle)
  {
    BlockIsMarked(middle);
    NoStartNoBlock(Split(rest, '\n'));
    TrimmedNotBlank(rest);
    Appended(rest, BlockText(middle));
  }

  lemma SameAgain(rest: string, once: string, g: string)
    requires MergeMarked(rest, g) == once && MergeYaml(once, g) == once
    ensures MergeYaml(MergeMarked(rest, g), g) == MergeMarked(rest, g)
  {
  }

  // A block added below what is left of a file.
  lemma AddedBelow(rest: string, middle: seq<string>)
    requires NoStart(Split(rest, '\n')) && IsBlock(middle) && !IsContinue(BlockText(middle))
    requires TrimEnd(rest) == rest
    ensures MergeYaml(MergeMarked(rest, BlockText(middle)), BlockText(middle)) == MergeMarked(rest, BlockText(middle))
  {
    if rest == "" {
      AddedToNothing(middle);
      BlockAlone(middle);
      SameAgain(rest, BlockText(middle), BlockText(middle));
    } else {
      AddedToText(rest, middle);
      AboveUnmarked(rest);
      BlockBelow(LinesAbove(rest), middle);
      SameAgain(rest, Terminated(LinesAbove(rest)) + BlockText(middle), BlockText(middle));
    }
  }

  lemma TrimmedNotBlank(rest: string)
    requires rest != "" && TrimEnd(rest) == rest
    ensures TrimStart(rest) != "" && !IsSpace(rest[|rest| - 1])
  {
    TrimEndPrefix(rest[..|rest| - 1]);
    TrimStartBlank(rest);
    assert rest[|rest| - 1] in rest && !IsSpace(rest[|rest| - 1]);
  }

  lemma {:induction false} TrimEndTwice(s: string)
    ensures TrimEnd(TrimEnd(s)) == TrimEnd(s)
  {
    if s != "" && IsSpace(s[|s| - 1]) { TrimEndTwice(s[..|s| - 1]); }
  }

  lemma {:induction false} FirstSomeMeans(f: string -> Option<string>, lines: seq<string>)
    ensures FirstSome(f, lines) == |lines| <==> forall l :: l in lines ==> f(l) == None
  {
    if lines != [] {
      FirstSomeMeans(f, lines[1..]);
      assert lines == [lines[0]] + lines[1..];
    }
  }

  // A start without an end below it.
  lemma DanglingStart(isStart: string -> bool, afterEnd: string -> Option<string>, lines: seq<string>, i: nat)
    requires i == First(isStart, lines) < |lines| && CutBetween(isStart, afterEnd, lines) == None
    ensures isStart(lines[i]) && (forall k :: 0 <= k < i ==> !isStart(lines[k]))
    ensures forall k :: i < k < |lines| ==> afterEnd(lines[k]) == None
  {
    FirstMeans(isStart, lines);
    FirstSomeMeans(afterEnd, lines[i + 1..]);
    forall k | i < k < |lines|
      ensures afterEnd(lines[k]) == None
    {
      assert lines[k] == lines[i + 1..][k - i - 1];
    }
  }

  lemma SomeStart(lines: seq<string>)
    ensures NoStart(lines) <==> First(IsStart, lines) == |lines|
  {
    FirstMeans(IsStart, lines);
  }

  lemma StartHasInk(line: string)
    requires IsStart(line)
    ensures exists c :: c in line && !IsSpace(c) && c != '\n'
  {
    var body := Body(line);
    assert HASH_START[0] == '#' && SLASH_START[0] == '/';
    assert body != "" && body[0] in line;
    assert body[0] == '#' || body[0] == '/';
  }

  lemma MarkedNotBlank(text: string)
    requires !NoStart(Split(text, '\n'))
    ensures TrimStart(text) != ""
  {
    var i :| 0 <= i < |Split(text, '\n')| && IsStart(Split(text, '\n')[i]);
    StartHasInk(Split(text, '\n')[i]);
    var c :| c in Split(text, '\n')[i] && !IsSpace(c) && c != '\n';
    SplitChars(text, '\n', c);
    TrimStartBlank(text);
  }

  // The lines above a block that is appended to a text: its own, and an empty one.
  function LinesAbove(text: string): seq<string> {
    var lines := Split(text, '\n');
    if lines[|lines| - 1] == "" then lines else lines + [""]
  }

  lemma {:induction false} EndsInBreak(text: string)
    ensures var lines := Split(text, '\n');
            lines[|lines| - 1] == "" <==> text == "" || text[|text| - 1] == '\n'
  {
    if text != "" {
      EndsInBreak(text[1..]);
      var rest := Split(text[1..], '\n');
      assert |text| == 1 ==> text[1..] == "";
      assert |text| > 1 ==> text[1..][|text| - 2] == text[|text| - 1];
    }
  }

  lemma AboveIsText(text: string)
    requires text != ""
    ensures Terminated(LinesAbove(text)) == text + (if text[|text| - 1] != '\n' then "\n" else "") + "\n"
  {
    var lines := Split(text, '\n');
    JoinSplit(text, '\n');
    EndsInBreak(text);
    TerminatedIsJoin(lines);
    if lines[|lines| - 1] != "" {
      TerminatedAppend(lines, [""]);
      TerminatedOne("");
    }
  }

  lemma Appended(text: string, block: string)
    requires TrimStart(text) != "" && CutBlock(Split(text, '\n')) == None
    requires var wanted := Split(block, '\n');
             First(IsExactStart, wanted) < |wanted| && First(IsExactEnd, wanted) < |wanted|
    ensures MergeMarked(text, block) == Terminated(LinesAbove(text)) + block
  {
    AboveIsText(text);
  }

  lemma AboveIsFree(text: string)
    ensures Free(LinesAbove(text), '\n') && Split(text, '\n') <= LinesAbove(text)
    ensures forall l :: l in LinesAbove(text) ==> l in Split(text, '\n') || l == ""
  {
    SplitFree(text, '\n');
  }

  lemma EmptyIsNoEnd()
    ensures AfterEnd("") == None
  {
    assert |HASH_END| > 0 && |SLASH_END| > 0;
  }

  // A block appended below a dangling start: the next merge takes everything from that start
  // on for the block.
  lemma CutFromDangling(above: seq<string>, start: string, between: seq<string>, middle: seq<string>)
    requires Free(above + ([start] + between), '\n') && IsBlock(middle)
    requires (forall l :: l in above ==> !IsStart(l)) && IsStart(start)
    requires forall l :: l in between ==> AfterEnd(l) == None
    ensures var text := Terminated(above + ([start] + between)) + BlockText(middle);
      && CutBlock(Split(text, '\n')) == Some(Block(above, ""))
      && HASH_START in Split(text, '\n')
  {
    var lines := above + ([start] + between);
    var text, inner := Terminated(lines) + BlockText(middle), between + ([HASH_START] + middle);
    LinesOfBlock(lines, middle, "");
    assert text + "" == text;
    RegroupDangling(above, start, between, HASH_START, middle, HASH_END, Split("", '\n'));
    assert (lines + ([HASH_START] + (middle + ([HASH_END] + Split("", '\n')))))[|lines|] == HASH_START;
    Markers();
    InnerHasNoEnd(AfterEnd, between, HASH_START, middle);
    CutLines(IsStart, AfterEnd, above, start, inner, HASH_END, Split("", '\n'));
    BreakIsTrimmed("");
  }

  lemma InnerHasNoEnd(afterEnd: string -> Option<string>, between: seq<string>, start: string, middle: seq<string>)
    requires forall l :: l in between || l in middle ==> afterEnd(l) == None
    requires afterEnd(start) == None
    ensures forall l :: l in between + ([start] + middle) ==> afterEnd(l) == None
  {
  }

  lemma RegroupDangling(above: seq<string>, start: string, between: seq<string>, hash: string, middle: seq<string>,
          end: string, rest: seq<string>)
    ensures (above + ([start] + between)) + ([hash] + (middle + ([end] + rest)))
         == above + ([start] + ((between + ([hash] + middle)) + ([end] + rest)))
  {
  }

  // The lines above the first start marker.
  function AboveStart(text: string): seq<string> {
    var lines := Split(text, '\n');
    lines[..First(IsStart, lines)]
  }

  lemma DanglingLines(text: string)
    requires CutBlock(Split(text, '\n')) == None && !NoStart(Split(text, '\n'))
    ensures var above, i := AboveStart(text), First(IsStart, Split(text, '\n'));
            var lines := LinesAbove(text);
      && i < |lines| && lines == above + ([lines[i]] + lines[i + 1..])
      && (forall l :: l in above ==> !IsStart(l)) && IsStart(lines[i])
      && forall l :: l in lines[i + 1..] ==> AfterEnd(l) == None
  {
    var parts := Split(text, '\n');
    SomeStart(parts);
    EmptyIsNoEnd();
    DanglingStart(IsStart, AfterEnd, parts, First(IsStart, parts));
    CutAtStart(IsStart, AfterEnd, parts, LinesAbove(text), First(IsStart, parts));
  }

  lemma CutAtStart(isStart: string -> bool, afterEnd: string -> Option<string>,
          parts: seq<string>, lines: seq<string>, i: nat)
    requires i < |parts| && (lines == parts || lines == parts + [""]) && afterEnd("") == None
    requires isStart(parts[i]) && (forall k :: 0 <= k < i ==> !isStart(parts[k]))
    requires forall k :: i < k < |parts| ==> afterEnd(parts[k]) == None
    ensures lines == parts[..i] + ([lines[i]] + lines[i + 1..]) && lines[i] == parts[i]
    ensures (forall l :: l in parts[..i] ==> !isStart(l)) && forall l :: l in lines[i + 1..] ==> afterEnd(l) == None
  {
  }

  // Merging below a dangling start twice loses everything from that start on.
  lemma DanglingLoses(text: string, middle: seq<string>)
    requires IsBlock(middle) && !IsContinue(BlockText(middle))
    requires CutBlock(Split(text, '\n')) == None && !NoStart(Split(text, '\n'))
    ensures var g := BlockText(middle); var once := MergeMarked(text, g);
      && MergeYaml(once, g) == Terminated(AboveStart(text)) + g
      && |MergeYaml(once, g)| < |once|
  {
    var g, lines := BlockText(middle), LinesAbove(text);
    var above, i := AboveStart(text), First(IsStart, Split(text, '\n'));
    BlockIsMarked(middle);
    MarkedNotBlank(text);
    Appended(text, g);
    AboveIsFree(text);
    DanglingLines(text);
    CutFromDangling(above, lines[i], lines[i + 1..], middle);
    TerminatedAppend(above, [lines[i]] + lines[i + 1..]);
    MergedInto(Terminated(lines) + g, above, middle);
  }

  // A text whose first block, cut out, leaves nothing below.
  lemma MergedInto(text: string, above: seq<string>, middle: seq<string>)
    requires IsBlock(middle) && !IsContinue(BlockText(middle))
    requires CutBlock(Split(text, '\n')) == Some(Block(above, "")) && HASH_START in Split(text, '\n')
    ensures MergeYaml(text, BlockText(middle)) == Terminated(above) + BlockText(middle)
  {
    var g := BlockText(middle);
    BlockIsMarked(middle);
    var k :| 0 <= k < |Split(text, '\n')| && Split(text, '\n')[k] == HASH_START;
    StartNotBlank(text, k);
    assert Terminated(above) + (TrimEnd(g) + "\n") + "" == Terminated(above) + g;
  }

  // Where the markers stand that the merge of a generated text finds in a file: in the file as
  // it is, when it has the plain start marker, and else in what is left of it without the
  // generated keys. The first start marker there is closed, or there is none.
  predicate Closed(existing: string, generated: string) {
    var lines := Split(existing, '\n');
    if HASH_START in lines then CutBlock(lines).Some?
    else
      var rest := Split(Without(existing, Keys(Split(generated, '\n'))), '\n');
      NoStart(rest) || CutBlock(rest).Some?
  }

  lemma BlockSettles(text: string, middle: seq<string>)
    requires IsBlock(middle) && !IsContinue(BlockText(middle)) && CutBlock(Split(text, '\n')).Some?
    ensures var g := BlockText(middle); MergeYaml(MergeMarked(text, g), g) == MergeMarked(text, g)
  {
    var block := CutBlock(Split(text, '\n')).value;
    BlockIsMarked(middle);
    BlockAbove(text);
    MergedAgain(block.above, middle, block.below);
  }

  lemma StartInLines(lines: seq<string>)
    requires HASH_START in lines
    ensures !NoStart(lines)
  {
    Markers();
    var i :| 0 <= i < |lines| && lines[i] == HASH_START;
    assert IsStart(lines[i]);
  }

  // Merging the same marked block again changes nothing exactly when the file is blank or the
  // first start marker found in it is closed.
  lemma MarkedTwice(existing: string, middle: seq<string>)
    requires IsBlock(middle) && !IsContinue(BlockText(middle))
    ensures var g := BlockText(middle);
            MergeYaml(MergeYaml(existing, g), g) == MergeYaml(existing, g)
            <==> TrimStart(existing) == "" || Closed(existing, g)
  {
    var g, lines := BlockText(middle), Split(existing, '\n');
    if TrimStart(existing) == "" {
      BlockIsMarked(middle);
      assert g == Terminated([]) + g + "";
      MergedAgain([], middle, "");
    } else if HASH_START in lines {
      StartInLines(lines);
      if CutBlock(lines).Some? {
        BlockSettles(existing, middle);
      } else {
        DanglingLoses(existing, middle);
      }
    } else {
      RestTwice(existing, Keys(Split(g, '\n')), middle);
    }
  }

  lemma RestTwice(existing: string, keys: set<string>, middle: seq<string>)
    requires IsBlock(middle) && !IsContinue(BlockText(middle))
    ensures var g, rest := BlockText(middle), Without(existing, keys);
            MergeYaml(MergeMarked(rest, g), g) == MergeMarked(rest, g)
            <==> NoStart(Split(rest, '\n')) || CutBlock(Split(rest, '\n')).Some?
  {
    var rest := Without(existing, keys);
    if CutBlock(Split(rest, '\n')).Some? {
      BlockSettles(rest, middle);
    } else if NoStart(Split(rest, '\n')) {
      TrimEndTwice(Squeeze(JoinLines(Staying(Split(existing, '\n'), false, keys))));
      AddedBelow(rest, middle);
    } else {
      DanglingLoses(rest, middle);
    }
  }

  // ---- A block that loses its end ----

  lemma {:induction false} SqueezeWord(word: string, rest: string)
    requires '\n' !in word
    ensures Squeeze(word + rest) == word + Squeeze(rest)
  {
    if word == "" {
      assert word + rest == rest;
    } else {
      assert word + rest == [word[0]] + (word[1..] + rest) && (word + rest)[1..] == word[1..] + rest;
      SqueezeWord(word[1..], rest);
      assert word == [word[0]] + word[1..];
    }
  }

  lemma SqueezeTwo(a: string, b: string)
    requires '\n' !in a && '\n' !in b && b != ""
    ensures Squeeze(a + ("\n" + (b + "\n"))) == a + ("\n" + (b + "\n"))
  {
    SqueezeWord(a, "\n" + (b + "\n"));
    SqueezeWord(b, "\n");
    var tail := "\n" + (b + "\n");
    assert tail[1..] == b + "\n" && tail[1] == b[0];
    assert Squeeze("\n") == "\n";
    assert Squeeze(tail) == ['\n'] + Squeeze(tail[1..]);
  }

  // The lines of a file whose marked block sets a generated key, and of the generated block.
  predicate Swallows(start: string, was: string, end: string, other: string, now: string) {
    && '\n' !in start && '\n' !in was && '\n' !in end && '\n' !in other && '\n' !in now
    && IsStart(start) && start != HASH_START && TopLevelKey(start) == None
    && TopLevelKey(was).Some? && TopLevelKey(now) == TopLevelKey(was)
    && TopLevelKey(end) == None && end != HASH_START
    && TopLevelKey(other).Some? && TopLevelKey(other) != TopLevelKey(was)
    && !IsSpace(other[|other| - 1]) && AfterEnd(other) == None
  }

  lemma StayingFirst(line: string, rest: seq<string>, dropping: bool, keys: set<string>, key: Option<string>)
    requires key == TopLevelKey(line)
    ensures var drop := if key.Some? then key.value in keys else dropping;
            Staying([line] + rest, dropping, keys) == (if drop then [] else [line]) + Staying(rest, drop, keys)
  {
    assert ([line] + rest)[1..] == rest;
  }

  lemma SwallowedLines(keys: set<string>, start: string, was: string, end: string, other: string, key: string)
    requires TopLevelKey(start) == None && TopLevelKey(was) == Some(key) && key in keys && TopLevelKey(end) == None
    requires TopLevelKey(other).Some? && TopLevelKey(other).value !in keys
    ensures Staying([start] + ([was] + ([end] + ([other] + ([""] + [])))), false, keys) == [start, other, ""]
  {
    StayingFirst("", [], false, keys, None);
    StayingFirst(other, [""] + [], true, keys, TopLevelKey(other));
    StayingFirst(end, [other] + ([""] + []), true, keys, None);
    StayingFirst(was, [end] + ([other] + ([""] + [])), false, keys, Some(key));
    StayingFirst(start, [was] + ([end] + ([other] + ([""] + []))), false, keys, None);
  }

  lemma JoinThree(a: string, b: string)
    ensures JoinLines([a, b, ""]) == a + ("\n" + (b + "\n"))
  {
    var lines := [a, b, ""];
    assert lines[1..] == [b, ""] && lines[1..][1..] == [""];
    assert Join([b, ""], '\n') == b + "\n" + "";
  }

  lemma TwoJoined(a: string, b: string)
    requires '\n' !in a && '\n' !in b
    ensures Split(a + "\n" + b, '\n') == [a, b]
  {
    SplitWord(a, '\n');
    SplitWord(b, '\n');
    SplitConcat(a, b, '\n');
  }

  lemma TwoLinesLeft(start: string, other: string)
    requires '\n' !in start && '\n' !in other && other != "" && !IsSpace(other[|other| - 1])
    ensures TrimEnd(Squeeze(JoinLines([start, other, ""]))) == start + "\n" + other
    ensures Split(start + "\n" + other, '\n') == [start, other]
  {
    JoinThree(start, other);
    SqueezeTwo(start, other);
    assert start + ("\n" + (other + "\n")) == (start + "\n" + other) + "\n";
    TrimBreak(start + "\n" + other);
    TwoJoined(start, other);
  }

  lemma KeylessMarker(marker: string)
    requires marker != "" && marker[0] == '#'
    ensures TopLevelKey(marker) == None
  {
  }

  lemma KeyLineNotEnd(line: string)
    requires TopLevelKey(line).Some?
    ensures AfterEnd(line) == None
  {
    assert IsWordChar(line[0]);
    assert Run(line, IsIndent) == 0 && Body(line) == line[0..] == line;
    assert HASH_END[0] == '#' && SLASH_END[0] == '/';
  }

  lemma OneKeyBlock(now: string)
    requires TopLevelKey(now).Some? && '\n' !in now && now != "name: FreeLLMAPI"
    ensures IsBlock([now]) && !IsContinue(BlockText([now]))
    ensures Keys(Split(BlockText([now]), '\n')) == {TopLevelKey(now).value}
  {
    KeyLineNotStart(now);
    KeyLineNotEnd(now);
    LinesOfBlockAlone([now]);
    assert [] + ([HASH_START] + ([now] + ([HASH_END] + Split("", '\n')))) == [HASH_START, now, HASH_END, ""];
    MarkersKeyless(HASH_START, HASH_END);
    NamesDiffer(HASH_START, now, HASH_END);
    KeysOfFour(HASH_START, now, HASH_END);
  }

  lemma MarkersKeyless(start: string, end: string)
    requires start == HASH_START && end == HASH_END
    ensures start != "" && start[0] == '#' && TopLevelKey(start) == None
    ensures end != "" && end[0] == '#' && TopLevelKey(end) == None
  {
    KeylessMarker(start);
    KeylessMarker(end);
  }

  lemma KeysOfFour(start: string, now: string, end: string)
    requires TopLevelKey(start) == None && TopLevelKey(end) == None && TopLevelKey(now).Some?
    ensures Keys([start, now, end, ""]) == {TopLevelKey(now).value}
  {
    assert now in [start, now, end, ""] && TopLevelKey("") == None;
  }

  lemma NamesDiffer(start: string, now: string, end: string)
    requires start != "" && start[0] == '#' && end != "" && end[0] == '#' && now != "name: FreeLLMAPI"
    ensures "name: FreeLLMAPI" !in [start, now, end, ""]
  {
    var name := "name: FreeLLMAPI";
    assert name[0] == 'n';
  }

  // What is left of such a file: the start of the block, without its end.
  lemma LinesOfFour(a: string, b: string, c: string, d: string)
    requires '\n' !in a && '\n' !in b && '\n' !in c && '\n' !in d
    ensures Split(Terminated([a, b, c, d]), '\n') == [a, b, c, d, ""]
  {
    var lines := [a, b, c, d];
    SplitTerminated(lines, "");
    assert Terminated(lines) + "" == Terminated(lines);
  }

  lemma SwallowedRest(start: string, was: string, end: string, other: string, key: string)
    requires '\n' !in start && '\n' !in was && '\n' !in end && '\n' !in other
    requires TopLevelKey(start) == None && TopLevelKey(was) == Some(key) && TopLevelKey(end) == None
    requires TopLevelKey(other).Some? && TopLevelKey(other).value != key && !IsSpace(other[|other| - 1])
    ensures var existing := Terminated([start, was, end, other]);
      && Split(existing, '\n') == [start, was, end, other, ""]
      && Without(existing, {key}) == start + "\n" + other
  {
    LinesOfFour(start, was, end, other);
    assert [start, was, end, other, ""] == [start] + ([was] + ([end] + ([other] + ([""] + []))));
    SwallowedLines({key}, start, was, end, other, key);
    TwoLinesLeft(start, other);
  }

  // A marked block whose start is indented or a `//` comment, and which sets a key that is
  // generated: removing the key takes the end marker with it, and the merge after the next one
  // loses what stands below.
  lemma BlockLosesItsEnd(start: string, was: string, end: string, other: string, now: string)
    requires Swallows(start, was, end, other, now) && now != "name: FreeLLMAPI"
    ensures var existing, g := Terminated([start, was, end, other]), BlockText([now]);
      && MergeYaml(MergeYaml(existing, g), g) == g
      && MergeYaml(MergeYaml(existing, g), g) != MergeYaml(existing, g)
  {
    var key := TopLevelKey(was).value;
    OneKeyBlock(now);
    SwallowedRest(start, was, end, other, key);
    FirstMerge(start, was, end, other, BlockText([now]), key);
    SecondMerge(Terminated([start, was, end, other]), start, other, now);
  }

  lemma SecondMerge(existing: string, start: string, other: string, now: string)
    requires MergeYaml(existing, BlockText([now])) == MergeMarked(start + "\n" + other, BlockText([now]))
    requires IsStart(start) && AfterEnd(other) == None && '\n' !in start && '\n' !in other
    requires other != "" && !IsSpace(other[|other| - 1])
    requires IsBlock([now]) && !IsContinue(BlockText([now]))
    ensures var g := BlockText([now]);
      && MergeYaml(MergeYaml(existing, g), g) == g
      && MergeYaml(MergeYaml(existing, g), g) != MergeYaml(existing, g)
  {
    RestDangles(start, other, now);
    TwoMerges(existing, MergeMarked(start + "\n" + other, BlockText([now])), BlockText([now]));
  }

  lemma TwoMerges(existing: string, once: string, g: string)
    requires MergeYaml(existing, g) == once && MergeYaml(once, g) == g && g != once
    ensures MergeYaml(MergeYaml(existing, g), g) == g && MergeYaml(MergeYaml(existing, g), g) != MergeYaml(existing, g)
  {
  }

  lemma FirstMerge(start: string, was: string, end: string, other: string, g: string, key: string)
    requires var existing := Terminated([start, was, end, other]);
             Split(existing, '\n') == [start, was, end, other, ""] && Without(existing, {key}) == start + "\n" + other
    requires IsStart(start) && start != HASH_START && end != HASH_START
    requires TopLevelKey(was).Some? && TopLevelKey(other).Some?
    requires !IsContinue(g) && Keys(Split(g, '\n')) == {key}
    ensures MergeYaml(Terminated([start, was, end, other]), g) == MergeMarked(start + "\n" + other, g)
  {
    var existing := Terminated([start, was, end, other]);
    assert IsStart(Split(existing, '\n')[0]);
    MarkedNotBlank(existing);
    KeyLineNotPlain(was);
    KeyLineNotPlain(other);
    NotAmong(HASH_START, start, was, end, other);
  }

  lemma KeyLineNotPlain(line: string)
    requires TopLevelKey(line).Some?
    ensures line != HASH_START
  {
    KeyLineNotStart(line);
    Markers();
  }

  lemma NotAmong(x: string, a: string, b: string, c: string, d: string)
    requires x != "" && x != a && x != b && x != c && x != d
    ensures x !in [a, b, c, d, ""]
  {
  }

  lemma RestDangles(start: string, other: string, now: string)
    requires IsStart(start) && AfterEnd(other) == None && '\n' !in start && '\n' !in other
    requires other != "" && !IsSpace(other[|other| - 1])
    requires IsBlock([now]) && !IsContinue(BlockText([now]))
    ensures var rest, g := start + "\n" + other, BlockText([now]);
            MergeYaml(MergeMarked(rest, g), g) == g && g != MergeMarked(rest, g)
  {
    var rest := start + "\n" + other;
    TwoLinesLeft(start, other);
    var lines := [start, other];
    assert lines[0] == start && First(IsStart, lines) == 0 && lines[1..] == [other] && lines[..0] == [];
    assert FirstSome(AfterEnd, [other]) == 1 by {
      assert [other][1..] == [];
    }
    DanglingLoses(rest, [now]);
    assert AboveStart(rest) == [];
    assert Terminated([]) + BlockText([now]) == BlockText([now]);
  }

  // For instance, this file loses `other: 1`.
  lemma OtherIsLost(start: string, was: string, end: string, other: string, now: string)
    requires start == "  # freellmapi:start" && was == "model: old" && end == "  # freellmapi:end"
    requires other == "other: 1" && now == "model: new"
    ensures var existing, g := Terminated([start, was, end, other]), BlockText([now]);
            MergeYaml(MergeYaml(existing, g), g) == g != MergeYaml(existing, g)
  {
    StartLine(start);
    EndLine(end);
    SettingLines(was, other, now);
    OtherSwallowed(start, was, end, other, now);
    BlockLosesItsEnd(start, was, end, other, now);
  }

  lemma StartLine(start: string)
    requires start == "  # freellmapi:start"
    ensures Body(start) == HASH_START && start[0] == ' ' && TopLevelKey(start) == None && '\n' !in start
  {
    IndentedMarker(start, HASH_START);
  }

  lemma EndLine(end: string)
    requires end == "  # freellmapi:end"
    ensures end != "" && end[0] == ' ' && TopLevelKey(end) == None && '\n' !in end
  {
    IndentedMarker(end, HASH_END);
  }

  lemma SettingLines(was: string, other: string, now: string)
    requires was == "model: old" && other == "other: 1" && now == "model: new"
    ensures TopLevelKey(was) == Some("model") == TopLevelKey(now) && '\n' !in was && '\n' !in now
    ensures TopLevelKey(other) == Some("other") && '\n' !in other && other != "" && other[|other| - 1] == '1'
    ensures now != "name: FreeLLMAPI"
  {
    KeyIs(was, "model", "old");
    KeyIs(now, "model", "new");
    KeyIs(other, "other", "1");
  }

  lemma OtherSwallowed(start: string, was: string, end: string, other: string, now: string)
    requires Body(start) == HASH_START && start[0] == ' ' && TopLevelKey(start) == None && '\n' !in start
    requires TopLevelKey(was) == Some("model") == TopLevelKey(now) && '\n' !in was && '\n' !in now
    requires end != "" && end[0] == ' ' && TopLevelKey(end) == None && '\n' !in end
    requires TopLevelKey(other) == Some("other") && '\n' !in other && other != "" && other[|other| - 1] == '1'
    ensures Swallows(start, was, end, other, now)
  {
    var plain := HASH_START;
    assert plain[0] == '#' && "model" != "other" by { assert "model"[0] == 'm' && "other"[0] == 'o'; }
    KeyLineNotEnd(other);
  }

  lemma IndentedMarker(s: string, marker: string)
    requires s == "  " + marker && marker != "" && marker[0] == '#' && '\n' !in marker
    ensures Body(s) == marker && s[0] == ' ' && TopLevelKey(s) == None && '\n' !in s
  {
    assert s[1..][1..] == marker && Run(marker, IsIndent) == 0;
    assert s[1..][0] == ' ' && Run(s[1..], IsIndent) == 1;
    assert Run(s, IsIndent) == 2 && s[2..] == marker;
  }

  lemma KeyIs(s: string, key: string, value: string)
    requires s == key + ": " + value && key != "" && (forall i :: 0 <= i < |key| ==> IsWordChar(key[i]))
    requires '\n' !in key && '\n' !in value && value != ""
    ensures TopLevelKey(s) == Some(key) && '\n' !in s && s != "" && s[|s| - 1] == value[|value| - 1]
  {
    var n := |key|;
    assert s[n] == ':' && s[n + 1] == ' ';
    assert forall i :: 0 <= i < n ==> s[i] == key[i];
    RunIs(s, n, IsWordChar);
    assert s[..n] == key;
  }

  // A file without start marker is never troubled.
  lemma UnmarkedIsClosed(existing: string, generated: string)
    requires NoStart(Split(existing, '\n'))
    ensures Closed(existing, generated)
  {
    var lines := Split(existing, '\n');
    if HASH_START in lines {
      StartInLines(lines);
    }
    RemovalNoStart(existing, Keys(Split(generated, '\n')));
  }

  // ---- Marker lines, spelled out ----

  // Blanks or tabs, `#` or `//`, a blank, and a text.
  ghost predicate Comments(line: string, indent: string, sign: string, text: string) {
    && (forall i :: 0 <= i < |indent| ==> indent[i] == ' ' || indent[i] == '\t')
    && (sign == "#" || sign == "//") && line == indent + (sign + (" " + text))
  }

  lemma BodyOfComment(line: string, indent: string, sign: string, text: string)
    requires Comments(line, indent, sign, text)
    ensures Body(line) == sign + (" " + text)
  {
    RunOf(indent, sign + (" " + text), IsIndent);
  }

  lemma CommentOfBody(line: string, sign: string, text: string)
    requires Body(line) == sign + (" " + text) && (sign == "#" || sign == "//")
    ensures Comments(line, line[..Run(line, IsIndent)], sign, text)
  {
    var n := Run(line, IsIndent);
    assert line == line[..n] + line[n..];
  }

  lemma MarkersAre(hash: string, slash: string, word: string)
    requires hash == "# " + word && slash == "// " + word
    ensures hash == "#" + (" " + word) && slash == "//" + (" " + word)
  {
  }

  lemma StartIs(word: string)
    requires word == "freellmapi:start"
    ensures HASH_START == "# " + word && SLASH_START == "// " + word
  {
  }

  lemma EndIs(word: string)
    requires word == "freellmapi:end"
    ensures HASH_END == "# " + word && SLASH_END == "// " + word
  {
  }

  lemma Behind(whole: string, sign: string, word: string)
    requires sign + (" " + word) <= whole
    ensures whole == sign + (" " + (word + whole[|sign| + 1 + |word|..]))
  {
  }

  // A line that the marker pattern can begin at.
  lemma IsStartMeans(line: string, word: string)
    requires word == "freellmapi:start"
    ensures IsStart(line) <==> exists indent, sign, rest :: Comments(line, indent, sign, word + rest)
  {
    StartIs(word);
    MarkersAre(HASH_START, SLASH_START, word);
    if IsStart(line) {
      var sign := if HASH_START <= Body(line) then "#" else "//";
      Behind(Body(line), sign, word);
      CommentOfBody(line, sign, word + Body(line)[|sign| + 1 + |word|..]);
    }
    if exists indent, sign, rest :: Comments(line, indent, sign, word + rest) {
      var indent, sign, rest :| Comments(line, indent, sign, word + rest);
      BodyOfComment(line, indent, sign, word + rest);
      PrefixOfComment(sign, word, rest);
    }
  }

  lemma PrefixOfComment(sign: string, word: string, rest: string)
    ensures sign + (" " + word) <= sign + (" " + (word + rest))
    ensures (sign + (" " + (word + rest)))[|sign + (" " + word)|..] == rest
  {
    assert sign + (" " + (word + rest)) == (sign + (" " + word)) + rest;
  }

  // What follows an end marker on its line.
  lemma AfterEndMeans(line: string, word: string, rest: string)
    requires word == "freellmapi:end"
    ensures AfterEnd(line) == Some(rest) <==> exists indent, sign :: Comments(line, indent, sign, word + rest)
  {
    EndIs(word);
    MarkersAre(HASH_END, SLASH_END, word);
    if AfterEnd(line) == Some(rest) {
      var sign := if HASH_END <= Body(line) then "#" else "//";
      Behind(Body(line), sign, word);
      CommentOfBody(line, sign, word + rest);
    }
    if exists indent, sign :: Comments(line, indent, sign, word + rest) {
      var indent, sign :| Comments(line, indent, sign, word + rest);
      BodyOfComment(line, indent, sign, word + rest);
      PrefixOfComment(sign, word, rest);
      assert sign == "//" ==> Body(line)[0] == '/' && HASH_END[0] == '#';
    }
  }

  // ---- Lines and texts ----

  lemma KeyLineNotStart(line: string)
    requires TopLevelKey(line).Some?
    ensures !IsStart(line)
  {
    assert IsWordChar(line[0]);
    assert Run(line, IsIndent) == 0 && Body(line) == line[0..] == line;
    assert HASH_START[0] == '#' && SLASH_START[0] == '/';
  }

  lemma TrimBreak(t: string)
    requires t != "" && !IsSpace(t[|t| - 1])
    ensures TrimEnd(t + "\n") == t
  {
    assert (t + "\n")[..|t|] == t;
  }
}
