// Which of the YAML merges is taken and what it writes, on the lines and texts themselves:
// `mergeYaml` and `mergeMarked` of cli/src/config-files.ts.
module YamlChoices {
  import opened Sequences
  import opened Text
  import opened YamlKeys
  import opened YamlMerge

  // A generated file for Continue has these two lines.
  predicate ForContinue(generated: string) {
    "name: FreeLLMAPI" in Split(generated, '\n') && "models:" in Split(generated, '\n')
  }

  // A line that is a marker and nothing else, but for blanks or tabs in front.
  ghost predicate IsMarkerLine(line: string, word: string) {
    exists indent, sign :: Comments(line, indent, sign, word)
  }

  ghost predicate HasMarkers(generated: string) {
    && (exists l :: l in Split(generated, '\n') && IsMarkerLine(l, "freellmapi:start"))
    && (exists l :: l in Split(generated, '\n') && IsMarkerLine(l, "freellmapi:end"))
  }

  // Some line begins with a start marker, and a later one with an end marker.
  ghost predicate HasBlock(text: string) {
    exists i, j :: 0 <= i < j < |Split(text, '\n')| && BlockAt(Split(text, '\n'), i, j)
  }

  ghost predicate BlockAt(lines: seq<string>, i: int, j: int)
    requires 0 <= i < j < |lines|
  {
    && (exists indent, sign, rest :: Comments(lines[i], indent, sign, "freellmapi:start" + rest))
    && (exists indent, sign, rest :: Comments(lines[j], indent, sign, "freellmapi:end" + rest))
  }

  // The text that a marked block is written into: the file, or if it has no plain start marker what
  // is left of it without the generated keys.
  function Target(existing: string, generated: string): string {
    if "# freellmapi:start" in Split(existing, '\n') then existing
    else Without(existing, Keys(Split(generated, '\n')))
  }

  lemma ExactMeans(line: string, hash: string, slash: string, word: string)
    requires hash == "# " + word && slash == "// " + word
    ensures Body(line) == hash || Body(line) == slash <==> IsMarkerLine(line, word)
  {
    MarkersAre(hash, slash, word);
    if Body(line) == hash {
      CommentOfBody(line, "#", word);
    } else if Body(line) == slash {
      CommentOfBody(line, "//", word);
    }
    if indent, sign :| Comments(line, indent, sign, word) {
      BodyOfComment(line, indent, sign, word);
    }
  }

  lemma HasMarkersMeans(generated: string)
    ensures HasMarkers(generated) <==>
            First(IsExactStart, Split(generated, '\n')) < |Split(generated, '\n')|
            && First(IsExactEnd, Split(generated, '\n')) < |Split(generated, '\n')|
  {
    var start, end := "freellmapi:start", "freellmapi:end";
    StartIs(start);
    EndIs(end);
    forall l
      ensures IsExactStart(l) <==> IsMarkerLine(l, "freellmapi:start")
      ensures IsExactEnd(l) <==> IsMarkerLine(l, "freellmapi:end")
    {
      ExactMeans(l, HASH_START, SLASH_START, start);
      ExactMeans(l, HASH_END, SLASH_END, end);
    }
    FirstMeans(IsExactStart, Split(generated, '\n'));
    FirstMeans(IsExactEnd, Split(generated, '\n'));
  }

  lemma NoBlockIsCut(text: string)
    requires !HasBlock(text)
    ensures CutBlock(Split(text, '\n')) == None
  {
    var lines := Split(text, '\n');
    FirstMeans(IsStart, lines);
    var i := First(IsStart, lines);
    if i < |lines| {
      IsStartMeans(lines[i], "freellmapi:start");
      forall j | i < j < |lines|
        ensures AfterEnd(lines[j]) == None
      {
        assert !BlockAt(lines, i, j);
        if AfterEnd(lines[j]).Some? {
          AfterEndMeans(lines[j], "freellmapi:end", AfterEnd(lines[j]).value);
        }
      }
      FirstSomeMeans(AfterEnd, lines[i + 1..]);
    }
  }

  // A blank file takes the generated text. So does any file, whatever it holds, when the generated
  // text lacks one of the markers.
  lemma TakesGenerated(existing: string, generated: string)
    requires !ForContinue(generated) && (TrimStart(existing) == "" || !HasMarkers(generated))
    ensures MergeYaml(existing, generated) == generated
  {
    HasMarkersMeans(generated);
  }

  // What it takes to end the last line of a text, if it is not ended, and to leave an empty one if
  // there is anything above.
  function Gap(text: string): string {
    if text == "" then ""
    else if TrimStart(text) == "" then (if text[|text| - 1] == '\n' then "" else "\n")
    else if text[|text| - 1] == '\n' then "\n"
    else "\n\n"
  }

  lemma AddedBehind(text: string, generated: string)
    requires CutBlock(Split(text, '\n')) == None
    requires First(IsExactStart, Split(generated, '\n')) < |Split(generated, '\n')|
    requires First(IsExactEnd, Split(generated, '\n')) < |Split(generated, '\n')|
    ensures MergeMarked(text, generated) == text + Gap(text) + generated
  {
    var a := if text != "" && text[|text| - 1] != '\n' then "\n" else "";
    var b := if TrimStart(text) != "" then "\n" else "";
    Associate(text, a, b);
    assert a + b == Gap(text);
  }

  lemma Chosen(existing: string, generated: string)
    requires !ForContinue(generated) && TrimStart(existing) != ""
    ensures MergeYaml(existing, generated) == MergeMarked(Target(existing, generated), generated)
  {
  }

  // A file without marked block keeps its text, or what is left of it without the generated keys, and
  // the generated text follows below an empty line.
  lemma AppendsGenerated(existing: string, generated: string)
    requires !ForContinue(generated) && TrimStart(existing) != "" && HasMarkers(generated)
    requires !HasBlock(Target(existing, generated))
    ensures var text := Target(existing, generated);
            MergeYaml(existing, generated) == text + Gap(text) + generated
  {
    HasMarkersMeans(generated);
    NoBlockIsCut(Target(existing, generated));
    Chosen(existing, generated);
    AddedBehind(Target(existing, generated), generated);
  }

  // The first marked block gives way to the generated one; above it and below it everything stays, but
  // for white space behind it.
  lemma ReplacesBlock(existing: string, above: seq<string>, was: seq<string>, middle: seq<string>, below: string)
    requires TrimStart(existing) != "" && IsBlock(was) && IsBlock(middle) && !ForContinue(BlockText(middle))
    requires Free(above, '\n') && forall l :: l in above ==> !IsStart(l)
    requires Target(existing, BlockText(middle)) == Terminated(above) + BlockText(was) + below
    ensures MergeYaml(existing, BlockText(middle)) == Terminated(above) + BlockText(middle) + TrimStart(below)
  {
    Chosen(existing, BlockText(middle));
    MarkedReplaces(above, was, middle, below);
  }
}
