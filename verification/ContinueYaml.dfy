// The merge of the FreeLLMAPI model entry into a Continue configuration:
// `continueModelLines` and `mergeContinueYaml` of cli/src/config-files.ts, on lines.
module ContinueYaml {
  import opened Sequences
  import opened Text
  import opened YamlKeys

  // A line, with what the merge looks for in it: its top-level key, whether it starts an item
  // of a list, and whether that item is the one named FreeLLMAPI.
  datatype Line = Line(text: string, key: Option<string>, item: bool, ours: bool)

  const EMPTY := Line("", None, false, false)
  const MODELS := Line("models:", Some("models"), false, false)
  const END_TEXT := "# freellmapi:end"

  // A list item of the models section: two blanks, a dash, white space.
  predicate IsItemText(s: string) {
    |s| > 3 && IsSpace(s[0]) && IsSpace(s[1]) && s[2] == '-' && IsSpace(s[3])
  }

  predicate IsQuote(c: char) { c == '"' || c == '\'' }

  // The name, with or without a quote on either side.
  predicate IsOurName(s: string) {
    || s == "FreeLLMAPI"
    || (s != "" && IsQuote(s[0]) && s[1..] == "FreeLLMAPI")
    || (s != "" && IsQuote(s[|s| - 1]) && s[..|s| - 1] == "FreeLLMAPI")
    || (|s| > 1 && IsQuote(s[0]) && IsQuote(s[|s| - 1]) && s[1..|s| - 1] == "FreeLLMAPI")
  }

  predicate IsOursText(s: string) {
    IsItemText(s) &&
      var t := TrimStart(s[3..]);
      "name:" <= t && |t| > 5 && IsSpace(t[5]) && IsOurName(Trim(t[5..]))
  }

  function Classify(s: string): Line { Line(s, TopLevelKey(s), IsItemText(s), IsOursText(s)) }

  predicate IsModels(line: Line) { line.key == Some("models") }
  predicate IsName(line: Line) { line.key == Some("name") }
  predicate IsVersion(line: Line) { line.key == Some("version") }
  predicate IsSchema(line: Line) { line.key == Some("schema") }
  predicate IsTopKey(line: Line) { line.key.Some? }
  predicate IsItem(line: Line) { line.item }
  predicate IsOurs(line: Line) { line.item && line.ours }
  predicate IsModelsLine(line: Line) { line.text == MODELS.text }
  predicate IsEndLine(line: Line) { line.text == END_TEXT }

  // The lines of the generated entry.
  function ModelLines(generated: seq<Line>): seq<Line> {
    var m := First(IsModelsLine, generated);
    var from := if m < |generated| then m + 1 else 0;
    var rest := generated[from..];
    rest[..First(IsEndLine, rest)]
  }

  // The generated line for a header that the file lacks, if there is one.
  function Header(p: Line -> bool, lines: seq<Line>, generated: seq<Line>): seq<Line> {
    var g := First(p, generated);
    if First(p, lines) == |lines| && g < |generated| then [generated[g]] else []
  }

  function MissingHeader(lines: seq<Line>, generated: seq<Line>): seq<Line> {
    Header(IsName, lines, generated) + Header(IsVersion, lines, generated) + Header(IsSchema, lines, generated)
  }

  // A file cut at its models section: everything up to its key, the lines before our item, our
  // item if there is one, the items after it, and the other keys with what belongs to them.
  datatype Cut = Cut(top: seq<Line>, before: seq<Line>, ours: seq<Line>, items: seq<Line>, rest: seq<Line>)
  {
    function Lines(): seq<Line> { top + (before + (ours + items) + rest) }

    function With(modelLines: seq<Line>): seq<Line> { top + (before + (modelLines + items) + rest) }
  }

  // The section from the first FreeLLMAPI item on, cut behind that item.
  function CutEntry(lines: seq<Line>): (seq<Line>, seq<Line>) {
    if lines == [] then ([], []) else
      var n := 1 + First(IsItem, lines[1..]);
      (lines[..n], lines[n..])
  }

  function CutSection(section: seq<Line>): (seq<Line>, seq<Line>, seq<Line>) {
    var start := First(IsOurs, section);
    var (ours, items) := CutEntry(section[start..]);
    (section[..start], ours, items)
  }

  function CutOf(top: seq<Line>, section: seq<Line>, rest: seq<Line>): Cut {
    var (before, ours, items) := CutSection(section);
    Cut(top, before, ours, items, rest)
  }

  function CutAt(lines: seq<Line>, m: nat): Cut
    requires m < |lines|
  {
    var tail := lines[m + 1..];
    var end := First(IsTopKey, tail);
    CutOf(lines[..m + 1], tail[..end], tail[end..])
  }

  function DropEmptyEnd(lines: seq<Line>): seq<Line> {
    if lines != [] && lines[|lines| - 1] == EMPTY then DropEmptyEnd(lines[..|lines| - 1]) else lines
  }

  // The lines of the merged file, without the empty one after the last line break. A file
  // of white space only has the one line EMPTY.
  function MergeLines(lines: seq<Line>, generated: seq<Line>): seq<Line> {
    var m := First(IsModels, lines);
    var header, modelLines := MissingHeader(lines, generated), ModelLines(generated);
    if m == |lines| then
      header + (if lines == [EMPTY] then [] else lines + [EMPTY]) + [MODELS]
      + (if modelLines == [] then [EMPTY] else modelLines)
    else DropEmptyEnd(header + CutAt(lines, m).With(modelLines))
  }

  // The lines of a file that the merge keeps: all but our item.
  function Others(lines: seq<Line>): seq<Line> {
    var m := First(IsModels, lines);
    if m == |lines| then lines else CutAt(lines, m).With([])
  }

  // The end of the models section, its key at m.
  method FindSectionEnd(lines: seq<Line>, m: nat) returns (modelsEnd: nat)
    requires m < |lines|
    ensures modelsEnd == m + 1 + First(IsTopKey, lines[m + 1..])
  {
    modelsEnd := m + 1;
    while modelsEnd < |lines| && lines[modelsEnd].key == None
      invariant m < modelsEnd <= |lines|
      invariant forall k :: m < k < modelsEnd ==> !IsTopKey(lines[k])
    {
      modelsEnd := modelsEnd + 1;
    }
    FirstIs(IsTopKey, lines[m + 1..], modelsEnd - m - 1);
  }

  // The end of the item that starts at `entryStart`.
  method FindEntryEnd(lines: seq<Line>, entryStart: nat, modelsEnd: nat) returns (entryEnd: nat)
    requires entryStart < modelsEnd <= |lines|
    requires forall k :: entryStart < k < modelsEnd ==> lines[k].key == None
    ensures entryEnd == entryStart + 1 + First(IsItem, lines[entryStart + 1..modelsEnd])
    ensures entryEnd <= modelsEnd
  {
    entryEnd := entryStart + 1;
    while entryEnd < modelsEnd && !IsItem(lines[entryEnd]) && lines[entryEnd].key == None
      invariant entryStart < entryEnd <= modelsEnd
      invariant forall k :: entryStart < k < entryEnd ==> !IsItem(lines[k])
    {
      entryEnd := entryEnd + 1;
    }
    FirstIs(IsItem, lines[entryStart + 1..modelsEnd], entryEnd - entryStart - 1);
  }

  lemma SlicesWithin(lines: seq<Line>, a: nat, b: nat, i: nat)
    requires a <= a + i <= b <= |lines|
    ensures lines[a..b][..i] == lines[a..a + i] && lines[a..b][i..] == lines[a + i..b]
  {
  }

  lemma EntryByIndex(lines: seq<Line>, start: nat, stop: nat, end: nat)
    requires start <= end <= |lines|
    requires stop == if start == end then end else start + 1 + First(IsItem, lines[start + 1..end])
    ensures start <= stop <= end
    ensures CutEntry(lines[start..end]) == (lines[start..stop], lines[stop..end])
  {
    if start < end {
      assert lines[start..end][1..] == lines[start + 1..end];
      SlicesWithin(lines, start, end, stop - start);
    }
  }

  lemma SectionParts(lines: seq<Line>, from: nat, start: nat, end: nat)
    requires from <= start <= end <= |lines| && start == from + First(IsOurs, lines[from..end])
    ensures var (ours, items) := CutEntry(lines[start..end]);
            CutSection(lines[from..end]) == (lines[from..start], ours, items)
  {
    SlicesWithin(lines, from, end, start - from);
  }

  lemma SectionByIndex(lines: seq<Line>, from: nat, end: nat, start: nat, stop: nat)
    requires from <= end <= |lines|
    requires start == from + First(IsOurs, lines[from..end])
    requires stop == if start == end then end else start + 1 + First(IsItem, lines[start + 1..end])
    ensures start <= stop <= end
    ensures CutSection(lines[from..end]) == (lines[from..start], lines[start..stop], lines[stop..end])
  {
    SectionParts(lines, from, start, end);
    EntryByIndex(lines, start, stop, end);
  }

  lemma TailByIndex(lines: seq<Line>, from: nat, end: nat)
    requires from <= end <= |lines|
    ensures lines[from..][..end - from] == lines[from..end] && lines[from..][end - from..] == lines[end..]
  {
  }

  lemma CutAtByIndex(lines: seq<Line>, m: nat, end: nat)
    requires m < |lines| && end == m + 1 + First(IsTopKey, lines[m + 1..])
    ensures end <= |lines| && CutAt(lines, m) == CutOf(lines[..m + 1], lines[m + 1..end], lines[end..])
  {
    TailByIndex(lines, m + 1, end);
  }

  lemma CutByIndex(lines: seq<Line>, m: nat, end: nat, start: nat, stop: nat)
    requires m < |lines|
    requires end == m + 1 + First(IsTopKey, lines[m + 1..])
    requires start == m + 1 + First(IsOurs, lines[m + 1..end])
    requires stop == if start == end then end else start + 1 + First(IsItem, lines[start + 1..end])
    ensures start <= stop <= end <= |lines|
    ensures CutAt(lines, m) == Cut(lines[..m + 1], lines[m + 1..start], lines[start..stop], lines[stop..end],
                                lines[end..])
  {
    CutAtByIndex(lines, m, end);
    SectionByIndex(lines, m + 1, end, start, stop);
  }

  lemma SpliceByIndex(lines: seq<Line>, m: nat, end: nat, start: nat, stop: nat, modelLines: seq<Line>)
    requires m < start <= stop <= end <= |lines|
    ensures Cut(lines[..m + 1], lines[m + 1..start], lines[start..stop], lines[stop..end],
                lines[end..]).With(modelLines)
         == lines[..start] + modelLines + lines[stop..]
  {
    assert lines[..start] == lines[..m + 1] + lines[m + 1..start];
    assert lines[stop..] == lines[stop..end] + lines[end..];
  }

  lemma NoKeyInSection(lines: seq<Line>, m: nat, end: nat)
    requires m < |lines| && end == m + 1 + First(IsTopKey, lines[m + 1..])
    ensures forall k :: m < k < end ==> lines[k].key == None
  {
    FirstMeans(IsTopKey, lines[m + 1..]);
    forall k | m < k < end
      ensures lines[k].key == None
    {
      assert !IsTopKey(lines[m + 1..][k - m - 1]);
    }
  }

  // `mergeContinueYaml`
  method MergeContinueYaml(lines: seq<Line>, generated: seq<Line>) returns (merged: seq<Line>)
    ensures merged == MergeLines(lines, generated)
  {
    var missingHeader := MissingHeader(lines, generated);
    var modelsIndex := First(IsModels, lines);
    var modelLines := ModelLines(generated);
    if modelsIndex == |lines| {
      var above := if lines == [EMPTY] then [] else lines + [EMPTY];
      return missingHeader + above + [MODELS] + (if modelLines == [] then [EMPTY] else modelLines);
    }
    var modelsEnd := FindSectionEnd(lines, modelsIndex);
    var entryStart := modelsIndex + 1 + First(IsOurs, lines[modelsIndex + 1..modelsEnd]);
    var entryEnd := modelsEnd;
    if entryStart < modelsEnd {
      NoKeyInSection(lines, modelsIndex, modelsEnd);
      entryEnd := FindEntryEnd(lines, entryStart, modelsEnd);
    }
    CutByIndex(lines, modelsIndex, modelsEnd, entryStart, entryEnd);
    var spliced := lines[..entryStart] + modelLines + lines[entryEnd..];
    SpliceByIndex(lines, modelsIndex, modelsEnd, entryStart, entryEnd, modelLines);
    return DropEmptyEnd(missingHeader + spliced);
  }

  // ---- What the merge keeps ----

  // What a generated entry looks like: a FreeLLMAPI item, its lines, no other item, no
  // top-level key, and no blank at its end.
  predicate IsEntry(modelLines: seq<Line>) {
    && modelLines != []
    && IsOurs(modelLines[0])
    && (forall k :: 1 <= k < |modelLines| ==> !IsItem(modelLines[k]))
    && (forall k :: 0 <= k < |modelLines| ==> !IsTopKey(modelLines[k]))
    && EndsInInk(modelLines)
  }

  predicate EndsInInk(lines: seq<Line>) {
    lines != [] ==> var last := lines[|lines| - 1].text; last != "" && !IsSpace(last[|last| - 1])
  }

  predicate Lacks(p: Line -> bool, lines: seq<Line>) { forall l :: l in lines ==> !p(l) }

  predicate Starts(p: Line -> bool, lines: seq<Line>) { lines != [] ==> p(lines[0]) }

  predicate ProperSection(before: seq<Line>, ours: seq<Line>, items: seq<Line>) {
    && Lacks(IsOurs, before)
    && Starts(IsOurs, ours) && (ours == [] ==> items == [])
    && (ours != [] ==> Lacks(IsItem, ours[1..]))
    && Starts(IsItem, items)
  }

  // A cut as `CutAt` makes it.
  predicate Proper(c: Cut) {
    && c.top != [] && IsModels(c.top[|c.top| - 1]) && Lacks(IsModels, c.top[..|c.top| - 1])
    && Lacks(IsTopKey, c.before + (c.ours + c.items))
    && ProperSection(c.before, c.ours, c.items)
    && Starts(IsTopKey, c.rest)
  }

  lemma LacksBefore(p: Line -> bool, lines: seq<Line>, i: nat)
    requires i <= |lines| && forall k :: 0 <= k < i ==> !p(lines[k])
    ensures Lacks(p, lines[..i])
  {
  }

  lemma FirstSplits(p: Line -> bool, lines: seq<Line>)
    ensures var i := First(p, lines);
            Lacks(p, lines[..i]) && Starts(p, lines[i..]) && lines == lines[..i] + lines[i..]
  {
    var i := First(p, lines);
    FirstMeans(p, lines);
    LacksBefore(p, lines, i);
    assert i < |lines| ==> lines[i..][0] == lines[i];
  }

  lemma FirstAppend(p: Line -> bool, a: seq<Line>, b: seq<Line>)
    requires Lacks(p, a) && Starts(p, b)
    ensures First(p, a + b) == |a| && (a + b)[..|a|] == a && (a + b)[|a|..] == b
  {
    FirstIs(p, a + b, |a|);
  }

  lemma CutEntryProper(lines: seq<Line>)
    requires Starts(IsOurs, lines)
    ensures var (ours, items) := CutEntry(lines);
      && lines == ours + items && Starts(IsOurs, ours) && Starts(IsItem, items)
      && (ours == [] ==> items == []) && (ours != [] ==> Lacks(IsItem, ours[1..]))
  {
    if lines != [] {
      FirstSplits(IsItem, lines[1..]);
      var n := 1 + First(IsItem, lines[1..]);
      assert lines[..n][1..] == lines[1..][..n - 1] && lines[n..] == lines[1..][n - 1..];
    }
  }

  lemma CutSectionProper(section: seq<Line>)
    ensures var (before, ours, items) := CutSection(section);
            section == before + (ours + items) && ProperSection(before, ours, items)
  {
    FirstSplits(IsOurs, section);
    CutEntryProper(section[First(IsOurs, section)..]);
  }

  lemma TopProper(lines: seq<Line>, m: nat)
    requires m < |lines| && m == First(IsModels, lines)
    ensures var top := lines[..m + 1]; top[..m] == lines[..m] && IsModels(top[m]) && Lacks(IsModels, top[..m])
  {
    FirstSplits(IsModels, lines);
    assert lines[..m + 1][..m] == lines[..m];
  }

  lemma Rejoin(lines: seq<Line>, m: nat, section: seq<Line>, rest: seq<Line>)
    requires m < |lines| && lines[m + 1..] == section + rest
    ensures lines == lines[..m + 1] + (section + rest)
  {
  }

  lemma CutAtParts(lines: seq<Line>, m: nat)
    requires m < |lines|
    ensures var c := CutAt(lines, m); var section := c.before + (c.ours + c.items);
      && c.top == lines[..m + 1] && lines[m + 1..] == section + c.rest
      && Lacks(IsTopKey, section) && Starts(IsTopKey, c.rest) && ProperSection(c.before, c.ours, c.items)
  {
    var tail := lines[m + 1..];
    FirstSplits(IsTopKey, tail);
    CutSectionProper(tail[..First(IsTopKey, tail)]);
  }

  lemma CutAtProper(lines: seq<Line>, m: nat)
    requires m < |lines| && m == First(IsModels, lines)
    ensures Proper(CutAt(lines, m)) && CutAt(lines, m).Lines() == lines
  {
    var c := CutAt(lines, m);
    CutAtParts(lines, m);
    TopProper(lines, m);
    Rejoin(lines, m, c.before + (c.ours + c.items), c.rest);
  }

  lemma CutEntryUnique(ours: seq<Line>, items: seq<Line>)
    requires Starts(IsItem, items) && (ours == [] ==> items == []) && (ours != [] ==> Lacks(IsItem, ours[1..]))
    ensures CutEntry(ours + items) == (ours, items)
  {
    if ours != [] {
      assert (ours + items)[1..] == ours[1..] + items;
      FirstAppend(IsItem, ours[1..], items);
    }
  }

  // A proper cut is the cut of its lines.
  lemma CutUnique(c: Cut)
    requires Proper(c)
    ensures First(IsModels, c.Lines()) == |c.top| - 1
    ensures CutAt(c.Lines(), |c.top| - 1) == c
  {
    var m, section := |c.top| - 1, c.before + (c.ours + c.items);
    assert c.Lines() == c.top[..m] + ([c.top[m]] + (section + c.rest));
    FirstAppend(IsModels, c.top[..m], [c.top[m]] + (section + c.rest));
    assert c.Lines()[..m + 1] == c.top && c.Lines()[m + 1..] == section + c.rest;
    FirstAppend(IsTopKey, section, c.rest);
    FirstAppend(IsOurs, c.before, c.ours + c.items);
    CutEntryUnique(c.ours, c.items);
  }

  // Our entry put in its place is found there again.
  lemma CutWithEntry(c: Cut, above: seq<Line>, modelLines: seq<Line>)
    requires Proper(c) && IsEntry(modelLines) && Lacks(IsModels, above)
    ensures var d := Cut(above + c.top, c.before, modelLines, c.items, c.rest);
            Proper(d) && d.Lines() == above + c.With(modelLines)
  {
    var d := Cut(above + c.top, c.before, modelLines, c.items, c.rest);
    var n := |c.top| - 1;
    assert d.top[..|d.top| - 1] == above + c.top[..n];
    assert forall l :: l in modelLines ==> !IsTopKey(l);
    assert d.Lines() == above + c.With(modelLines);
  }

  // ---- Headers ----

  // Nothing is missing: the file has the header, or nothing is generated for it.
  predicate Supplied(p: Line -> bool, lines: seq<Line>, generated: seq<Line>) {
    First(p, lines) < |lines| || First(p, generated) == |generated|
  }

  predicate AllSupplied(lines: seq<Line>, generated: seq<Line>) {
    Supplied(IsName, lines, generated) && Supplied(IsVersion, lines, generated) && Supplied(IsSchema, lines, generated)
  }

  lemma NothingMissing(lines: seq<Line>, generated: seq<Line>)
    requires AllSupplied(lines, generated)
    ensures MissingHeader(lines, generated) == []
  {
  }

  lemma FirstExists(p: Line -> bool, lines: seq<Line>)
    ensures First(p, lines) < |lines| <==> exists l :: l in lines && p(l)
  {
    FirstMeans(p, lines);
  }

  // A header is in the merged file when it was in the file or has been added.
  lemma HeaderSupplied(p: Line -> bool, lines: seq<Line>, generated: seq<Line>, merged: seq<Line>)
    requires forall l :: l in Header(p, lines, generated) ==> l in merged
    requires forall l :: l in lines && p(l) ==> l in merged
    ensures Supplied(p, merged, generated)
  {
    FirstExists(p, lines);
    FirstExists(p, merged);
    FirstMeans(p, generated);
    var g := First(p, generated);
    if First(p, lines) == |lines| && g < |generated| {
      assert generated[g] in Header(p, lines, generated);
    }
  }

  lemma MergedSupplied(lines: seq<Line>, generated: seq<Line>, merged: seq<Line>)
    requires forall l :: l in MissingHeader(lines, generated) ==> l in merged
    requires forall l :: l in lines && IsTopKey(l) ==> l in merged
    ensures AllSupplied(merged, generated)
  {
    HeaderSupplied(IsName, lines, generated, merged);
    HeaderSupplied(IsVersion, lines, generated, merged);
    HeaderSupplied(IsSchema, lines, generated, merged);
  }

  lemma HeaderNotModels(lines: seq<Line>, generated: seq<Line>)
    ensures Lacks(IsModels, MissingHeader(lines, generated))
  {
    FirstMeans(IsName, generated);
    FirstMeans(IsVersion, generated);
    FirstMeans(IsSchema, generated);
  }

  // ---- The merged file ----

  // The file as the merge leaves it: the missing headers on top, our entry in its place, and
  // everything else as it was.
  function Result(lines: seq<Line>, generated: seq<Line>): Cut {
    var m := First(IsModels, lines);
    var header, modelLines := MissingHeader(lines, generated), ModelLines(generated);
    if m == |lines| then
      Cut(header + (if lines == [EMPTY] then [] else lines + [EMPTY]) + [MODELS], [], modelLines, [], [])
    else
      var c := CutAt(lines, m);
      Cut(header + c.top, c.before, modelLines, c.items, c.rest)
  }

  predicate Tidy(lines: seq<Line>) { lines == [EMPTY] || (lines != [] && EndsInInk(lines)) }

  lemma InkyStays(lines: seq<Line>)
    requires EndsInInk(lines)
    ensures DropEmptyEnd(lines) == lines
  {
  }

  lemma WithEndsInInk(c: Cut, header: seq<Line>, modelLines: seq<Line>)
    requires EndsInInk(c.Lines()) && EndsInInk(modelLines) && modelLines != []
    ensures EndsInInk(header + c.With(modelLines))
  {
    var r := header + c.With(modelLines);
    var last := r[|r| - 1];
    if c.rest != [] {
      assert last == c.rest[|c.rest| - 1] == c.Lines()[|c.Lines()| - 1];
    } else if c.items != [] {
      assert last == c.items[|c.items| - 1] == c.Lines()[|c.Lines()| - 1];
    } else {
      assert last == modelLines[|modelLines| - 1];
    }
  }

  lemma MergeIsResult(lines: seq<Line>, generated: seq<Line>)
    requires Tidy(lines) && IsEntry(ModelLines(generated))
    ensures Proper(Result(lines, generated))
    ensures MergeLines(lines, generated) == Result(lines, generated).Lines()
    ensures EndsInInk(MergeLines(lines, generated)) && MergeLines(lines, generated) != []
  {
    var m := First(IsModels, lines);
    var header, modelLines := MissingHeader(lines, generated), ModelLines(generated);
    HeaderNotModels(lines, generated);
    if m == |lines| {
      FirstSplits(IsModels, lines);
      NewSection(header, if lines == [EMPTY] then [] else lines + [EMPTY], modelLines);
    } else {
      var c := CutAt(lines, m);
      CutAtProper(lines, m);
      CutWithEntry(c, header, modelLines);
      assert lines != [EMPTY] by {
        FirstMeans(IsModels, lines);
      }
      WithEndsInInk(c, header, modelLines);
      InkyStays(header + c.With(modelLines));
    }
  }

  lemma NewSection(header: seq<Line>, above: seq<Line>, modelLines: seq<Line>)
    requires Lacks(IsModels, header) && Lacks(IsModels, above) && IsEntry(modelLines)
    ensures var d := Cut(header + above + [MODELS], [], modelLines, [], []);
      && Proper(d) && d.Lines() == header + above + [MODELS] + modelLines && EndsInInk(d.Lines())
  {
    var d := Cut(header + above + [MODELS], [], modelLines, [], []);
    assert d.top[..|d.top| - 1] == header + above;
    assert d.Lines() == d.top + modelLines;
    assert d.Lines()[|d.Lines()| - 1] == modelLines[|modelLines| - 1];
  }

  // The keys of the file are all in the merged file.
  lemma KeysStay(lines: seq<Line>, generated: seq<Line>)
    requires Tidy(lines) && IsEntry(ModelLines(generated))
    ensures forall l :: l in lines && IsTopKey(l) ==> l in Result(lines, generated).Lines()
    ensures forall l :: l in MissingHeader(lines, generated) ==> l in Result(lines, generated).Lines()
  {
    var m := First(IsModels, lines);
    if m < |lines| {
      CutAtProper(lines, m);
      var c := CutAt(lines, m);
      assert forall l :: l in c.Lines() && IsTopKey(l) ==> l in c.top || l in c.rest;
    }
  }

  predicate Within(a: seq<Line>, b: seq<Line>) { forall l :: l in a ==> l in b }

  lemma PartsWithin(c: Cut)
    ensures Within(c.top, c.Lines()) && Within(c.before, c.Lines()) && Within(c.items, c.Lines())
            && Within(c.rest, c.Lines())
  {
  }

  lemma CutMembers(c: Cut, header: seq<Line>, entry: seq<Line>, l: Line)
    requires Proper(c) && l in DropEmptyEnd(header + c.With(entry))
    ensures l in c.Lines() || l in header || l in entry
  {
    EmptyEndDropped(header + c.With(entry));
    PartsWithin(c);
    assert l in header || l in c.top || l in c.before || l in entry || l in c.items || l in c.rest;
  }

  lemma NewSectionMembers(header: seq<Line>, lines: seq<Line>, entry: seq<Line>, l: Line)
    requires l in header + (if lines == [EMPTY] then [] else lines + [EMPTY]) + [MODELS]
                  + (if entry == [] then [EMPTY] else entry)
    ensures l in lines || l in header || l in entry || l == MODELS || l == EMPTY
  {
  }

  // Every line of the merged file comes from the file or from the generated one.
  lemma ResultMember(lines: seq<Line>, generated: seq<Line>, l: Line)
    requires l in MergeLines(lines, generated)
    ensures l in lines || l in MissingHeader(lines, generated) || l in ModelLines(generated) || l == MODELS
            || l == EMPTY
  {
    var m := First(IsModels, lines);
    if m < |lines| {
      CutAtProper(lines, m);
      CutMembers(CutAt(lines, m), MissingHeader(lines, generated), ModelLines(generated), l);
    } else {
      NewSectionMembers(MissingHeader(lines, generated), lines, ModelLines(generated), l);
    }
  }

  lemma ModelLinesFrom(generated: seq<Line>)
    ensures forall l :: l in ModelLines(generated) ==> l in generated
  {
  }

  // A file that has the generated headers and entry already is left as it is.
  lemma NothingToDo(d: Cut, generated: seq<Line>)
    requires Proper(d) && d.ours == ModelLines(generated)
    requires AllSupplied(d.Lines(), generated) && EndsInInk(d.Lines())
    ensures MergeLines(d.Lines(), generated) == d.Lines()
  {
    var r := d.Lines();
    NothingMissing(r, generated);
    CutUnique(d);
    assert [] + r == r;
    InkyStays(r);
  }

  // Merging again changes nothing.
  lemma MergeTwice(lines: seq<Line>, generated: seq<Line>)
    requires Tidy(lines) && IsEntry(ModelLines(generated))
    ensures MergeLines(MergeLines(lines, generated), generated) == MergeLines(lines, generated)
  {
    MergeIsResult(lines, generated);
    KeysStay(lines, generated);
    MergedSupplied(lines, generated, Result(lines, generated).Lines());
    NothingToDo(Result(lines, generated), generated);
  }

  // Every line outside our entry survives, verbatim and in order.
  lemma OthersSurvive(lines: seq<Line>, generated: seq<Line>)
    requires Tidy(lines) && IsEntry(ModelLines(generated)) && First(IsModels, lines) < |lines|
    ensures var c := CutAt(lines, First(IsModels, lines));
      && Proper(c)
      && lines == c.top + (c.before + (c.ours + c.items) + c.rest)
      && MergeLines(lines, generated)
         == MissingHeader(lines, generated) + (c.top + (c.before + (ModelLines(generated) + c.items) + c.rest))
  {
    var c := CutAt(lines, First(IsModels, lines));
    CutAtProper(lines, First(IsModels, lines));
    MergeIsResult(lines, generated);
    Associate(MissingHeader(lines, generated), c.top, c.before + (ModelLines(generated) + c.items) + c.rest);
  }

  lemma HeaderLacks(p: Line -> bool, q: Line -> bool, lines: seq<Line>, generated: seq<Line>)
    requires First(p, lines) < |lines| || forall l :: p(l) ==> !q(l)
    ensures Lacks(q, Header(p, lines, generated))
  {
    FirstMeans(p, generated);
  }

  lemma HeaderKeysDiffer()
    ensures forall l :: IsName(l) ==> !IsVersion(l) && !IsSchema(l)
    ensures forall l :: IsVersion(l) ==> !IsName(l) && !IsSchema(l)
    ensures forall l :: IsSchema(l) ==> !IsName(l) && !IsVersion(l)
  {
    assert |"name"| == 4 && |"version"| == 7 && |"schema"| == 6;
  }

  // Headers that the file has are not added again.
  lemma HeadersNotOverridden(lines: seq<Line>, generated: seq<Line>)
    ensures First(IsName, lines) < |lines| ==> Lacks(IsName, MissingHeader(lines, generated))
    ensures First(IsVersion, lines) < |lines| ==> Lacks(IsVersion, MissingHeader(lines, generated))
    ensures First(IsSchema, lines) < |lines| ==> Lacks(IsSchema, MissingHeader(lines, generated))
  {
    HeaderKeysDiffer();
    if First(IsName, lines) < |lines| {
      HeaderLacks(IsName, IsName, lines, generated);
      HeaderLacks(IsVersion, IsName, lines, generated);
      HeaderLacks(IsSchema, IsName, lines, generated);
    }
    if First(IsVersion, lines) < |lines| {
      HeaderLacks(IsName, IsVersion, lines, generated);
      HeaderLacks(IsVersion, IsVersion, lines, generated);
      HeaderLacks(IsSchema, IsVersion, lines, generated);
    }
    if First(IsSchema, lines) < |lines| {
      HeaderLacks(IsName, IsSchema, lines, generated);
      HeaderLacks(IsVersion, IsSchema, lines, generated);
      HeaderLacks(IsSchema, IsSchema, lines, generated);
    }
  }

  // A models section with at most one FreeLLMAPI item has exactly one afterwards.
  lemma OneFreeLlmApiItem(c: Cut, modelLines: seq<Line>)
    requires Proper(c) && IsEntry(modelLines)
    requires |Filter(IsOurs, c.before + (c.ours + c.items))| <= 1
    ensures Filter(IsOurs, c.before + (modelLines + c.items)) == [modelLines[0]]
  {
    FilterNone(IsOurs, c.before);
    FilterAppend(IsOurs, c.before, c.ours + c.items);
    FilterAppend(IsOurs, c.ours, c.items);
    FilterAppend(IsOurs, c.before, modelLines + c.items);
    FilterAppend(IsOurs, modelLines, c.items);
    FilterNone(IsOurs, modelLines[1..]);
    assert Filter(IsOurs, modelLines) == [modelLines[0]];
    if c.ours != [] {
      FilterNone(IsOurs, c.ours[1..]);
      assert Filter(IsOurs, c.ours) == [c.ours[0]];
    }
  }

  // The items named FreeLLMAPI in the models section.
  function OurItems(c: Cut): seq<Line> { Filter(IsOurs, c.before + (c.ours + c.items)) }

  lemma OurItemsOfEntry(entry: seq<Line>)
    requires IsEntry(entry)
    ensures Filter(IsOurs, [] + (entry + [])) == [entry[0]]
  {
    FilterNone(IsOurs, entry[1..]);
    assert [] + (entry + []) == entry;
    assert Filter(IsOurs, entry) == [entry[0]] + Filter(IsOurs, entry[1..]);
  }

  lemma OneItemInResult(lines: seq<Line>, generated: seq<Line>)
    requires Tidy(lines) && IsEntry(ModelLines(generated))
    requires var m := First(IsModels, lines); m < |lines| ==> |OurItems(CutAt(lines, m))| <= 1
    ensures OurItems(Result(lines, generated)) == [ModelLines(generated)[0]]
  {
    var m := First(IsModels, lines);
    if m < |lines| {
      CutAtProper(lines, m);
      OneFreeLlmApiItem(CutAt(lines, m), ModelLines(generated));
    } else {
      OurItemsOfEntry(ModelLines(generated));
    }
  }

  // A file with at most one of them has exactly one after the merge: the generated one.
  lemma OneItemAfterMerge(lines: seq<Line>, generated: seq<Line>)
    requires Tidy(lines) && IsEntry(ModelLines(generated))
    requires var m := First(IsModels, lines); m < |lines| ==> |OurItems(CutAt(lines, m))| <= 1
    ensures var merged := MergeLines(lines, generated);
            var m := First(IsModels, merged);
            m < |merged| && OurItems(CutAt(merged, m)) == [ModelLines(generated)[0]]
  {
    OneItemInResult(lines, generated);
    MergeIsResult(lines, generated);
    CutUnique(Result(lines, generated));
  }

  // ---- The entry and the headers, as they are generated ----

  // A generated file: its `models:` line, the entry, and nothing more or the end marker and
  // anything behind it.
  predicate GeneratedAs(generated: seq<Line>, above: seq<Line>, models: Line, entry: seq<Line>, below: seq<Line>) {
    && generated == above + ([models] + (entry + below))
    && models.text == "models:" && (forall l :: l in above ==> l.text != "models:")
    && (forall l :: l in entry ==> l.text != "# freellmapi:end")
    && (below != [] ==> below[0].text == "# freellmapi:end")
  }

  lemma EntryFound(generated: seq<Line>, above: seq<Line>, models: Line, entry: seq<Line>, below: seq<Line>)
    requires GeneratedAs(generated, above, models, entry, below)
    ensures ModelLines(generated) == entry
  {
    var tail := entry + below;
    FirstAppend(IsModelsLine, above, [models] + tail);
    assert generated[|above| + 1..] == tail;
    FirstAppend(IsEndLine, entry, below);
  }

  // The lines of an entry in the models section of a file, whole and in order.
  predicate InModels(file: seq<Line>, above: seq<Line>, models: Line, before: seq<Line>, entry: seq<Line>,
          below: seq<Line>)
  {
    && file == above + ([models] + (before + (entry + below)))
    && models.key == Some("models") && (forall l :: l in above ==> l.key != Some("models"))
    && (forall l :: l in before ==> l.key == None)
  }

  ghost predicate HoldsEntry(file: seq<Line>, entry: seq<Line>) {
    exists above, models, before, below :: InModels(file, above, models, before, entry, below)
  }

  lemma {:induction false} EmptyEndDropped(lines: seq<Line>)
    ensures DropEmptyEnd(lines) <= lines
    ensures forall i :: |DropEmptyEnd(lines)| <= i < |lines| ==> lines[i] == EMPTY
    ensures DropEmptyEnd(lines) != [] ==> DropEmptyEnd(lines)[|DropEmptyEnd(lines)| - 1] != EMPTY
  {
    if lines != [] && lines[|lines| - 1] == EMPTY { EmptyEndDropped(lines[..|lines| - 1]); }
  }

  // The file ends with its models section, and that with the entry without the empty lines from k on.
  ghost predicate EndsCut(file: seq<Line>, entry: seq<Line>, k: int) {
    && 0 <= k < |entry| && (forall i :: k <= i < |entry| ==> entry[i] == EMPTY)
    && exists above, models, before :: InModels(file, above, models, before, entry[..k], [])
  }

  // A file cut off behind its `models:` line, where only empty lines are lost.
  lemma CutOff(file: seq<Line>, above: seq<Line>, models: Line, before: seq<Line>, entry: seq<Line>, below: seq<Line>,
               n: nat)
    requires InModels(file, above, models, before, entry, below) && |above| < n <= |file|
    requires forall i :: n <= i < |file| ==> file[i] == EMPTY
    ensures HoldsEntry(file[..n], entry) || exists k :: EndsCut(file[..n], entry, k)
  {
    var start := |above| + 1 + |before|;
    if n >= start + |entry| {
      assert file[..n] == above + ([models] + (before + (entry + below[..n - start - |entry|])));
      assert InModels(file[..n], above, models, before, entry, below[..n - start - |entry|]);
    } else {
      var k := if n < start then 0 else n - start;
      var left := if n < start then before[..n - |above| - 1] else before;
      forall i | k <= i < |entry|
        ensures entry[i] == EMPTY
      {
        assert file[start + i] == entry[i];
      }
      assert file[..n] == above + ([models] + (left + (entry[..k] + [])));
      assert InModels(file[..n], above, models, left, entry[..k], []);
      if entry == [] {
        assert entry[..k] == entry;
      } else {
        assert EndsCut(file[..n], entry, k);
      }
    }
  }

  // The file with the generated entry in it, before empty lines at its end are dropped.
  lemma InPlace(c: Cut, header: seq<Line>, entry: seq<Line>)
    requires Proper(c) && Lacks(IsModels, header)
    ensures var m := |c.top| - 1;
            && InModels(header + c.With(entry), header + c.top[..m], c.top[m], c.before, entry, c.items + c.rest)
            && (header + c.With(entry))[|header| + m] == c.top[m] != EMPTY
  {
    var m := |c.top| - 1;
    assert c.top == c.top[..m] + [c.top[m]];
    assert forall l :: l in c.before ==> l in c.before + (c.ours + c.items);
    assert header + c.With(entry)
        == (header + c.top[..m]) + ([c.top[m]] + (c.before + (entry + (c.items + c.rest))));
  }

  // It is cut off behind the headers and the `models:` line.
  lemma CutBehind(c: Cut, header: seq<Line>, entry: seq<Line>, file: seq<Line>)
    requires Proper(c) && Lacks(IsModels, header) && file == DropEmptyEnd(header + c.With(entry))
    ensures header <= file && file != [] && file[|file| - 1] != EMPTY
  {
    InPlace(c, header, entry);
    EmptyEndDropped(header + c.With(entry));
  }

  lemma KeptInPlace(c: Cut, header: seq<Line>, entry: seq<Line>)
    requires Proper(c) && Lacks(IsModels, header)
    ensures var file := DropEmptyEnd(header + c.With(entry));
            HoldsEntry(file, entry) || exists k :: EndsCut(file, entry, k)
  {
    var all, m := header + c.With(entry), |c.top| - 1;
    InPlace(c, header, entry);
    EmptyEndDropped(all);
    var n := |DropEmptyEnd(all)|;
    assert n > |header| + m;
    assert DropEmptyEnd(all) == all[..n];
    CutOff(all, header + c.top[..m], c.top[m], c.before, entry, c.items + c.rest, n);
  }

  lemma MergedThere(lines: seq<Line>, generated: seq<Line>)
      returns (c: Cut, header: seq<Line>, entry: seq<Line>, file: seq<Line>)
    requires First(IsModels, lines) < |lines|
    ensures Proper(c) && Lacks(IsModels, header) && header == MissingHeader(lines, generated)
    ensures file == DropEmptyEnd(header + c.With(entry)) && file == MergeLines(lines, generated)
  {
    var m := First(IsModels, lines);
    c, header, entry := CutAt(lines, m), MissingHeader(lines, generated), ModelLines(generated);
    file := MergeLines(lines, generated);
    CutAtProper(lines, m);
    HeaderNotModels(lines, generated);
  }

  lemma MergedBehind(lines: seq<Line>, generated: seq<Line>)
    requires First(IsModels, lines) < |lines|
    ensures var file := MergeLines(lines, generated);
            MissingHeader(lines, generated) <= file && file != [] && file[|file| - 1] != EMPTY
  {
    var c, header, entry, file := MergedThere(lines, generated);
    CutBehind(c, header, entry, file);
  }

  lemma MergeNotEmpty(lines: seq<Line>, generated: seq<Line>)
    ensures MergeLines(lines, generated) != []
  {
    if First(IsModels, lines) < |lines| { MergedBehind(lines, generated); }
  }

  lemma KeptInNewSection(above: seq<Line>, entry: seq<Line>)
    requires Lacks(IsModels, above)
    ensures HoldsEntry(above + [MODELS] + (if entry == [] then [EMPTY] else entry), entry)
  {
    var below := if entry == [] then [EMPTY] else [];
    var file := above + [MODELS] + (if entry == [] then [EMPTY] else entry);
    assert file == above + ([MODELS] + ([] + (entry + below)));
    assert InModels(file, above, MODELS, [], entry, below);
  }

  // The merge of any file and any generated file: the entry stands in the first models section, whole
  // and in order. Only empty lines at its end are dropped, where they would end the file.
  lemma EntryStands(lines: seq<Line>, generated: seq<Line>, above: seq<Line>, models: Line, entry: seq<Line>,
          below: seq<Line>)
    requires GeneratedAs(generated, above, models, entry, below)
    ensures HoldsEntry(MergeLines(lines, generated), entry)
         || exists k :: EndsCut(MergeLines(lines, generated), entry, k)
  {
    EntryFound(generated, above, models, entry, below);
    HeaderNotModels(lines, generated);
    var m, header := First(IsModels, lines), MissingHeader(lines, generated);
    if m == |lines| {
      FirstSplits(IsModels, lines);
      KeptInNewSection(header + (if lines == [EMPTY] then [] else lines + [EMPTY]), entry);
    } else {
      CutAtProper(lines, m);
      KeptInPlace(CutAt(lines, m), header, entry);
    }
  }

  // A file with a models section does not end with an empty line.
  lemma EndsWithoutEmpty(lines: seq<Line>, generated: seq<Line>)
    requires HasKey(lines, "models")
    ensures var file := MergeLines(lines, generated);
            file != [] && file[|file| - 1] != EMPTY
  {
    FirstExists(IsModels, lines);
    MergedBehind(lines, generated);
  }

  // A file without one gets it at the end, below an empty line if it has content.
  lemma EndsWithSection(lines: seq<Line>, generated: seq<Line>, above: seq<Line>, models: Line, entry: seq<Line>,
          below: seq<Line>)
    requires GeneratedAs(generated, above, models, entry, below) && !HasKey(lines, "models")
    ensures IsSuffix((if lines == [EMPTY] then [] else lines + [EMPTY]) + [MODELS]
                     + (if entry == [] then [EMPTY] else entry), MergeLines(lines, generated))
  {
    EntryFound(generated, above, models, entry, below);
    FirstExists(IsModels, lines);
    SuffixOf(MissingHeader(lines, generated), if lines == [EMPTY] then [] else lines + [EMPTY],
             [MODELS], if entry == [] then [EMPTY] else entry);
  }

  predicate IsSuffix(a: seq<Line>, b: seq<Line>) { |a| <= |b| && b[|b| - |a|..] == a }

  lemma SuffixOf(header: seq<Line>, a: seq<Line>, b: seq<Line>, c: seq<Line>)
    ensures IsSuffix(a + b + c, header + a + b + c)
  {
    assert header + a + b + c == header + (a + b + c);
  }

  predicate HasKey(lines: seq<Line>, key: string) { exists l :: l in lines && l.key == Some(key) }

  lemma HeaderHasKey(p: Line -> bool, lines: seq<Line>, generated: seq<Line>, key: string)
    requires forall l :: p(l) <==> l.key == Some(key)
    ensures HasKey(Header(p, lines, generated), key) <==> !HasKey(lines, key) && HasKey(generated, key)
  {
    FirstExists(p, lines);
    FirstExists(p, generated);
    FirstMeans(p, generated);
    if !HasKey(lines, key) && HasKey(generated, key) {
      assert generated[First(p, generated)] in Header(p, lines, generated);
    }
  }

  lemma OtherHeader(p: Line -> bool, lines: seq<Line>, generated: seq<Line>, key: string)
    requires forall l :: p(l) ==> l.key != Some(key)
    ensures !HasKey(Header(p, lines, generated), key)
  {
    FirstMeans(p, generated);
  }

  lemma HeadersHaveKey(lines: seq<Line>, generated: seq<Line>, key: string)
    requires key in ["name", "version", "schema"]
    ensures HasKey(MissingHeader(lines, generated), key) <==> !HasKey(lines, key) && HasKey(generated, key)
  {
    assert |"name"| == 4 && |"version"| == 7 && |"schema"| == 6;
    if key == "name" {
      HeaderHasKey(IsName, lines, generated, key);
      OtherHeader(IsVersion, lines, generated, key);
      OtherHeader(IsSchema, lines, generated, key);
    } else if key == "version" {
      OtherHeader(IsName, lines, generated, key);
      HeaderHasKey(IsVersion, lines, generated, key);
      OtherHeader(IsSchema, lines, generated, key);
    } else {
      OtherHeader(IsName, lines, generated, key);
      OtherHeader(IsVersion, lines, generated, key);
      HeaderHasKey(IsSchema, lines, generated, key);
    }
  }

  lemma HasKeyIn(lines: seq<Line>, generated: seq<Line>, key: string)
    requires IsEntry(ModelLines(generated)) && key in ["name", "version", "schema"]
    requires HasKey(MergeLines(lines, generated), key)
    ensures HasKey(lines, key) || HasKey(MissingHeader(lines, generated), key)
  {
    var l :| l in MergeLines(lines, generated) && l.key == Some(key);
    ResultMember(lines, generated, l);
    ModelsIsNoHeader(key);
  }

  lemma ModelsIsNoHeader(key: string)
    requires key in ["name", "version", "schema"]
    ensures key != "models"
  {
    assert |"models"| == 6 && |"name"| == 4 && |"version"| == 7;
    assert "models"[0] == 'm' && "schema"[0] == 's';
  }

  // The merged file has a header exactly when the file had it or it is generated.
  lemma HeadersSupplied(lines: seq<Line>, generated: seq<Line>, key: string)
    requires Tidy(lines) && IsEntry(ModelLines(generated)) && key in ["name", "version", "schema"]
    ensures HasKey(MergeLines(lines, generated), key) <==> HasKey(lines, key) || HasKey(generated, key)
  {
    var merged := MergeLines(lines, generated);
    MergeIsResult(lines, generated);
    KeysStay(lines, generated);
    HeadersHaveKey(lines, generated, key);
    if HasKey(merged, key) {
      HasKeyIn(lines, generated, key);
    }
    if HasKey(lines, key) {
      var l :| l in lines && l.key == Some(key);
      assert l in merged;
    }
  }

  // The line of a header that the file lacks: the first that is generated for it.
  ghost predicate IsMissing(h: seq<Line>, lines: seq<Line>, generated: seq<Line>, key: string) {
    if HasKey(lines, key) || !HasKey(generated, key) then h == []
    else exists i :: 0 <= i < |generated| && h == [generated[i]] && generated[i].key == Some(key)
                  && forall k :: 0 <= k < i ==> generated[k].key != Some(key)
  }

  lemma HeaderIsMissing(p: Line -> bool, lines: seq<Line>, generated: seq<Line>, key: string)
    requires forall l :: p(l) <==> l.key == Some(key)
    ensures IsMissing(Header(p, lines, generated), lines, generated, key)
  {
    FirstExists(p, lines);
    FirstExists(p, generated);
    FirstMeans(p, generated);
  }

  ghost predicate OnTop(file: seq<Line>, lines: seq<Line>, generated: seq<Line>, name: seq<Line>, version: seq<Line>,
                        schema: seq<Line>) {
    && IsMissing(name, lines, generated, "name") && IsMissing(version, lines, generated, "version")
    && IsMissing(schema, lines, generated, "schema") && name + version + schema <= file
  }

  // On top of the merged file stand the headers that the file lacks: name, version, schema.
  lemma HeadersOnTop(lines: seq<Line>, generated: seq<Line>)
    ensures exists name, version, schema :: OnTop(MergeLines(lines, generated), lines, generated, name, version, schema)
  {
    HeaderIsMissing(IsName, lines, generated, "name");
    HeaderIsMissing(IsVersion, lines, generated, "version");
    HeaderIsMissing(IsSchema, lines, generated, "schema");
    HeaderBegins(lines, generated);
    assert OnTop(MergeLines(lines, generated), lines, generated, Header(IsName, lines, generated),
                 Header(IsVersion, lines, generated), Header(IsSchema, lines, generated));
  }

  lemma PrefixOf(header: seq<Line>, a: seq<Line>, b: seq<Line>, c: seq<Line>)
    ensures header <= header + a + b + c
  {
    assert header + a + b + c == header + (a + b + c);
  }

  lemma HeaderBegins(lines: seq<Line>, generated: seq<Line>)
    ensures MissingHeader(lines, generated) <= MergeLines(lines, generated)
  {
    if First(IsModels, lines) < |lines| {
      MergedBehind(lines, generated);
    } else {
      PrefixOf(MissingHeader(lines, generated), if lines == [EMPTY] then [] else lines + [EMPTY], [MODELS],
               if ModelLines(generated) == [] then [EMPTY] else ModelLines(generated));
    }
  }

  // ---- Items, spelled out ----

  predicate MaybeQuote(q: string) { q == "" || q == "\"" || q == "'" }

  lemma QuotesAround(name: string, ours: string)
    requires || name == ours
             || (name != "" && IsQuote(name[0]) && name[1..] == ours)
             || (name != "" && IsQuote(name[|name| - 1]) && name[..|name| - 1] == ours)
             || (|name| > 1 && IsQuote(name[0]) && IsQuote(name[|name| - 1]) && name[1..|name| - 1] == ours)
    ensures exists p, q :: MaybeQuote(p) && MaybeQuote(q) && name == p + ours + q
  {
    if name == ours {
      assert MaybeQuote("") && name == "" + ours + "";
    } else if name != "" && IsQuote(name[0]) && name[1..] == ours {
      var p := [name[0]];
      assert MaybeQuote(p) && MaybeQuote("") && name == p + ours + "";
    } else if name != "" && IsQuote(name[|name| - 1]) && name[..|name| - 1] == ours {
      var q := [name[|name| - 1]];
      assert MaybeQuote("") && MaybeQuote(q) && name == "" + ours + q;
    } else {
      var p, q := [name[0]], [name[|name| - 1]];
      assert MaybeQuote(p) && MaybeQuote(q) && name == p + ours + q;
    }
  }

  lemma OurNameMeans(name: string)
    ensures IsOurName(name) <==> exists p, q :: MaybeQuote(p) && MaybeQuote(q) && name == p + "FreeLLMAPI" + q
  {
    if IsOurName(name) {
      QuotesAround(name, "FreeLLMAPI");
    }
    if exists p, q :: MaybeQuote(p) && MaybeQuote(q) && name == p + "FreeLLMAPI" + q {
      var p, q :| MaybeQuote(p) && MaybeQuote(q) && name == p + "FreeLLMAPI" + q;
      NameBetween(name, p, "FreeLLMAPI", q);
    }
  }

  lemma NameBetween(whole: string, p: string, name: string, q: string)
    requires whole == p + name + q && |p| <= 1 && |q| <= 1
    ensures p != "" ==> whole[0] == p[0] && (q == "" ==> whole[1..] == name)
    ensures q != "" ==> whole[|whole| - 1] == q[0] && (p == "" ==> whole[..|whole| - 1] == name)
    ensures p != "" && q != "" ==> |whole| > 1 && whole[1..|whole| - 1] == name
    ensures p == "" && q == "" ==> whole == name
  {
  }

  // Two blanks, a dash and a blank, then anything: blanks are any white space.
  lemma ItemMeans(s: string)
    ensures IsItemText(s)
       <==> exists a, b, c, rest :: IsSpace(a) && IsSpace(b) && IsSpace(c) && s == [a, b, '-', c] + rest
  {
    if IsItemText(s) {
      assert s == [s[0], s[1], '-', s[3]] + s[4..];
    }
  }

  // White space of at least one character.
  predicate Blanks(s: string) { s != "" && AllOf(IsSpace, s) }

  // Two blanks, a dash, `name:`, and the name in quotes or not, between white space.
  ghost predicate IsOursLine(s: string, a: char, b: char, v: string, w: string, name: string, space: string) {
    && IsSpace(a) && IsSpace(b) && Blanks(v) && Blanks(w) && AllOf(IsSpace, space) && IsOurName(name)
    && s == [a, b, '-'] + (v + ("name:" + (w + (name + space))))
  }

  lemma OurNameIsInk(name: string)
    requires IsOurName(name)
    ensures name != "" && !IsSpace(name[0]) && !IsSpace(name[|name| - 1])
  {
    assert "FreeLLMAPI"[0] == 'F' && "FreeLLMAPI"[9] == 'I' && |"FreeLLMAPI"| == 10;
  }

  lemma OursIsLine(s: string)
    requires IsOursText(s)
    ensures exists a, b, v, w, name, space :: IsOursLine(s, a, b, v, w, name, space)
  {
    var v := TrimStartCut(s[3..]);
    var t := TrimStart(s[3..]);
    var w := TrimStartCut(t[5..]);
    var inner := TrimStart(t[5..]);
    var space := TrimEndCut(inner);
    var name := TrimEnd(inner);
    OurNameIsInk(name);
    assert s == [s[0], s[1], '-'] + s[3..] && t == "name:" + t[5..];
    assert IsOursLine(s, s[0], s[1], v, w, name, space);
  }

  lemma LineIsOurs(s: string, a: char, b: char, v: string, w: string, name: string, space: string)
    requires IsOursLine(s, a, b, v, w, name, space)
    ensures IsOursText(s)
  {
    var inner := name + space;
    var t := "name:" + (w + inner);
    OurNameIsInk(name);
    assert s[3..] == v + t && s[3] == v[0];
    TrimStartIs(v, t);
    assert t[5..] == w + inner && t[5] == w[0];
    TrimStartIs(w, inner);
    TrimEndIs(name, space);
  }

  // The item named FreeLLMAPI.
  lemma OursMeans(s: string)
    ensures IsOursText(s) <==> exists a, b, v, w, name, space :: IsOursLine(s, a, b, v, w, name, space)
  {
    if IsOursText(s) {
      OursIsLine(s);
    }
    if exists a, b, v, w, name, space :: IsOursLine(s, a, b, v, w, name, space) {
      var a, b, v, w, name, space :| IsOursLine(s, a, b, v, w, name, space);
      LineIsOurs(s, a, b, v, w, name, space);
    }
  }
}
