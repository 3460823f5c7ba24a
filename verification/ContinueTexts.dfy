// Merging a Continue configuration again: the Continue branch of `mergeYaml` of
// cli/src/config-files.ts, on texts.
module ContinueTexts {
  import opened Sequences
  import opened Text
  import opened YamlKeys
  import opened YamlMerge
  import C = ContinueYaml

  // ---- Reading the merged file back ----

  // A line as it is read in.
  predicate ProperLine(l: C.Line) { l == C.Classify(l.text) && '\n' !in l.text }

  predicate AllProper(lines: seq<C.Line>) { forall l :: l in lines ==> ProperLine(l) }

  lemma TextsFree(lines: seq<C.Line>)
    requires AllProper(lines)
    ensures Free(Texts(lines), '\n') && ClassifyAll(Texts(lines)) == lines
  {
    forall i | 0 <= i < |lines|
      ensures '\n' !in Texts(lines)[i] && C.Classify(Texts(lines)[i]) == lines[i]
    {
      assert lines[i] in lines;
    }
  }

  lemma TextsRoundTrip(lines: seq<C.Line>)
    requires lines != [] && AllProper(lines)
    ensures ClassifyAll(Split(JoinTexts(lines), '\n')) == lines
    ensures Split(JoinTexts(lines) + "\n", '\n') == Texts(lines) + [""]
  {
    var texts, text := Texts(lines), JoinTexts(lines);
    TextsFree(lines);
    SplitJoin(texts, '\n');
    assert text + "\n" == text + ['\n'] + "";
    SplitConcat(text, "", '\n');
  }

  lemma TrimEndsInInk(text: string)
    requires TrimEnd(text) == text
    ensures C.Tidy(ClassifyAll(Split(text, '\n')))
  {
    var parts := Split(text, '\n');
    if text == "" {
      assert C.Classify("") == C.EMPTY;
      assert ClassifyAll(parts) == [C.EMPTY];
    } else {
      TrimmedNotBlank(text);
      LastPart(text);
    }
  }

  lemma {:induction false} LastPart(text: string)
    requires text != "" && text[|text| - 1] != '\n'
    ensures var parts := Split(text, '\n'); var last := parts[|parts| - 1];
            last != "" && last[|last| - 1] == text[|text| - 1]
  {
    if |text| > 1 {
      LastPart(text[1..]);
    } else {
      assert text[1..] == "";
    }
  }

  lemma ModelsKey(s: string)
    requires s == "models:"
    ensures |s| == 7 && s[0] == 'm' && '\n' !in s && TopLevelKey(s) == Some("models") && !IsSpace(s[0])
  {
    RunIs(s, 6, IsWordChar);
    assert s[..6] == "models";
  }

  lemma ModelsLineProper()
    ensures ProperLine(C.MODELS) && ProperLine(C.EMPTY)
  {
    ModelsKey(C.MODELS.text);
    assert C.Classify("") == C.EMPTY;
  }

  lemma ReadIn(text: string)
    ensures AllProper(ClassifyAll(Split(text, '\n'))) && Texts(ClassifyAll(Split(text, '\n'))) == Split(text, '\n')
  {
    SplitFree(text, '\n');
  }

  lemma HeaderFrom(p: C.Line -> bool, lines: seq<C.Line>, wanted: seq<C.Line>)
    requires forall l :: p(l) ==> l.key.Some?
    ensures forall l :: l in C.Header(p, lines, wanted) ==> l in wanted && l.key.Some?
  {
    FirstMeans(p, wanted);
  }

  // The headers that are added are generated lines with a key.
  lemma MissingFrom(lines: seq<C.Line>, wanted: seq<C.Line>)
    ensures forall l :: l in C.MissingHeader(lines, wanted) ==> l in wanted && l.key.Some?
  {
    HeaderFrom(C.IsName, lines, wanted);
    HeaderFrom(C.IsVersion, lines, wanted);
    HeaderFrom(C.IsSchema, lines, wanted);
  }

  lemma ResultProper(lines: seq<C.Line>, wanted: seq<C.Line>)
    requires AllProper(lines) && AllProper(wanted)
    ensures AllProper(C.MergeLines(lines, wanted)) && C.MergeLines(lines, wanted) != []
  {
    MissingFrom(lines, wanted);
    C.ModelLinesFrom(wanted);
    ModelsLineProper();
    forall l | l in C.MergeLines(lines, wanted)
      ensures ProperLine(l)
    {
      C.ResultMember(lines, wanted, l);
    }
    C.MergeNotEmpty(lines, wanted);
  }

  lemma {:induction false} JoinEnds(lines: seq<string>)
    requires lines != [] && lines[|lines| - 1] != ""
    ensures var t, last := Join(lines, '\n'), lines[|lines| - 1];
            t != "" && t[|t| - 1] == last[|last| - 1]
  {
    if |lines| > 1 { JoinEnds(lines[1..]); }
  }

  // Merged lines, written out, are read in for the next merge when they hold no marked block.
  lemma ReadBack(lines: seq<C.Line>)
    requires lines != [] && C.EndsInInk(lines) && CutBlock(Split(JoinTexts(lines) + "\n", '\n')) == None
    ensures WithoutBlock(JoinTexts(lines) + "\n") == JoinTexts(lines)
  {
    JoinEnds(Texts(lines));
    TrimBreak(JoinTexts(lines));
  }

  lemma RestTrimmed(existing: string)
    ensures TrimEnd(WithoutBlock(existing)) == WithoutBlock(existing)
  {
    match CutBlock(Split(existing, '\n')) {
      case Some(block) => TrimEndTwice(Terminated(block.above) + block.below);
      case None => TrimEndTwice(existing);
    }
  }

  // The lines that the merge starts from, and those of the generated file.
  function Rest(existing: string): seq<C.Line> { ClassifyAll(Split(WithoutBlock(existing), '\n')) }

  function Wanted(generated: string): seq<C.Line> { ClassifyAll(Split(generated, '\n')) }

  lemma RestProper(existing: string)
    ensures AllProper(Rest(existing)) && C.Tidy(Rest(existing))
    ensures Texts(Rest(existing)) == Split(WithoutBlock(existing), '\n')
  {
    RestTrimmed(existing);
    TrimEndsInInk(WithoutBlock(existing));
    ReadIn(WithoutBlock(existing));
  }

  // The lines of a merged file.
  lemma MergedLines(existing: string, generated: string)
    requires IsContinue(generated)
    ensures var merged := C.MergeLines(Rest(existing), Wanted(generated));
      && merged != [] && AllProper(merged)
      && (C.IsEntry(C.ModelLines(Wanted(generated))) ==> C.EndsInInk(merged))
      && MergeYaml(existing, generated) == JoinTexts(merged) + "\n"
      && Split(MergeYaml(existing, generated), '\n') == Texts(merged) + [""]
  {
    RestProper(existing);
    ReadIn(generated);
    if C.IsEntry(C.ModelLines(Wanted(generated))) {
      C.MergeIsResult(Rest(existing), Wanted(generated));
    }
    ResultProper(Rest(existing), Wanted(generated));
    TextsRoundTrip(C.MergeLines(Rest(existing), Wanted(generated)));
  }

  // A merged file without marked block stays as it is.
  lemma UnblockedStays(existing: string, generated: string)
    requires IsContinue(generated) && C.IsEntry(C.ModelLines(Wanted(generated)))
    requires CutBlock(Split(MergeYaml(existing, generated), '\n')) == None
    ensures MergeYaml(MergeYaml(existing, generated), generated) == MergeYaml(existing, generated)
  {
    var merged := C.MergeLines(Rest(existing), Wanted(generated));
    MergedLines(existing, generated);
    ReadBack(merged);
    TextsRoundTrip(merged);
    RestProper(existing);
    C.MergeTwice(Rest(existing), Wanted(generated));
  }

  // ---- The generated entry ----

  // A generated text: its `models:` line, the entry, and nothing more or the end marker and
  // anything behind it.
  predicate GeneratedAs(generated: string, above: seq<string>, entry: seq<string>, below: seq<string>) {
    && Split(generated, '\n') == above + (["models:"] + (entry + below))
    && "models:" !in above && "# freellmapi:end" !in entry
    && (below != [] ==> below[0] == "# freellmapi:end")
  }

  // Lines in the first models section of a file, whole and in order.
  predicate InModels(file: seq<string>, above: seq<string>, models: string, before: seq<string>, entry: seq<string>,
          below: seq<string>)
  {
    && file == above + ([models] + (before + (entry + below)))
    && TopLevelKey(models) == Some("models") && (forall l :: l in above ==> TopLevelKey(l) != Some("models"))
    && (forall l :: l in before ==> TopLevelKey(l) == None)
  }

  ghost predicate HoldsEntry(file: seq<string>, entry: seq<string>) {
    exists above, models, before, below :: InModels(file, above, models, before, entry, below)
  }

  lemma ClassifyAppend(a: seq<string>, b: seq<string>)
    ensures ClassifyAll(a + b) == ClassifyAll(a) + ClassifyAll(b)
  {
  }

  lemma TextsOfAll(lines: seq<string>)
    ensures Texts(ClassifyAll(lines)) == lines
    ensures forall l :: l in ClassifyAll(lines) ==> l.text in lines && l == C.Classify(l.text)
  {
  }

  lemma WantedAs(generated: string, above: seq<string>, entry: seq<string>, below: seq<string>)
    requires GeneratedAs(generated, above, entry, below)
    ensures C.GeneratedAs(Wanted(generated), ClassifyAll(above), C.Classify("models:"), ClassifyAll(entry),
                          ClassifyAll(below))
  {
    ClassifyAppend(above, ["models:"] + (entry + below));
    ClassifyAppend(["models:"], entry + below);
    ClassifyAppend(entry, below);
    assert ClassifyAll(["models:"]) == [C.Classify("models:")];
    TextsOfAll(above);
    TextsOfAll(entry);
  }

  lemma FiveTexts(above: seq<C.Line>, models: C.Line, before: seq<C.Line>, entry: seq<C.Line>, below: seq<C.Line>)
    ensures Texts(above + ([models] + (before + (entry + below)))) + [""]
         == Texts(above) + ([models.text] + (Texts(before) + (Texts(entry) + (Texts(below) + [""]))))
  {
    TextsAppend(above, [models] + (before + (entry + below)));
    TextsAppend([models], before + (entry + below));
    TextsAppend(before, entry + below);
    TextsAppend(entry, below);
    assert Texts([models]) == [models.text];
  }

  lemma TextsInModels(file: seq<C.Line>, above: seq<C.Line>, models: C.Line, before: seq<C.Line>, entry: seq<C.Line>,
          below: seq<C.Line>)
    requires AllProper(file) && C.InModels(file, above, models, before, entry, below)
    ensures HoldsEntry(Texts(file) + [""], Texts(entry))
  {
    FiveTexts(above, models, before, entry, below);
    KeysOfTexts(file, above);
    KeysOfTexts(file, before);
    assert models in file && ProperLine(models);
    assert InModels(Texts(file) + [""], Texts(above), models.text, Texts(before), Texts(entry), Texts(below) + [""]);
  }

  lemma KeysOfTexts(file: seq<C.Line>, part: seq<C.Line>)
    requires AllProper(file) && forall l :: l in part ==> l in file
    ensures forall i :: 0 <= i < |part| ==> TopLevelKey(Texts(part)[i]) == part[i].key
  {
    forall i | 0 <= i < |part|
      ensures TopLevelKey(Texts(part)[i]) == part[i].key
    {
      assert part[i] in part && ProperLine(part[i]);
    }
  }

  // The merged text holds the lines of the generated entry in its first models section, whole and
  // in order, whatever the existing text is.
  lemma EntryIsWritten(existing: string, generated: string, above: seq<string>, entry: seq<string>, below: seq<string>)
    requires IsContinue(generated) && GeneratedAs(generated, above, entry, below)
    requires entry != [] ==> entry[|entry| - 1] != ""
    ensures HoldsEntry(Split(MergeYaml(existing, generated), '\n'), entry)
  {
    var lines, wanted := Rest(existing), Wanted(generated);
    WantedAs(generated, above, entry, below);
    MergedLines(existing, generated);
    C.EntryStands(lines, wanted, ClassifyAll(above), C.Classify("models:"), ClassifyAll(entry), ClassifyAll(below));
    TextsOfAll(entry);
    var merged := C.MergeLines(lines, wanted);
    assert entry != [] ==> ClassifyAll(entry)[|entry| - 1].text != "";
    var top, models, before, rest :| C.InModels(merged, top, models, before, ClassifyAll(entry), rest);
    TextsInModels(merged, top, models, before, ClassifyAll(entry), rest);
  }

  // ---- What a merged file holds besides generated lines ----

  lemma TextsAppend(a: seq<C.Line>, b: seq<C.Line>)
    ensures Texts(a + b) == Texts(a) + Texts(b)
  {
  }

  // The lines whose texts satisfy p.
  function Of(p: string -> bool, lines: seq<C.Line>): seq<string> { Filter(p, Texts(lines)) }

  lemma OfAppend(p: string -> bool, a: seq<C.Line>, b: seq<C.Line>)
    ensures Of(p, a + b) == Of(p, a) + Of(p, b)
  {
    TextsAppend(a, b);
    FilterAppend(p, Texts(a), Texts(b));
  }

  predicate NoneOf(p: string -> bool, lines: seq<C.Line>) { forall l :: l in lines ==> !p(l.text) }

  lemma OfNone(p: string -> bool, lines: seq<C.Line>)
    requires NoneOf(p, lines)
    ensures Of(p, lines) == []
  {
    FilterNone(p, Texts(lines));
  }

  lemma OfCut(p: string -> bool, c: C.Cut)
    ensures Of(p, c.Lines())
         == Of(p, c.top) + (Of(p, c.before) + (Of(p, c.ours) + Of(p, c.items)) + Of(p, c.rest))
  {
    OfAppend(p, c.top, c.before + (c.ours + c.items) + c.rest);
    OfAppend(p, c.before + (c.ours + c.items), c.rest);
    OfAppend(p, c.before, c.ours + c.items);
    OfAppend(p, c.ours, c.items);
  }

  // No generated line satisfies p, nor do the lines that the merge adds of its own.
  predicate GeneratesNone(p: string -> bool, wanted: seq<C.Line>) {
    && NoneOf(p, C.ModelLines(wanted))
    && (forall l :: l in wanted && l.key.Some? ==> !p(l.text))
    && !p(C.MODELS.text) && !p("")
  }

  lemma AboveOf(p: string -> bool, lines: seq<C.Line>)
    requires !p("")
    ensures Of(p, if lines == [C.EMPTY] then [] else lines + [C.EMPTY]) == Of(p, lines)
  {
    OfNone(p, [C.EMPTY]);
    if lines != [C.EMPTY] {
      OfAppend(p, lines, [C.EMPTY]);
    }
  }

  lemma NewSectionOf(p: string -> bool, header: seq<C.Line>, above: seq<C.Line>, models: C.Line, entry: seq<C.Line>)
    requires NoneOf(p, header) && NoneOf(p, entry) && !p(models.text)
    ensures Of(p, C.Cut(header + above + [models], [], entry, [], []).Lines()) == Of(p, above)
  {
    OfCut(p, C.Cut(header + above + [models], [], entry, [], []));
    OfAppend(p, header + above, [models]);
    OfAppend(p, header, above);
    OfNone(p, header);
    OfNone(p, entry);
    OfNone(p, [models]);
    OfNone(p, []);
  }

  lemma ReplacedOf(p: string -> bool, header: seq<C.Line>, c: C.Cut, entry: seq<C.Line>)
    requires NoneOf(p, header) && NoneOf(p, entry)
    ensures Of(p, C.Cut(header + c.top, c.before, entry, c.items, c.rest).Lines()) == Of(p, c.With([]))
  {
    var without := C.Cut(c.top, c.before, [], c.items, c.rest);
    assert without.Lines() == c.With([]);
    OfCut(p, without);
    OfCut(p, C.Cut(header + c.top, c.before, entry, c.items, c.rest));
    OfAppend(p, header, c.top);
    OfNone(p, header);
    OfNone(p, entry);
  }

  // What is not generated in a merged file is what the merge keeps, in order.
  lemma MergedOf(p: string -> bool, lines: seq<C.Line>, wanted: seq<C.Line>)
    requires C.Tidy(lines) && C.IsEntry(C.ModelLines(wanted)) && GeneratesNone(p, wanted)
    ensures Of(p, C.MergeLines(lines, wanted)) == Of(p, C.Others(lines))
  {
    var m, header := First(C.IsModels, lines), C.MissingHeader(lines, wanted);
    MissingFrom(lines, wanted);
    C.MergeIsResult(lines, wanted);
    if m == |lines| {
      AboveOf(p, lines);
      NewSectionOf(p, header, if lines == [C.EMPTY] then [] else lines + [C.EMPTY], C.MODELS, C.ModelLines(wanted));
    } else {
      ReplacedOf(p, header, C.CutAt(lines, m), C.ModelLines(wanted));
    }
  }

  lemma OthersFewer(p: string -> bool, lines: seq<C.Line>)
    ensures |Of(p, C.Others(lines))| <= |Of(p, lines)|
  {
    var m := First(C.IsModels, lines);
    if m < |lines| {
      var c := C.CutAt(lines, m);
      C.CutAtProper(lines, m);
      var without := C.Cut(c.top, c.before, [], c.items, c.rest);
      assert without.Lines() == c.With([]);
      OfCut(p, without);
      OfCut(p, c);
    }
  }

  // The same of the lines of a merged text.
  lemma MergedTextOf(p: string -> bool, existing: string, generated: string)
    requires IsContinue(generated) && C.IsEntry(C.ModelLines(Wanted(generated))) && GeneratesNone(p, Wanted(generated))
    ensures Filter(p, Split(MergeYaml(existing, generated), '\n')) == Of(p, C.Others(Rest(existing)))
  {
    MergedLines(existing, generated);
    RestProper(existing);
    MergedOf(p, Rest(existing), Wanted(generated));
    EmptyLast(p, Texts(C.MergeLines(Rest(existing), Wanted(generated))), "");
  }

  lemma EmptyLast(p: string -> bool, lines: seq<string>, last: string)
    requires !p(last)
    ensures Filter(p, lines + [last]) == Filter(p, lines)
  {
    FilterAppend(p, lines, [last]);
    FilterNone(p, [last]);
  }

  // ---- Whether a marked block is left ----

  // The lines with a marker.
  function Marked(isStart: string -> bool, afterEnd: string -> Option<string>): string -> bool {
    line => isStart(line) || afterEnd(line).Some?
  }

  lemma NoBlock(isStart: string -> bool, afterEnd: string -> Option<string>, first: string, rest: seq<string>)
    ensures CutBetween(isStart, afterEnd, [first] + rest) == None
       <==> if isStart(first) then forall l :: l in rest ==> afterEnd(l) == None
            else CutBetween(isStart, afterEnd, rest) == None
  {
    var lines := [first] + rest;
    assert lines[1..] == rest;
    FirstSomeMeans(afterEnd, rest);
    if !isStart(first) {
      assert First(isStart, lines) == 1 + First(isStart, rest);
      var i := First(isStart, rest);
      if i < |rest| {
        assert lines[i + 2..] == rest[i + 1..];
      }
    }
  }

  lemma MarkedStep(isStart: string -> bool, afterEnd: string -> Option<string>, first: string, rest: seq<string>,
          kept: seq<string>)
    requires kept == Filter(Marked(isStart, afterEnd), rest)
    requires CutBetween(isStart, afterEnd, kept) == None <==> CutBetween(isStart, afterEnd, rest) == None
    ensures CutBetween(isStart, afterEnd, (if Marked(isStart, afterEnd)(first) then [first] else []) + kept) == None
       <==> CutBetween(isStart, afterEnd, [first] + rest) == None
  {
    NoBlock(isStart, afterEnd, first, rest);
    if Marked(isStart, afterEnd)(first) {
      NoBlock(isStart, afterEnd, first, kept);
      FilterMembers(Marked(isStart, afterEnd), rest);
    } else {
      assert [] + kept == kept;
    }
  }

  // Whether there is a block depends on the lines with markers only.
  lemma {:induction false} MarkersDecide(isStart: string -> bool, afterEnd: string -> Option<string>,
          lines: seq<string>)
    ensures CutBetween(isStart, afterEnd, Filter(Marked(isStart, afterEnd), lines)) == None
       <==> CutBetween(isStart, afterEnd, lines) == None
  {
    if lines != [] {
      MarkersDecide(isStart, afterEnd, lines[1..]);
      MarkedStep(isStart, afterEnd, lines[0], lines[1..], Filter(Marked(isStart, afterEnd), lines[1..]));
      assert lines == [lines[0]] + lines[1..];
    }
  }

  // ---- What cutting a block loses ----

  // A word occurs in a line.
  predicate Has(word: string, line: string) { exists k :: 0 <= k <= |line| && word <= line[k..] }

  function Having(word: string): string -> bool { line => Has(word, line) }

  function Count(word: string, lines: seq<string>): nat { |Filter(Having(word), lines)| }

  lemma HasPart(word: string, part: string, line: string, k: nat)
    requires k <= |line| && part <= line[k..] && Has(word, part)
    ensures Has(word, line)
  {
    var j :| 0 <= j <= |part| && word <= part[j..];
    assert part[j..] <= line[k..][j..] == line[k + j..];
  }

  lemma CountAppend(word: string, a: seq<string>, b: seq<string>)
    ensures Count(word, a + b) == Count(word, a) + Count(word, b)
  {
    FilterAppend(Having(word), a, b);
  }

  lemma CountOne(word: string, line: string)
    ensures Count(word, [line]) == if Has(word, line) then 1 else 0
  {
    assert [line][1..] == [];
  }

  lemma CountFirst(word: string, lines: seq<string>)
    requires lines != []
    ensures Count(word, lines) == (if Has(word, lines[0]) then 1 else 0) + Count(word, lines[1..])
  {
  }

  lemma {:induction false} PrefixesFewer(word: string, a: seq<string>, b: seq<string>)
    requires PrefixesOf(a, b)
    ensures Count(word, a) <= Count(word, b)
  {
    if a != [] {
      CountFirst(word, a);
      CountFirst(word, b);
      assert a[0] <= b[0] == b[0][0..];
      if Has(word, a[0]) { HasPart(word, a[0], b[0], 0); }
      assert forall i :: 0 <= i < |a| - 1 ==> a[1..][i] == a[i + 1] <= b[i + 1] == b[1..][i];
      PrefixesFewer(word, a[1..], b[1..]);
    }
  }

  lemma TrimEndFewer(word: string, s: string)
    ensures Count(word, Split(TrimEnd(s), '\n')) <= Count(word, Split(s, '\n'))
  {
    TrimEndPrefix(s);
    SplitPrefix(s, |TrimEnd(s)|);
    PrefixesFewer(word, Split(TrimEnd(s), '\n'), Split(s, '\n'));
  }

  lemma OneCharFewer(word: string, c: char, rest: string)
    ensures Count(word, Split(rest, '\n')) <= Count(word, Split([c] + rest, '\n'))
  {
    var lines, all := Split(rest, '\n'), Split([c] + rest, '\n');
    SplitStep(c, rest, '\n');
    CountFirst(word, all);
    if c == '\n' {
      assert all[1..] == lines;
    } else {
      CountFirst(word, lines);
      assert all[1..] == lines[1..] && all[0][1..] == lines[0];
      if Has(word, lines[0]) { HasPart(word, lines[0], all[0], 1); }
    }
  }

  lemma {:induction false} SuffixFewer(word: string, s: string, n: nat)
    requires n <= |s|
    ensures Count(word, Split(s[n..], '\n')) <= Count(word, Split(s, '\n'))
  {
    if n > 0 {
      var rest := s[1..];
      SuffixFewer(word, rest, n - 1);
      assert s == [s[0]] + rest && s[n..] == rest[n - 1..];
      OneCharFewer(word, s[0], rest);
    } else {
      assert s[0..] == s;
    }
  }

  // Lines with a block in them: a start marker with no other above it, and the next end marker.
  ghost predicate BlockAt(isStart: string -> bool, afterEnd: string -> Option<string>, lines: seq<string>,
          above: seq<string>, start: string, middle: seq<string>, end: string, below: seq<string>)
  {
    && lines == above + ([start] + (middle + ([end] + below)))
    && (forall l :: l in above ==> !isStart(l)) && isStart(start)
    && (forall l :: l in middle ==> afterEnd(l) == None) && afterEnd(end).Some?
  }

  lemma SplitAt(lines: seq<string>, i: nat)
    requires i < |lines|
    ensures lines == lines[..i] + ([lines[i]] + lines[i + 1..])
  {
  }

  lemma {:induction false} NoneBefore(f: string -> Option<string>, lines: seq<string>)
    ensures forall l :: l in lines[..FirstSome(f, lines)] ==> f(l) == None
  {
    if lines != [] && f(lines[0]) == None {
      NoneBefore(f, lines[1..]);
      assert lines[..FirstSome(f, lines)] == [lines[0]] + lines[1..][..FirstSome(f, lines[1..])];
    }
  }

  lemma FirstBlock(isStart: string -> bool, afterEnd: string -> Option<string>, lines: seq<string>)
    returns (above: seq<string>, start: string, middle: seq<string>, end: string, below: seq<string>)
    requires CutBetween(isStart, afterEnd, lines).Some?
    ensures BlockAt(isStart, afterEnd, lines, above, start, middle, end, below)
  {
    var i := First(isStart, lines);
    var rest := lines[i + 1..];
    var j := FirstSome(afterEnd, rest);
    FirstMeans(isStart, lines);
    NoneBefore(afterEnd, rest);
    SplitAt(lines, i);
    SplitAt(rest, j);
    above, start, middle, end, below := lines[..i], lines[i], rest[..j], rest[j], rest[j + 1..];
  }

  lemma BelowFewer(word: string, line: string, tail: string, k: nat, below: seq<string>)
    requires k <= |line| && tail == line[k..] && Text.Free([line] + below, '\n')
    ensures Count(word, Split(TrimStart(Join([tail] + below, '\n')), '\n')) <= Count(word, [line] + below)
  {
    var text := Join([tail] + below, '\n');
    assert '\n' !in ([line] + below)[0] && forall i :: 0 <= i < |below| ==> below[i] == ([line] + below)[i + 1];
    SplitJoin([tail] + below, '\n');
    TrimStartSuffix(text);
    SuffixFewer(word, text, |text| - |TrimStart(text)|);
    CountAppend(word, [tail], below);
    CountAppend(word, [line], below);
    CountOne(word, tail);
    CountOne(word, line);
    if Has(word, tail) { HasPart(word, tail, line, k); }
  }

  lemma CountParts(word: string, above: seq<string>, start: string, middle: seq<string>, rest: seq<string>)
    ensures Count(word, above + ([start] + (middle + rest)))
         == Count(word, above) + Count(word, [start] + middle) + Count(word, rest)
  {
    Associate([start], middle, rest);
    CountAppend(word, above, ([start] + middle) + rest);
    CountAppend(word, [start] + middle, rest);
  }

  lemma AfterEndIsTail(line: string)
    requires AfterEnd(line).Some?
    ensures var tail := AfterEnd(line).value; |tail| <= |line| && tail == line[|line| - |tail|..]
  {
  }

  lemma LeftFewer(word: string, above: seq<string>, below: string)
    requires Text.Free(above, '\n')
    ensures Count(word, Split(TrimEnd(Terminated(above) + below), '\n'))
         <= Count(word, above) + Count(word, Split(below, '\n'))
  {
    SplitTerminated(above, below);
    CountAppend(word, above, Split(below, '\n'));
    TrimEndFewer(word, Terminated(above) + below);
  }

  lemma FreeParts(above: seq<string>, start: string, middle: seq<string>, end: string, below: seq<string>, c: char)
    requires Text.Free(above + ([start] + (middle + ([end] + below))), c)
    ensures Text.Free(above, c) && Text.Free([end] + below, c)
  {
    var lines := above + ([start] + (middle + ([end] + below)));
    assert forall i :: 0 <= i < |above| ==> above[i] == lines[i];
    assert forall i :: 0 <= i < |[end] + below| ==> ([end] + below)[i] == lines[|above| + 1 + |middle| + i];
  }

  // What is left of a text without its first block has a word at most as often as the text has
  // it outside of the block.
  lemma CutFewer(word: string, existing: string, above: seq<string>, start: string, middle: seq<string>, end: string,
          below: seq<string>)
    requires BlockAt(IsStart, AfterEnd, Split(existing, '\n'), above, start, middle, end, below)
    ensures Count(word, Split(WithoutBlock(existing), '\n')) + Count(word, [start] + middle)
         <= Count(word, Split(existing, '\n'))
  {
    SplitFree(existing, '\n');
    FreeParts(above, start, middle, end, below, '\n');
    CutLines(IsStart, AfterEnd, above, start, middle, end, below);
    AfterEndIsTail(end);
    var tail := AfterEnd(end).value;
    BelowFewer(word, end, tail, |end| - |tail|, below);
    CountParts(word, above, start, middle, [end] + below);
    LeftFewer(word, above, TrimStart(Join([tail] + below, '\n')));
  }

  // ---- When merging again changes nothing ----

  const START_WORD := "freellmapi:start"

  // A generated Continue configuration: its entry is one FreeLLMAPI item without markers, and its
  // other keys do not mention the start marker.
  predicate ContinueForm(generated: string) {
    var wanted := Wanted(generated);
    && IsContinue(generated)
    && C.IsEntry(C.ModelLines(wanted))
    && (forall l :: l in C.ModelLines(wanted) ==> !Has(START_WORD, l.text) && !IsEnd(l.text))
    && (forall l :: l in wanted && l.key.Some? ==> !Has(START_WORD, l.text))
  }

  // Outside of our item the file holds no marked block besides its first one.
  predicate OneBlock(existing: string) { CutBlock(Texts(C.Others(Rest(existing)))) == None }

  lemma WordOfMarkers(word: string, hash: string, slash: string)
    requires word == START_WORD && hash == HASH_START && slash == SLASH_START
    ensures hash[2..] == word && slash[3..] == word
  {
  }

  lemma StartHasWord(line: string)
    requires IsStart(line)
    ensures Has(START_WORD, line)
  {
    var n := Run(line, IsIndent);
    WordOfMarkers(START_WORD, HASH_START, SLASH_START);
    if HASH_START <= Body(line) {
      AtOffset(START_WORD, HASH_START, line, n, 2);
    } else {
      AtOffset(START_WORD, SLASH_START, line, n, 3);
    }
  }

  lemma AtOffset(word: string, marker: string, line: string, n: nat, k: nat)
    requires n <= |line| && marker <= line[n..] && k <= |marker| && word == marker[k..]
    ensures Has(word, line)
  {
    assert line[n..][k..] == line[n + k..];
  }

  lemma ShorterHasNot(word: string, line: string)
    requires |line| < |word|
    ensures !Has(word, line)
  {
  }

  lemma GeneratesNoStart(generated: string)
    requires ContinueForm(generated)
    ensures GeneratesNone(Having(START_WORD), Wanted(generated))
  {
    var word, models := START_WORD, C.MODELS.text;
    assert |word| == 16 && |models| == 7;
    ShorterHasNot(word, models);
    ShorterHasNot(word, "");
  }

  lemma GeneratesNoMarker(generated: string)
    requires ContinueForm(generated)
    ensures GeneratesNone(Marked(IsStart, AfterEnd), Wanted(generated))
  {
    var wanted, marked := Wanted(generated), Marked(IsStart, AfterEnd);
    ReadIn(generated);
    forall l | l in C.ModelLines(wanted)
      ensures !marked(l.text)
    {
      if IsStart(l.text) { StartHasWord(l.text); }
    }
    forall l | l in wanted && l.key.Some?
      ensures !marked(l.text)
    {
      KeyLineNotStart(l.text);
      KeyLineNotEnd(l.text);
    }
    ModelsKey(C.MODELS.text);
    KeyLineNotStart(C.MODELS.text);
    KeyLineNotEnd(C.MODELS.text);
    EmptyIsNoStart();
    EmptyIsNoEnd();
  }

  // A merged file holds a block exactly when one is left in what the merge keeps.
  lemma MergedHasBlock(existing: string, generated: string)
    requires ContinueForm(generated)
    ensures CutBlock(Split(MergeYaml(existing, generated), '\n')) == None <==> OneBlock(existing)
  {
    GeneratesNoMarker(generated);
    MergedTextOf(Marked(IsStart, AfterEnd), existing, generated);
    MarkersDecide(IsStart, AfterEnd, Split(MergeYaml(existing, generated), '\n'));
    MarkersDecide(IsStart, AfterEnd, Texts(C.Others(Rest(existing))));
  }

  // A merge adds no occurrence of a word that is not generated.
  lemma MergeAddsNone(word: string, existing: string, generated: string)
    requires IsContinue(generated) && C.IsEntry(C.ModelLines(Wanted(generated)))
    requires GeneratesNone(Having(word), Wanted(generated))
    ensures Count(word, Split(MergeYaml(existing, generated), '\n')) <= Count(word, Split(WithoutBlock(existing), '\n'))
  {
    MergedTextOf(Having(word), existing, generated);
    OthersFewer(Having(word), Rest(existing));
    RestProper(existing);
  }

  // A merge into a file with a block takes a start marker away.
  lemma BlockedLosesStart(existing: string, generated: string)
    requires ContinueForm(generated) && CutBlock(Split(existing, '\n')).Some?
    ensures Count(START_WORD, Split(MergeYaml(existing, generated), '\n')) < Count(START_WORD, Split(existing, '\n'))
  {
    var above, start, middle, end, below := FirstBlock(IsStart, AfterEnd, Split(existing, '\n'));
    CutFewer(START_WORD, existing, above, start, middle, end, below);
    StartHasWord(start);
    CountAppend(START_WORD, [start], middle);
    CountOne(START_WORD, start);
    GeneratesNoStart(generated);
    MergeAddsNone(START_WORD, existing, generated);
  }

  // Merging the same Continue configuration again changes nothing exactly when the file holds
  // no marked block besides its first one.
  lemma ContinueTwice(existing: string, generated: string)
    requires ContinueForm(generated)
    ensures MergeYaml(MergeYaml(existing, generated), generated) == MergeYaml(existing, generated)
       <==> OneBlock(existing)
  {
    MergedHasBlock(existing, generated);
    if OneBlock(existing) {
      UnblockedStays(existing, generated);
    } else {
      BlockedLosesStart(MergeYaml(existing, generated), generated);
    }
  }

  lemma NoStartAmong(lines: seq<string>, others: seq<string>)
    requires NoStart(lines) && forall l :: l in others ==> l in lines
    ensures CutBlock(others) == None
  {
    forall i | 0 <= i < |others|
      ensures !IsStart(others[i])
    {
      assert others[i] in lines;
    }
    NoStartNoBlock(others);
  }

  lemma OthersAmong(lines: seq<C.Line>)
    ensures forall l :: l in C.Others(lines) ==> l in lines
  {
    var m := First(C.IsModels, lines);
    if m < |lines| {
      C.CutAtProper(lines, m);
      C.PartsWithin(C.CutAt(lines, m));
    }
  }

  lemma TextsAmong(a: seq<C.Line>, b: seq<C.Line>)
    requires forall l :: l in a ==> l in b
    ensures forall t :: t in Texts(a) ==> t in Texts(b)
  {
    forall i | 0 <= i < |a|
      ensures Texts(a)[i] in Texts(b)
    {
      assert a[i] in a;
      var k :| 0 <= k < |b| && b[k] == a[i];
      assert Texts(b)[k] == a[i].text;
    }
  }

  // It holds none when no start marker is left without the first block.
  lemma NoOtherStart(existing: string)
    requires NoStart(Split(WithoutBlock(existing), '\n'))
    ensures OneBlock(existing)
  {
    RestProper(existing);
    OthersAmong(Rest(existing));
    TextsAmong(C.Others(Rest(existing)), Rest(existing));
    NoStartAmong(Texts(Rest(existing)), Texts(C.Others(Rest(existing))));
  }

  // ---- Merging again and again ----

  function Times<T>(f: T -> T, n: nat, x: T): T { if n == 0 then x else f(Times(f, n - 1, x)) }

  lemma {:induction false} OneMore<T>(f: T -> T, n: nat, x: T)
    ensures Times(f, n, f(x)) == Times(f, n + 1, x)
  {
    if n > 0 { OneMore(f, n - 1, x); }
  }

  lemma {:induction false} FixedStays<T>(f: T -> T, n: nat, x: T)
    requires f(x) == x
    ensures Times(f, n, x) == x
  {
    if n > 0 { FixedStays(f, n - 1, x); }
  }

  // Every result stays as it is or gets smaller.
  ghost predicate StaysOrShrinks<T(!new)>(f: T -> T, size: T -> nat) {
    forall y :: f(f(y)) == f(y) || size(f(f(y))) < size(f(y))
  }

  lemma {:induction false} SmallerSettles<T(!new)>(f: T -> T, size: T -> nat, x: T, n: nat)
    requires StaysOrShrinks(f, size)
    requires n > size(f(x))
    ensures Times(f, n + 1, x) == Times(f, n, x)
    decreases n
  {
    OneMore(f, n, x);
    OneMore(f, n - 1, x);
    if f(f(x)) == f(x) {
      FixedStays(f, n, f(x));
      FixedStays(f, n - 1, f(x));
    } else {
      SmallerSettles(f, size, f(x), n - 1);
    }
  }

  function Merging(generated: string): string -> string { text => MergeYaml(text, generated) }

  function Starts(): string -> nat { text => Count(START_WORD, Split(text, '\n')) }

  lemma TwiceStaysOrShrinks(existing: string, generated: string)
    requires ContinueForm(generated)
    ensures var once := MergeYaml(existing, generated); var twice := MergeYaml(once, generated);
            twice == once || Count(START_WORD, Split(twice, '\n')) < Count(START_WORD, Split(once, '\n'))
  {
    ContinueTwice(existing, generated);
    MergedHasBlock(existing, generated);
    if !OneBlock(existing) {
      BlockedLosesStart(MergeYaml(existing, generated), generated);
    }
  }

  lemma MergingStaysOrShrinks(generated: string)
    requires ContinueForm(generated)
    ensures StaysOrShrinks(Merging(generated), Starts())
  {
    var f, size := Merging(generated), Starts();
    forall y
      ensures f(f(y)) == f(y) || size(f(f(y))) < size(f(y))
    {
      TwiceStaysOrShrinks(y, generated);
    }
  }

  // Every file settles: when the first merge leaves less than n mentions of the start marker,
  // merge n + 1 changes nothing.
  lemma MergingSettles(existing: string, generated: string, n: nat)
    requires ContinueForm(generated) && n > Starts()(Merging(generated)(existing))
    ensures Times(Merging(generated), n + 1, existing) == Times(Merging(generated), n, existing)
  {
    MergingStaysOrShrinks(generated);
    SmallerSettles(Merging(generated), Starts(), existing, n);
  }

  // ---- A second block is lost ----

  // Lines without break and marker that are not in the models section.
  predicate PlainSetting(line: string) {
    '\n' !in line && TopLevelKey(line).Some? && TopLevelKey(line) != Some("models")
  }

  lemma SettingUnmarked(line: string)
    requires TopLevelKey(line).Some?
    ensures !IsStart(line) && AfterEnd(line) == None && line != "" && IsWordChar(line[0]) && !IsSpace(line[0])
  {
    KeyLineNotStart(line);
    KeyLineNotEnd(line);
  }

  lemma TrimInk(s: string)
    requires s != "" && !IsSpace(s[0])
    ensures TrimStart(s) == s
  {
  }

  lemma FourLines(a: string, s: string, b: string, e: string)
    requires '\n' !in a && '\n' !in s && '\n' !in b && '\n' !in e && e != "" && !IsSpace(e[|e| - 1])
    ensures Split(TrimEnd(Terminated([a, s, b, e])), '\n') == [a, s, b, e]
    ensures a != "" ==> Terminated([a, s, b, e]) != "" && Terminated([a, s, b, e])[0] == a[0]
  {
    var lines := [a, s, b, e];
    TerminatedIsJoin(lines);
    JoinEnds(lines);
    TrimBreak(Join(lines, '\n'));
    SplitJoin(lines, '\n');
  }

  // A block in front of a text is cut out, and the text trimmed.
  lemma WithoutFirst(existing: string, middle: seq<string>, below: string)
    requires IsBlock(middle) && existing == Terminated([]) + BlockText(middle) + below
    ensures WithoutBlock(existing) == TrimEnd(TrimStart(below))
  {
    CutAgain([], middle, below);
    CutLeaves(existing, [], TrimStart(below));
    NothingBefore(TrimStart(below));
  }

  lemma CutLeaves(existing: string, above: seq<string>, below: string)
    requires CutBlock(Split(existing, '\n')) == Some(Block(above, below))
    ensures WithoutBlock(existing) == TrimEnd(Terminated(above) + below)
  {
  }

  lemma FourLeft(a: string, s: string, b: string, e: string)
    requires '\n' !in a && '\n' !in s && '\n' !in b && '\n' !in e && e != "" && !IsSpace(e[|e| - 1])
    requires a != "" && !IsSpace(a[0])
    ensures Split(TrimEnd(TrimStart(Terminated([a, s, b, e]))), '\n') == [a, s, b, e]
  {
    FourLines(a, s, b, e);
    TrimInk(Terminated([a, s, b, e]));
  }

  // The four lines that are left: a setting, and a block around another one.
  predicate FourSettings(lines: seq<C.Line>, a: string, s: string, b: string, e: string) {
    && AllProper(lines) && Texts(lines) == [a, s, b, e]
    && PlainSetting(a) && PlainSetting(b) && TopLevelKey(s) == None && TopLevelKey(e) == None
    && IsStart(s) && AfterEnd(s) == None && !IsStart(e) && AfterEnd(e).Some?
  }

  lemma NoModels(lines: seq<C.Line>)
    requires AllProper(lines) && forall t :: t in Texts(lines) ==> TopLevelKey(t) != Some("models")
    ensures C.Others(lines) == lines
  {
    forall i | 0 <= i < |lines|
      ensures !C.IsModels(lines[i])
    {
      assert lines[i] in lines && Texts(lines)[i] == lines[i].text;
    }
    FirstIs(C.IsModels, lines, |lines|);
  }

  lemma FourKeys(a: string, s: string, b: string, e: string, key: Option<string>)
    requires TopLevelKey(a) != key && TopLevelKey(s) != key && TopLevelKey(b) != key && TopLevelKey(e) != key
    ensures forall t :: t in [a, s, b, e] ==> TopLevelKey(t) != key
  {
  }

  lemma FourKept(lines: seq<C.Line>, a: string, s: string, b: string, e: string)
    requires FourSettings(lines, a, s, b, e)
    ensures C.Others(lines) == lines
  {
    FourKeys(a, s, b, e, Some("models"));
    NoModels(lines);
  }

  lemma FourMerged(p: string -> bool, existing: string, generated: string, a: string, s: string, b: string, e: string)
    requires ContinueForm(generated) && GeneratesNone(p, Wanted(generated))
    requires FourSettings(Rest(existing), a, s, b, e) && !p(a) && p(b)
    ensures Filter(p, Split(MergeYaml(existing, generated), '\n'))
         == (if p(s) then [s] else []) + ([b] + (if p(e) then [e] else []))
  {
    FourKept(Rest(existing), a, s, b, e);
    MergedTextOf(p, existing, generated);
    FilterFour(p, a, s, b, e);
  }

  lemma FilterFour(p: string -> bool, a: string, s: string, b: string, e: string)
    requires !p(a) && p(b)
    ensures Filter(p, [a, s, b, e]) == (if p(s) then [s] else []) + ([b] + (if p(e) then [e] else []))
  {
    assert [a, s, b, e] == [a] + ([s] + ([b] + ([e] + [])));
    FilterAppend(p, [a], [s] + ([b] + ([e] + [])));
    FilterAppend(p, [s], [b] + ([e] + []));
    FilterAppend(p, [b], [e] + []);
  }

  // The lines with a marker or with a word.
  function Watched(word: string): string -> bool { line => Marked(IsStart, AfterEnd)(line) || Has(word, line) }

  lemma ThreeInOrder(x: seq<string>, start: string, y: seq<string>, end: string, z: seq<string>,
          s: string, b: string, e: string)
    requires x + ([start] + (y + ([end] + z))) == [s] + ([b] + [e])
    requires s !in x && end != b
    ensures b in y
  {
    var all := x + ([start] + (y + ([end] + z)));
    var first, second := all[0], all[1];
    assert first == s && second == b;
    assert x == [] || first in x;
    assert all[1..] == y + ([end] + z);
    assert y == [] || second in y;
  }

  // A line between the first start marker and the next end marker is in the block.
  lemma InBlock(p: string -> bool, isStart: string -> bool, afterEnd: string -> Option<string>, lines: seq<string>,
          above: seq<string>, start: string, middle: seq<string>, end: string, below: seq<string>,
          s: string, b: string, e: string)
    requires BlockAt(isStart, afterEnd, lines, above, start, middle, end, below)
    requires Filter(p, lines) == [s] + ([b] + [e]) && p(start) && p(end) && isStart(s) && afterEnd(b) == None
    ensures b in middle
  {
    FilterAppend(p, above, [start] + (middle + ([end] + below)));
    FilterAppend(p, [start], middle + ([end] + below));
    FilterAppend(p, middle, [end] + below);
    FilterAppend(p, [end], below);
    FilterAll(p, [start]);
    FilterAll(p, [end]);
    FilterMembers(p, above);
    FilterMembers(p, middle);
    ThreeInOrder(Filter(p, above), start, Filter(p, middle), end, Filter(p, below), s, b, e);
  }

  lemma GeneratesNoWatched(word: string, generated: string)
    requires ContinueForm(generated) && GeneratesNone(Having(word), Wanted(generated))
    ensures GeneratesNone(Watched(word), Wanted(generated))
  {
    GeneratesNoMarker(generated);
    var wanted, marked, having, watched := Wanted(generated), Marked(IsStart, AfterEnd), Having(word), Watched(word);
    assert forall line :: watched(line) <==> marked(line) || having(line);
  }

  lemma WatchedMeans(word: string, line: string)
    ensures Watched(word)(line) <==> IsStart(line) || AfterEnd(line).Some? || Has(word, line)
  {
    var marked := Marked(IsStart, AfterEnd);
    assert marked(line) <==> IsStart(line) || AfterEnd(line).Some?;
  }

  lemma FourBlock(a: string, s: string, b: string, e: string)
    requires !IsStart(a) && IsStart(s) && AfterEnd(b) == None && AfterEnd(e).Some?
    ensures CutBlock([a, s, b, e]).Some?
  {
    assert [a, s, b, e] == [a] + ([s] + ([b] + ([e] + [])));
    CutLines(IsStart, AfterEnd, [a], s, [b], e, []);
  }

  lemma FourHaveBlock(existing: string, generated: string, a: string, s: string, b: string, e: string)
    requires ContinueForm(generated) && FourSettings(Rest(existing), a, s, b, e)
    ensures CutBlock(Split(MergeYaml(existing, generated), '\n')).Some?
  {
    SettingUnmarked(a);
    SettingUnmarked(b);
    FourKept(Rest(existing), a, s, b, e);
    FourBlock(a, s, b, e);
    MergedHasBlock(existing, generated);
  }

  lemma WatchedFour(a: string, s: string, b: string, e: string)
    requires TopLevelKey(a).Some? && !Has(b, a) && IsStart(s) && AfterEnd(e).Some?
    ensures var p := Watched(b); !p(a) && p(s) && p(b) && p(e)
  {
    SettingUnmarked(a);
    HasItself(b);
    WatchedMeans(b, a);
    WatchedMeans(b, s);
    WatchedMeans(b, b);
    WatchedMeans(b, e);
  }

  lemma WatchedThree(existing: string, generated: string, a: string, s: string, b: string, e: string)
    requires ContinueForm(generated) && FourSettings(Rest(existing), a, s, b, e)
    requires GeneratesNone(Having(b), Wanted(generated)) && !Has(b, a)
    ensures Filter(Watched(b), Split(MergeYaml(existing, generated), '\n')) == [s] + ([b] + [e])
  {
    WatchedFour(a, s, b, e);
    GeneratesNoWatched(b, generated);
    FourMerged(Watched(b), existing, generated, a, s, b, e);
  }

  lemma HasItself(word: string)
    ensures Has(word, word)
  {
    assert word <= word[0..];
  }

  lemma OnlyInBlock(once: string, s: string, b: string, e: string)
    requires Filter(Watched(b), Split(once, '\n')) == [s] + ([b] + [e]) && IsStart(s) && AfterEnd(b) == None
    requires CutBlock(Split(once, '\n')).Some? && Filter(Having(b), Split(once, '\n')) == [b]
    ensures Count(b, Split(WithoutBlock(once), '\n')) == 0
  {
    var above, start, middle, end, below := FirstBlock(IsStart, AfterEnd, Split(once, '\n'));
    WatchedMeans(b, start);
    WatchedMeans(b, end);
    InBlock(Watched(b), IsStart, AfterEnd, Split(once, '\n'), above, start, middle, end, below, s, b, e);
    CutFewer(b, once, above, start, middle, end, below);
    HasItself(b);
    CountAppend(b, [start], middle);
    FilterMembers(Having(b), middle);
  }

  lemma FourLoseOne(existing: string, generated: string, a: string, s: string, b: string, e: string)
    requires ContinueForm(generated) && FourSettings(Rest(existing), a, s, b, e)
    requires !Has(b, a) && !Has(b, s) && !Has(b, e) && GeneratesNone(Having(b), Wanted(generated))
    ensures var once := MergeYaml(existing, generated);
            b in Split(once, '\n') && b !in Split(MergeYaml(once, generated), '\n')
  {
    var once := MergeYaml(existing, generated);
    HasItself(b);
    SettingUnmarked(b);
    FourMerged(Having(b), existing, generated, a, s, b, e);
    assert [] + ([b] + []) == [b];
    WatchedThree(existing, generated, a, s, b, e);
    FourHaveBlock(existing, generated, a, s, b, e);
    OnlyInBlock(once, s, b, e);
    MergeAddsNone(b, once, generated);
    InOnly(b, Split(once, '\n'), Split(MergeYaml(once, generated), '\n'));
  }

  lemma InOnly(b: string, once: seq<string>, twice: seq<string>)
    requires Filter(Having(b), once) == [b] && Count(b, twice) == 0
    ensures b in once && b !in twice
  {
    HasItself(b);
    assert b in [b];
    FilterMembers(Having(b), once);
    FilterMembers(Having(b), twice);
  }

  lemma GeneratesNoWord(word: string, generated: string)
    requires word != "" && !Has(word, C.MODELS.text)
    requires forall l :: l in Split(generated, '\n') ==> !Has(word, l)
    ensures GeneratesNone(Having(word), Wanted(generated))
  {
    var wanted := Wanted(generated);
    C.ModelLinesFrom(wanted);
    ReadIn(generated);
    forall l | l in wanted
      ensures !Has(word, l.text)
    {
      var i :| 0 <= i < |wanted| && wanted[i] == l;
      assert Texts(wanted)[i] == l.text;
    }
    ShorterHasNot(word, "");
  }

  // A file with an empty block, one line, and a block of one line.
  function TwoBlocks(a: string, b: string): string { BlockText([]) + Terminated([a, HASH_START, b, HASH_END]) }

  lemma RestOfTwo(a: string, b: string, s: string, e: string)
    requires PlainSetting(a) && PlainSetting(b) && s == HASH_START && e == HASH_END
    ensures FourSettings(Rest(TwoBlocks(a, b)), a, s, b, e)
  {
    SettingUnmarked(a);
    StartMarker(s, e);
    StartIsNoEnd(s);
    EndMarker(e);
    MarkersKeyless(s, e);
    FourLeft(a, s, b, e);
    NothingBefore(BlockText([]));
    WithoutFirst(TwoBlocks(a, b), [], Terminated([a, s, b, e]));
    ReadIn(WithoutBlock(TwoBlocks(a, b)));
  }

  // Merging twice into such a file loses the line of its second block.
  lemma SecondBlockIsLost(a: string, b: string, s: string, e: string, generated: string)
    requires PlainSetting(a) && PlainSetting(b) && s == HASH_START && e == HASH_END && ContinueForm(generated)
    requires !Has(b, a) && !Has(b, s) && !Has(b, e) && !Has(b, C.MODELS.text)
    requires forall l :: l in Split(generated, '\n') ==> !Has(b, l)
    ensures var once := MergeYaml(TwoBlocks(a, b), generated);
            b in Split(once, '\n') && b !in Split(MergeYaml(once, generated), '\n')
  {
    SettingUnmarked(b);
    GeneratesNoWord(b, generated);
    RestOfTwo(a, b, s, e);
    FourLoseOne(TwoBlocks(a, b), generated, a, s, b, e);
  }

  // For instance, this file loses `b: 2`.
  lemma SettingIsLost(a: string, b: string, generated: string)
    requires a == "a: 1" && b == "b: 2" && ContinueForm(generated)
    requires forall l :: l in Split(generated, '\n') ==> !Has(b, l)
    ensures var once := MergeYaml(TwoBlocks(a, b), generated);
            b in Split(once, '\n') && b !in Split(MergeYaml(once, generated), '\n')
  {
    TwoSettings(a, b);
    NotInMarkers(b, a, HASH_START, HASH_END, C.MODELS.text);
    SecondBlockIsLost(a, b, HASH_START, HASH_END, generated);
  }

  lemma TwoSettings(a: string, b: string)
    requires a == "a: 1" && b == "b: 2"
    ensures PlainSetting(a) && PlainSetting(b) && b != "" && b[0] == 'b'
  {
    KeyIs(a, "a", "1");
    KeyIs(b, "b", "2");
    OneLetter("a", "models");
    OneLetter("b", "models");
  }

  lemma OneLetter(a: string, b: string)
    requires |a| == 1 < |b|
    ensures a != b
  {
  }

  lemma NotInMarkers(b: string, a: string, s: string, e: string, models: string)
    requires b != "" && b[0] == 'b' && a == "a: 1" && s == HASH_START && e == HASH_END && models == "models:"
    ensures !Has(b, a) && !Has(b, s) && !Has(b, e) && !Has(b, models)
  {
    FirstNotIn(b, a);
    FirstNotIn(b, s);
    FirstNotIn(b, e);
    FirstNotIn(b, models);
  }

  lemma FirstNotIn(word: string, line: string)
    requires word != "" && word[0] !in line
    ensures !Has(word, line)
  {
    forall k | 0 <= k <= |line|
      ensures !(word <= line[k..])
    {
      assert k < |line| ==> line[k..][0] == line[k];
    }
  }
}
