// The TOML merge on texts.
module TomlText {
  import opened Sequences
  import opened Text
  import opened TomlSyntax
  import T = TomlDocument
  import TomlLayout
  import TomlIdempotence

  // The merge of two texts: cli/src/config-files.ts, `mergeToml`.
  function MergeText(existing: string, generated: string): string {
    if TrimStart(existing) == "" then generated
    else
      BlankText(existing);
      Unlines(T.Merge(Lines(existing), Lines(generated)))
  }

  lemma BlankPart(text: string, i: nat)
    requires i < |Split(text, '\n')| && TrimStart(text) == ""
    ensures TrimStart(Split(text, '\n')[i]) == ""
  {
    var part := Split(text, '\n')[i];
    TrimStartBlank(text);
    forall c | c in part
      ensures IsSpace(c)
    {
      SplitChars(text, '\n', c);
    }
    TrimStartBlank(part);
  }

  lemma BlankParts(text: string)
    requires forall i :: 0 <= i < |Split(text, '\n')| ==> TrimStart(Split(text, '\n')[i]) == ""
    ensures TrimStart(text) == ""
  {
    forall c | c in text && c != '\n'
      ensures IsSpace(c)
    {
      SplitChars(text, '\n', c);
      var i :| 0 <= i < |Split(text, '\n')| && c in Split(text, '\n')[i];
      TrimStartBlank(Split(text, '\n')[i]);
    }
    assert IsSpace('\n');
    TrimStartBlank(text);
  }

  lemma BlankClassified(s: string)
    ensures Classify(s).Blank? <==> TrimStart(s) == ""
  {
  }

  lemma BlankText(text: string)
    ensures TrimStart(text) == "" <==> T.AllBlank(Lines(text))
  {
    var parts, lines := Split(text, '\n'), Lines(text);
    forall i | 0 <= i < |parts|
      ensures lines[i].Blank? <==> TrimStart(parts[i]) == ""
    {
      BlankClassified(parts[i]);
    }
    if TrimStart(text) == "" {
      forall i | 0 <= i < |lines|
        ensures lines[i].Blank?
      {
        BlankPart(text, i);
      }
    } else if T.AllBlank(lines) {
      assert forall i :: 0 <= i < |lines| ==> lines[i] in lines;
      BlankParts(text);
    }
  }

  lemma NoIndent(s: string)
    requires s != "" && s[0] == '#'
    ensures TrimStart(s) == s && Run(s, IsIndent) == 0 && s[0..] == s && s[..0] == ""
  {
  }

  lemma ProperMarker(s: string)
    requires TrimStart(s) != "" && Run(s, IsIndent) == 0
    requires s == START_TEXT || s == END_TEXT
    ensures Classify(s) == T.Marker("", s == START_TEXT)
  {
    assert s[0..] == s && s[..0] == "";
  }

  lemma NoBreakInMarkers()
    ensures '\n' !in START_TEXT && '\n' !in END_TEXT && START_TEXT != END_TEXT
  {
    assert |START_TEXT| == 18 && |END_TEXT| == 16;
  }

  lemma ProperConstants()
    ensures Proper(T.EMPTY) && Proper(T.START) && Proper(T.END)
  {
    var s, e := START_TEXT, END_TEXT;
    NoIndent(s);
    NoIndent(e);
    NoBreakInMarkers();
    ProperMarker(s);
    ProperMarker(e);
    assert Render(T.START) == "" + s == s && Render(T.END) == "" + e == e;
  }

  // Lines from one of two places.
  predicate From(lines: seq<Line>, source: seq<Line>) {
    forall l :: l in lines ==> l in source || l in [T.EMPTY, T.START, T.END]
  }

  lemma PaddedFrom(lines: seq<Line>)
    ensures From(TomlLayout.Pad(T.Section(lines)), lines) && From(TomlLayout.Pad(T.Section(T.Wrap(lines))), lines)
  {
    TomlIdempotence.SectionMembers(lines);
    TomlIdempotence.SectionMembers(T.Wrap(lines));
  }

  lemma PaddedEmpty(section: seq<Line>)
    ensures TomlLayout.Pad(section) == [] <==> section == []
  {
  }

  lemma FourEmpty(head: seq<Line>, root: seq<Line>, tail: seq<Line>, tables: seq<Line>)
    requires T.Section(head) == [] && T.Section(T.Wrap(root)) == [] && T.Section(tail) == []
    requires T.Section(T.Wrap(tables)) == []
    ensures forall l :: l in T.Assemble(head, root, tail, tables) ==> l == T.EMPTY
  {
    FilterNone(T.NotEmpty, [T.Section(head), T.Section(T.Wrap(root)), T.Section(tail), T.Section(T.Wrap(tables))]);
  }

  lemma AssembleMembers(head: seq<Line>, root: seq<Line>, tail: seq<Line>, tables: seq<Line>)
    ensures forall l :: l in T.Assemble(head, root, tail, tables) ==>
              l in head || l in root || l in tail || l in tables || l in [T.EMPTY, T.START, T.END]
  {
    var a, b := TomlLayout.Pad(T.Section(head)), TomlLayout.Pad(T.Section(T.Wrap(root)));
    var c, d := TomlLayout.Pad(T.Section(tail)), TomlLayout.Pad(T.Section(T.Wrap(tables)));
    if a + b + c + d == [] {
      assert a == [] && b == [] && c == [] && d == [];
      PaddedEmpty(T.Section(head));
      PaddedEmpty(T.Section(T.Wrap(root)));
      PaddedEmpty(T.Section(tail));
      PaddedEmpty(T.Section(T.Wrap(tables)));
      FourEmpty(head, root, tail, tables);
    } else {
      TomlLayout.AssembleLayout(head, root, tail, tables);
      PaddedFrom(head);
      PaddedFrom(root);
      PaddedFrom(tail);
      PaddedFrom(tables);
    }
  }

  lemma MergeProper(existing: seq<Line>, generated: seq<Line>)
    requires AllProper(existing) && AllProper(generated) && !T.AllBlank(existing)
    ensures AllProper(T.Merge(existing, generated))
  {
    var plan := T.SplitSections(generated);
    ProperConstants();
    AssembleMembers(T.KeptRoot(existing, plan), plan.root, Flatten(T.KeptBlocks(existing, plan)), plan.tables);
    TomlIdempotence.KeptFrom(existing, plan);
    TomlIdempotence.PlanFrom(generated);
  }

  lemma LinesOfMerge(existing: string, generated: string)
    requires TrimStart(existing) != ""
    ensures Lines(MergeText(existing, generated)) == T.Merge(Lines(existing), Lines(generated))
  {
    BlankText(existing);
    ProperLines(existing);
    ProperLines(generated);
    MergeProper(Lines(existing), Lines(generated));
    LinesOfUnlines(T.Merge(Lines(existing), Lines(generated)));
  }

  // A line of content: neither white space nor a marker.
  predicate HasContent(text: string) { TomlIdempotence.HasContent(Lines(text)) }

  // Before the first header every generated line is blank, a marker, or sets a key.
  predicate RootSetsKeysOnly(generated: string) { TomlIdempotence.RootSetsKeysOnly(Lines(generated)) }

  // The merge of the same text again gives the same text, for every existing text that is
  // not white space, exactly when the generated root region sets keys only; with nothing
  // generated, exactly when the existing text has content or the generated text is one
  // line break.
  lemma MergeTextIdempotence(existing: string, generated: string)
    requires TrimStart(existing) != ""
    ensures MergeText(MergeText(existing, generated), generated) == MergeText(existing, generated)
       <==> if HasContent(generated) then RootSetsKeysOnly(generated)
            else HasContent(existing) || generated == "\n"
  {
    var e, g := Lines(existing), Lines(generated);
    var once := MergeText(existing, generated);
    BlankText(existing);
    BlankText(once);
    LinesOfMerge(existing, generated);
    ProperLines(generated);
    ProperLines(once);
    TomlIdempotence.MergeIdempotence(e, g);
    assert T.Merge(T.Merge(e, g), g) == T.Merge(e, g) <==> MergeText(once, generated) == once by {
      if TrimStart(once) != "" {
        LinesOfMerge(once, generated);
      }
    }
    OneBreak(generated);
  }

  // The first setup, on texts: a blank file takes the generated text as it is, and merging again
  // changes nothing exactly when that text is blank, or sets root keys only and is laid out as
  // the merge lays it out.
  lemma FreshTextIdempotence(existing: string, generated: string)
    requires TrimStart(existing) == ""
    ensures MergeText(existing, generated) == generated
    ensures var plan := T.SplitSections(Lines(generated));
            MergeText(generated, generated) == generated
            <==> TrimStart(generated) == ""
                 || (RootSetsKeysOnly(generated) && Lines(generated) == T.Assemble([], plan.root, [], plan.tables))
  {
    var g := Lines(generated);
    BlankText(generated);
    ProperLines(generated);
    TomlIdempotence.FreshIdempotence([], g);
    if TrimStart(generated) != "" {
      LinesOfMerge(generated, generated);
      ProperLines(MergeText(generated, generated));
    }
  }

  lemma OneBreak(text: string)
    ensures Lines(text) == [T.EMPTY, T.EMPTY] <==> text == "\n"
  {
    ProperLines(text);
    ProperLines("\n");
    assert Split("\n", '\n') == ["", ""];
    assert Lines("\n") == [T.EMPTY, T.EMPTY];
  }
}
