// The blank lines of a merged TOML file: `trimBlankEdges`, the reduction of line breaks and the
// assembly in `mergeToml` of cli/src/config-files.ts.
module TomlSpacing {
  import opened Sequences
  import opened Text
  import opened TomlSyntax
  import T = TomlDocument
  import L = TomlLayout
  import I = TomlIdempotence
  import X = TomlText

  // An empty line right behind an empty line.
  predicate Repeats(lines: seq<Line>, i: nat)
    requires i < |lines|
  {
    i > 0 && lines[i] == T.EMPTY && lines[i - 1] == T.EMPTY
  }

  predicate Spaced(lines: seq<Line>) { forall i :: 0 <= i < |lines| ==> !Repeats(lines, i) }

  // The lines from i on that are no repeated empty lines.
  function Reduced(lines: seq<Line>, i: nat): seq<Line>
    requires i <= |lines|
    decreases |lines| - i
  {
    if i == |lines| then [] else (if Repeats(lines, i) then [] else [lines[i]]) + Reduced(lines, i + 1)
  }

  lemma CollapseStep(lines: seq<Line>, i: nat)
    requires i < |lines|
    ensures T.Collapse(lines[i..])
         == if i + 1 < |lines| && Repeats(lines, i + 1) then T.Collapse(lines[i + 1..])
            else [lines[i]] + T.Collapse(lines[i + 1..])
  {
    assert lines[i..][0] == lines[i] && lines[i..][1..] == lines[i + 1..];
    if i + 1 == |lines| {
      assert lines[i..] == [lines[i]];
    }
  }

  lemma OneLineLess(x: Line, c: seq<Line>, r: seq<Line>, repeated: bool, next: bool)
    requires (repeated ==> x == T.EMPTY) && (next ==> x == T.EMPTY)
    requires c == (if next then [T.EMPTY] else []) + r
    ensures (if next then c else [x] + c)
         == (if repeated then [T.EMPTY] else []) + ((if repeated then [] else [x]) + r)
  {
  }

  lemma {:induction false} CollapseFrom(lines: seq<Line>, i: nat)
    requires i <= |lines|
    ensures T.Collapse(lines[i..])
         == (if i < |lines| && Repeats(lines, i) then [T.EMPTY] else []) + Reduced(lines, i)
    decreases |lines| - i
  {
    if i < |lines| {
      CollapseFrom(lines, i + 1);
      CollapseStep(lines, i);
      OneLineLess(lines[i], T.Collapse(lines[i + 1..]), Reduced(lines, i + 1), Repeats(lines, i),
                  i + 1 < |lines| && Repeats(lines, i + 1));
    }
  }

  // Of a run of empty lines the first one stays, and every other line does.
  lemma CollapseExactly(lines: seq<Line>)
    ensures T.Collapse(lines) == Reduced(lines, 0)
  {
    CollapseFrom(lines, 0);
    assert lines[0..] == lines;
  }

  lemma {:induction false} CollapseSpaced(lines: seq<Line>)
    ensures Spaced(T.Collapse(lines))
  {
    if |lines| >= 2 {
      CollapseSpaced(lines[1..]);
      if !(lines[0] == T.EMPTY && lines[1] == T.EMPTY) {
        SpacedFirst(lines[0], T.Collapse(lines[1..]));
      }
    }
  }

  lemma SpacedFirst(first: Line, rest: seq<Line>)
    requires Spaced(rest) && (rest != [] && first == T.EMPTY ==> rest[0] != T.EMPTY)
    ensures Spaced([first] + rest)
  {
    var lines := [first] + rest;
    forall i | 0 <= i < |lines|
      ensures !Repeats(lines, i)
    {
      if i > 1 { assert !Repeats(rest, i - 1); }
    }
  }

  lemma {:induction false} SpacedReduced(lines: seq<Line>, i: nat)
    requires i <= |lines| && Spaced(lines)
    ensures Reduced(lines, i) == lines[i..]
    decreases |lines| - i
  {
    if i < |lines| {
      SpacedReduced(lines, i + 1);
      assert !Repeats(lines, i);
      assert lines[i..] == [lines[i]] + lines[i + 1..];
    }
  }

  // ---- One section ----

  // A section is its lines without blank edges and without repeated empty lines.
  lemma SectionMeans(before: seq<Line>, lines: seq<Line>, after: seq<Line>)
    requires T.AllBlank(before) && T.AllBlank(after) && T.Trimmed(lines)
    ensures T.Section(before + lines + after) == Reduced(lines, 0)
  {
    L.TrimPadded(before, lines, after);
    CollapseExactly(lines);
  }

  lemma WrappedSection(lines: seq<Line>)
    ensures T.Section(T.Wrap(lines)) == if lines == [] then [] else [T.START] + Reduced(lines, 0) + [T.END]
  {
    if lines != [] {
      var wrapped := T.Wrap(lines);
      assert [] + wrapped + [] == wrapped;
      L.TrimPadded([], wrapped, []);
      L.CollapseInner(T.START, lines, T.END);
      CollapseExactly(lines);
    }
  }

  lemma PlainSection(lines: seq<Line>)
    ensures T.Section(lines) == Reduced(T.Trim(lines), 0)
  {
    CollapseExactly(T.Trim(lines));
  }

  // ---- The merged file ----

  // Lines with one empty line after them, if there are any.
  function Followed(lines: seq<Line>): seq<Line> { if lines == [] then [] else lines + [T.EMPTY] }

  function Marked(lines: seq<Line>): seq<Line> { if lines == [] then [] else [T.START] + lines + [T.END] }

  lemma {:induction false} ReducedNotEmpty(lines: seq<Line>)
    ensures Reduced(lines, 0) == [] <==> lines == []
  {
    CollapseExactly(lines);
  }

  lemma NothingAssembled(head: seq<Line>, root: seq<Line>, tail: seq<Line>, tables: seq<Line>)
    requires T.Section(head) == [] && T.Section(T.Wrap(root)) == [] && T.Section(tail) == []
    requires T.Section(T.Wrap(tables)) == []
    ensures T.Assemble(head, root, tail, tables) == [T.EMPTY, T.EMPTY]
  {
    FilterNone(T.NotEmpty, [T.Section(head), T.Section(T.Wrap(root)), T.Section(tail), T.Section(T.Wrap(tables))]);
  }

  lemma AssembleMeans(head: seq<Line>, root: seq<Line>, tail: seq<Line>, tables: seq<Line>)
    ensures var h, t := Reduced(T.Trim(head), 0), Reduced(T.Trim(tail), 0);
            var r, g := Marked(Reduced(root, 0)), Marked(Reduced(tables, 0));
            T.Assemble(head, root, tail, tables)
            == if h == [] && r == [] && t == [] && g == [] then [T.EMPTY, T.EMPTY]
               else Followed(h) + Followed(r) + Followed(t) + Followed(g)
  {
    PlainSection(head);
    PlainSection(tail);
    WrappedSection(root);
    WrappedSection(tables);
    ReducedNotEmpty(root);
    ReducedNotEmpty(tables);
    var a, b := T.Section(head), T.Section(T.Wrap(root));
    var c, d := T.Section(tail), T.Section(T.Wrap(tables));
    if a == [] && b == [] && c == [] && d == [] {
      NothingAssembled(head, root, tail, tables);
    } else {
      FollowedNotEmpty(a, b, c, d);
      L.AssembleLayout(head, root, tail, tables);
    }
  }

  lemma FollowedNotEmpty(a: seq<Line>, b: seq<Line>, c: seq<Line>, d: seq<Line>)
    requires a != [] || b != [] || c != [] || d != []
    ensures L.Pad(a) + L.Pad(b) + L.Pad(c) + L.Pad(d) != []
  {
  }

  // A file that is not blank becomes: the kept root lines, the generated root lines between
  // markers, the kept tables, the generated tables between markers; each without blank edges and
  // repeated empty lines, and followed by one empty line.
  lemma MergedLayout(existing: seq<Line>, generated: seq<Line>)
    requires !T.AllBlank(existing)
    ensures var plan := T.SplitSections(generated);
            var h, t := Reduced(T.Trim(T.KeptRoot(existing, plan)), 0),
                        Reduced(T.Trim(Flatten(T.KeptBlocks(existing, plan))), 0);
            var r, g := Marked(Reduced(plan.root, 0)), Marked(Reduced(plan.tables, 0));
            T.Merge(existing, generated)
            == if h == [] && r == [] && t == [] && g == [] then [T.EMPTY, T.EMPTY]
               else Followed(h) + Followed(r) + Followed(t) + Followed(g)
  {
    var plan := T.SplitSections(generated);
    AssembleMeans(T.KeptRoot(existing, plan), plan.root, Flatten(T.KeptBlocks(existing, plan)), plan.tables);
  }

  // ---- No three line breaks in a row ----

  // Lines that neither begin with an empty line nor hold repeated ones, and end in an empty one.
  predicate Neat(lines: seq<Line>) {
    Spaced(lines) && (lines != [] ==> lines[0] != T.EMPTY && lines[|lines| - 1] == T.EMPTY)
  }

  lemma NeatAppend(a: seq<Line>, b: seq<Line>)
    requires Neat(a) && Neat(b)
    ensures Neat(a + b)
  {
    var lines := a + b;
    forall i | 0 <= i < |lines|
      ensures !Repeats(lines, i)
    {
      if i < |a| {
        assert !Repeats(a, i);
      } else if i > |a| {
        assert !Repeats(b, i - |a|);
      }
    }
  }

  lemma NeatSection(lines: seq<Line>)
    ensures Neat(L.Pad(T.Section(lines)))
  {
    var section := T.Section(lines);
    L.SectionTrimmed(lines);
    CollapseSpaced(T.Trim(lines));
    forall i | 0 <= i < |L.Pad(section)|
      ensures !Repeats(L.Pad(section), i)
    {
      if i < |section| { assert !Repeats(section, i); }
    }
  }

  lemma MergedSpaced(existing: seq<Line>, generated: seq<Line>)
    requires !T.AllBlank(existing)
    ensures T.Merge(existing, generated) == [T.EMPTY, T.EMPTY] || Spaced(T.Merge(existing, generated))
  {
    var plan := T.SplitSections(generated);
    var head, tail := T.KeptRoot(existing, plan), Flatten(T.KeptBlocks(existing, plan));
    var root, tables := plan.root, plan.tables;
    var a, b := L.Pad(T.Section(head)), L.Pad(T.Section(T.Wrap(root)));
    var c, d := L.Pad(T.Section(tail)), L.Pad(T.Section(T.Wrap(tables)));
    NeatSection(head);
    NeatSection(T.Wrap(root));
    NeatSection(tail);
    NeatSection(T.Wrap(tables));
    if a + b + c + d == [] {
      assert a == [] && b == [] && c == [] && d == [];
      NothingAssembled(head, root, tail, tables);
    } else {
      L.AssembleLayout(head, root, tail, tables);
      NeatAppend(a, b);
      NeatAppend(a + b, c);
      NeatAppend(a + b + c, d);
    }
  }

  lemma NoTwoEmpty(text: string)
    requires Lines(text) == [T.EMPTY, T.EMPTY] || Spaced(Lines(text))
    ensures !ThreeBreaks(text)
  {
    if ThreeBreaks(text) {
      var parts := Split(text, '\n');
      BreaksAroundEmpty(text);
      var k :| 0 <= k < |parts| - 1 && parts[k] == "" && parts[k + 1] == "";
      assert Classify("") == T.EMPTY;
      assert Repeats(Lines(text), k + 1);
      X.OneBreak(text);
    }
  }

  // A merged text never holds three line breaks in a row.
  lemma NoThreeBreaks(existing: string, generated: string)
    requires TrimStart(existing) != ""
    ensures !ThreeBreaks(X.MergeText(existing, generated))
  {
    X.BlankText(existing);
    X.LinesOfMerge(existing, generated);
    MergedSpaced(Lines(existing), Lines(generated));
    NoTwoEmpty(X.MergeText(existing, generated));
  }

  // ---- What stands there verbatim ----

  ghost predicate StandsIn(part: seq<Line>, lines: seq<Line>) {
    exists before, after :: lines == before + part + after
  }

  lemma FourStand(a: seq<Line>, b: seq<Line>, c: seq<Line>, d: seq<Line>)
    ensures var lines := a + b + c + d;
            StandsIn(a, lines) && StandsIn(b, lines) && StandsIn(c, lines) && StandsIn(d, lines)
  {
    var lines := a + b + c + d;
    assert lines == [] + a + (b + c + d);
    assert lines == a + b + (c + d);
    assert lines == (a + b) + c + d;
    assert lines == (a + b + c) + d + [];
  }

  lemma StandsWithin(part: seq<Line>, whole: seq<Line>, lines: seq<Line>)
    requires StandsIn(part, whole) && StandsIn(whole, lines)
    ensures StandsIn(part, lines)
  {
    var a, b :| whole == a + part + b;
    var c, d :| lines == c + whole + d;
    assert lines == (c + a) + part + (b + d);
  }

  lemma PartOfFollowed(lines: seq<Line>)
    requires lines != []
    ensures StandsIn(lines, Followed(lines)) && StandsIn(lines, Followed(Marked(lines)))
  {
    assert Followed(lines) == [] + lines + [T.EMPTY];
    assert Followed(Marked(lines)) == [T.START] + lines + [T.END, T.EMPTY];
  }

  lemma RegionStays(lines: seq<Line>)
    requires T.Trimmed(lines) && Spaced(lines) && lines != []
    ensures StandsIn(lines, Followed(Reduced(T.Trim(lines), 0))) && StandsIn(lines, Followed(Marked(Reduced(lines, 0))))
  {
    assert [] + lines + [] == lines;
    L.TrimPadded([], lines, []);
    SpacedReduced(lines, 0);
    assert lines[0..] == lines;
    PartOfFollowed(lines);
  }

  lemma EmptyStands(part: seq<Line>, lines: seq<Line>)
    requires part == []
    ensures StandsIn(part, lines)
  {
    assert lines == [] + part + lines;
  }

  lemma StandsInFour(part: seq<Line>, a: seq<Line>, b: seq<Line>, c: seq<Line>, d: seq<Line>)
    requires StandsIn(part, a) || StandsIn(part, b) || StandsIn(part, c) || StandsIn(part, d)
    ensures StandsIn(part, a + b + c + d)
  {
    FourStand(a, b, c, d);
    if StandsIn(part, a) {
      StandsWithin(part, a, a + b + c + d);
    } else if StandsIn(part, b) {
      StandsWithin(part, b, a + b + c + d);
    } else if StandsIn(part, c) {
      StandsWithin(part, c, a + b + c + d);
    } else {
      StandsWithin(part, d, a + b + c + d);
    }
  }

  lemma RegionInFour(head: seq<Line>, root: seq<Line>, tail: seq<Line>, tables: seq<Line>, region: seq<Line>)
    requires T.Trimmed(region) && Spaced(region) && region != [] && region in [head, root, tail, tables]
    ensures || StandsIn(region, Followed(Reduced(T.Trim(head), 0)))
            || StandsIn(region, Followed(Marked(Reduced(root, 0))))
            || StandsIn(region, Followed(Reduced(T.Trim(tail), 0)))
            || StandsIn(region, Followed(Marked(Reduced(tables, 0))))
  {
    RegionStays(region);
  }

  lemma RegionAssembled(head: seq<Line>, root: seq<Line>, tail: seq<Line>, tables: seq<Line>, region: seq<Line>)
    requires T.Trimmed(region) && Spaced(region) && region != [] && region in [head, root, tail, tables]
    ensures StandsIn(region, T.Assemble(head, root, tail, tables))
  {
    var h, t := Reduced(T.Trim(head), 0), Reduced(T.Trim(tail), 0);
    var r, g := Marked(Reduced(root, 0)), Marked(Reduced(tables, 0));
    RegionInFour(head, root, tail, tables, region);
    StandsInFour(region, Followed(h), Followed(r), Followed(t), Followed(g));
    AssembleMeans(head, root, tail, tables);
  }

  // Kept root lines, generated root lines, kept tables or generated tables without blank edges
  // and repeated empty lines stand in the merged file as they are, blank lines included.
  lemma RegionStands(existing: seq<Line>, generated: seq<Line>, region: seq<Line>)
    requires !T.AllBlank(existing) && T.Trimmed(region) && Spaced(region)
    requires var plan := T.SplitSections(generated);
             region in [T.KeptRoot(existing, plan), plan.root, Flatten(T.KeptBlocks(existing, plan)), plan.tables]
    ensures StandsIn(region, T.Merge(existing, generated))
  {
    var plan := T.SplitSections(generated);
    if region == [] {
      EmptyStands(region, T.Merge(existing, generated));
    } else {
      RegionAssembled(T.KeptRoot(existing, plan), plan.root, Flatten(T.KeptBlocks(existing, plan)), plan.tables,
                      region);
    }
  }
}
