// Merging the same generated document again: when it changes nothing.
module TomlIdempotence {
  import opened Sequences
  import opened TomlDocument
  import opened TomlLayout
  import opened TomlBlocks
  import S = TomlSyntax

  lemma {:induction false} CollapseMembers(lines: seq<Line>)
    ensures forall l :: l in Collapse(lines) ==> l in lines
  {
    if |lines| >= 2 { CollapseMembers(lines[1..]); }
  }

  lemma SectionMembers(lines: seq<Line>)
    ensures forall l :: l in Trim(lines) ==> l in lines
    ensures forall l :: l in Section(lines) ==> l in lines
  {
    var before, after := TrimSplit(lines);
    CollapseMembers(Trim(lines));
  }

  // A document that starts with a header keeps it when laid out as a section.
  lemma SectionOfTables(lines: seq<Line>)
    requires lines != [] && IsHeader(lines[0])
    ensures Trim(lines) != [] && Trim(lines)[0] == lines[0]
    ensures Section(lines) != [] && Section(lines)[0] == lines[0]
  {
    var before, after := TrimSplit(lines);
    var rest := Trim(lines) + after;
    assert lines == before + rest;
    assert (before + rest)[0] == lines[0];
    assert rest[0] == lines[0];
  }

  lemma StripShape(lines: seq<Line>)
    ensures NoMarker(Strip(lines))
  {
    FilterMembers(IsContent, lines);
  }

  lemma PlanShape(generated: seq<Line>)
    ensures var plan := SplitSections(generated);
            && Trimmed(plan.root) && NoHeader(plan.root) && NoMarker(plan.root)
            && Trimmed(plan.tables) && NoMarker(plan.tables)
            && (plan.tables != [] ==> IsHeader(plan.tables[0]))
  {
    var lines := Strip(generated);
    StripShape(generated);
    var i := HeaderIndex(lines);
    var b1, a1 := TrimSplit(lines[..i]);
    var b2, a2 := TrimSplit(lines[i..]);
    SectionMembers(lines[..i]);
    SectionMembers(lines[i..]);
    assert forall l :: l in lines[..i] || l in lines[i..] ==> l in lines;
    if i < |lines| {
      SectionOfTables(lines[i..]);
    }
  }

  lemma PlanFrom(generated: seq<Line>)
    ensures var plan := SplitSections(generated);
            forall l :: l in plan.root || l in plan.tables ==> l in generated
  {
    var lines := Strip(generated);
    FilterMembers(IsContent, generated);
    var i := HeaderIndex(lines);
    SectionMembers(lines[..i]);
    SectionMembers(lines[i..]);
  }

  lemma KeptFrom(existing: seq<Line>, plan: Plan)
    ensures forall l :: l in KeptRoot(existing, plan) || l in Flatten(KeptBlocks(existing, plan)) ==> l in existing
  {
    var mine := Strip(existing);
    FilterMembers(IsContent, existing);
    BlocksShape(mine);
    var blocks := Blocks(mine);
    RootSurvivorsMembers(blocks[0], RootKeys(plan.root));
    assert mine == blocks[0] + Flatten(blocks[1..]);
    KeptMembers(blocks[1..], None, TableNames(plan.tables), EntryKeys(TableBlocks(plan.tables)));
  }

  // Trimming keeps the lines that are not blank.
  lemma TrimKeeps(lines: seq<Line>, i: nat)
    requires i < |lines| && !lines[i].Blank?
    ensures lines[i] in Trim(lines)
  {
    var before, after := TrimSplit(lines);
    assert lines[i] in lines;
  }

  lemma KeptShape(existing: seq<Line>, plan: Plan)
    ensures NoHeader(KeptRoot(existing, plan)) && NoMarker(KeptRoot(existing, plan))
    ensures NoMarker(Flatten(KeptBlocks(existing, plan)))
  {
    var mine := Strip(existing);
    StripShape(existing);
    BlocksShape(mine);
    var blocks := Blocks(mine);
    assert mine == blocks[0] + Flatten(blocks[1..]);
    RootSurvivorsMembers(blocks[0], RootKeys(plan.root));
    KeptMembers(blocks[1..], None, TableNames(plan.tables), EntryKeys(TableBlocks(plan.tables)));
  }

  lemma {:induction false} KeptMembers(blocks: seq<Block>, dropped: Option<string>, names: set<string>,
          entries: set<string>)
    requires AllBlocks(blocks)
    ensures forall l :: l in Flatten(Kept(blocks, dropped, names, entries)) ==> l in Flatten(blocks)
  {
    if blocks != [] {
      var b := blocks[0];
      var d := if dropped.Some? && Under(b[0].name, dropped.value) then dropped
               else if !TableHit(b, names) && EntryHit(b, entries) then Some(b[0].name) else None;
      KeptMembers(blocks[1..], d, names, entries);
    }
  }

  // The generated lines between their markers, laid out.
  lemma WrapSection(lines: seq<Line>)
    requires Trimmed(lines)
    ensures Section(lines) == Collapse(lines)
    ensures Section(Wrap(lines)) == Wrap(Section(lines))
  {
    TrimPadded([], lines, []);
    assert [] + lines + [] == lines;
    var wrapped := Wrap(lines);
    TrimPadded([], wrapped, []);
    assert [] + wrapped + [] == wrapped;
    if lines != [] {
      CollapseInner(START, lines, END);
    }
  }

  lemma StripMarkers(lines: seq<Line>, rest: seq<Line>)
    ensures Strip([START] + lines) == Strip(lines) && Strip([END] + rest) == Strip(rest)
  {
    FilterAppend(IsContent, [START], lines);
    FilterAppend(IsContent, [END], rest);
    FilterNone(IsContent, [START]);
    FilterNone(IsContent, [END]);
  }

  lemma StripWrapped(lines: seq<Line>)
    requires NoMarker(lines)
    ensures Strip(Pad(Wrap(lines))) == Pad(lines)
  {
    if lines != [] {
      assert Pad(Wrap(lines)) == ([START] + lines) + ([END] + [EMPTY]);
      FilterAppend(IsContent, [START] + lines, [END] + [EMPTY]);
      StripMarkers(lines, [EMPTY]);
      FilterAll(IsContent, lines);
      FilterAll(IsContent, [EMPTY]);
    }
  }

  lemma StripPad(lines: seq<Line>)
    requires NoMarker(lines)
    ensures Strip(Pad(Section(lines))) == Pad(Section(lines))
  {
    SectionMembers(lines);
    FilterAll(IsContent, Pad(Section(lines)));
  }

  // The merged file without its markers.
  lemma StripAssembled(head: seq<Line>, root: seq<Line>, tail: seq<Line>, tables: seq<Line>)
    requires NoMarker(head) && NoMarker(tail)
    requires Trimmed(root) && NoMarker(root) && Trimmed(tables) && NoMarker(tables)
    requires !AllBlank(Assemble(head, root, tail, tables))
    ensures Strip(Assemble(head, root, tail, tables))
         == (Pad(Section(head)) + Pad(Section(root))) + (Pad(Section(tail)) + Pad(Section(tables)))
  {
    var a, b, c, d := Pad(Section(head)), Pad(Section(Wrap(root))), Pad(Section(tail)), Pad(Section(Wrap(tables)));
    InkyLayout(head, root, tail, tables);
    AssembleLayout(head, root, tail, tables);
    StripPad(head);
    StripPad(tail);
    WrapSection(root);
    WrapSection(tables);
    SectionMembers(root);
    SectionMembers(tables);
    StripWrapped(Section(root));
    StripWrapped(Section(tables));
    StripFour(a, b, c, d);
  }

  lemma StripFour(a: seq<Line>, b: seq<Line>, c: seq<Line>, d: seq<Line>)
    ensures Strip(a + b + c + d) == (Strip(a) + Strip(b)) + (Strip(c) + Strip(d))
  {
    FilterAppend(IsContent, a + b + c, d);
    FilterAppend(IsContent, a + b, c);
    FilterAppend(IsContent, a, b);
  }

  lemma InkyLayout(head: seq<Line>, root: seq<Line>, tail: seq<Line>, tables: seq<Line>)
    requires !AllBlank(Assemble(head, root, tail, tables))
    ensures Pad(Section(head)) + Pad(Section(Wrap(root))) + Pad(Section(tail)) + Pad(Section(Wrap(tables))) != []
  {
    if Section(head) == [] && Section(Wrap(root)) == [] && Section(tail) == [] && Section(Wrap(tables)) == [] {
      FilterNone(NotEmpty, [Section(head), Section(Wrap(root)), Section(tail), Section(Wrap(tables))]);
    }
  }

  // Documents with the same ink have the same blocks up to blank lines, so the same
  // blocks are replaced in both.
  lemma SameInkSameHits(a: seq<Line>, b: seq<Line>, names: set<string>, entries: set<string>)
    requires Ink(a) == Ink(b)
    ensures |TableBlocks(a)| == |TableBlocks(b)|
    ensures forall i :: 0 <= i < |TableBlocks(a)| ==>
              Hit(TableBlocks(a)[i], names, entries) == Hit(TableBlocks(b)[i], names, entries)
  {
    BlocksOfInk(a);
    BlocksOfInk(b);
    assert |Blocks(a)| == |InkEach(Blocks(a))| == |InkEach(Blocks(b))| == |Blocks(b)|;
    forall i | 0 <= i < |TableBlocks(a)|
      ensures Hit(TableBlocks(a)[i], names, entries) == Hit(TableBlocks(b)[i], names, entries)
    {
      var x, y := TableBlocks(a)[i], TableBlocks(b)[i];
      assert Ink(x) == InkEach(Blocks(a))[i + 1] == InkEach(Blocks(b))[i + 1] == Ink(y);
      HitOfInk(x, names, entries);
      HitOfInk(y, names, entries);
    }
  }

  lemma InkOfPad(lines: seq<Line>)
    ensures Ink(Pad(Section(lines))) == Ink(lines)
  {
    InkOfSection(lines);
    InkAppend(Section(lines), [EMPTY]);
    InkOfBlank([EMPTY]);
  }

  lemma PadOfTables(lines: seq<Line>)
    requires lines != [] ==> IsHeader(lines[0])
    ensures var p := Pad(Section(lines));
            (p != [] ==> IsHeader(p[0])) && Blocks(p)[0] == [] && Flatten(TableBlocks(p)) == p
  {
    var p := Pad(Section(lines));
    if lines != [] {
      SectionOfTables(lines);
      StartsWithTable(p);
    } else {
      assert p == [] && Blocks(p) == [[]];
    }
    BlocksShape(p);
    assert Blocks(p) == [Blocks(p)[0]] + TableBlocks(p);
  }

  lemma {:induction false} RootSurvivorsAppend(a: seq<Line>, b: seq<Line>, keys: set<string>)
    ensures RootSurvivors(a + b, keys) == RootSurvivors(a, keys) + RootSurvivors(b, keys)
  {
    if a == [] {
      assert a + b == b;
    } else {
      RootSurvivorsAppend(a[1..], b, keys);
      assert (a + b)[1..] == a[1..] + b;
      var first := if SetsRootKey(a[0], keys) then [] else [a[0]];
      Associate(first, RootSurvivors(a[1..], keys), RootSurvivors(b, keys));
    }
  }

  lemma {:induction false} RootSurvivorsMembers(root: seq<Line>, keys: set<string>)
    ensures forall l :: l in RootSurvivors(root, keys) <==> l in root && !SetsRootKey(l, keys)
  {
    if root != [] {
      RootSurvivorsMembers(root[1..], keys);
      assert root == [root[0]] + root[1..];
    }
  }

  lemma {:induction false} RootSurvivorsAll(a: seq<Line>, keys: set<string>)
    requires forall l :: l in a ==> !SetsRootKey(l, keys)
    ensures RootSurvivors(a, keys) == a
  {
    if a != [] {
      RootSurvivorsAll(a[1..], keys);
    }
  }

  lemma LaidOutNoHit(kept: seq<Block>, names: set<string>, entries: set<string>)
    requires AllBlocks(kept) && NoHit(kept, names, entries)
    ensures NoHit(TableBlocks(Pad(Section(Flatten(kept)))), names, entries)
  {
    var tail := Flatten(kept);
    var p := Pad(Section(tail));
    BlocksOfFlatten(kept);
    InkOfPad(tail);
    SameInkSameHits(p, tail, names, entries);
    assert TableBlocks(tail) == kept;
  }

  lemma LaidOutAllHit(tables: seq<Line>)
    ensures AllHit(TableBlocks(Pad(Section(tables))), TableNames(tables), EntryKeys(TableBlocks(tables)))
  {
    InkOfPad(tables);
    SameInkSameHits(Pad(Section(tables)), tables, TableNames(tables), EntryKeys(TableBlocks(tables)));
    GeneratedAllHit(tables);
  }

  // Of the merged file the blocks kept before are kept again, and the generated blocks
  // go.
  lemma KeptAgain(kept: seq<Block>, plan: Plan, p: seq<Line>, q: seq<Line>)
    requires AllBlocks(kept)
    requires NoHit(kept, TableNames(plan.tables), EntryKeys(TableBlocks(plan.tables)))
    requires plan.tables != [] ==> IsHeader(plan.tables[0])
    requires p == Pad(Section(Flatten(kept))) && q == Pad(Section(plan.tables))
    ensures p + q != [] ==> IsHeader((p + q)[0])
    ensures Kept(TableBlocks(p + q), None, TableNames(plan.tables), EntryKeys(TableBlocks(plan.tables)))
            == TableBlocks(p)
    ensures Flatten(TableBlocks(p)) == p
  {
    var names, entries := TableNames(plan.tables), EntryKeys(TableBlocks(plan.tables));
    BlocksOfFlatten(kept);
    PadOfTables(Flatten(kept));
    PadOfTables(plan.tables);
    LaidOutNoHit(kept, names, entries);
    LaidOutAllHit(plan.tables);
    TableBlocksAppend(p, q);
    KeptOfTwo(TableBlocks(p), TableBlocks(q), names, entries);
  }

  lemma TableBlocksAppend(p: seq<Line>, q: seq<Line>)
    requires q != [] ==> IsHeader(q[0])
    ensures TableBlocks(p + q) == TableBlocks(p) + TableBlocks(q)
  {
    BlocksAppend(p, q);
  }

  lemma KeptOfTwo(a: seq<Block>, b: seq<Block>, names: set<string>, entries: set<string>)
    requires AllBlocks(a) && AllBlocks(b) && AllBlocks(a + b)
    requires NoHit(a, names, entries) && AllHit(b, names, entries)
    ensures Kept(a + b, None, names, entries) == a
  {
    KeptBefore(a, b, names, entries);
    KeptNothing(b, None, names, entries);
  }

  // A root region followed by tables.
  lemma TwoRegions(root: seq<Line>, tables: seq<Line>)
    requires NoHeader(root) && (tables != [] ==> IsHeader(tables[0]))
    ensures Blocks(root + tables)[0] == root
    ensures TableBlocks(root + tables) == TableBlocks(tables)
  {
    BlocksOfRoot(root);
    BlocksAppend(root, tables);
  }

  lemma RootAgain(head: seq<Line>, root: seq<Line>)
    requires NoHeader(head) && NoHeader(root)
    requires forall l :: l in head ==> !SetsRootKey(l, RootKeys(root))
    ensures NoHeader(Pad(Section(head)) + Pad(Section(root)))
    ensures RootSurvivors(Pad(Section(head)) + Pad(Section(root)), RootKeys(root))
         == Pad(Section(head)) + RootSurvivors(Pad(Section(root)), RootKeys(root))
  {
    SectionMembers(head);
    SectionMembers(root);
    RootSurvivorsAppend(Pad(Section(head)), Pad(Section(root)), RootKeys(root));
    RootSurvivorsAll(Pad(Section(head)), RootKeys(root));
  }

  // The second merge, in terms of the sections of the first.
  lemma MergeAgain(existing: seq<Line>, generated: seq<Line>)
    requires !AllBlank(existing) && !AllBlank(Merge(existing, generated))
    ensures var plan := SplitSections(generated);
            var head, tail := KeptRoot(existing, plan), Flatten(KeptBlocks(existing, plan));
            Merge(Merge(existing, generated), generated) == Assemble(
              Pad(Section(head)) + RootSurvivors(Pad(Section(plan.root)), RootKeys(plan.root)), plan.root,
              Pad(Section(tail)), plan.tables)
  {
    var plan := SplitSections(generated);
    var kept := KeptBlocks(existing, plan);
    var head, tail := KeptRoot(existing, plan), Flatten(kept);
    PlanShape(generated);
    KeptShape(existing, plan);
    StripAssembled(head, plan.root, tail, plan.tables);
    RootSurvivorsMembers(Blocks(Strip(existing))[0], RootKeys(plan.root));
    RootAgain(head, plan.root);
    KeptAgain(kept, plan, Pad(Section(tail)), Pad(Section(plan.tables)));
    TwoRegions(Pad(Section(head)) + Pad(Section(plan.root)), Pad(Section(tail)) + Pad(Section(plan.tables)));
  }

  // Every line of the generated root region is blank or sets a key.
  predicate RootSetsKeysOnly(generated: seq<Line>) {
    forall l :: l in SplitSections(generated).root ==> l.Blank? || (l.Text? && l.rootKey.Some?)
  }

  // The generated document has a line that is neither blank nor a marker.
  predicate HasContent(generated: seq<Line>) {
    exists l :: l in generated && !l.Blank? && !l.Marker?
  }

  lemma AllBlankIsInkless(lines: seq<Line>)
    ensures AllBlank(lines) <==> Ink(lines) == []
  {
    FilterMembers(IsInk, lines);
    if AllBlank(lines) {
      FilterNone(IsInk, lines);
    } else {
      var l :| l in lines && !l.Blank?;
      assert l in Ink(lines);
    }
  }

  // Apart from blank lines the merged file is its four sections in order.
  lemma InkOfAssemble(head: seq<Line>, root: seq<Line>, tail: seq<Line>, tables: seq<Line>)
    ensures Ink(Assemble(head, root, tail, tables)) == Ink(head) + Ink(Wrap(root)) + Ink(tail) + Ink(Wrap(tables))
  {
    var a, b, c, d := Section(head), Section(Wrap(root)), Section(tail), Section(Wrap(tables));
    InkOfPad(head);
    InkOfPad(Wrap(root));
    InkOfPad(tail);
    InkOfPad(Wrap(tables));
    if Pad(a) + Pad(b) + Pad(c) + Pad(d) == [] {
      FilterNone(NotEmpty, [a, b, c, d]);
      InkOfBlank([EMPTY] + [EMPTY]);
    } else {
      AssembleLayout(head, root, tail, tables);
      InkAppend(Pad(a) + Pad(b) + Pad(c), Pad(d));
      InkAppend(Pad(a) + Pad(b), Pad(c));
      InkAppend(Pad(a), Pad(b));
    }
  }

  // A root region that only sets keys leaves blank lines when those keys are removed.
  lemma OnlyBlanksLeft(generated: seq<Line>)
    requires RootSetsKeysOnly(generated)
    ensures var root := SplitSections(generated).root;
            AllBlank(RootSurvivors(Pad(Section(root)), RootKeys(root)))
  {
    var root := SplitSections(generated).root;
    SectionMembers(root);
    RootSurvivorsMembers(Pad(Section(root)), RootKeys(root));
    forall l | l in root && l.Text?
      ensures SetsRootKey(l, RootKeys(root))
    {
      assert l.rootKey.value in RootKeys(root);
    }
  }

  lemma SectionOfPadded(lines: seq<Line>, blank: seq<Line>)
    requires AllBlank(blank)
    ensures Section(Pad(Section(lines)) + blank) == Section(lines)
  {
    var s := Section(lines);
    var after := if s == [] then blank else [EMPTY] + blank;
    assert Pad(s) + blank == [] + s + after;
    SectionStable([], lines, after);
  }

  lemma SameSections(head: seq<Line>, extra: seq<Line>, plan: Plan, tail: seq<Line>)
    requires AllBlank(extra)
    ensures Assemble(Pad(Section(head)) + extra, plan.root, Pad(Section(tail)), plan.tables)
         == Assemble(head, plan.root, tail, plan.tables)
  {
    SectionOfPadded(head, extra);
    SectionOfPadded(tail, []);
    assert Pad(Section(tail)) + [] == Pad(Section(tail));
  }

  lemma MergeStable(existing: seq<Line>, generated: seq<Line>)
    requires !AllBlank(existing) && !AllBlank(Merge(existing, generated))
    requires RootSetsKeysOnly(generated)
    ensures Merge(Merge(existing, generated), generated) == Merge(existing, generated)
  {
    var plan := SplitSections(generated);
    MergeAgain(existing, generated);
    OnlyBlanksLeft(generated);
    SameSections(KeptRoot(existing, plan), RootSurvivors(Pad(Section(plan.root)), RootKeys(plan.root)),
                 plan, Flatten(KeptBlocks(existing, plan)));
  }

  lemma SomethingLeft(generated: seq<Line>)
    requires !RootSetsKeysOnly(generated)
    ensures var root := SplitSections(generated).root;
            Ink(RootSurvivors(Pad(Section(root)), RootKeys(root))) != []
  {
    var root := SplitSections(generated).root;
    PlanShape(generated);
    var l :| l in root && !l.Blank? && !(l.Text? && l.rootKey.Some?);
    InkOfSection(root);
    FilterMembers(IsInk, root);
    FilterMembers(IsInk, Section(root));
    assert l in Ink(Section(root));
    RootSurvivorsMembers(Pad(Section(root)), RootKeys(root));
    assert l in RootSurvivors(Pad(Section(root)), RootKeys(root));
    AllBlankIsInkless(RootSurvivors(Pad(Section(root)), RootKeys(root)));
  }

  // A root line that sets no key is merged in once more each time.
  lemma MergeGrows(existing: seq<Line>, generated: seq<Line>)
    requires !AllBlank(existing) && !AllBlank(Merge(existing, generated))
    requires !RootSetsKeysOnly(generated)
    ensures |Ink(Merge(Merge(existing, generated), generated))| > |Ink(Merge(existing, generated))|
  {
    var plan := SplitSections(generated);
    var head, tail := KeptRoot(existing, plan), Flatten(KeptBlocks(existing, plan));
    MergeAgain(existing, generated);
    SomethingLeft(generated);
    var extra := RootSurvivors(Pad(Section(plan.root)), RootKeys(plan.root));
    LongerHead(head, extra, plan, tail);
  }

  lemma LongerHead(head: seq<Line>, extra: seq<Line>, plan: Plan, tail: seq<Line>)
    ensures |Ink(Assemble(Pad(Section(head)) + extra, plan.root, Pad(Section(tail)), plan.tables))|
         == |Ink(Assemble(head, plan.root, tail, plan.tables))| + |Ink(extra)|
  {
    InkOfAssemble(head, plan.root, tail, plan.tables);
    InkOfAssemble(Pad(Section(head)) + extra, plan.root, Pad(Section(tail)), plan.tables);
    InkAppend(Pad(Section(head)), extra);
    InkOfPad(head);
    InkOfPad(tail);
  }

  // What a generated document without content replaces: nothing.
  lemma NothingReplaced(existing: seq<Line>, generated: seq<Line>)
    requires !HasContent(generated)
    ensures var plan := SplitSections(generated);
            plan.root == [] && plan.tables == []
  {
    var lines := Strip(generated);
    FilterMembers(IsContent, generated);
    var i := HeaderIndex(lines);
    assert AllBlank(lines);
    InkOfBlank(lines[..i]);
    InkOfBlank(lines[i..]);
    InkOfTrim(lines[..i]);
    InkOfTrim(lines[i..]);
    var b1, a1 := TrimSplit(lines[..i]);
    var b2, a2 := TrimSplit(lines[i..]);
    if Trim(lines[..i]) != [] { InkNonEmpty(Trim(lines[..i])); }
    if Trim(lines[i..]) != [] { InkNonEmpty(Trim(lines[i..])); }
  }

  lemma {:induction false} KeptEverything(blocks: seq<Block>)
    requires AllBlocks(blocks)
    ensures Kept(blocks, None, {}, {}) == blocks
  {
    if blocks != [] {
      KeptEverything(blocks[1..]);
    }
  }

  lemma PlainKeepsAll(existing: seq<Line>, plan: Plan)
    requires plan.root == [] && plan.tables == []
    ensures Strip(existing) == KeptRoot(existing, plan) + Flatten(KeptBlocks(existing, plan))
  {
    var mine := Strip(existing);
    BlocksShape(mine);
    assert Blocks([]) == [[]] && TableBlocks([]) == [];
    assert RootKeys([]) == {} && TableNames([]) == {} && EntryKeys([]) == {};
    RootSurvivorsAll(Blocks(mine)[0], {});
    KeptEverything(TableBlocks(mine));
  }

  lemma InkOfPlain(existing: seq<Line>, generated: seq<Line>)
    requires !AllBlank(existing) && !HasContent(generated)
    ensures Ink(Merge(existing, generated)) == Ink(Strip(existing))
  {
    var plan := SplitSections(generated);
    NothingReplaced(existing, generated);
    PlainKeepsAll(existing, plan);
    var head, tail := KeptRoot(existing, plan), Flatten(KeptBlocks(existing, plan));
    InkAppend(head, tail);
    InkOfAssemble(head, [], tail, []);
  }

  lemma InkOfContent(existing: seq<Line>, generated: seq<Line>)
    requires !AllBlank(existing) && HasContent(generated)
    ensures !AllBlank(Merge(existing, generated))
  {
    var plan := SplitSections(generated);
    var lines := Strip(generated);
    var l :| l in generated && !l.Blank? && !l.Marker?;
    FilterMembers(IsContent, generated);
    assert l in lines;
    var i := HeaderIndex(lines);
    assert lines == lines[..i] + lines[i..];
    InkOfTrim(lines[..i]);
    InkOfTrim(lines[i..]);
    FilterMembers(IsInk, lines[..i]);
    FilterMembers(IsInk, lines[i..]);
    assert l in Ink(lines[..i]) || l in Ink(lines[i..]);
    InkOfAssemble(KeptRoot(existing, plan), plan.root, Flatten(KeptBlocks(existing, plan)), plan.tables);
    assert plan.root != [] || plan.tables != [];
    InkOfWrap(plan.root);
    InkOfWrap(plan.tables);
    AllBlankIsInkless(Merge(existing, generated));
  }

  lemma InkOfWrap(lines: seq<Line>)
    ensures Ink(Wrap(lines)) == if lines == [] then [] else [START] + Ink(lines) + [END]
  {
    if lines != [] {
      InkAppend([START] + lines, [END]);
      InkAppend([START], lines);
      assert Ink([START]) == [START] && Ink([END]) == [END];
    }
  }

  // Merging is repeatable on a file that is not blank exactly when every line of the
  // generated root region sets a key. A generated document without content repeats
  // exactly when the file has content of its own, or when it is the single empty line
  // that such a merge leaves.
  lemma MergeIdempotence(existing: seq<Line>, generated: seq<Line>)
    requires !AllBlank(existing)
    ensures Merge(Merge(existing, generated), generated) == Merge(existing, generated)
       <==> if HasContent(generated) then RootSetsKeysOnly(generated)
            else HasContent(existing) || generated == [EMPTY, EMPTY]
  {
    var merged := Merge(existing, generated);
    if HasContent(generated) {
      InkOfContent(existing, generated);
      if RootSetsKeysOnly(generated) {
        MergeStable(existing, generated);
      } else {
        MergeGrows(existing, generated);
      }
    } else {
      NothingReplaced(existing, generated);
      InkOfPlain(existing, generated);
      AllBlankIsInkless(merged);
      AllBlankIsInkless(Strip(existing));
      FilterMembers(IsContent, existing);
      if HasContent(existing) {
        MergeStable(existing, generated);
      } else {
        MarkersOnly(existing, generated);
      }
    }
  }

  lemma NothingAssembled(head: seq<Line>, tail: seq<Line>)
    requires Ink(head) == [] && Ink(tail) == []
    ensures Assemble(head, [], tail, []) == [EMPTY, EMPTY]
  {
    InklessSection(head);
    InklessSection(tail);
    InklessSection([]);
    FilterNone(NotEmpty, [Section(head), Section([]), Section(tail), Section([])]);
  }

  lemma InklessSection(lines: seq<Line>)
    requires Ink(lines) == []
    ensures Section(lines) == []
  {
    SectionTrimmed(lines);
    InkOfSection(lines);
    if Section(lines) != [] { InkNonEmpty(Section(lines)); }
  }

  lemma MarkersOnly(existing: seq<Line>, generated: seq<Line>)
    requires !AllBlank(existing) && !HasContent(existing) && !HasContent(generated)
    ensures Merge(existing, generated) == [EMPTY, EMPTY]
  {
    var plan := SplitSections(generated);
    var head, tail := KeptRoot(existing, plan), Flatten(KeptBlocks(existing, plan));
    NothingReplaced(existing, generated);
    PlainKeepsAll(existing, plan);
    FilterMembers(IsContent, existing);
    AllBlankIsInkless(Strip(existing));
    InkAppend(head, tail);
    NothingAssembled(head, tail);
  }

  // Why comments matter: a comment in the generated root region is taken for one of the
  // user's own on the next merge, and written once more.
  lemma CommentInRoot(comment: Line)
    requires comment.Text? && comment.rootKey == None
    ensures HasContent([comment]) && !RootSetsKeysOnly([comment])
  {
    assert comment in [comment];
    assert Strip([comment]) == [comment];
    assert HeaderIndex([comment]) == 1;
    TrimKeeps([comment], 0);
    assert [comment][..1] == [comment];
    assert comment in SplitSections([comment]).root;
  }

  // For instance, `# c` merged into `x = 1`.
  lemma CommentIsRepeated(x: string, c: string)
    requires x == "x = 1" && c == "# c"
    ensures var existing, comment := [S.Classify(x)], [S.Classify(c)];
            Merge(Merge(existing, comment), comment) != Merge(existing, comment)
  {
    S.KeyLine(x);
    S.CommentLine(c);
    assert S.Classify(x) in [S.Classify(x)];
    CommentInRoot(S.Classify(c));
    MergeIdempotence([S.Classify(x)], [S.Classify(c)]);
  }

  lemma SelfRoot(root: seq<Line>, tables: seq<Line>)
    requires NoHeader(root) && (tables != [] ==> IsHeader(tables[0]))
    requires forall l :: l in Trim(root) ==> l.Blank? || (l.Text? && l.rootKey.Some?)
    ensures AllBlank(RootSurvivors(Blocks(root + tables)[0], RootKeys(Trim(root))))
    ensures var t := Trim(tables);
            Kept(TableBlocks(root + tables), None, TableNames(t), EntryKeys(TableBlocks(t))) == []
  {
    TwoRegions(root, tables);
    RootGoes(root);
    TablesGo(tables);
  }

  lemma PlanParts(generated: seq<Line>) returns (root: seq<Line>, tables: seq<Line>)
    ensures Strip(generated) == root + tables && SplitSections(generated) == Plan(Trim(root), Trim(tables))
    ensures NoHeader(root) && (tables != [] ==> IsHeader(tables[0]))
  {
    var lines := Strip(generated);
    var i := HeaderIndex(lines);
    root, tables := lines[..i], lines[i..];
  }

  lemma SelfKept(generated: seq<Line>)
    requires RootSetsKeysOnly(generated)
    ensures AllBlank(KeptRoot(generated, SplitSections(generated)))
    ensures KeptBlocks(generated, SplitSections(generated)) == []
  {
    var root, tables := PlanParts(generated);
    SelfRoot(root, tables);
  }

  lemma BlankHead(blank: seq<Line>, root: seq<Line>, tail: seq<Line>, tables: seq<Line>)
    requires AllBlank(blank)
    ensures Assemble(blank, root, tail, tables) == Assemble([], root, tail, tables)
  {
    assert blank + [] + [] == blank;
    TrimPadded(blank, [], []);
    TrimPadded([], [], []);
    assert Section(blank) == Section([]);
  }

  // A generated document merged into itself: laid out once, when its root region sets keys only.
  lemma SelfMerge(generated: seq<Line>)
    requires !AllBlank(generated) && RootSetsKeysOnly(generated)
    ensures var plan := SplitSections(generated);
            Merge(generated, generated) == Assemble([], plan.root, [], plan.tables)
  {
    var plan := SplitSections(generated);
    SelfKept(generated);
    BlankHead(KeptRoot(generated, plan), plan.root, [], plan.tables);
  }

  lemma RootGoes(root: seq<Line>)
    requires forall l :: l in Trim(root) ==> l.Blank? || (l.Text? && l.rootKey.Some?)
    ensures AllBlank(RootSurvivors(root, RootKeys(Trim(root))))
  {
    RootSurvivorsMembers(root, RootKeys(Trim(root)));
    forall l | l in root && !l.Blank?
      ensures SetsRootKey(l, RootKeys(Trim(root)))
    {
      var i :| 0 <= i < |root| && root[i] == l;
      TrimKeeps(root, i);
      assert l.rootKey.value in RootKeys(Trim(root));
    }
  }

  lemma TablesGo(lines: seq<Line>)
    ensures var tables := Trim(lines);
            Kept(TableBlocks(lines), None, TableNames(tables), EntryKeys(TableBlocks(tables))) == []
  {
    var tables := Trim(lines);
    InkOfTrim(lines);
    SameInkSameHits(lines, tables, TableNames(tables), EntryKeys(TableBlocks(tables)));
    GeneratedAllHit(tables);
    KeptNothing(TableBlocks(lines), None, TableNames(tables), EntryKeys(TableBlocks(tables)));
  }

  // The first setup: a blank file takes the generated document as it is, and merging again
  // changes nothing exactly when that document is blank, or sets root keys only and is laid out
  // as the merge lays it out.
  lemma FreshIdempotence(existing: seq<Line>, generated: seq<Line>)
    requires AllBlank(existing)
    ensures var plan := SplitSections(generated);
            Merge(Merge(existing, generated), generated) == Merge(existing, generated)
            <==> AllBlank(generated)
                 || (RootSetsKeysOnly(generated) && generated == Assemble([], plan.root, [], plan.tables))
  {
    var plan := SplitSections(generated);
    if !AllBlank(generated) {
      MergeIdempotence(generated, generated);
      if HasContent(generated) {
        if RootSetsKeysOnly(generated) {
          SelfMerge(generated);
        }
      } else {
        NothingReplaced(existing, generated);
        MarkersOnly(generated, generated);
        EmptyAssembled();
      }
    }
  }

  lemma EmptyAssembled()
    ensures Assemble([], [], [], []) == [EMPTY, EMPTY]
  {
    FilterNone(NotEmpty, [Section([]), Section([]), Section([]), Section([])]);
  }

  // Setting up a fresh file writes the generated text as it is; the next merge settles it.
  lemma FreshFileSettles(existing: seq<Line>, generated: seq<Line>)
    requires AllBlank(existing)
    requires HasContent(generated) && RootSetsKeysOnly(generated)
    ensures Merge(existing, generated) == generated
    ensures var settled := Merge(Merge(existing, generated), generated);
            Merge(settled, generated) == settled
  {
    MergeIdempotence(generated, generated);
  }
}
