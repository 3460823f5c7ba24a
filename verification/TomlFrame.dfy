// What the TOML merge keeps, what it replaces, and where the generated lines go.
module TomlFrame {
  import opened Sequences
  import opened TomlDocument
  import opened TomlBlocks
  import opened TomlIdempotence
  import S = TomlSyntax

  // ---- Which existing blocks are dropped ----

  // Block i lies directly behind an entry j that a generated entry replaces, with nothing
  // but tables of that array in between.
  ghost predicate Behind(blocks: seq<Block>, j: int, i: nat, entries: set<string>)
    requires AllBlocks(blocks) && i <= |blocks|
  {
    && 0 <= j < i
    && EntryHit(blocks[j], entries)
    && forall k :: j < k < i ==> Under(blocks[k][0].name, blocks[j][0].name)
  }

  ghost predicate Dropped(blocks: seq<Block>, i: nat, names: set<string>, entries: set<string>)
    requires AllBlocks(blocks) && i < |blocks|
  {
    || TableHit(blocks[i], names)
    || EntryHit(blocks[i], entries)
    || exists j :: Behind(blocks, j, i, entries) && Under(blocks[i][0].name, blocks[j][0].name)
  }

  // The blocks from i on that are not dropped.
  ghost function NotDropped(blocks: seq<Block>, i: nat, names: set<string>, entries: set<string>): seq<Block>
    requires AllBlocks(blocks) && i <= |blocks|
    decreases |blocks| - i
  {
    if i == |blocks| then [] else
      (if Dropped(blocks, i, names, entries) then [] else [blocks[i]]) + NotDropped(blocks, i + 1, names, entries)
  }

  // What the merge remembers on reaching block i: of all replaced entries that block i may
  // lie behind, `dropped` is the outermost array.
  ghost predicate Remembers(blocks: seq<Block>, i: nat, dropped: Option<string>, entries: set<string>)
    requires AllBlocks(blocks) && i <= |blocks|
  {
    && (dropped.Some? ==> exists j :: Behind(blocks, j, i, entries) && blocks[j][0].name == dropped.value)
    && (forall j :: Behind(blocks, j, i, entries) ==>
          dropped.Some? && (blocks[j][0].name == dropped.value || Under(blocks[j][0].name, dropped.value)))
  }

  function NextDropped(block: Block, dropped: Option<string>, names: set<string>, entries: set<string>): Option<string>
    requires IsBlock(block)
  {
    if dropped.Some? && Under(block[0].name, dropped.value) then dropped
    else if EntryHit(block, entries) then Some(block[0].name)
    else None
  }

  lemma UnderTransitive(a: string, b: string, c: string)
    requires Under(a, b) && (b == c || Under(b, c))
    ensures Under(a, c)
  {
  }

  lemma RemembersNext(blocks: seq<Block>, i: nat, dropped: Option<string>, names: set<string>, entries: set<string>)
    requires AllBlocks(blocks) && i < |blocks|
    requires Remembers(blocks, i, dropped, entries)
    ensures Remembers(blocks, i + 1, NextDropped(blocks[i], dropped, names, entries), entries)
  {
    var name := blocks[i][0].name;
    var next := NextDropped(blocks[i], dropped, names, entries);
    if next.Some? {
      if next == dropped && Under(name, dropped.value) {
        var j :| Behind(blocks, j, i, entries) && blocks[j][0].name == dropped.value;
        assert Behind(blocks, j, i + 1, entries);
      } else {
        assert Behind(blocks, i, i + 1, entries);
      }
    }
    forall j | Behind(blocks, j, i + 1, entries)
      ensures next.Some? && (blocks[j][0].name == next.value || Under(blocks[j][0].name, next.value))
    {
      if j < i {
        assert Behind(blocks, j, i, entries);
        UnderTransitive(name, blocks[j][0].name, dropped.value);
      }
    }
  }

  lemma DroppedHere(blocks: seq<Block>, i: nat, dropped: Option<string>, names: set<string>, entries: set<string>)
    requires AllBlocks(blocks) && i < |blocks|
    requires Remembers(blocks, i, dropped, entries)
    ensures Dropped(blocks, i, names, entries)
       <==> (dropped.Some? && Under(blocks[i][0].name, dropped.value))
            || TableHit(blocks[i], names) || EntryHit(blocks[i], entries)
  {
    var name := blocks[i][0].name;
    if exists j :: Behind(blocks, j, i, entries) && Under(name, blocks[j][0].name) {
      var j :| Behind(blocks, j, i, entries) && Under(name, blocks[j][0].name);
      UnderTransitive(name, blocks[j][0].name, dropped.value);
    }
  }

  lemma {:induction false} KeptFrom(blocks: seq<Block>, i: nat, dropped: Option<string>, names: set<string>,
          entries: set<string>)
    requires AllBlocks(blocks) && i <= |blocks|
    requires Remembers(blocks, i, dropped, entries)
    ensures AllBlocks(blocks[i..])
    ensures Kept(blocks[i..], dropped, names, entries) == NotDropped(blocks, i, names, entries)
    decreases |blocks| - i
  {
    if i < |blocks| {
      assert blocks[i..][1..] == blocks[i + 1..];
      DroppedHere(blocks, i, dropped, names, entries);
      RemembersNext(blocks, i, dropped, names, entries);
      KeptFrom(blocks, i + 1, NextDropped(blocks[i], dropped, names, entries), names, entries);
    }
  }

  // The merge keeps, in order, the blocks that are not dropped; entries match by their keys.
  lemma KeptByKey(existing: seq<Line>, plan: Plan)
    ensures KeptBlocks(existing, plan) == NotDropped(
              TableBlocks(Strip(existing)), 0, TableNames(plan.tables), EntryKeys(TableBlocks(plan.tables)))
  {
    var blocks := TableBlocks(Strip(existing));
    assert blocks[0..] == blocks;
    KeptFrom(blocks, 0, None, TableNames(plan.tables), EntryKeys(TableBlocks(plan.tables)));
  }

  // ---- Which entries match ----

  // Two entries of an array are the same to the merge when they carry the same name. One
  // without a name carries the name "undefined".
  predicate SameName(a: Option<string>, b: Option<string>) {
    a == b || (a == None && b == Some("undefined")) || (a == Some("undefined") && b == None)
  }

  predicate NoNul(name: string) { '\0' !in name }

  lemma CutAtNul(a: string, s: string, b: string, t: string)
    requires NoNul(a) && NoNul(b) && a + "\0" + s == b + "\0" + t
    ensures a == b && s == t
  {
    var whole := a + "\0" + s;
    assert whole[|a|] == '\0' && whole[|b|] == '\0';
    assert forall i :: 0 <= i < |a| ==> whole[i] == a[i];
    assert forall i :: 0 <= i < |b| ==> whole[i] == b[i];
    assert |a| == |b|;
    assert whole[..|a|] == a && whole[..|b|] == b;
    assert whole[|a| + 1..] == s && whole[|b| + 1..] == t;
  }

  lemma EntryKeyMeans(a: string, m: Option<string>, b: string, n: Option<string>)
    requires NoNul(a) && NoNul(b)
    ensures EntryKey(a, m) == EntryKey(b, n) <==> a == b && SameName(m, n)
  {
    var s, t := if m.Some? then m.value else "undefined", if n.Some? then n.value else "undefined";
    if EntryKey(a, m) == EntryKey(b, n) {
      CutAtNul(a, s, b, t);
    }
  }

  // With a NUL in the name of an array the keys of different entries can be the same.
  lemma NulKeysCollide()
    ensures EntryKey("x\0y", Some("z")) == EntryKey("x", Some("y\0z"))
  {
    assert "x\0y" + "\0" + "z" == "x" + "\0" + "y\0z";
  }

  // No array of the blocks has a NUL in its name.
  predicate NoNulArrays(blocks: seq<Block>)
    requires AllBlocks(blocks)
  {
    forall i :: 0 <= i < |blocks| && blocks[i][0].ArrayTable? ==> NoNul(blocks[i][0].name)
  }

  // Some generated entry has the array and the name of the block.
  predicate Replaced(block: Block, generated: seq<Block>)
    requires IsBlock(block) && AllBlocks(generated)
  {
    && block[0].ArrayTable?
    && exists i :: 0 <= i < |generated| && generated[i][0] == block[0]
         && SameName(FirstName(generated[i][1..]), FirstName(block[1..]))
  }

  // An entry is hit exactly when a generated entry of the same array carries the same name.
  lemma EntryHitMeans(block: Block, generated: seq<Block>)
    requires IsBlock(block) && AllBlocks(generated)
    requires NoNulArrays([block]) && NoNulArrays(generated)
    ensures EntryHit(block, EntryKeys(generated)) <==> Replaced(block, generated)
  {
    if block[0].ArrayTable? {
      assert NoNul([block][0][0].name);
      forall i | 0 <= i < |generated| && generated[i][0].ArrayTable?
        ensures BlockKey(generated[i]) == BlockKey(block)
           <==> generated[i][0] == block[0] && SameName(FirstName(generated[i][1..]), FirstName(block[1..]))
      {
        EntryKeyMeans(generated[i][0].name, FirstName(generated[i][1..]), block[0].name, FirstName(block[1..]));
      }
    }
  }

  // A table inside an array: its name is the array's, a dot, and anything.
  predicate Inside(name: string, arrayName: string) {
    |arrayName| < |name| && name[..|arrayName|] == arrayName && name[|arrayName|] == '.'
  }

  lemma UnderIsInside(name: string, arrayName: string)
    ensures Under(name, arrayName) <==> Inside(name, arrayName)
  {
    if Inside(name, arrayName) {
      assert name[..|arrayName| + 1] == arrayName + ".";
    }
    if Under(name, arrayName) {
      assert name[|arrayName|] == (arrayName + ".")[|arrayName|];
    }
  }

  // The name stands in line i: the first line that gives one, and no header comes before it.
  predicate NamedAt(lines: seq<Line>, i: int, name: string) {
    && 0 <= i < |lines| && lines[i].Text? && lines[i].entryName == Some(name)
    && forall k :: 0 <= k < i ==> NamesNothing(lines[k])
  }

  predicate NamesNothing(line: Line) {
    line.Blank? || line.Marker? || (line.Text? && line.entryName == None)
  }

  // The name of an entry is the first one given below its header and above the next.
  lemma {:induction false} FirstNameMeans(lines: seq<Line>, name: string)
    ensures FirstName(lines) == Some(name) <==> exists i :: NamedAt(lines, i, name)
  {
    if lines != [] {
      var rest := lines[1..];
      FirstNameMeans(rest, name);
      if NamesNothing(lines[0]) {
        if i :| NamedAt(rest, i, name) {
          assert NamedAt(lines, i + 1, name);
        }
        if i :| NamedAt(lines, i, name) {
          NamedBelow(lines, i, name);
        }
      } else {
        assert lines[0].Text? ==> FirstName(lines) == lines[0].entryName;
        assert FirstName(lines) == Some(name) ==> NamedAt(lines, 0, name);
      }
    }
  }

  lemma NamedBelow(lines: seq<Line>, i: int, name: string)
    requires NamedAt(lines, i, name) && NamesNothing(lines[0])
    ensures NamedAt(lines[1..], i - 1, name)
  {
  }

  // Block i lies directly behind a replaced entry j, with nothing but tables of its array in
  // between.
  ghost predicate BehindReplaced(blocks: seq<Block>, j: int, i: nat, generated: seq<Block>)
    requires AllBlocks(blocks) && AllBlocks(generated) && i < |blocks|
  {
    && 0 <= j < i && Replaced(blocks[j], generated)
    && forall k :: j < k <= i ==> Inside(blocks[k][0].name, blocks[j][0].name)
  }

  ghost predicate Goes(blocks: seq<Block>, i: nat, generated: seq<Block>)
    requires AllBlocks(blocks) && AllBlocks(generated) && i < |blocks|
  {
    || (exists k :: 0 <= k < |generated| && blocks[i][0].Table? && generated[k][0] == blocks[i][0])
    || Replaced(blocks[i], generated)
    || exists j :: BehindReplaced(blocks, j, i, generated)
  }

  ghost function Staying(blocks: seq<Block>, i: nat, generated: seq<Block>): seq<Block>
    requires AllBlocks(blocks) && AllBlocks(generated) && i <= |blocks|
    decreases |blocks| - i
  {
    if i == |blocks| then [] else
      (if Goes(blocks, i, generated) then [] else [blocks[i]]) + Staying(blocks, i + 1, generated)
  }

  lemma HitsMean(blocks: seq<Block>, i: nat, generated: seq<Block>)
    requires AllBlocks(blocks) && AllBlocks(generated) && i < |blocks|
    requires NoNulArrays(blocks) && NoNulArrays(generated)
    ensures EntryHit(blocks[i], EntryKeys(generated)) <==> Replaced(blocks[i], generated)
  {
    assert NoNulArrays([blocks[i]]);
    EntryHitMeans(blocks[i], generated);
  }

  lemma BehindMeans(blocks: seq<Block>, j: int, i: nat, generated: seq<Block>)
    requires AllBlocks(blocks) && AllBlocks(generated) && i < |blocks|
    requires NoNulArrays(blocks) && NoNulArrays(generated)
    ensures Behind(blocks, j, i, EntryKeys(generated)) && Under(blocks[i][0].name, blocks[j][0].name)
       <==> BehindReplaced(blocks, j, i, generated)
  {
    if 0 <= j < i {
      HitsMean(blocks, j, generated);
      forall k | j < k <= i
        ensures Under(blocks[k][0].name, blocks[j][0].name) <==> Inside(blocks[k][0].name, blocks[j][0].name)
      {
        UnderIsInside(blocks[k][0].name, blocks[j][0].name);
      }
    }
  }

  lemma DroppedMeans(blocks: seq<Block>, i: nat, generated: seq<Block>, names: set<string>)
    requires AllBlocks(blocks) && AllBlocks(generated) && i < |blocks|
    requires NoNulArrays(blocks) && NoNulArrays(generated)
    requires forall t :: t in names <==> exists k :: 0 <= k < |generated| && generated[k][0] == Table(t)
    ensures Dropped(blocks, i, names, EntryKeys(generated)) <==> Goes(blocks, i, generated)
  {
    HitsMean(blocks, i, generated);
    forall j
      ensures Behind(blocks, j, i, EntryKeys(generated)) && Under(blocks[i][0].name, blocks[j][0].name)
         <==> BehindReplaced(blocks, j, i, generated)
    {
      BehindMeans(blocks, j, i, generated);
    }
  }

  lemma {:induction false} NotDroppedMeans(blocks: seq<Block>, i: nat, generated: seq<Block>, names: set<string>)
    requires AllBlocks(blocks) && AllBlocks(generated) && i <= |blocks|
    requires NoNulArrays(blocks) && NoNulArrays(generated)
    requires forall t :: t in names <==> exists k :: 0 <= k < |generated| && generated[k][0] == Table(t)
    ensures NotDropped(blocks, i, names, EntryKeys(generated)) == Staying(blocks, i, generated)
    decreases |blocks| - i
  {
    if i < |blocks| {
      DroppedMeans(blocks, i, generated, names);
      NotDroppedMeans(blocks, i + 1, generated, names);
    }
  }

  lemma {:induction false} HeadersOfBlocks(blocks: seq<Block>, header: Line)
    requires AllBlocks(blocks) && IsHeader(header)
    ensures header in Flatten(blocks) <==> exists k :: 0 <= k < |blocks| && blocks[k][0] == header
  {
    if blocks != [] {
      HeadersOfBlocks(blocks[1..], header);
      var first := blocks[0];
      assert first == [first[0]] + first[1..];
      if header in Flatten(blocks[1..]) {
        var k :| 0 <= k < |blocks[1..]| && blocks[1..][k][0] == header;
        assert blocks[k + 1][0] == header;
      }
      if k :| 0 <= k < |blocks| && blocks[k][0] == header {
        assert k > 0 ==> blocks[1..][k - 1] == blocks[k];
      }
    }
  }

  lemma NamesOfBlocks(tables: seq<Line>)
    ensures forall t :: t in TableNames(tables) <==>
              exists k :: 0 <= k < |TableBlocks(tables)| && TableBlocks(tables)[k][0] == Table(t)
  {
    BlocksShape(tables);
    var blocks := TableBlocks(tables);
    assert tables == Blocks(tables)[0] + Flatten(blocks);
    forall t
      ensures t in TableNames(tables) <==> exists k :: 0 <= k < |blocks| && blocks[k][0] == Table(t)
    {
      HeadersOfBlocks(blocks, Table(t));
      assert t in TableNames(tables) <==> Table(t) in tables;
    }
  }

  predicate NoNulIn(lines: seq<Line>) { forall l :: l in lines && l.ArrayTable? ==> NoNul(l.name) }

  lemma NoNulBlocks(lines: seq<Line>)
    requires NoNulIn(lines)
    ensures NoNulArrays(TableBlocks(lines))
  {
    BlocksShape(lines);
    var blocks := TableBlocks(lines);
    assert lines == Blocks(lines)[0] + Flatten(blocks);
    forall i | 0 <= i < |blocks| && blocks[i][0].ArrayTable?
      ensures NoNul(blocks[i][0].name)
    {
      HeadersOfBlocks(blocks, blocks[i][0]);
    }
  }

  // An existing block goes exactly when it is a generated table, an array entry for which a
  // generated entry of the same array carries the same name, or lies directly behind such an
  // entry among tables of its array. All others stay, in order.
  lemma KeptExactly(existing: seq<Line>, generated: seq<Line>)
    requires NoNulIn(existing) && NoNulIn(generated)
    ensures var plan := SplitSections(generated);
            KeptBlocks(existing, plan) == Staying(TableBlocks(Strip(existing)), 0, TableBlocks(plan.tables))
  {
    var plan := SplitSections(generated);
    FilterMembers(IsContent, existing);
    PlanFrom(generated);
    NoNulBlocks(Strip(existing));
    NoNulBlocks(plan.tables);
    NamesOfBlocks(plan.tables);
    KeptByKey(existing, plan);
    NotDroppedMeans(TableBlocks(Strip(existing)), 0, TableBlocks(plan.tables), TableNames(plan.tables));
  }

  lemma PlanOfTables(lines: seq<Line>)
    requires lines != [] && IsHeader(lines[0]) && Trimmed(lines) && NoMarker(lines)
    ensures SplitSections(lines) == Plan([], lines)
  {
    FilterAll(IsContent, lines);
    assert HeaderIndex(lines) == 0 && lines[..0] == [] && lines[0..] == lines;
    assert TrimFront(lines) == lines && TrimBack(lines) == lines;
  }

  lemma BlocksOf(blocks: seq<Block>)
    requires AllBlocks(blocks) && NoMarker(Flatten(blocks))
    ensures TableBlocks(Strip(Flatten(blocks))) == blocks && TableBlocks(Flatten(blocks)) == blocks
  {
    FilterAll(IsContent, Flatten(blocks));
    BlocksOfFlatten(blocks);
  }

  // An existing entry alone in a file goes when an entry with its key is generated.
  lemma EntryGoes(mine: Block, theirs: Block)
    requires IsBlock(mine) && NoMarker(mine) && mine[0].ArrayTable?
    requires IsBlock(theirs) && NoMarker(theirs) && Trimmed(theirs) && theirs[0].ArrayTable?
    requires BlockKey(theirs) == BlockKey(mine)
    ensures KeptBlocks(mine, SplitSections(theirs)) == []
  {
    PlanOfTables(theirs);
    FlattenOne(mine);
    FlattenOne(theirs);
    BlocksOf([mine]);
    BlocksOf([theirs]);
    assert BlockKey([theirs][0]) in EntryKeys([theirs]);
    EntryAlone(mine, TableNames(theirs), EntryKeys([theirs]));
  }

  lemma FlattenOne(block: Block)
    ensures Flatten([block]) == block
  {
    assert [block][1..] == [];
  }

  lemma NameFirst(header: Line, setting: Line)
    requires setting.Text? && setting.entryName.Some?
    ensures FirstName([header, setting][1..]) == setting.entryName && FirstName([header][1..]) == None
  {
    assert [header, setting][1..] == [setting] && [header][1..] == [];
  }

  // So a user's entry named "undefined" goes when an entry without a name is generated for its
  // array: `[[a]]` and `name = 'undefined'` in the file, `[[a]]` generated.
  lemma UndefinedEntryGoes(a: string, n: string, name: string)
    requires a == "[[a]]" && name == "undefined" && n == "name" + (" = " + S.Quoted('\'', name))
    ensures KeptBlocks([S.Classify(a), S.Classify(n)], SplitSections([S.Classify(a)])) == []
  {
    var mine: Block, theirs: Block := [S.Classify(a), S.Classify(n)], [S.Classify(a)];
    S.ArrayLine(a);
    S.NameLine(n, name);
    NameFirst(S.Classify(a), S.Classify(n));
    EntryGoes(mine, theirs);
  }

  lemma EntryAlone(block: Block, names: set<string>, entries: set<string>)
    requires IsBlock(block) && EntryHit(block, entries)
    ensures AllBlocks([block]) && Kept([block], None, names, entries) == []
  {
    assert [block][1..] == [];
  }

  // ---- The regions of the merged file ----

  lemma StripInkOfWrap(lines: seq<Line>)
    requires NoMarker(lines)
    ensures Strip(Ink(Wrap(lines))) == Ink(lines)
  {
    InkOfWrap(lines);
    FilterMembers(IsInk, lines);
    if lines != [] {
      FilterAppend(IsContent, [START] + Ink(lines), [END]);
      FilterAppend(IsContent, [START], Ink(lines));
      FilterAll(IsContent, Ink(lines));
      assert Strip([START]) == [] && Strip([END]) == [];
    }
  }

  lemma StripInkOfAssemble(head: seq<Line>, root: seq<Line>, tail: seq<Line>, tables: seq<Line>)
    requires NoMarker(head) && NoMarker(root) && NoMarker(tail) && NoMarker(tables)
    ensures Ink(Strip(Assemble(head, root, tail, tables))) == (Ink(head) + Ink(root)) + (Ink(tail) + Ink(tables))
  {
    var merged := Assemble(head, root, tail, tables);
    FilterCommutes(IsInk, IsContent, merged);
    InkOfAssemble(head, root, tail, tables);
    StripFour(Ink(head), Ink(Wrap(root)), Ink(tail), Ink(Wrap(tables)));
    StripInkOfWrap(root);
    StripInkOfWrap(tables);
    FilterMembers(IsInk, head);
    FilterMembers(IsInk, tail);
    FilterAll(IsContent, Ink(head));
    FilterAll(IsContent, Ink(tail));
  }

  lemma InkOfTables(lines: seq<Line>)
    requires lines != [] ==> IsHeader(lines[0])
    ensures Ink(lines) != [] ==> IsHeader(Ink(lines)[0])
    ensures TableBlocks(Ink(lines)) == InkEach(TableBlocks(lines))
  {
    BlocksOfInk(lines);
    if lines != [] {
      assert Ink(lines) == [lines[0]] + Ink(lines[1..]);
    }
    assert InkEach(Blocks(lines))[1..] == InkEach(Blocks(lines)[1..]);
  }

  // Apart from blank lines and markers, the merged file is: the surviving root lines, the
  // generated root lines, the surviving blocks, the generated blocks. So the generated root
  // keys stand before the first header.
  lemma MergedRegions(existing: seq<Line>, generated: seq<Line>)
    requires !AllBlank(existing)
    ensures var plan := SplitSections(generated);
            var merged := Ink(Strip(Merge(existing, generated)));
            && Blocks(merged)[0] == Ink(KeptRoot(existing, plan)) + Ink(plan.root)
            && TableBlocks(merged) == InkEach(KeptBlocks(existing, plan)) + InkEach(TableBlocks(plan.tables))
  {
    var plan := SplitSections(generated);
    var head, kept := KeptRoot(existing, plan), KeptBlocks(existing, plan);
    var tail := Flatten(kept);
    PlanShape(generated);
    KeptShape(existing, plan);
    StripInkOfAssemble(head, plan.root, tail, plan.tables);
    BlocksOfFlatten(kept);
    InkOfTables(tail);
    InkOfTables(plan.tables);
    FilterMembers(IsInk, head);
    FilterMembers(IsInk, plan.root);
    TableBlocksAppend(Ink(tail), Ink(plan.tables));
    TwoRegions(Ink(head) + Ink(plan.root), Ink(tail) + Ink(plan.tables));
    assert TableBlocks(tail) == kept;
  }

  // The lines of the merged root region that set a generated key are the generated ones.
  lemma RootKeysSetOnce(existing: seq<Line>, generated: seq<Line>, line: Line)
    requires !AllBlank(existing)
    ensures var plan := SplitSections(generated);
            var root := Blocks(Ink(Strip(Merge(existing, generated))))[0];
            && (line in plan.root && !line.Blank? ==> line in root)
            && (line in root && SetsRootKey(line, RootKeys(plan.root)) ==> line in plan.root)
            && (line in Blocks(Strip(existing))[0] && !line.Blank? && !SetsRootKey(line, RootKeys(plan.root))
                ==> line in root)
  {
    var plan := SplitSections(generated);
    MergedRegions(existing, generated);
    FilterMembers(IsInk, KeptRoot(existing, plan));
    FilterMembers(IsInk, plan.root);
    RootSurvivorsMembers(Blocks(Strip(existing))[0], RootKeys(plan.root));
  }

  // The blocks whose header is `[name]`.
  function Named(blocks: seq<Block>, name: string): seq<Block>
    requires AllBlocks(blocks)
  {
    if blocks == [] then [] else
      (if blocks[0][0] == Table(name) then [blocks[0]] else []) + Named(blocks[1..], name)
  }

  lemma {:induction false} NamedAppend(a: seq<Block>, b: seq<Block>, name: string)
    requires AllBlocks(a) && AllBlocks(b) && AllBlocks(a + b)
    ensures Named(a + b, name) == Named(a, name) + Named(b, name)
  {
    if a == [] {
      assert a + b == b;
    } else {
      NamedAppend(a[1..], b, name);
      assert (a + b)[1..] == a[1..] + b;
      Associate(if a[0][0] == Table(name) then [a[0]] else [], Named(a[1..], name), Named(b, name));
    }
  }

  lemma {:induction false} NamedNone(blocks: seq<Block>, name: string)
    requires AllBlocks(blocks)
    requires forall i :: 0 <= i < |blocks| ==> blocks[i][0] != Table(name)
    ensures Named(blocks, name) == []
  {
    if blocks != [] { NamedNone(blocks[1..], name); }
  }

  lemma InkEachIsBlocks(blocks: seq<Block>)
    requires AllBlocks(blocks)
    ensures AllBlocks(InkEach(blocks))
    ensures forall i :: 0 <= i < |blocks| ==> InkEach(blocks)[i][0] == blocks[i][0]
  {
    forall i | 0 <= i < |blocks|
      ensures IsBlock(InkEach(blocks)[i]) && InkEach(blocks)[i][0] == blocks[i][0]
    {
      HitOfInk(blocks[i], {}, {});
    }
  }

  // A generated table stands in the merged file as it stands in the generated document, and
  // nothing else does under its name.
  lemma GeneratedTablesOnce(existing: seq<Line>, generated: seq<Line>, name: string)
    requires !AllBlank(existing)
    requires name in TableNames(SplitSections(generated).tables)
    ensures var tables := InkEach(TableBlocks(SplitSections(generated).tables));
            && AllBlocks(tables)
            && Named(TableBlocks(Ink(Strip(Merge(existing, generated)))), name) == Named(tables, name)
  {
    var plan := SplitSections(generated);
    var kept := KeptBlocks(existing, plan);
    MergedRegions(existing, generated);
    InkEachIsBlocks(kept);
    InkEachIsBlocks(TableBlocks(plan.tables));
    forall i | 0 <= i < |kept|
      ensures InkEach(kept)[i][0] != Table(name)
    {
      assert !TableHit(kept[i], TableNames(plan.tables));
    }
    NamedNone(InkEach(kept), name);
    NamedAppend(InkEach(kept), InkEach(TableBlocks(plan.tables)), name);
  }
}
