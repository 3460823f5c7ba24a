// The TOML merge as the loops of cli/src/config-files.ts, proved to compute the functions
// of TomlDocument.
module TomlMerge {
  import opened Sequences
  import opened TomlDocument
  import opened TomlIdempotence
  import opened TomlBlocks

  method TrimBlankEdges(lines: seq<Line>) returns (trimmed: seq<Line>)
    ensures trimmed == Trim(lines)
  {
    var start, end := 0, |lines|;
    while start < end && lines[start].Blank?
      invariant 0 <= start <= end == |lines|
      invariant TrimFront(lines) == TrimFront(lines[start..])
    {
      TrimFrontStep(lines, start);
      start := start + 1;
    }
    TrimFrontStops(lines, start);
    while end > start && lines[end - 1].Blank?
      invariant start <= end <= |lines|
      invariant Trim(lines) == TrimBack(lines[start..end])
    {
      TrimBackStep(lines, start, end);
      end := end - 1;
    }
    TrimBackStops(lines, start, end);
    return lines[start..end];
  }

  lemma TrimFrontStep(lines: seq<Line>, start: nat)
    requires start < |lines| && lines[start].Blank?
    ensures TrimFront(lines[start..]) == TrimFront(lines[start + 1..])
  {
    assert lines[start..][1..] == lines[start + 1..];
  }

  lemma TrimFrontStops(lines: seq<Line>, start: nat)
    requires start <= |lines| && (start < |lines| ==> !lines[start].Blank?)
    ensures TrimFront(lines[start..]) == lines[start..] == lines[start..|lines|]
  {
  }

  lemma TrimBackStep(lines: seq<Line>, start: nat, end: nat)
    requires start < end <= |lines| && lines[end - 1].Blank?
    ensures TrimBack(lines[start..end]) == TrimBack(lines[start..end - 1])
  {
    assert lines[start..end][..end - start - 1] == lines[start..end - 1];
  }

  lemma TrimBackStops(lines: seq<Line>, start: nat, end: nat)
    requires start <= end <= |lines| && (start < end ==> !lines[end - 1].Blank?)
    ensures TrimBack(lines[start..end]) == lines[start..end]
  {
  }

  method TomlEntryName(block: Block) returns (name: Option<string>)
    requires block != []
    ensures name == FirstName(block[1..])
  {
    for i := 1 to |block|
      invariant FirstName(block[1..]) == FirstName(block[i..])
    {
      assert block[i..][1..] == block[i + 1..];
      if IsHeader(block[i]) {
        return None;
      }
      if block[i].Text? && block[i].entryName.Some? {
        return block[i].entryName;
      }
    }
    return None;
  }

  method CutBlocks(lines: seq<Line>) returns (blocks: seq<Block>)
    ensures blocks == Blocks(lines)
  {
    blocks := [[]];
    for i := 0 to |lines|
      invariant blocks == Blocks(lines[..i])
    {
      assert lines[..i + 1][..i] == lines[..i];
      ghost var next := AddLine(blocks, lines[i]);
      if IsHeader(lines[i]) {
        blocks := blocks + [[]];
      }
      blocks := blocks[|blocks| - 1 := blocks[|blocks| - 1] + [lines[i]]];
      assert [] + [lines[i]] == [lines[i]];
      assert blocks == next;
    }
    assert lines[..|lines|] == lines;
  }

  method SplitTomlSections(generated: seq<Line>) returns (plan: Plan)
    ensures plan == SplitSections(generated)
  {
    var lines := Filter(IsContent, generated);
    var firstTable := HeaderIndex(lines);
    var root := TrimBlankEdges(lines[..firstTable]);
    var tables := TrimBlankEdges(lines[firstTable..]);
    return Plan(root, tables);
  }

  // The keys of the generated array entries.
  method ArrayEntries(tables: seq<Line>) returns (entries: set<string>)
    ensures entries == EntryKeys(TableBlocks(tables))
    requires tables != [] ==> IsHeader(tables[0])
  {
    var blocks := CutBlocks(tables);
    ghost var tail := TableBlocks(tables);
    assert blocks[0] == [] by {
      if tables != [] { StartsWithTable(tables); }
    }
    entries := {};
    for i := 0 to |blocks|
      invariant entries == EntryKeys(tail[..if i == 0 then 0 else i - 1])
    {
      var block: Block := blocks[i];
      if block != [] && block[0].ArrayTable? {
        var name := TomlEntryName(block);
        entries := entries + {EntryKey(block[0].name, name)};
      }
      if i > 0 {
        assert tail[i - 1] == block;
        EntryKeysNext(tail, i - 1);
      }
    }
    assert tail[..|tail|] == tail;
  }

  lemma EntryKeysNext(blocks: seq<Block>, i: nat)
    requires AllBlocks(blocks) && i < |blocks|
    ensures EntryKeys(blocks[..i + 1])
         == EntryKeys(blocks[..i]) + if blocks[i][0].ArrayTable? then {BlockKey(blocks[i])} else {}
  {
    var before, after := blocks[..i], blocks[..i + 1];
    assert after == before + [blocks[i]];
    forall k | k in EntryKeys(after)
      ensures k in EntryKeys(before) || (blocks[i][0].ArrayTable? && k == BlockKey(blocks[i]))
    {
      var j :| 0 <= j < |after| && after[j][0].ArrayTable? && BlockKey(after[j]) == k;
      if j < i { assert before[j] == after[j]; }
    }
    forall k | k in EntryKeys(before)
      ensures k in EntryKeys(after)
    {
      var j :| 0 <= j < |before| && before[j][0].ArrayTable? && BlockKey(before[j]) == k;
      assert after[j] == before[j];
    }
    assert after[i] == blocks[i];
  }

  // The lines of the blocks that stay, in order.
  method KeepBlocks(blocks: seq<Block>, tableNames: set<string>, arrayEntries: set<string>) returns (kept: seq<Line>)
    requires AllBlocks(blocks)
    ensures kept == Flatten(Kept(blocks, None, tableNames, arrayEntries))
  {
    kept := [];
    var droppedArray: Option<string> := None;
    for i := 0 to |blocks|
      invariant Flatten(Kept(blocks, None, tableNames, arrayEntries))
             == kept + Flatten(Kept(blocks[i..], droppedArray, tableNames, arrayEntries))
    {
      var block := blocks[i];
      assert blocks[i..][0] == block && blocks[i..][1..] == blocks[i + 1..];
      var entryName := TomlEntryName(block);
      if droppedArray.Some? && Under(block[0].name, droppedArray.value) {
        continue;
      }
      if block[0].Table? && block[0].name in tableNames {
        droppedArray := None;
        continue;
      }
      if block[0].ArrayTable? && EntryKey(block[0].name, entryName) in arrayEntries {
        droppedArray := Some(block[0].name);
        continue;
      }
      KeepOne(block, Kept(blocks[i + 1..], None, tableNames, arrayEntries), kept);
      droppedArray := None;
      kept := kept + block;
    }
  }

  lemma KeepOne(block: Block, rest: seq<Block>, kept: seq<Line>)
    ensures kept + Flatten([block] + rest) == (kept + block) + Flatten(rest)
  {
    assert ([block] + rest)[1..] == rest;
  }

  lemma {:induction false} RootEndsAtHeader(root: seq<Line>, tail: seq<Line>)
    requires NoHeader(root) && (tail != [] ==> IsHeader(tail[0]))
    ensures HeaderIndex(root + tail) == |root|
    ensures (root + tail)[..|root|] == root && (root + tail)[|root|..] == tail
  {
    if root == [] {
      assert root + tail == tail;
    } else {
      assert (root + tail)[1..] == root[1..] + tail;
      RootEndsAtHeader(root[1..], tail);
    }
  }

  // The merge of two documents.
  method MergeToml(existing: seq<Line>, generated: seq<Line>) returns (merged: seq<Line>)
    ensures merged == Merge(existing, generated)
  {
    if AllBlank(existing) {
      return generated;
    }
    var plan := SplitTomlSections(generated);
    PlanShape(generated);
    var rootKeys, tableNames := RootKeys(plan.root), TableNames(plan.tables);
    var arrayEntries := ArrayEntries(plan.tables);
    var mine := Filter(IsContent, existing);
    var blocks := CutBlocks(mine);
    BlocksShape(mine);
    var root := RootSurvivors(blocks[0], rootKeys);
    var rest := KeepBlocks(blocks[1..], tableNames, arrayEntries);
    var kept := root + rest;
    KeptShape(existing, plan);
    BlocksOfFlatten(KeptBlocks(existing, plan));
    RootEndsAtHeader(root, rest);
    var firstTable := HeaderIndex(kept);
    var head, tail := kept[..firstTable], kept[firstTable..];
    merged := Assemble(head, plan.root, tail, plan.tables);
  }
}
