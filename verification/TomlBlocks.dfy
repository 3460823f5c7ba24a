// How blocks behave under concatenation and under changes of blank lines, and which
// blocks the merge keeps.
module TomlBlocks {
  import opened Sequences
  import opened TomlDocument
  import opened TomlLayout

  lemma {:induction false} BlocksExtend(lines: seq<Line>, more: seq<Line>)
    requires NoHeader(more)
    ensures var b, n := Blocks(lines), |Blocks(lines)| - 1;
            Blocks(lines + more) == b[..n] + [b[n] + more]
  {
    var b, n := Blocks(lines), |Blocks(lines)| - 1;
    if more == [] {
      assert lines + more == lines;
      assert b[n] + more == b[n];
    } else {
      var front, line := more[..|more| - 1], more[|more| - 1];
      BlocksExtend(lines, front);
      assert (lines + more)[..|lines + more| - 1] == lines + front;
      assert b[n] + more == b[n] + front + [line];
      assert (b[..n] + [b[n] + front])[..n] == b[..n];
    }
  }

  lemma BlocksOfRoot(lines: seq<Line>)
    requires NoHeader(lines)
    ensures Blocks(lines) == [lines]
  {
    BlocksExtend([], lines);
    assert [] + lines == lines;
  }

  lemma AddLineAfter(a: seq<Block>, b: seq<Block>, line: Line)
    requires a != [] && b != []
    requires |b| > 1 || IsHeader(line)
    ensures AddLine(a + b[1..], line) == a + AddLine(b, line)[1..]
  {
    if !IsHeader(line) {
      var n := |b| - 1;
      assert b[1..][n - 1] == b[n];
      assert (a + b[1..])[..|a| + n - 1] == a + b[1..n];
    }
  }

  lemma {:induction false} StartsWithTable(b: seq<Line>)
    requires b != [] && IsHeader(b[0])
    ensures |Blocks(b)| > 1 && Blocks(b)[0] == []
  {
    var front, line := b[..|b| - 1], b[|b| - 1];
    assert Blocks(b) == AddLine(Blocks(front), line);
    if front == [] {
      assert Blocks(front) == [[]];
    } else {
      StartsWithTable(front);
    }
  }

  // A document followed by one that starts with a header.
  lemma {:induction false} BlocksAppend(a: seq<Line>, b: seq<Line>)
    requires b != [] ==> IsHeader(b[0])
    ensures Blocks(a + b) == Blocks(a) + Blocks(b)[1..]
  {
    if b == [] {
      assert a + b == a;
    } else {
      var front, line := b[..|b| - 1], b[|b| - 1];
      BlocksAppend(a, front);
      if front != [] { StartsWithTable(front); }
      assert (a + b)[..|a + b| - 1] == a + front && (a + b)[|a + b| - 1] == line;
      assert Blocks(b) == AddLine(Blocks(front), line);
      assert Blocks(a + b) == AddLine(Blocks(a + front), line);
      AddLineAfter(Blocks(a), Blocks(front), line);
    }
  }

  lemma BlocksOfHeader(line: Line)
    requires IsHeader(line)
    ensures Blocks([line]) == [[], [line]]
  {
    BlocksMore([], line);
    assert [] + [line] == [line] && [[]] + [[line]] == [[], [line]];
  }

  lemma BlocksOfBlock(block: Block)
    requires IsBlock(block)
    ensures Blocks(block) == [[], block]
  {
    BlocksOfHeader(block[0]);
    BlocksExtend([block[0]], block[1..]);
    assert [block[0]] + block[1..] == block;
  }

  lemma Splice<T>(a: T, b: T, rest: seq<T>)
    ensures [a, b] + ([a] + rest)[1..] == [a] + ([b] + rest)
  {
  }

  lemma BlocksOfFirst(first: Block, rest: seq<Block>, more: seq<Line>)
    requires IsBlock(first) && Blocks(more) == [[]] + rest && (more != [] ==> IsHeader(more[0]))
    ensures Blocks(first + more) == [[]] + ([first] + rest)
  {
    BlocksAppend(first, more);
    BlocksOfBlock(first);
    Splice([], first, rest);
  }

  lemma {:induction false} BlocksOfFlatten(blocks: seq<Block>)
    requires AllBlocks(blocks)
    ensures Blocks(Flatten(blocks)) == [[]] + blocks
    ensures blocks != [] ==> Flatten(blocks) != [] && IsHeader(Flatten(blocks)[0])
  {
    if blocks != [] {
      BlocksOfFlatten(blocks[1..]);
      BlocksOfFirst(blocks[0], blocks[1..], Flatten(blocks[1..]));
      assert blocks == [blocks[0]] + blocks[1..];
    }
  }

  function InkEach(blocks: seq<Block>): seq<Block> {
    seq(|blocks|, i requires 0 <= i < |blocks| => Ink(blocks[i]))
  }

  lemma InkEachAppend(a: seq<Block>, block: Block)
    ensures InkEach(a + [block]) == InkEach(a) + [Ink(block)]
  {
  }

  lemma AddLineInk(blocks: seq<Block>, line: Line)
    requires blocks != []
    ensures InkEach(AddLine(blocks, line))
         == if line.Blank? then InkEach(blocks) else AddLine(InkEach(blocks), line)
  {
    var n := |blocks| - 1;
    var before, last := blocks[..n], blocks[n];
    assert before + [last] == blocks;
    InkEachAppend(before, last);
    var one := Ink([line]);
    assert one == if line.Blank? then [] else [line];
    if IsHeader(line) {
      InkEachAppend(blocks, [line]);
    } else {
      InkAppend(last, [line]);
      InkEachAppend(before, last + [line]);
      assert line.Blank? ==> Ink(last + [line]) == Ink(last);
      assert InkEach(blocks)[..n] == InkEach(before);
    }
  }

  // Cutting into blocks and dropping blank lines commute.
  lemma InkMore(front: seq<Line>, line: Line)
    ensures Ink(front + [line]) == if line.Blank? then Ink(front) else Ink(front) + [line]
  {
    InkAppend(front, [line]);
    assert [line][1..] == [];
    assert Ink(front) + [] == Ink(front);
  }

  lemma BlocksMore(front: seq<Line>, line: Line)
    ensures Blocks(front + [line]) == AddLine(Blocks(front), line)
  {
    assert (front + [line])[..|front|] == front;
  }

  lemma {:induction false} BlocksOfInk(lines: seq<Line>)
    ensures Blocks(Ink(lines)) == InkEach(Blocks(lines))
  {
    if lines == [] {
      assert InkEach([[]]) == [[]];
    } else {
      var front, line := lines[..|lines| - 1], lines[|lines| - 1];
      assert lines == front + [line];
      BlocksOfInk(front);
      InkMore(front, line);
      BlocksMore(front, line);
      BlocksMore(Ink(front), line);
      AddLineInk(Blocks(front), line);
    }
  }

  lemma {:induction false} FirstNameOfInk(lines: seq<Line>)
    ensures FirstName(Ink(lines)) == FirstName(lines)
  {
    if lines != [] {
      FirstNameOfInk(lines[1..]);
      var rest := Ink(lines[1..]);
      if lines[0].Blank? {
        assert Ink(lines) == rest;
      } else {
        assert Ink(lines) == [lines[0]] + rest;
        assert ([lines[0]] + rest)[1..] == rest;
      }
    }
  }

  predicate Hit(block: Block, names: set<string>, entries: set<string>)
    requires IsBlock(block)
  {
    TableHit(block, names) || EntryHit(block, entries)
  }

  // Whether a block is replaced does not depend on its blank lines.
  lemma HitOfInk(block: Block, names: set<string>, entries: set<string>)
    requires IsBlock(block)
    ensures IsBlock(Ink(block)) && Ink(block)[0] == block[0]
    ensures TableHit(Ink(block), names) == TableHit(block, names)
    ensures EntryHit(Ink(block), entries) == EntryHit(block, entries)
  {
    assert Ink(block) == [block[0]] + Ink(block[1..]);
    assert Ink(block)[1..] == Ink(block[1..]);
    FilterMembers(IsInk, block[1..]);
    FirstNameOfInk(block[1..]);
  }

  predicate NoHit(blocks: seq<Block>, names: set<string>, entries: set<string>)
    requires AllBlocks(blocks)
  {
    forall i :: 0 <= i < |blocks| ==> !Hit(blocks[i], names, entries)
  }

  predicate AllHit(blocks: seq<Block>, names: set<string>, entries: set<string>)
    requires AllBlocks(blocks)
  {
    forall i :: 0 <= i < |blocks| ==> Hit(blocks[i], names, entries)
  }

  lemma {:induction false} KeptBefore(a: seq<Block>, b: seq<Block>, names: set<string>, entries: set<string>)
    requires AllBlocks(a) && AllBlocks(b) && AllBlocks(a + b)
    requires NoHit(a, names, entries)
    ensures Kept(a + b, None, names, entries) == a + Kept(b, None, names, entries)
  {
    if a == [] {
      assert a + b == b;
    } else {
      assert (a + b)[1..] == a[1..] + b;
      assert (a + b)[0] == a[0];
      KeptBefore(a[1..], b, names, entries);
    }
  }

  lemma {:induction false} KeptNothing(b: seq<Block>, dropped: Option<string>, names: set<string>, entries: set<string>)
    requires AllBlocks(b) && AllHit(b, names, entries)
    ensures Kept(b, dropped, names, entries) == []
  {
    if b != [] {
      assert Hit(b[0], names, entries);
      var next := if dropped.Some? && Under(b[0][0].name, dropped.value) then dropped
                  else if TableHit(b[0], names) then None else Some(b[0][0].name);
      KeptNothing(b[1..], next, names, entries);
    }
  }

  // Every generated block is one that the merge would replace.
  lemma GeneratedAllHit(tables: seq<Line>)
    ensures AllHit(TableBlocks(tables), TableNames(tables), EntryKeys(TableBlocks(tables)))
  {
    BlocksShape(tables);
    var b := TableBlocks(tables);
    forall i | 0 <= i < |b|
      ensures Hit(b[i], TableNames(tables), EntryKeys(b))
    {
      assert Blocks(tables)[i + 1] == b[i];
      InFlatten(Blocks(tables), i + 1);
      assert b[i][0] in tables;
    }
  }

  lemma {:induction false} InFlatten<T>(blocks: seq<seq<T>>, i: nat)
    requires i < |blocks|
    ensures forall x :: x in blocks[i] ==> x in Flatten(blocks)
  {
    if i > 0 {
      InFlatten(blocks[1..], i - 1);
    }
  }
}
