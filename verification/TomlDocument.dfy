// The line model of a TOML file and the specification of the non-destructive merge
// of cli/src/config-files.ts. A document is the sequence of its lines, that is, the
// text split at line breaks; a text ending in a line break has EMPTY as last line.
module TomlDocument {
  import opened Sequences

  // A line, classified by the line patterns of the merger.
  datatype Line =
    | Blank(spaces: string)                 // nothing but white space
    | Marker(indent: string, start: bool)   // `# freellmapi:start` or `# freellmapi:end`
    | Table(name: string)                   // `[name]`
    | ArrayTable(name: string)              // `[[name]]`
    | Text(text: string, rootKey: Option<string>, entryName: Option<string>)
      // anything else; `rootKey` is set on an unindented `key =` line, `entryName` on a
      // `name = "..."` line

  type Block = seq<Line>

  const EMPTY := Blank("")
  const START := Marker("", true)
  const END := Marker("", false)

  predicate IsInk(line: Line) { !line.Blank? }

  predicate IsHeader(line: Line) { line.Table? || line.ArrayTable? }

  predicate IsContent(line: Line) { !line.Marker? }

  predicate NoHeader(lines: seq<Line>) { forall l :: l in lines ==> !IsHeader(l) }

  predicate NoMarker(lines: seq<Line>) { forall l :: l in lines ==> !l.Marker? }

  predicate AllBlank(lines: seq<Line>) { forall l :: l in lines ==> l.Blank? }

  // The lines that are not blank: two documents with the same ink differ in blank
  // lines only.
  function Ink(lines: seq<Line>): seq<Line> { Filter(IsInk, lines) }

  // The document without marker lines.
  function Strip(lines: seq<Line>): seq<Line> { Filter(IsContent, lines) }

  // ---- Blank lines ----

  function TrimFront(lines: seq<Line>): seq<Line> {
    if lines != [] && lines[0].Blank? then TrimFront(lines[1..]) else lines
  }

  function TrimBack(lines: seq<Line>): seq<Line> {
    if lines != [] && lines[|lines| - 1].Blank? then TrimBack(lines[..|lines| - 1]) else lines
  }

  // Blank lines at both ends removed.
  function Trim(lines: seq<Line>): seq<Line> { TrimBack(TrimFront(lines)) }

  predicate Trimmed(lines: seq<Line>) {
    lines != [] ==> !lines[0].Blank? && !lines[|lines| - 1].Blank?
  }

  // Runs of empty lines reduced to one. Between two lines that are not empty this is
  // the replacement of three or more line breaks by two.
  function Collapse(lines: seq<Line>): (r: seq<Line>)
    ensures |r| <= |lines|
    ensures lines != [] ==> r != [] && r[0] == lines[0]
  {
    if |lines| < 2 then lines
    else if lines[0] == EMPTY && lines[1] == EMPTY then Collapse(lines[1..])
    else [lines[0]] + Collapse(lines[1..])
  }

  // ---- Blocks ----

  // One more line: a header opens a block, any other line extends the last one.
  function AddLine(blocks: seq<Block>, line: Line): (r: seq<Block>)
    requires blocks != []
    ensures r != []
  {
    var n := |blocks| - 1;
    if IsHeader(line) then blocks + [[line]] else blocks[..n] + [blocks[n] + [line]]
  }

  // The root region followed by one block per header line.
  function Blocks(lines: seq<Line>): (r: seq<Block>)
    ensures r != []
  {
    if lines == [] then [[]] else AddLine(Blocks(lines[..|lines| - 1]), lines[|lines| - 1])
  }

  // A header line and the lines up to the next header.
  predicate IsBlock(block: Block) {
    block != [] && IsHeader(block[0]) && NoHeader(block[1..])
  }

  predicate AllBlocks(blocks: seq<Block>) {
    forall i :: 0 <= i < |blocks| ==> IsBlock(blocks[i])
  }

  // The value of the first `name = "..."` line.
  function FirstName(lines: seq<Line>): Option<string> {
    if lines == [] || IsHeader(lines[0]) then None
    else if lines[0].Text? && lines[0].entryName.Some? then lines[0].entryName
    else FirstName(lines[1..])
  }

  // Names an entry of an array of tables. An entry without a name is spelled like one
  // named "undefined".
  function EntryKey(arrayName: string, name: Option<string>): string {
    arrayName + "\0" + (if name.Some? then name.value else "undefined")
  }

  function BlockKey(block: Block): string
    requires IsBlock(block)
  {
    EntryKey(block[0].name, FirstName(block[1..]))
  }

  // ---- What the generated document replaces ----

  datatype Plan = Plan(root: seq<Line>, tables: seq<Line>)

  // The index of the first header, or the length when there is none.
  function HeaderIndex(lines: seq<Line>): (i: nat)
    ensures i <= |lines|
    ensures NoHeader(lines[..i])
    ensures i < |lines| ==> IsHeader(lines[i])
  {
    if lines == [] || IsHeader(lines[0]) then 0 else
      var n := 1 + HeaderIndex(lines[1..]);
      assert lines[..n] == [lines[0]] + lines[1..][..n - 1];
      n
  }

  function SplitSections(generated: seq<Line>): Plan {
    var lines := Strip(generated);
    var i := HeaderIndex(lines);
    Plan(Trim(lines[..i]), Trim(lines[i..]))
  }

  function RootKeys(root: seq<Line>): set<string> {
    set l | l in root && l.Text? && l.rootKey.Some? :: l.rootKey.value
  }

  function TableNames(tables: seq<Line>): set<string> {
    set l | l in tables && l.Table? :: l.name
  }

  function EntryKeys(blocks: seq<Block>): set<string>
    requires AllBlocks(blocks)
  {
    set i | 0 <= i < |blocks| && blocks[i][0].ArrayTable? :: BlockKey(blocks[i])
  }

  predicate SetsRootKey(line: Line, keys: set<string>) {
    line.Text? && line.rootKey.Some? && line.rootKey.value in keys
  }

  // The root region without the lines that set one of `keys`.
  function RootSurvivors(root: seq<Line>, keys: set<string>): seq<Line> {
    if root == [] then [] else
      (if SetsRootKey(root[0], keys) then [] else [root[0]]) + RootSurvivors(root[1..], keys)
  }

  predicate TableHit(block: Block, names: set<string>)
    requires IsBlock(block)
  {
    block[0].Table? && block[0].name in names
  }

  predicate EntryHit(block: Block, entries: set<string>)
    requires IsBlock(block)
  {
    block[0].ArrayTable? && BlockKey(block) in entries
  }

  // Whether `name` is the name of a table inside the array `arrayName`.
  predicate Under(name: string, arrayName: string) { arrayName + "." <= name }

  // The blocks that the merge keeps; `dropped` is the array whose entry was dropped
  // last, as long as only blocks under it have followed.
  function Kept(blocks: seq<Block>, dropped: Option<string>, names: set<string>, entries: set<string>)
    : (r: seq<Block>)
    requires AllBlocks(blocks)
    ensures AllBlocks(r)
    ensures forall i :: 0 <= i < |r| ==> !TableHit(r[i], names) && !EntryHit(r[i], entries)
  {
    if blocks == [] then []
    else if dropped.Some? && Under(blocks[0][0].name, dropped.value) then
      Kept(blocks[1..], dropped, names, entries)
    else if TableHit(blocks[0], names) then Kept(blocks[1..], None, names, entries)
    else if EntryHit(blocks[0], entries) then
      Kept(blocks[1..], Some(blocks[0][0].name), names, entries)
    else [blocks[0]] + Kept(blocks[1..], None, names, entries)
  }

  // ---- Assembly ----

  // Generated lines between the two marker lines.
  function Wrap(lines: seq<Line>): seq<Line> {
    if lines == [] then [] else [START] + lines + [END]
  }

  // One section of the merged file.
  function Section(lines: seq<Line>): seq<Line> { Collapse(Trim(lines)) }

  // The sections with one empty line between neighbours.
  function JoinSections(sections: seq<seq<Line>>): (r: seq<Line>)
    requires sections != []
  {
    if |sections| == 1 then sections[0]
    else sections[0] + [EMPTY] + JoinSections(sections[1..])
  }

  predicate NotEmpty(lines: seq<Line>) { lines != [] }

  // The lines of the text made of the sections that are not empty, ended by a line break.
  function Assemble(head: seq<Line>, root: seq<Line>, tail: seq<Line>, tables: seq<Line>): seq<Line> {
    var sections := Filter(NotEmpty, [Section(head), Section(Wrap(root)), Section(tail), Section(Wrap(tables))]);
    (if sections == [] then [EMPTY] else JoinSections(sections)) + [EMPTY]
  }

  // A root region and the blocks after it.
  predicate IsSplit(blocks: seq<Block>) {
    blocks != [] && NoHeader(blocks[0]) && AllBlocks(blocks[1..])
  }

  lemma AddLineIsSplit(blocks: seq<Block>, line: Line)
    requires IsSplit(blocks)
    ensures IsSplit(AddLine(blocks, line))
    ensures Flatten(AddLine(blocks, line)) == Flatten(blocks) + [line]
  {
    var n, after := |blocks| - 1, AddLine(blocks, line);
    FlattenAppend(blocks[..n], [blocks[n]]);
    assert blocks[..n] + [blocks[n]] == blocks;
    if IsHeader(line) {
      FlattenAppend(blocks, [[line]]);
      assert after[1..] == blocks[1..] + [[line]];
    } else {
      FlattenAppend(blocks[..n], [blocks[n] + [line]]);
      if n > 0 {
        assert IsBlock(blocks[1..][n - 1]);
        assert after[n][1..] == blocks[n][1..] + [line];
        assert after[1..] == blocks[1..][n - 1 := after[n]];
      }
    }
  }

  // `Blocks` cuts a document into its root region and its blocks, and nothing is lost.
  lemma {:induction false} BlocksShape(lines: seq<Line>)
    ensures IsSplit(Blocks(lines))
    ensures Flatten(Blocks(lines)) == lines
  {
    if lines != [] {
      var front, line := lines[..|lines| - 1], lines[|lines| - 1];
      BlocksShape(front);
      assert lines == front + [line];
      AddLineIsSplit(Blocks(front), line);
      assert Blocks(lines) == AddLine(Blocks(front), line);
    }
  }

  // The blocks of a document, the root region left out.
  function TableBlocks(lines: seq<Line>): (r: seq<Block>)
    ensures AllBlocks(r)
  {
    BlocksShape(lines);
    Blocks(lines)[1..]
  }

  // The root lines of `existing` that the merge keeps.
  function KeptRoot(existing: seq<Line>, plan: Plan): seq<Line> {
    RootSurvivors(Blocks(Strip(existing))[0], RootKeys(plan.root))
  }

  // The blocks of `existing` that the merge keeps.
  function KeptBlocks(existing: seq<Line>, plan: Plan): seq<Block> {
    Kept(TableBlocks(Strip(existing)), None, TableNames(plan.tables), EntryKeys(TableBlocks(plan.tables)))
  }

  // The merge: `existing` with everything `generated` sets replaced by it.
  function Merge(existing: seq<Line>, generated: seq<Line>): seq<Line> {
    if AllBlank(existing) then generated else
      var plan := SplitSections(generated);
      Assemble(KeptRoot(existing, plan), plan.root, Flatten(KeptBlocks(existing, plan)), plan.tables)
  }
}
