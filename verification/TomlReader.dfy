// What the doctor command reads back from a merged TOML file: cli/src/doctor.ts,
// `sectionValue`.
module TomlReader {
  import opened Sequences
  import opened Text
  import opened TomlSyntax
  import T = TomlDocument
  import L = TomlLayout
  import I = TomlIdempotence
  import F = TomlFrame
  import X = TomlText

  // ---- The reader, on strings ----

  // The section a trimmed line opens.
  function HeaderOf(line: string): Option<string> {
    if IsTableText(line) then Some(Trim(line[1..|line| - 1])) else None
  }

  predicate NotQuote(c: char) { c != '"' && c != '\'' }

  // The quoted value that a trimmed line gives to `key`.
  function SettingOf(line: string, key: string): Option<string> {
    if !(key <= line) then None else
      var u := TrimStart(line[|key|..]);
      if !("=" <= u) then None else
        var v := TrimStart(u[1..]);
        if v == "" || NotQuote(v[0]) then None else
          var n := Run(v[1..], NotQuote);
          if n == 0 || n == |v| - 1 then None else Some(v[1..][..n])
  }

  function Read(lines: seq<string>, inSection: bool, section: string, key: string): Option<string> {
    if lines == [] then None else
      var line := Trim(lines[0]);
      var header := HeaderOf(line);
      if header.Some? then Read(lines[1..], header.value == section, section, key)
      else if inSection && SettingOf(line, key).Some? then SettingOf(line, key)
      else Read(lines[1..], inSection, section, key)
  }

  // ---- The reader, on classified lines ----

  function LineHeader(line: Line): Option<string> { HeaderOf(Trim(Render(line))) }

  function LineSetting(line: Line, key: string): Option<string> { SettingOf(Trim(Render(line)), key) }

  function Scan(lines: seq<Line>, inSection: bool, section: string, key: string): Option<string> {
    if lines == [] then None
    else if LineHeader(lines[0]).Some? then
      Scan(lines[1..], LineHeader(lines[0]).value == section, section, key)
    else if inSection && LineSetting(lines[0], key).Some? then LineSetting(lines[0], key)
    else Scan(lines[1..], inSection, section, key)
  }

  lemma {:induction false} ReadIsScan(lines: seq<Line>, inSection: bool, section: string, key: string)
    ensures Read(RenderAll(lines), inSection, section, key) == Scan(lines, inSection, section, key)
  {
    if lines != [] {
      assert RenderAll(lines)[0] == Render(lines[0]) && RenderAll(lines)[1..] == RenderAll(lines[1..]);
      ReadIsScan(lines[1..], true, section, key);
      ReadIsScan(lines[1..], false, section, key);
    }
  }

  // The reader and the merger take the same lines for table headers, with the same names.
  predicate Unpadded(lines: seq<Line>) {
    forall l :: l in lines ==> LineHeader(l) == if l.Table? then Some(l.name) else None
  }

  predicate NoArrays(lines: seq<Line>) { forall l :: l in lines ==> !l.ArrayTable? }

  // ---- Blank lines and markers are not read ----

  ghost predicate Quiet(line: Line) {
    LineHeader(line) == None && forall key :: LineSetting(line, key) == None
  }

  lemma SettingNeedsEquals(line: string, key: string)
    requires '=' !in line
    ensures SettingOf(line, key) == None
  {
    if key <= line {
      TrimStartSuffix(line[|key|..]);
      var u := TrimStart(line[|key|..]);
      assert u != "" ==> u[0] in u;
      assert forall c :: c in line[|key|..] ==> c in line;
    }
  }

  lemma {:induction false} TrimIndent(indent: string, body: string)
    requires forall c :: c in indent ==> IsIndent(c)
    requires body != "" && !IsSpace(body[0])
    ensures TrimStart(indent + body) == body
  {
    if indent == "" {
      assert indent + body == body;
    } else {
      assert (indent + body)[1..] == indent[1..] + body;
      assert indent[0] in indent;
      TrimIndent(indent[1..], body);
    }
  }

  lemma MarkerBodies(body: string)
    requires body == START_TEXT || body == END_TEXT
    ensures |body| >= 16 && body[0] == '#' && !IsSpace(body[|body| - 1])
    ensures '=' !in body
  {
  }

  lemma IndentIsTrimmed(indent: string, body: string)
    requires forall i :: 0 <= i < |indent| ==> IsIndent(indent[i])
    requires body != "" && !IsSpace(body[0]) && !IsSpace(body[|body| - 1])
    ensures Trim(indent + body) == body
  {
    TrimIndent(indent, body);
  }

  lemma QuietBody(line: Line, body: string)
    requires Trim(Render(line)) == body && body != "" && body[0] == '#' && '=' !in body
    ensures Quiet(line)
  {
    forall key
      ensures LineSetting(line, key) == None
    {
      SettingNeedsEquals(body, key);
    }
  }

  lemma MarkerRendered(line: Line, body: string)
    requires line.Marker? && Proper(line) && body == if line.start then START_TEXT else END_TEXT
    ensures Render(line) == line.indent + body && forall i :: 0 <= i < |line.indent| ==> IsIndent(line.indent[i])
  {
    var s := Render(line);
    assert line.indent == s[..Run(s, IsIndent)];
  }

  lemma QuietMarker(line: Line)
    requires line.Marker? && Proper(line)
    ensures Quiet(line)
  {
    var body := if line.start then START_TEXT else END_TEXT;
    MarkerBodies(body);
    MarkerRendered(line, body);
    IndentIsTrimmed(line.indent, body);
    QuietBody(line, body);
  }

  lemma QuietBlank(line: Line)
    requires line.Blank? && Proper(line)
    ensures Quiet(line)
  {
    assert Trim(Render(line)) == "";
    forall key
      ensures LineSetting(line, key) == None
    {
      SettingNeedsEquals("", key);
    }
  }

  predicate Heard(line: Line) { T.IsInk(line) && T.IsContent(line) }

  lemma HeardStep(first: Line, rest: seq<Line>)
    ensures T.Ink(T.Strip([first] + rest))
         == if Heard(first) then [first] + T.Ink(T.Strip(rest)) else T.Ink(T.Strip(rest))
  {
    FilterAppend(T.IsContent, [first], rest);
    FilterAppend(T.IsInk, T.Strip([first]), T.Strip(rest));
  }

  lemma ScanStep(first: Line, rest: seq<Line>, inSection: bool, section: string, key: string)
    ensures Scan([first] + rest, inSection, section, key)
         == if LineHeader(first).Some? then Scan(rest, LineHeader(first).value == section, section, key)
            else if inSection && LineSetting(first, key).Some? then LineSetting(first, key)
            else Scan(rest, inSection, section, key)
  {
    assert ([first] + rest)[1..] == rest;
  }

  predicate OthersSilent(lines: seq<Line>, key: string) {
    forall l :: l in lines && !Heard(l) ==> LineHeader(l) == None && LineSetting(l, key) == None
  }

  lemma ProperSilent(lines: seq<Line>, key: string)
    requires AllProper(lines)
    ensures OthersSilent(lines, key)
  {
    forall l | l in lines && !Heard(l)
      ensures LineHeader(l) == None && LineSetting(l, key) == None
    {
      if l.Marker? { QuietMarker(l); } else { QuietBlank(l); }
    }
  }

  lemma {:induction false} ScanSilent(lines: seq<Line>, inSection: bool, section: string, key: string)
    requires OthersSilent(lines, key)
    ensures Scan(T.Ink(T.Strip(lines)), inSection, section, key) == Scan(lines, inSection, section, key)
  {
    if lines != [] {
      var first, rest := lines[0], lines[1..];
      assert first in lines && lines == [first] + rest;
      ScanSilent(rest, true, section, key);
      ScanSilent(rest, false, section, key);
      HeardStep(first, rest);
      ScanStep(first, rest, inSection, section, key);
      if Heard(first) {
        ScanStep(first, T.Ink(T.Strip(rest)), inSection, section, key);
      } else {
        assert LineHeader(first) == None && LineSetting(first, key) == None;
      }
    }
  }

  // Blank lines and markers do not matter to the reader.
  lemma ScanHeard(lines: seq<Line>, inSection: bool, section: string, key: string)
    requires AllProper(lines)
    ensures Scan(T.Ink(T.Strip(lines)), inSection, section, key) == Scan(lines, inSection, section, key)
  {
    ProperSilent(lines, key);
    ScanSilent(lines, inSection, section, key);
  }

  // ---- Skipping and cutting off ----

  predicate NotOpened(lines: seq<Line>, section: string) {
    forall l :: l in lines ==> LineHeader(l) != Some(section)
  }

  // Lines that do not open the section are skipped.
  lemma {:induction false} ScanSkips(before: seq<Line>, lines: seq<Line>, section: string, key: string)
    requires NotOpened(before, section)
    ensures Scan(before + lines, false, section, key) == Scan(lines, false, section, key)
  {
    if before == [] {
      assert before + lines == lines;
    } else {
      assert (before + lines)[0] == before[0] && (before + lines)[1..] == before[1..] + lines;
      assert before[0] in before;
      ScanSkips(before[1..], lines, section, key);
    }
  }

  // ---- Reading the merged file ----

  lemma RegionsOfMerge(existing: seq<Line>, generated: seq<Line>)
    requires !T.AllBlank(existing)
    ensures var plan := T.SplitSections(generated);
            T.Ink(T.Strip(T.Merge(existing, generated)))
            == (T.Ink(T.KeptRoot(existing, plan)) + T.Ink(plan.root))
               + (T.Ink(Flatten(T.KeptBlocks(existing, plan))) + T.Ink(plan.tables))
  {
    var plan := T.SplitSections(generated);
    I.PlanShape(generated);
    I.KeptShape(existing, plan);
    F.StripInkOfAssemble(T.KeptRoot(existing, plan), plan.root, Flatten(T.KeptBlocks(existing, plan)), plan.tables);
  }

  lemma RootsNotOpened(existing: seq<Line>, generated: seq<Line>, section: string)
    requires Unpadded(existing) && Unpadded(generated)
    ensures var plan := T.SplitSections(generated);
            NotOpened(T.Ink(T.KeptRoot(existing, plan)) + T.Ink(plan.root), section)
  {
    var plan := T.SplitSections(generated);
    I.PlanShape(generated);
    I.PlanFrom(generated);
    I.KeptShape(existing, plan);
    I.KeptFrom(existing, plan);
    FilterMembers(T.IsInk, T.KeptRoot(existing, plan));
    FilterMembers(T.IsInk, plan.root);
  }

  lemma ScanMerged(existing: seq<Line>, generated: seq<Line>, section: string, key: string)
    requires AllProper(existing) && AllProper(generated) && !T.AllBlank(existing)
    requires Unpadded(existing) && Unpadded(generated)
    ensures Scan(T.Merge(existing, generated), false, section, key) == Scan(
              T.Ink(Flatten(T.KeptBlocks(existing, T.SplitSections(generated))))
              + T.Ink(T.SplitSections(generated).tables), false, section, key)
  {
    var plan := T.SplitSections(generated);
    X.MergeProper(existing, generated);
    ScanHeard(T.Merge(existing, generated), false, section, key);
    RegionsOfMerge(existing, generated);
    RootsNotOpened(existing, generated, section);
    ScanSkips(T.Ink(T.KeptRoot(existing, plan)) + T.Ink(plan.root),
              T.Ink(Flatten(T.KeptBlocks(existing, plan))) + T.Ink(plan.tables), section, key);
  }

  lemma InkFromHeader(lines: seq<Line>, i: nat)
    requires i == T.HeaderIndex(lines)
    ensures T.Ink(lines) == T.Ink(lines[..i]) + T.Ink(T.Trim(lines[i..]))
    ensures T.NoHeader(T.Ink(lines[..i])) && forall l :: l in T.Ink(lines[..i]) ==> l in lines
  {
    assert lines == lines[..i] + lines[i..];
    L.InkAppend(lines[..i], lines[i..]);
    L.InkOfTrim(lines[i..]);
    FilterMembers(T.IsInk, lines[..i]);
  }

  lemma ScanGenerated(generated: seq<Line>, section: string, key: string)
    requires AllProper(generated) && Unpadded(generated)
    ensures Scan(generated, false, section, key)
         == Scan(T.Ink(T.SplitSections(generated).tables), false, section, key)
  {
    var lines := T.Strip(generated);
    var i := T.HeaderIndex(lines);
    ScanHeard(generated, false, section, key);
    FilterMembers(T.IsContent, generated);
    InkFromHeader(lines, i);
    ScanSkips(T.Ink(lines[..i]), T.Ink(T.Trim(lines[i..])), section, key);
  }

  lemma KeptNotOpened(existing: seq<Line>, plan: T.Plan, section: string)
    requires Unpadded(existing) && section in T.TableNames(plan.tables)
    ensures NotOpened(Flatten(T.KeptBlocks(existing, plan)), section)
  {
    I.KeptFrom(existing, plan);
    NoneNamed(T.KeptBlocks(existing, plan), section);
  }

  lemma {:induction false} NoneNamed(blocks: seq<T.Block>, section: string)
    requires T.AllBlocks(blocks)
    requires forall i :: 0 <= i < |blocks| ==> !T.TableHit(blocks[i], {section})
    ensures forall l :: l in Flatten(blocks) ==> l != T.Table(section)
  {
    if blocks != [] {
      assert !T.TableHit(blocks[0], {section});
      assert blocks[0] == [blocks[0][0]] + blocks[0][1..];
      NoneNamed(blocks[1..], section);
    }
  }

  // For a generated table the doctor reads what the generated document says, whatever the
  // existing file held.
  lemma ReadsGenerated(existing: seq<Line>, generated: seq<Line>, section: string, key: string)
    requires AllProper(existing) && AllProper(generated)
    requires Unpadded(existing) && Unpadded(generated)
    requires section in T.TableNames(T.SplitSections(generated).tables)
    ensures Scan(T.Merge(existing, generated), false, section, key) == Scan(generated, false, section, key)
  {
    if !T.AllBlank(existing) {
      var plan := T.SplitSections(generated);
      var tail := Flatten(T.KeptBlocks(existing, plan));
      ScanMerged(existing, generated, section, key);
      ScanGenerated(generated, section, key);
      KeptNotOpened(existing, plan, section);
      FilterMembers(T.IsInk, tail);
      ScanSkips(T.Ink(tail), T.Ink(plan.tables), section, key);
    }
  }

  lemma StartsWithHeader(blocks: seq<T.Block>)
    requires T.AllBlocks(blocks) && Flatten(blocks) != []
    ensures exists l :: l in Flatten(blocks) && T.IsHeader(l)
  {
    assert blocks[0] == [blocks[0][0]] + blocks[0][1..];
    assert blocks[0][0] in Flatten(blocks);
  }

  // ---- Reading block by block ----

  // The first value that lines without table headers give to `key`.
  function FirstSetting(lines: seq<Line>, key: string): Option<string> {
    if lines == [] then None
    else if LineSetting(lines[0], key).Some? then LineSetting(lines[0], key)
    else FirstSetting(lines[1..], key)
  }

  // The value a block gives to `key`: the header of a table is no setting.
  function BlockSetting(block: T.Block, key: string): Option<string>
    requires T.IsBlock(block)
  {
    FirstSetting(if block[0].Table? then block[1..] else block, key)
  }

  // Whether the section is open within a block and behind it. Only tables open and close it.
  predicate Opens(block: T.Block, open: bool, section: string)
    requires T.IsBlock(block)
  {
    if block[0].Table? then block[0].name == section else open
  }

  lemma {:induction false} ScanBody(body: seq<Line>, rest: seq<Line>, open: bool, section: string, key: string)
    requires forall l :: l in body ==> LineHeader(l) == None
    ensures Scan(body + rest, open, section, key)
         == if open && FirstSetting(body, key).Some? then FirstSetting(body, key) else Scan(rest, open, section, key)
  {
    if body == [] {
      assert body + rest == rest;
    } else {
      assert body + rest == [body[0]] + (body[1..] + rest) && body[0] in body;
      ScanStep(body[0], body[1..] + rest, open, section, key);
      ScanBody(body[1..], rest, open, section, key);
    }
  }

  lemma ScanBlock(block: T.Block, rest: seq<Line>, open: bool, section: string, key: string)
    requires T.IsBlock(block) && Unpadded(block)
    ensures Scan(block + rest, open, section, key)
         == if Opens(block, open, section) && BlockSetting(block, key).Some? then BlockSetting(block, key)
            else Scan(rest, Opens(block, open, section), section, key)
  {
    var header, body := block[0], block[1..];
    assert header in block && block == [header] + body;
    if header.Table? {
      Associate([header], body, rest);
      ScanStep(header, body + rest, open, section, key);
      ScanBody(body, rest, header.name == section, section, key);
    } else {
      ScanBody(block, rest, open, section, key);
    }
  }

  // ---- Other tables ----

  // Whether the merge drops a block, given the array entry it dropped last.
  predicate Gone(block: T.Block, dropped: Option<string>, names: set<string>, entries: set<string>)
    requires T.IsBlock(block)
  {
    (dropped.Some? && T.Under(block[0].name, dropped.value)) || T.TableHit(block, names) || T.EntryHit(block, entries)
  }

  // The first block of the existing file that is read for the section before the merge is the
  // first one that is read for it afterwards, or there is none before and none afterwards. `was`
  // and `now` say whether the section is open in the existing and in the merged file.
  predicate ReadAlike(blocks: seq<T.Block>, dropped: Option<string>, names: set<string>, entries: set<string>,
          was: bool, now: bool, section: string, key: string)
    requires T.AllBlocks(blocks)
  {
    if blocks == [] then true
    else
      var b := blocks[0];
      var gone := Gone(b, dropped, names, entries);
      var before, after := Opens(b, was, section), if gone then now else Opens(b, now, section);
      if BlockSetting(b, key).Some? && (before || (!gone && after)) then before && !gone && after
      else
        ReadAlike(blocks[1..], F.NextDropped(b, dropped, names, entries), names, entries, before, after, section, key)
  }

  lemma UnpaddedParts(blocks: seq<T.Block>)
    requires blocks != [] && Unpadded(Flatten(blocks))
    ensures Unpadded(blocks[0]) && Unpadded(Flatten(blocks[1..]))
  {
  }

  lemma KeptNext(blocks: seq<T.Block>, dropped: Option<string>, names: set<string>, entries: set<string>)
    requires T.AllBlocks(blocks) && blocks != []
    ensures var b := blocks[0];
            var kept := T.Kept(blocks[1..], F.NextDropped(b, dropped, names, entries), names, entries);
            T.Kept(blocks, dropped, names, entries)
            == if Gone(b, dropped, names, entries) then kept else [b] + kept
  {
  }

  lemma FlattenFirst(first: T.Block, rest: seq<T.Block>)
    ensures Flatten([first] + rest) == first + Flatten(rest)
  {
    assert ([first] + rest)[1..] == rest;
  }

  // Reading on behind the first block, in the existing file and in what is kept of it.
  lemma ScanFirst(blocks: seq<T.Block>, dropped: Option<string>, names: set<string>, entries: set<string>,
          was: bool, now: bool, section: string, key: string)
    requires T.AllBlocks(blocks) && blocks != [] && Unpadded(Flatten(blocks))
    ensures var b, rest, value := blocks[0], blocks[1..], BlockSetting(blocks[0], key);
            var gone := Gone(b, dropped, names, entries);
            var kept := T.Kept(rest, F.NextDropped(b, dropped, names, entries), names, entries);
            var before, after := Opens(b, was, section), if gone then now else Opens(b, now, section);
      && Scan(Flatten(blocks), was, section, key)
         == (if before && value.Some? then value else Scan(Flatten(rest), before, section, key))
      && Scan(Flatten(T.Kept(blocks, dropped, names, entries)), now, section, key)
         == if !gone && after && value.Some? then value else Scan(Flatten(kept), after, section, key)
  {
    var b, rest := blocks[0], blocks[1..];
    UnpaddedParts(blocks);
    KeptNext(blocks, dropped, names, entries);
    ScanBlock(b, Flatten(rest), was, section, key);
    if !Gone(b, dropped, names, entries) {
      var kept := T.Kept(rest, F.NextDropped(b, dropped, names, entries), names, entries);
      FlattenFirst(b, kept);
      ScanBlock(b, Flatten(kept), now, section, key);
    }
  }

  lemma {:induction false} ScanKept(blocks: seq<T.Block>, dropped: Option<string>, names: set<string>,
          entries: set<string>, was: bool, now: bool, section: string, key: string)
    requires T.AllBlocks(blocks) && Unpadded(Flatten(blocks))
    requires ReadAlike(blocks, dropped, names, entries, was, now, section, key)
    ensures Scan(Flatten(T.Kept(blocks, dropped, names, entries)), now, section, key)
         == Scan(Flatten(blocks), was, section, key)
  {
    if blocks != [] {
      var b := blocks[0];
      var gone := Gone(b, dropped, names, entries);
      var before, after := Opens(b, was, section), if gone then now else Opens(b, now, section);
      UnpaddedParts(blocks);
      ScanFirst(blocks, dropped, names, entries, was, now, section, key);
      if !(BlockSetting(b, key).Some? && (before || (!gone && after))) {
        ScanKept(blocks[1..], F.NextDropped(b, dropped, names, entries), names, entries, before, after, section, key);
      }
    }
  }

  // The blocks that set the key give it different values.
  predicate Different(blocks: seq<T.Block>, key: string)
    requires T.AllBlocks(blocks)
  {
    blocks != [] ==> GivesOther(blocks[1..], BlockSetting(blocks[0], key), key) && Different(blocks[1..], key)
  }

  // No block gives the key this value.
  predicate GivesOther(blocks: seq<T.Block>, value: Option<string>, key: string)
    requires T.AllBlocks(blocks)
  {
    value.Some? ==> forall i :: 0 <= i < |blocks| ==> BlockSetting(blocks[i], key) != value
  }

  lemma GivesOtherRest(blocks: seq<T.Block>, value: Option<string>, key: string)
    requires T.AllBlocks(blocks) && blocks != [] && GivesOther(blocks, value, key)
    ensures GivesOther(blocks[1..], value, key) && (value.Some? ==> BlockSetting(blocks[0], key) != value)
  {
  }

  // A value that no block gives is read neither before nor after the merge.
  lemma {:induction false} OtherIsRead(blocks: seq<T.Block>, dropped: Option<string>, names: set<string>,
          entries: set<string>, was: bool, now: bool, value: Option<string>, section: string, key: string)
    requires T.AllBlocks(blocks) && Unpadded(Flatten(blocks)) && value.Some? && GivesOther(blocks, value, key)
    ensures Scan(Flatten(T.Kept(blocks, dropped, names, entries)), now, section, key) != value
    ensures Scan(Flatten(blocks), was, section, key) != value
  {
    if blocks != [] {
      var b := blocks[0];
      var gone := Gone(b, dropped, names, entries);
      var before, after := Opens(b, was, section), if gone then now else Opens(b, now, section);
      UnpaddedParts(blocks);
      GivesOtherRest(blocks, value, key);
      ScanFirst(blocks, dropped, names, entries, was, now, section, key);
      OtherIsRead(blocks[1..], F.NextDropped(b, dropped, names, entries), names, entries, before, after, value,
                  section, key);
    }
  }

  // When the values differ, different blocks are read before and after the merge, or one in one
  // of them only.
  lemma {:induction false} ScanUnlike(blocks: seq<T.Block>, dropped: Option<string>, names: set<string>,
          entries: set<string>, was: bool, now: bool, section: string, key: string)
    requires T.AllBlocks(blocks) && Unpadded(Flatten(blocks)) && Different(blocks, key)
    requires !ReadAlike(blocks, dropped, names, entries, was, now, section, key)
    ensures Scan(Flatten(T.Kept(blocks, dropped, names, entries)), now, section, key)
         != Scan(Flatten(blocks), was, section, key)
  {
    var b := blocks[0];
    var gone := Gone(b, dropped, names, entries);
    var before, after := Opens(b, was, section), if gone then now else Opens(b, now, section);
    var next, value := F.NextDropped(b, dropped, names, entries), BlockSetting(b, key);
    UnpaddedParts(blocks);
    ScanFirst(blocks, dropped, names, entries, was, now, section, key);
    if value.Some? && (before || (!gone && after)) {
      OtherIsRead(blocks[1..], next, names, entries, before, after, value, section, key);
    } else {
      ScanUnlike(blocks[1..], next, names, entries, before, after, section, key);
    }
  }

  // Without array entries that is so for every table that is not generated.
  lemma {:induction false} TablesReadAlike(blocks: seq<T.Block>, names: set<string>, entries: set<string>,
          was: bool, now: bool, section: string, key: string)
    requires T.AllBlocks(blocks) && NoArrays(Flatten(blocks)) && section !in names
    ensures ReadAlike(blocks, None, names, entries, was, now, section, key)
  {
    if blocks != [] {
      var b := blocks[0];
      assert b[0] in b && b[0] in Flatten(blocks) && b[0].Table?;
      var gone := T.TableHit(b, names);
      TablesReadAlike(blocks[1..], names, entries, Opens(b, was, section),
                      if gone then now else Opens(b, now, section), section, key);
    }
  }

  // Whether the section is open behind a line, and behind lines.
  predicate OpenBehind(line: Line, open: bool, section: string) {
    if LineHeader(line).Some? then LineHeader(line).value == section else open
  }

  predicate OpenAfter(lines: seq<Line>, open: bool, section: string) {
    if lines == [] then open else OpenAfter(lines[1..], OpenBehind(lines[0], open, section), section)
  }

  lemma {:induction false} ScanAppend(a: seq<Line>, b: seq<Line>, open: bool, section: string, key: string)
    ensures Scan(a + b, open, section, key)
         == if Scan(a, open, section, key).Some? then Scan(a, open, section, key)
            else Scan(b, OpenAfter(a, open, section), section, key)
  {
    if a == [] {
      assert a + b == b;
    } else {
      assert a + b == [a[0]] + (a[1..] + b) && a == [a[0]] + a[1..];
      ScanStep(a[0], a[1..] + b, open, section, key);
      ScanStep(a[0], a[1..], open, section, key);
      ScanAppend(a[1..], b, OpenBehind(a[0], open, section), section, key);
    }
  }

  lemma OpenAfterStep(first: Line, rest: seq<Line>, open: bool, section: string)
    ensures OpenAfter([first] + rest, open, section)
         == OpenAfter(rest, OpenBehind(first, open, section), section)
  {
    assert ([first] + rest)[1..] == rest;
  }

  // Blank lines open and close nothing.
  lemma {:induction false} OpenAfterInk(lines: seq<Line>, open: bool, section: string)
    requires AllProper(lines)
    ensures OpenAfter(T.Ink(lines), open, section) == OpenAfter(lines, open, section)
  {
    if lines != [] {
      var first, rest := lines[0], lines[1..];
      var next := OpenBehind(first, open, section);
      assert lines == [first] + rest && first in lines;
      OpenAfterInk(rest, next, section);
      OpenAfterStep(first, rest, open, section);
      L.InkAppend([first], rest);
      if first.Blank? {
        QuietBlank(first);
        assert T.Ink([first]) == [];
        assert [] + T.Ink(rest) == T.Ink(rest);
      } else {
        assert T.Ink([first]) == [first];
        OpenAfterStep(first, T.Ink(rest), open, section);
      }
    }
  }

  lemma ScanExisting(existing: seq<Line>, section: string, key: string)
    requires AllProper(existing) && Unpadded(existing)
    ensures Scan(existing, false, section, key)
         == Scan(Flatten(T.TableBlocks(T.Strip(existing))), false, section, key)
  {
    var mine := T.Strip(existing);
    FilterMembers(T.IsContent, existing);
    T.BlocksShape(mine);
    FilterCommutes(T.IsContent, T.IsContent, existing);
    FilterAll(T.IsContent, mine);
    ScanHeard(existing, false, section, key);
    ScanHeard(mine, false, section, key);
    var root := T.Blocks(mine)[0];
    assert mine == root + Flatten(T.TableBlocks(mine));
    ScanSkips(root, Flatten(T.TableBlocks(mine)), section, key);
  }

  // The existing file keeps what is read for a section, up to what the generated document
  // appends.
  predicate KeepsReading(existing: seq<Line>, generated: seq<Line>, section: string, key: string) {
    var tables := T.SplitSections(generated).tables;
    ReadAlike(T.TableBlocks(T.Strip(existing)), None, T.TableNames(tables), T.EntryKeys(T.TableBlocks(tables)),
              false, false, section, key)
  }

  // What the merge keeps of the tables of the existing file.
  function Tail(existing: seq<Line>, generated: seq<Line>): seq<Line> {
    Flatten(T.KeptBlocks(existing, T.SplitSections(generated)))
  }

  // The merged file ends what it keeps of the existing one within the section.
  predicate EndsOpen(existing: seq<Line>, generated: seq<Line>, section: string) {
    OpenAfter(Tail(existing, generated), false, section)
  }

  // What the generated array entries before the first generated table give to the key.
  function Appended(generated: seq<Line>, section: string, key: string): Option<string> {
    Scan(T.SplitSections(generated).tables, true, section, key)
  }

  lemma TailRead(existing: seq<Line>, generated: seq<Line>, section: string, key: string)
    requires AllProper(existing)
    ensures var tail := Tail(existing, generated);
      && Scan(T.Ink(tail), false, section, key) == Scan(tail, false, section, key)
      && OpenAfter(T.Ink(tail), false, section) == EndsOpen(existing, generated, section)
  {
    var plan := T.SplitSections(generated);
    var tail := Tail(existing, generated);
    I.KeptFrom(existing, plan);
    I.KeptShape(existing, plan);
    ScanHeard(tail, false, section, key);
    FilterAll(T.IsContent, tail);
    OpenAfterInk(tail, false, section);
  }

  lemma TablesRead(generated: seq<Line>, open: bool, section: string, key: string)
    requires AllProper(generated) && Unpadded(generated)
    requires section !in T.TableNames(T.SplitSections(generated).tables)
    ensures var tables := T.SplitSections(generated).tables;
            Scan(T.Ink(tables), open, section, key) == if open then Appended(generated, section, key) else None
  {
    var tables := T.SplitSections(generated).tables;
    I.PlanShape(generated);
    I.PlanFrom(generated);
    ScanHeard(tables, open, section, key);
    FilterAll(T.IsContent, tables);
    if !open {
      forall l | l in tables
        ensures LineHeader(l) != Some(section)
      {
        assert l.Table? ==> l.name in T.TableNames(tables);
      }
      ScanSkips(tables, [], section, key);
      assert tables + [] == tables;
    }
  }

  // For a table that is not generated the doctor reads the kept part, and then what is appended
  // to it.
  lemma MergedRead(existing: seq<Line>, generated: seq<Line>, section: string, key: string)
    requires AllProper(existing) && AllProper(generated) && Unpadded(existing) && Unpadded(generated)
    requires section !in T.TableNames(T.SplitSections(generated).tables)
    ensures var kept := Scan(Tail(existing, generated), false, section, key);
            Scan(T.Merge(existing, generated), false, section, key)
            == if kept.Some? then kept
               else if EndsOpen(existing, generated, section) then Appended(generated, section, key) else None
  {
    var plan := T.SplitSections(generated);
    var tail := Tail(existing, generated);
    TablesRead(generated, EndsOpen(existing, generated, section), section, key);
    if T.AllBlank(existing) {
      ScanGenerated(generated, section, key);
      TablesRead(generated, false, section, key);
      BlankKept(existing, plan);
    } else {
      TailRead(existing, generated, section, key);
      ScanMerged(existing, generated, section, key);
      ScanAppend(T.Ink(tail), T.Ink(plan.tables), false, section, key);
    }
  }

  // The doctor read something, or the kept part does not end within the table, or the appended
  // array entries do not set the key.
  predicate NothingJoins(existing: seq<Line>, generated: seq<Line>, section: string, key: string) {
    || Scan(existing, false, section, key).Some?
    || !EndsOpen(existing, generated, section)
    || Appended(generated, section, key) == None
  }

  // For every table that is not generated, in a file that keeps what is read for it, the doctor
  // reads what it read before exactly when no appended entry joins in.
  lemma ReadsAmongArrays(existing: seq<Line>, generated: seq<Line>, section: string, key: string)
    requires AllProper(existing) && AllProper(generated) && Unpadded(existing) && Unpadded(generated)
    requires section !in T.TableNames(T.SplitSections(generated).tables)
    requires KeepsReading(existing, generated, section, key)
    ensures Scan(T.Merge(existing, generated), false, section, key) == Scan(existing, false, section, key)
       <==> NothingJoins(existing, generated, section, key)
  {
    var plan := T.SplitSections(generated);
    MergedRead(existing, generated, section, key);
    BlocksFrom(existing);
    ScanKept(T.TableBlocks(T.Strip(existing)), None, T.TableNames(plan.tables), T.EntryKeys(T.TableBlocks(plan.tables)),
             false, false, section, key);
    ScanExisting(existing, section, key);
  }

  // The blocks that set the key, and what is appended, give it different values.
  predicate DifferentValues(existing: seq<Line>, generated: seq<Line>, section: string, key: string) {
    var blocks := T.TableBlocks(T.Strip(existing));
    Different(blocks, key) && GivesOther(blocks, Appended(generated, section, key), key)
  }

  lemma UnlikeIsSeen(existing: seq<Line>, generated: seq<Line>, section: string, key: string)
    requires AllProper(existing) && AllProper(generated) && Unpadded(existing) && Unpadded(generated)
    requires section !in T.TableNames(T.SplitSections(generated).tables)
    requires DifferentValues(existing, generated, section, key) && !KeepsReading(existing, generated, section, key)
    ensures Scan(T.Merge(existing, generated), false, section, key) != Scan(existing, false, section, key)
  {
    var plan, blocks := T.SplitSections(generated), T.TableBlocks(T.Strip(existing));
    var names, entries := T.TableNames(plan.tables), T.EntryKeys(T.TableBlocks(plan.tables));
    var appended := Appended(generated, section, key);
    MergedRead(existing, generated, section, key);
    BlocksFrom(existing);
    ScanUnlike(blocks, None, names, entries, false, false, section, key);
    ScanExisting(existing, section, key);
    if appended.Some? {
      OtherIsRead(blocks, None, names, entries, false, false, appended, section, key);
    }
  }

  // When those values differ, the doctor reads what it read before exactly when the file keeps
  // what is read for the table and no appended entry joins in.
  lemma ReadsExactly(existing: seq<Line>, generated: seq<Line>, section: string, key: string)
    requires AllProper(existing) && AllProper(generated) && Unpadded(existing) && Unpadded(generated)
    requires section !in T.TableNames(T.SplitSections(generated).tables)
    requires DifferentValues(existing, generated, section, key)
    ensures Scan(T.Merge(existing, generated), false, section, key) == Scan(existing, false, section, key)
       <==> KeepsReading(existing, generated, section, key) && NothingJoins(existing, generated, section, key)
  {
    if KeepsReading(existing, generated, section, key) {
      ReadsAmongArrays(existing, generated, section, key);
    } else {
      UnlikeIsSeen(existing, generated, section, key);
    }
  }

  lemma BlankKept(existing: seq<Line>, plan: T.Plan)
    requires T.AllBlank(existing)
    ensures Flatten(T.KeptBlocks(existing, plan)) == []
  {
    var kept := T.KeptBlocks(existing, plan);
    I.KeptFrom(existing, plan);
    if Flatten(kept) != [] {
      StartsWithHeader(kept);
    }
  }

  // In a file without array entries that is so for every table that is not generated.
  lemma ReadsExisting(existing: seq<Line>, generated: seq<Line>, section: string, key: string)
    requires AllProper(existing) && AllProper(generated) && Unpadded(existing) && Unpadded(generated)
    requires section !in T.TableNames(T.SplitSections(generated).tables)
    requires NoArrays(existing)
    ensures Scan(T.Merge(existing, generated), false, section, key) == Scan(existing, false, section, key)
       <==> NothingJoins(existing, generated, section, key)
  {
    var tables := T.SplitSections(generated).tables;
    BlocksFrom(existing);
    TablesReadAlike(T.TableBlocks(T.Strip(existing)), T.TableNames(tables), T.EntryKeys(T.TableBlocks(tables)),
                    false, false, section, key);
    ReadsAmongArrays(existing, generated, section, key);
  }

  lemma BlocksFrom(existing: seq<Line>)
    ensures forall l :: l in Flatten(T.TableBlocks(T.Strip(existing))) ==> l in existing
  {
    var mine := T.Strip(existing);
    FilterMembers(T.IsContent, existing);
    T.BlocksShape(mine);
    assert mine == T.Blocks(mine)[0] + Flatten(T.TableBlocks(mine));
  }

  // ---- Where the reading changes ----

  lemma FlattenTwo(a: T.Block, b: T.Block)
    ensures Flatten([a]) == a && Flatten([a, b]) == a + b
  {
    assert [a][1..] == [] && [b][1..] == [] && [a, b][1..] == [b];
    assert Flatten([b]) == b;
  }

  lemma FlattenThree(a: T.Block, b: T.Block, c: T.Block)
    ensures Flatten([a, b, c]) == a + (b + c)
  {
    assert [a, b, c][1..] == [b, c];
    FlattenTwo(b, c);
  }

  lemma KeptStep(first: T.Block, rest: seq<T.Block>, names: set<string>, entries: set<string>)
    requires T.AllBlocks([first] + rest) && T.AllBlocks(rest) && T.IsBlock(first)
    ensures T.Kept([first] + rest, None, names, entries)
         == if T.TableHit(first, names) then T.Kept(rest, None, names, entries)
            else if T.EntryHit(first, entries) then T.Kept(rest, Some(first[0].name), names, entries)
            else [first] + T.Kept(rest, None, names, entries)
  {
    assert ([first] + rest)[1..] == rest;
  }

  // Blocks as they stand in a document.
  predicate Good(block: T.Block) {
    T.IsBlock(block) && AllProper(block) && Unpadded(block) && T.NoMarker(block) && T.Trimmed(block)
  }

  lemma NamesOf(block: T.Block)
    requires T.IsBlock(block)
    ensures T.TableNames(block) == if block[0].Table? then {block[0].name} else {}
  {
    assert block == [block[0]] + block[1..];
  }

  lemma KeysOf(block: T.Block)
    requires T.IsBlock(block)
    ensures T.EntryKeys([block]) == if block[0].ArrayTable? then {T.BlockKey(block)} else {}
  {
    assert [block][0] == block;
  }

  lemma ScanOne(block: T.Block, open: bool, section: string, key: string)
    requires Good(block)
    ensures Scan(block, open, section, key) == if Opens(block, open, section) then BlockSetting(block, key) else None
  {
    assert block + [] == block;
    ScanBlock(block, [], open, section, key);
  }

  // What is read from a merged file, given the blocks it keeps.
  lemma ScanMergedBlocks(blocks: seq<T.Block>, kept: seq<T.Block>, generated: T.Block, section: string, key: string)
    requires T.AllBlocks(blocks) && blocks != [] && AllProper(Flatten(blocks)) && Unpadded(Flatten(blocks))
    requires T.NoMarker(Flatten(blocks)) && Good(generated)
    requires kept == T.Kept(blocks, None, T.TableNames(generated), T.EntryKeys([generated]))
    ensures Scan(T.Merge(Flatten(blocks), generated), false, section, key)
         == Scan(Flatten(kept) + generated, false, section, key)
  {
    F.PlanOfTables(generated);
    F.BlocksOf(blocks);
    FlattenTwo(generated, generated);
    F.BlocksOf([generated]);
    assert blocks[0][0] in blocks[0] && blocks[0][0] in Flatten(blocks);
    ScanMerged(Flatten(blocks), generated, section, key);
    I.KeptMembers(blocks, None, T.TableNames(generated), T.EntryKeys([generated]));
    L.InkAppend(Flatten(kept), generated);
    FilterAll(T.IsContent, Flatten(kept) + generated);
    ScanHeard(Flatten(kept) + generated, false, section, key);
  }

  // A generated array entry behind a table: its keys are read as keys of the table.
  lemma EntryIsReadThrough(table: T.Block, entry: T.Block, key: string)
    requires Good(table) && table[0].Table? && BlockSetting(table, key) == None
    requires Good(entry) && entry[0].ArrayTable?
    ensures Scan(table, false, table[0].name, key) == None
    ensures Scan(T.Merge(table, entry), false, table[0].name, key) == BlockSetting(entry, key)
  {
    TableKept(table, entry);
    ScanMergedBlocks([table], [table], entry, table[0].name, key);
    ScanOne(table, false, table[0].name, key);
    ScanBlock(table, entry, false, table[0].name, key);
    ScanOne(entry, true, table[0].name, key);
  }

  lemma TableKept(table: T.Block, entry: T.Block)
    requires T.IsBlock(table) && table[0].Table? && T.IsBlock(entry) && entry[0].ArrayTable?
    ensures T.AllBlocks([table]) && Flatten([table]) == table
    ensures T.Kept([table], None, T.TableNames(entry), T.EntryKeys([entry])) == [table]
  {
    NamesOf(entry);
    KeptOne(table, {}, T.EntryKeys([entry]));
    FlattenTwo(table, table);
  }

  // An existing array entry that is replaced: its keys are read no more.
  lemma ReplacedEntryIsUnread(table: T.Block, entry: T.Block, other: T.Block, key: string)
    requires Good(table) && table[0].Table? && BlockSetting(table, key) == None
    requires Good(entry) && entry[0].ArrayTable? && Good(other) && other[0].ArrayTable?
    requires T.BlockKey(entry) == T.BlockKey(other)
    ensures Scan(table + entry, false, table[0].name, key) == BlockSetting(entry, key)
    ensures Scan(T.Merge(table + entry, other), false, table[0].name, key) == BlockSetting(other, key)
  {
    ReplacedKept(table, entry, other);
    FlattenTwo(table, entry);
    ScanMergedBlocks([table, entry], [table], other, table[0].name, key);
    ScanBlock(table, entry, false, table[0].name, key);
    ScanOne(entry, true, table[0].name, key);
    ScanBlock(table, other, false, table[0].name, key);
    ScanOne(other, true, table[0].name, key);
  }

  lemma ReplacedKept(table: T.Block, entry: T.Block, other: T.Block)
    requires T.IsBlock(table) && table[0].Table? && T.IsBlock(entry) && entry[0].ArrayTable?
    requires T.IsBlock(other) && other[0].ArrayTable? && T.BlockKey(entry) == T.BlockKey(other)
    ensures T.AllBlocks([table, entry]) && Flatten([table]) == table
    ensures T.Kept([table, entry], None, T.TableNames(other), T.EntryKeys([other])) == [table]
  {
    var names, entries := T.TableNames(other), T.EntryKeys([other]);
    NamesOf(other);
    KeysOf(other);
    F.EntryAlone(entry, names, entries);
    KeptStep(table, [entry], names, entries);
    assert [table] + [entry] == [table, entry] && [table] + [] == [table];
    FlattenTwo(table, table);
  }

  // An existing array entry behind a table that is written anew: its keys are read as keys of
  // the table before that one.
  lemma LeftEntryIsRead(table: T.Block, entry: T.Block, other: T.Block, key: string)
    requires Good(table) && table[0].Table? && BlockSetting(table, key) == None
    requires Good(entry) && entry[0].ArrayTable? && BlockSetting(entry, key).Some?
    requires Good(other) && other[0].Table? && other[0].name != table[0].name
    ensures Scan(table + (other + entry), false, table[0].name, key) == None
    ensures Scan(T.Merge(table + (other + entry), other), false, table[0].name, key) == BlockSetting(entry, key)
  {
    var section := table[0].name;
    LeftKept(table, entry, other);
    FlattenThree(table, other, entry);
    FlattenTwo(table, entry);
    ScanMergedBlocks([table, other, entry], [table, entry], other, section, key);
    ScanBlock(table, other + entry, false, section, key);
    ScanBlock(other, entry, true, section, key);
    ScanOne(entry, false, section, key);
    Associate(table, entry, other);
    ScanBlock(table, entry + other, false, section, key);
    ScanBlock(entry, other, true, section, key);
  }

  lemma LeftKept(table: T.Block, entry: T.Block, other: T.Block)
    requires T.IsBlock(table) && table[0].Table? && T.IsBlock(entry) && entry[0].ArrayTable?
    requires T.IsBlock(other) && other[0].Table? && other[0].name != table[0].name
    ensures T.AllBlocks([table, other, entry])
    ensures T.Kept([table, other, entry], None, T.TableNames(other), T.EntryKeys([other])) == [table, entry]
  {
    var names, entries := T.TableNames(other), T.EntryKeys([other]);
    NamesOf(other);
    KeysOf(other);
    KeptOne(entry, names, entries);
    KeptStep(other, [entry], names, entries);
    KeptStep(table, [other] + [entry], names, entries);
    assert [table] + ([other] + [entry]) == [table, other, entry] && [table] + [entry] == [table, entry];
  }

  lemma KeptOne(block: T.Block, names: set<string>, entries: set<string>)
    requires T.IsBlock(block) && !T.TableHit(block, names) && !T.EntryHit(block, entries)
    ensures T.AllBlocks([block]) && T.Kept([block], None, names, entries) == [block]
  {
    assert [block][1..] == [];
  }

  // For instance, the lines `[t]`, `[[a]]` and `k='v'`.
  lemma TableLine(s: string)
    requires s == "[t]"
    ensures Classify(s) == T.Table("t") && HeaderOf(s) == Some("t")
  {
    assert s[1..2] == "t";
  }

  lemma EntryLine(s: string)
    requires s == "[[a]]"
    ensures Classify(s) == T.ArrayTable("a") && HeaderOf(s) == None && SettingOf(s, "k") == None
  {
    ArrayLine(s);
    assert s[1..4][2] == ']';
  }

  lemma SettingIsKey(s: string)
    requires s == "k='v'"
    ensures Classify(s) == T.Text(s, Some("k"), None) && HeaderOf(s) == None
  {
    var tail := s[1..];
    assert s == "k" + tail && TrimStart(tail) == tail;
    KeyBefore(s, "k", tail);
    PlainLine(s);
    assert TrimStart(s) == s && "name"[0] == 'n';
  }

  lemma QuotedValue(v: string)
    requires v == "'v'"
    ensures Run(v[1..], NotQuote) == 1 && v[1..][..1] == "v" && TrimStart(v) == v && TrimStart("=" + v) == "=" + v
  {
    assert v[1..] == "v'" && v[1..][1..] == "'";
    assert Run(v[1..][1..], NotQuote) == 0;
  }

  lemma SettingLine(s: string)
    requires s == "k='v'"
    ensures Classify(s) == T.Text(s, Some("k"), None) && HeaderOf(s) == None && SettingOf(s, "k") == Some("v")
  {
    SettingIsKey(s);
    var v := s[2..];
    assert s[1..] == "=" + v && s[1..][1..] == v;
    QuotedValue(v);
  }

  // What the reader and the merger make of a line without white space around it.
  lemma LineOfText(s: string, line: Line)
    requires line == Classify(s) && '\n' !in s && s != "" && !IsSpace(s[0]) && !IsSpace(s[|s| - 1])
    ensures Proper(line) && LineHeader(line) == HeaderOf(s)
    ensures forall key :: LineSetting(line, key) == SettingOf(s, key)
  {
    RenderClassified(s);
    TrimNothing(s);
  }

  lemma AllOfPair(a: Line, b: Line)
    requires Proper(a) && LineHeader(a) == if a.Table? then Some(a.name) else None
    requires Proper(b) && LineHeader(b) == if b.Table? then Some(b.name) else None
    ensures AllProper([a, b]) && Unpadded([a, b]) && AllProper([a]) && Unpadded([a])
  {
  }

  lemma TableLineRead(t: string)
    requires t == "[t]"
    ensures Proper(Classify(t)) && Classify(t) == T.Table("t") && LineHeader(Classify(t)) == Some("t")
  {
    TableLine(t);
    LineOfText(t, Classify(t));
  }

  lemma EntryLineRead(a: string)
    requires a == "[[a]]"
    ensures Proper(Classify(a)) && Classify(a) == T.ArrayTable("a")
    ensures LineHeader(Classify(a)) == None && LineSetting(Classify(a), "k") == None
  {
    EntryLine(a);
    LineOfText(a, Classify(a));
  }

  lemma SettingLineRead(k: string)
    requires k == "k='v'"
    ensures Proper(Classify(k)) && Classify(k).Text?
    ensures LineHeader(Classify(k)) == None && LineSetting(Classify(k), "k") == Some("v")
  {
    SettingLine(k);
    LineOfText(k, Classify(k));
  }

  lemma GoodTable(t: string)
    requires t == "[t]"
    ensures Good([Classify(t)]) && BlockSetting([Classify(t)], "k") == None && Classify(t) == T.Table("t")
  {
    TableLineRead(t);
    assert [Classify(t)][1..] == [];
  }

  lemma GoodPair(entry: Line, setting: Line, key: string)
    requires Proper(entry) && entry.ArrayTable? && LineHeader(entry) == None && LineSetting(entry, key) == None
    requires Proper(setting) && setting.Text? && LineHeader(setting) == None
    ensures Good([entry, setting]) && BlockSetting([entry, setting], key) == LineSetting(setting, key)
  {
    var block := [entry, setting];
    assert block[1..] == [setting] && [setting][1..] == [];
    assert FirstSetting([setting], key) == LineSetting(setting, key);
    AllOfPair(entry, setting);
  }

  lemma GoodEntry(a: string, k: string)
    requires a == "[[a]]" && k == "k='v'"
    ensures Good([Classify(a), Classify(k)]) && BlockSetting([Classify(a), Classify(k)], "k") == Some("v")
    ensures Classify(a).ArrayTable?
  {
    EntryLineRead(a);
    SettingLineRead(k);
    GoodPair(Classify(a), Classify(k), "k");
  }

  // The doctor finds no `k` in `[t]` before `[[a]]` with `k='v'` is merged in, and `v` afterwards.
  lemma ArrayIsReadThrough(t: string, a: string, k: string)
    requires t == "[t]" && a == "[[a]]" && k == "k='v'"
    ensures Scan([Classify(t)], false, "t", "k") == None
    ensures Scan(T.Merge([Classify(t)], [Classify(a), Classify(k)]), false, "t", "k") == Some("v")
  {
    GoodTable(t);
    GoodEntry(a, k);
    EntryIsReadThrough([Classify(t)], [Classify(a), Classify(k)], "k");
  }

  // It finds `v` while an entry `[[a]]` of the user stands behind `[t]`, and nothing once the
  // entry is replaced by one without settings.
  lemma ArrayIsUnread(t: string, a: string, k: string)
    requires t == "[t]" && a == "[[a]]" && k == "k='v'"
    ensures Scan([Classify(t)] + [Classify(a), Classify(k)], false, "t", "k") == Some("v")
    ensures Scan(T.Merge([Classify(t)] + [Classify(a), Classify(k)], [Classify(a)]), false, "t", "k") == None
  {
    GoodTable(t);
    GoodEntry(a, k);
    SettingLine(k);
    EntryLineRead(a);
    GoodAlone(Classify(a), "k");
    UnnamedKey(Classify(a), Classify(k));
    ReplacedEntryIsUnread([Classify(t)], [Classify(a), Classify(k)], [Classify(a)], "k");
  }

  lemma UnnamedKey(header: Line, setting: Line)
    requires setting.Text? && setting.entryName == None && header.ArrayTable?
    ensures T.BlockKey([header, setting]) == T.BlockKey([header])
  {
    assert [header, setting][1..] == [setting] && [setting][1..] == [] && [header][1..] == [];
  }

  lemma GoodAlone(entry: Line, key: string)
    requires Proper(entry) && entry.ArrayTable? && LineHeader(entry) == None && LineSetting(entry, key) == None
    ensures Good([entry]) && BlockSetting([entry], key) == None
  {
    var block := [entry];
    assert block[1..] == [] && FirstSetting(block[1..], key) == None;
  }

  // The same on texts: setup writes, the doctor reads.
  lemma SetupThenDoctor(existing: string, generated: string, section: string, key: string)
    requires Unpadded(Lines(existing)) && Unpadded(Lines(generated))
    ensures var merged := Read(Split(X.MergeText(existing, generated), '\n'), false, section, key);
            var before := Read(Split(existing, '\n'), false, section, key);
            var e, g := Lines(existing), Lines(generated);
            if section in T.TableNames(T.SplitSections(g).tables) then
              merged == Read(Split(generated, '\n'), false, section, key)
            else
              && (KeepsReading(e, g, section, key) ==> (merged == before <==> NothingJoins(e, g, section, key)))
              && (DifferentValues(e, g, section, key) ==>
                    (merged == before <==> KeepsReading(e, g, section, key) && NothingJoins(e, g, section, key)))
  {
    var e, g := Lines(existing), Lines(generated);
    var text := X.MergeText(existing, generated);
    ReadsLines(existing, section, key);
    ReadsLines(generated, section, key);
    ReadsLines(text, section, key);
    ProperLines(existing);
    ProperLines(generated);
    X.BlankText(existing);
    if TrimStart(existing) != "" {
      X.LinesOfMerge(existing, generated);
    }
    if section in T.TableNames(T.SplitSections(g).tables) {
      ReadsGenerated(e, g, section, key);
    } else if KeepsReading(e, g, section, key) {
      ReadsAmongArrays(e, g, section, key);
    } else if DifferentValues(e, g, section, key) {
      ReadsExactly(e, g, section, key);
    }
  }

  lemma ReadsLines(text: string, section: string, key: string)
    ensures Read(Split(text, '\n'), false, section, key) == Scan(Lines(text), false, section, key)
  {
    var parts := Split(text, '\n');
    forall i | 0 <= i < |parts|
      ensures RenderAll(Lines(text))[i] == parts[i]
    {
      RenderClassified(parts[i]);
    }
    assert RenderAll(Lines(text)) == parts;
    ReadIsScan(Lines(text), false, section, key);
  }
}
