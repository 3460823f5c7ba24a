// The merge of environment files in cli/src/config-files.ts: `mergeEnv`.
module EnvMerge {
  import opened Sequences
  import opened Text

  // A generated line that sets a key.
  predicate Assigns(line: string) { line != "" && line[0] != '#' && '=' in line }

  // What stands before the first `=`.
  function KeyOf(line: string): string { line[..IndexOf(line, '=')] }

  // A line of an existing file that the merge looks at: `=` stands behind a key, and the
  // line is not a comment.
  predicate Eligible(line: string) {
    0 < IndexOf(line, '=') < |line| && !("#" <= TrimStart(line))
  }

  // The index of the line that sets `key`, or the number of lines.
  function Find(lines: seq<string>, key: string): (i: nat)
    ensures i <= |lines|
    ensures i < |lines| ==> KeyOf(lines[i]) == key
    ensures forall k :: 0 <= k < i ==> KeyOf(lines[k]) != key
  {
    if lines == [] || KeyOf(lines[0]) == key then 0 else 1 + Find(lines[1..], key)
  }

  // A map filled from a list: a key keeps its first place and its last line.
  function Put(replacements: seq<string>, line: string): seq<string> {
    var i := Find(replacements, KeyOf(line));
    if i < |replacements| then replacements[i := line] else replacements + [line]
  }

  // The generated lines, one for each key.
  function Replacements(generated: seq<string>): seq<string> {
    if generated == [] then [] else
      var before, line := Replacements(generated[..|generated| - 1]), generated[|generated| - 1];
      if Assigns(line) then Put(before, line) else before
  }

  predicate OnePerKey(replacements: seq<string>) {
    && (forall i :: 0 <= i < |replacements| ==> Assigns(replacements[i]))
    && (forall i, j :: 0 <= i < j < |replacements| ==> KeyOf(replacements[i]) != KeyOf(replacements[j]))
  }

  function Replaced(line: string, replacements: seq<string>): string {
    var i := Find(replacements, KeyOf(line));
    if Eligible(line) && i < |replacements| then replacements[i] else line
  }

  function ReplaceAll(lines: seq<string>, replacements: seq<string>): (r: seq<string>)
    ensures |r| == |lines|
  {
    seq(|lines|, i requires 0 <= i < |lines| => Replaced(lines[i], replacements))
  }

  // Whether the merge has met `key` in an existing line.
  predicate Seen(lines: seq<string>, key: string) {
    exists i :: 0 <= i < |lines| && Eligible(lines[i]) && KeyOf(lines[i]) == key
  }

  // The replacements whose keys were not met.
  function Unseen(lines: seq<string>, replacements: seq<string>): seq<string> {
    if replacements == [] then [] else
      var front, last := replacements[..|replacements| - 1], replacements[|replacements| - 1];
      Unseen(lines, front) + if Seen(lines, KeyOf(last)) then [] else [last]
  }

  function DropEmptyEnd(lines: seq<string>): seq<string> {
    if lines != [] && lines[|lines| - 1] == "" then DropEmptyEnd(lines[..|lines| - 1]) else lines
  }

  // The lines of an existing text that the merge starts from.
  function Lines(existing: string): seq<string> {
    if TrimStart(existing) == "" then [] else DropEmptyEnd(Split(existing, '\n'))
  }

  function Output(lines: seq<string>, replacements: seq<string>): seq<string> {
    ReplaceAll(lines, replacements) + Unseen(lines, replacements)
  }

  function Unlines(lines: seq<string>): string {
    (if lines == [] then "" else Join(lines, '\n')) + "\n"
  }

  // An empty last line is left out.
  function Ended(lines: seq<string>): seq<string> {
    if lines != [] && lines[|lines| - 1] == "" then lines[..|lines| - 1] else lines
  }

  function Merge(existing: string, generated: string): string {
    Unlines(Ended(Output(Lines(existing), Replacements(Split(generated, '\n')))))
  }

  method CollectReplacements(wanted: seq<string>) returns (replacements: seq<string>)
    ensures replacements == Replacements(wanted)
  {
    replacements := [];
    for i := 0 to |wanted|
      invariant replacements == Replacements(wanted[..i])
    {
      assert wanted[..i + 1][..i] == wanted[..i];
      if Assigns(wanted[i]) {
        replacements := Put(replacements, wanted[i]);
      }
    }
    assert wanted[..|wanted|] == wanted;
  }

  // The keys of the lines that get replaced.
  function Met(lines: seq<string>, replacements: seq<string>): set<string> {
    if lines == [] then {} else
      var before, last := Met(lines[..|lines| - 1], replacements), lines[|lines| - 1];
      if Eligible(last) && Find(replacements, KeyOf(last)) < |replacements| then before + {KeyOf(last)} else before
  }

  lemma SeenOneMore(lines: seq<string>, key: string)
    requires lines != []
    ensures var last := lines[|lines| - 1];
            Seen(lines, key) <==> Seen(lines[..|lines| - 1], key) || (Eligible(last) && KeyOf(last) == key)
  {
    var front := lines[..|lines| - 1];
    if Seen(lines, key) {
      var i :| 0 <= i < |lines| && Eligible(lines[i]) && KeyOf(lines[i]) == key;
      assert i < |front| ==> Eligible(front[i]) && KeyOf(front[i]) == key;
    }
    if Seen(front, key) {
      var i :| 0 <= i < |front| && Eligible(front[i]) && KeyOf(front[i]) == key;
      assert Eligible(lines[i]) && KeyOf(lines[i]) == key;
    }
  }

  lemma {:induction false} MetIsSeen(lines: seq<string>, replacements: seq<string>, key: string)
    ensures key in Met(lines, replacements) <==> Seen(lines, key) && Find(replacements, key) < |replacements|
  {
    if lines != [] {
      SeenOneMore(lines, key);
      MetIsSeen(lines[..|lines| - 1], replacements, key);
    }
  }

  method ReplaceLine(line: string, replacements: seq<string>, seen: set<string>)
      returns (replaced: string, met: set<string>)
    ensures replaced == Replaced(line, replacements)
    ensures met == if Eligible(line) && Find(replacements, KeyOf(line)) < |replacements|
                   then seen + {KeyOf(line)} else seen
  {
    var separator := IndexOf(line, '=');
    if separator < 1 || separator == |line| || "#" <= TrimStart(line) {
      return line, seen;
    }
    var key := line[..separator];
    var at := Find(replacements, key);
    if at == |replacements| {
      return line, seen;
    }
    return replacements[at], seen + {key};
  }

  method ReplaceLines(lines: seq<string>, replacements: seq<string>) returns (output: seq<string>, seen: set<string>)
    ensures output == ReplaceAll(lines, replacements)
    ensures seen == Met(lines, replacements)
  {
    output, seen := [], {};
    for i := 0 to |lines|
      invariant output == ReplaceAll(lines, replacements)[..i]
      invariant seen == Met(lines[..i], replacements)
    {
      assert lines[..i + 1][..i] == lines[..i];
      var replaced;
      replaced, seen := ReplaceLine(lines[i], replacements, seen);
      output := output + [replaced];
    }
    assert lines[..|lines|] == lines;
  }

  method AppendUnseen(lines: seq<string>, replacements: seq<string>, seen: set<string>) returns (added: seq<string>)
    requires seen == Met(lines, replacements)
    ensures added == Unseen(lines, replacements)
  {
    added := [];
    for i := 0 to |replacements|
      invariant added == Unseen(lines, replacements[..i])
    {
      assert replacements[..i + 1][..i] == replacements[..i];
      var key := KeyOf(replacements[i]);
      MetIsSeen(lines, replacements, key);
      assert Find(replacements, key) <= i;
      if key !in seen {
        added := added + [replacements[i]];
      }
    }
    assert replacements[..|replacements|] == replacements;
  }

  method MergeEnv(existing: string, generated: string) returns (merged: string)
    ensures merged == Merge(existing, generated)
  {
    var replacements := CollectReplacements(Split(generated, '\n'));
    var lines := Lines(existing);
    var output, seen := ReplaceLines(lines, replacements);
    var added := AppendUnseen(lines, replacements, seen);
    return Unlines(Ended(output + added));
  }

  // ---- What the replacements are ----

  lemma PutOnePerKey(replacements: seq<string>, line: string)
    requires OnePerKey(replacements) && Assigns(line)
    ensures OnePerKey(Put(replacements, line))
    ensures forall l :: l in Put(replacements, line) ==> l == line || l in replacements
  {
    var i, put := Find(replacements, KeyOf(line)), Put(replacements, line);
    forall a, b | 0 <= a < b < |put|
      ensures KeyOf(put[a]) != KeyOf(put[b])
    {
      assert a != i && a < |replacements| ==> put[a] == replacements[a];
      assert b != i && b < |replacements| ==> put[b] == replacements[b];
    }
    forall k | 0 <= k < |put|
      ensures Assigns(put[k]) && (put[k] == line || put[k] in replacements)
    {
      assert k == i || put[k] == replacements[k];
    }
  }

  lemma {:induction false} ReplacementsOnePerKey(generated: seq<string>)
    ensures OnePerKey(Replacements(generated))
    ensures forall l :: l in Replacements(generated) ==> l in generated
  {
    if generated != [] {
      var front, last := generated[..|generated| - 1], generated[|generated| - 1];
      ReplacementsOnePerKey(front);
      assert generated == front + [last];
      if Assigns(last) {
        PutOnePerKey(Replacements(front), last);
      }
    }
  }

  lemma FindSelf(replacements: seq<string>, i: nat)
    requires OnePerKey(replacements) && i < |replacements|
    ensures Find(replacements, KeyOf(replacements[i])) == i
  {
  }

  // ---- Eligible keys ----

  lemma {:induction false} CommentByKey(key: string, rest: string)
    ensures "#" <= TrimStart(key + "=" + rest) <==> "#" <= TrimStart(key)
  {
    if key == "" {
      assert key + "=" + rest == "=" + rest;
      assert ("=" + rest)[0] == '=';
    } else {
      assert (key + "=" + rest)[1..] == key[1..] + "=" + rest;
      CommentByKey(key[1..], rest);
    }
  }

  lemma KeyEnds(line: string)
    requires '=' in line
    ensures IndexOf(line, '=') < |line|
  {
    assert line[..|line|] == line;
  }

  lemma KeySplits(line: string)
    requires '=' in line
    ensures IndexOf(line, '=') < |line|
    ensures line == KeyOf(line) + "=" + line[IndexOf(line, '=') + 1..]
  {
    KeyEnds(line);
    CutAt(line, IndexOf(line, '='));
  }

  lemma CutAt(line: string, i: nat)
    requires i < |line| && line[i] == '='
    ensures line == line[..i] + "=" + line[i + 1..]
  {
  }

  // Of lines with the same key either all are eligible or none.
  lemma EligibleByKey(a: string, b: string)
    requires '=' in a && '=' in b && KeyOf(a) == KeyOf(b)
    ensures Eligible(a) == Eligible(b)
  {
    KeySplits(a);
    KeySplits(b);
    CommentByKey(KeyOf(a), a[IndexOf(a, '=') + 1..]);
    CommentByKey(KeyOf(b), b[IndexOf(b, '=') + 1..]);
  }

  lemma EligibleHasEquals(line: string)
    requires Eligible(line)
    ensures '=' in line
  {
    assert line[IndexOf(line, '=')] == '=';
  }

  // ---- The result, position by position ----

  // Every line stays where it is. An eligible line whose key is generated becomes the
  // generated line; every other line is as before; and every generated line is there.
  lemma OutputPositions(lines: seq<string>, generated: seq<string>)
    ensures var r := Replacements(generated); var out := Output(lines, r);
      && |out| >= |lines|
      && (forall i :: 0 <= i < |lines| ==>
            if Eligible(lines[i]) && Find(r, KeyOf(lines[i])) < |r| then out[i] in r && KeyOf(out[i]) == KeyOf(lines[i])
            else out[i] == lines[i])
      && (forall l :: l in r ==> l in out)
      && (forall i :: |lines| <= i < |out| ==> out[i] in r)
  {
    var r := Replacements(generated);
    ReplacementsOnePerKey(generated);
    forall l | l in r
      ensures l in Output(lines, r)
    {
      var k :| 0 <= k < |r| && r[k] == l;
      GeneratedInOutput(lines, r, k);
    }
    UnseenMembers(lines, r);
  }

  lemma GeneratedInOutput(lines: seq<string>, r: seq<string>, k: nat)
    requires OnePerKey(r) && k < |r|
    ensures r[k] in Output(lines, r)
  {
    if Seen(lines, KeyOf(r[k])) {
      var i :| 0 <= i < |lines| && Eligible(lines[i]) && KeyOf(lines[i]) == KeyOf(r[k]);
      FindSelf(r, k);
      assert ReplaceAll(lines, r)[i] == r[k];
      assert Output(lines, r)[i] == r[k];
    } else {
      UnseenMembers(lines, r);
      assert r[k] in Unseen(lines, r);
    }
  }

  lemma {:induction false} UnseenMembers(lines: seq<string>, r: seq<string>)
    ensures forall l :: l in Unseen(lines, r) <==> l in r && !Seen(lines, KeyOf(l))
  {
    if r != [] {
      UnseenMembers(lines, r[..|r| - 1]);
      assert r == r[..|r| - 1] + [r[|r| - 1]];
    }
  }

  // ---- Merging again ----

  lemma {:induction false} UnseenNone(lines: seq<string>, r: seq<string>)
    requires forall k :: 0 <= k < |r| ==> Seen(lines, KeyOf(r[k]))
    ensures Unseen(lines, r) == []
  {
    if r != [] { UnseenNone(lines, r[..|r| - 1]); }
  }

  lemma NothingReplaced(out: seq<string>, r: seq<string>)
    requires OnePerKey(r)
    requires forall i :: 0 <= i < |out| ==> out[i] in r || Replaced(out[i], r) == out[i]
    ensures ReplaceAll(out, r) == out
  {
    forall i | 0 <= i < |out|
      ensures Replaced(out[i], r) == out[i]
    {
      if out[i] in r {
        var k :| 0 <= k < |r| && r[k] == out[i];
        FindSelf(r, k);
      }
    }
  }

  lemma AllSeen(out: seq<string>, r: seq<string>)
    requires forall l :: l in r ==> Eligible(l) && l in out
    ensures Unseen(out, r) == []
  {
    forall k | 0 <= k < |r|
      ensures Seen(out, KeyOf(r[k]))
    {
      assert r[k] in r && r[k] in out;
      var i :| 0 <= i < |out| && out[i] == r[k];
      assert Eligible(out[i]) && KeyOf(out[i]) == KeyOf(r[k]);
    }
    UnseenNone(out, r);
  }

  lemma OutputStable(lines: seq<string>, generated: seq<string>)
    requires forall l :: l in Replacements(generated) ==> Eligible(l)
    ensures var r := Replacements(generated); Output(Output(lines, r), r) == Output(lines, r)
  {
    var r := Replacements(generated);
    var out := Output(lines, r);
    OutputPositions(lines, generated);
    ReplacementsOnePerKey(generated);
    NothingReplaced(out, r);
    AllSeen(out, r);
    assert out + [] == out;
  }

  // A generated line whose key the merge never looks at is added each time.
  lemma OutputGrows(lines: seq<string>, generated: seq<string>, l: string)
    requires l in Replacements(generated) && !Eligible(l)
    ensures |Output(lines, Replacements(generated))| > |lines|
  {
    var r := Replacements(generated);
    ReplacementsOnePerKey(generated);
    UnseenMembers(lines, r);
    if Seen(lines, KeyOf(l)) {
      var i :| 0 <= i < |lines| && Eligible(lines[i]) && KeyOf(lines[i]) == KeyOf(l);
      EligibleHasEquals(lines[i]);
      EligibleByKey(lines[i], l);
    }
    assert l in Unseen(lines, r);
  }

  // ---- Texts ----

  predicate NoEmptyEnd(lines: seq<string>) { lines != [] ==> lines[|lines| - 1] != "" }

  lemma {:induction false} DropEmptyEndShape(lines: seq<string>, sep: char)
    requires Free(lines, sep)
    ensures var d := DropEmptyEnd(lines);
      && Free(d, sep) && NoEmptyEnd(d)
      && (forall i, c :: 0 <= i < |lines| && c in lines[i] ==> i < |d| && d[i] == lines[i])
  {
    if lines != [] && lines[|lines| - 1] == "" {
      DropEmptyEndShape(lines[..|lines| - 1], sep);
    }
  }

  predicate HasInk(line: string) { exists c :: c in line && !IsSpace(c) }

  lemma LinesShape(existing: string)
    ensures Free(Lines(existing), '\n') && NoEmptyEnd(Lines(existing))
    ensures Lines(existing) != [] ==> exists i :: 0 <= i < |Lines(existing)| && HasInk(Lines(existing)[i])
  {
    var parts := Split(existing, '\n');
    SplitFree(existing, '\n');
    DropEmptyEndShape(parts, '\n');
    TrimStartBlank(existing);
    if TrimStart(existing) != "" {
      var c :| c in existing && !IsSpace(c);
      SplitChars(existing, '\n', c);
      var i :| 0 <= i < |parts| && c in parts[i];
      assert HasInk(Lines(existing)[i]);
    }
  }

  lemma OutputShape(existing: string, generated: string)
    ensures var out := Output(Lines(existing), Replacements(Split(generated, '\n')));
      && Free(out, '\n') && NoEmptyEnd(out)
      && (out != [] ==> exists i :: 0 <= i < |out| && HasInk(out[i]))
  {
    var lines, wanted := Lines(existing), Split(generated, '\n');
    var r := Replacements(wanted);
    var out := Output(lines, r);
    LinesShape(existing);
    SplitFree(generated, '\n');
    ReplacementsOnePerKey(wanted);
    OutputPositions(lines, wanted);
    forall l | l in r
      ensures '\n' !in l && l != "" && HasInk(l)
    {
      assert '=' in l && !IsSpace('=');
    }
    ShapeByPositions(lines, r, out);
  }

  lemma ShapeByPositions(lines: seq<string>, r: seq<string>, out: seq<string>)
    requires |out| >= |lines|
    requires forall i :: 0 <= i < |out| ==> out[i] in r || (i < |lines| && out[i] == lines[i])
    requires forall l :: l in r ==> '\n' !in l && l != "" && HasInk(l)
    requires Free(lines, '\n') && NoEmptyEnd(lines)
    requires lines != [] ==> exists i :: 0 <= i < |lines| && HasInk(lines[i])
    ensures Free(out, '\n') && NoEmptyEnd(out)
    ensures out != [] ==> exists i :: 0 <= i < |out| && HasInk(out[i])
  {
    if out != [] {
      if lines == [] {
        assert out[0] in r;
      } else {
        var i :| 0 <= i < |lines| && HasInk(lines[i]);
        assert HasInk(out[i]);
      }
    }
  }

  lemma InkyText(text: string, i: nat)
    requires i < |Split(text, '\n')| && HasInk(Split(text, '\n')[i])
    ensures TrimStart(text) != ""
  {
    var c :| c in Split(text, '\n')[i] && !IsSpace(c);
    SplitChars(text, '\n', c);
    TrimStartBlank(text);
  }

  lemma SplitUnlines(out: seq<string>)
    requires out != [] && Free(out, '\n')
    ensures Split(Unlines(out), '\n') == out + [""]
  {
    var body := Join(out, '\n');
    assert Unlines(out) == body + ['\n'] + "";
    SplitConcat(body, "", '\n');
    SplitJoin(out, '\n');
  }

  lemma DropOneEmpty(out: seq<string>)
    requires NoEmptyEnd(out)
    ensures DropEmptyEnd(out + [""]) == out
  {
    assert (out + [""])[..|out|] == out;
  }

  lemma LinesOfUnlines(out: seq<string>)
    requires Free(out, '\n') && NoEmptyEnd(out)
    requires out != [] ==> exists i :: 0 <= i < |out| && HasInk(out[i])
    ensures Lines(Unlines(out)) == out
  {
    var text := Unlines(out);
    if out == [] {
      assert text == "\n" && text[1..] == "" && TrimStart(text) == "";
    } else {
      SplitUnlines(out);
      var i :| 0 <= i < |out| && HasInk(out[i]);
      assert Split(text, '\n')[i] == out[i];
      InkyText(text, i);
      DropOneEmpty(out);
    }
  }

  // Reading a merged file back gives the lines of the merge.
  lemma LinesOfMerge(existing: string, generated: string)
    ensures Lines(Merge(existing, generated)) == Output(Lines(existing), Replacements(Split(generated, '\n')))
  {
    OutputShape(existing, generated);
    LinesOfUnlines(Output(Lines(existing), Replacements(Split(generated, '\n'))));
  }

  // Merging again changes nothing exactly when every generated line that sets a key sets one
  // that the merge looks at: not the empty one, and not one in a comment.
  lemma MergeIdempotence(existing: string, generated: string)
    ensures Merge(Merge(existing, generated), generated) == Merge(existing, generated)
       <==> forall l :: l in Replacements(Split(generated, '\n')) ==> Eligible(l)
  {
    var r, lines := Replacements(Split(generated, '\n')), Lines(existing);
    var once := Merge(existing, generated);
    LinesOfMerge(existing, generated);
    LinesOfMerge(once, generated);
    if forall l :: l in r ==> Eligible(l) {
      OutputStable(lines, Split(generated, '\n'));
    } else {
      var l :| l in r && !Eligible(l);
      OutputGrows(Output(lines, r), Split(generated, '\n'), l);
    }
  }

  // A generated line without a key shows why: it is written once more each time.
  lemma KeylessLineIsRepeated()
    ensures Merge(Merge("", "=x"), "=x") != Merge("", "=x")
  {
    SplitWord("=x", '\n');
    var g := ["=x"];
    assert g[..0] == [];
    assert Replacements(g) == ["=x"];
    assert "=x" in Replacements(g);
    assert !Eligible("=x");
    MergeIdempotence("", "=x");
  }

  // ---- Spelled out ----

  // A key without `=`, then `=`, then anything.
  ghost predicate Sets(line: string, key: string, value: string) { line == key + ("=" + value) && '=' !in key }

  lemma KeyMeans(line: string, key: string)
    ensures '=' in line && KeyOf(line) == key <==> exists value :: Sets(line, key, value)
  {
    if '=' in line && KeyOf(line) == key {
      assert line == key + ("=" + line[|key| + 1..]);
      assert Sets(line, key, line[|key| + 1..]);
    }
    if exists value :: Sets(line, key, value) {
      var value :| Sets(line, key, value);
      assert line == key + ['='] + value;
      IndexOfFirst(key, '=', value);
      assert line[|key|] == '=';
    }
  }

  // A line of the file that can be replaced: it sets a key that is not empty and is no comment.
  lemma EligibleMeans(line: string)
    ensures Eligible(line)
       <==> (exists key, value :: key != "" && Sets(line, key, value))
            && (TrimStart(line) != "" ==> TrimStart(line)[0] != '#')
  {
    if Eligible(line) {
      EligibleHasEquals(line);
      KeyMeans(line, KeyOf(line));
      var value :| Sets(line, KeyOf(line), value);
      assert KeyOf(line) != "" && Sets(line, KeyOf(line), value);
    }
    if exists key, value :: key != "" && Sets(line, key, value) {
      var key, value :| key != "" && Sets(line, key, value);
      KeyMeans(line, key);
    }
  }

  // A generated line that sets a key is no comment; the key may be empty.
  lemma AssignsMeans(line: string)
    ensures Assigns(line) <==> (exists key, value :: Sets(line, key, value)) && line[0] != '#'
  {
    if Assigns(line) {
      KeyMeans(line, KeyOf(line));
    }
    if key, value :| Sets(line, key, value) {
      assert line[|key|] == '=';
    }
  }

  // The last generated line that sets a key.
  ghost predicate IsLast(generated: seq<string>, i: int, key: string) {
    && 0 <= i < |generated| && Assigns(generated[i]) && KeyOf(generated[i]) == key
    && forall j :: i < j < |generated| && Assigns(generated[j]) ==> KeyOf(generated[j]) != key
  }

  lemma LastOneMore(generated: seq<string>, line: string, i: int, key: string)
    ensures IsLast(generated + [line], i, key)
       <==> if i == |generated| then Assigns(line) && KeyOf(line) == key
            else IsLast(generated, i, key) && !(Assigns(line) && KeyOf(line) == key)
  {
    var all := generated + [line];
    assert all[|generated|] == line;
    assert forall j :: 0 <= j < |generated| ==> all[j] == generated[j];
  }

  lemma PutMembers(r: seq<string>, line: string, l: string)
    requires OnePerKey(r)
    ensures l in Put(r, line) <==> l == line || (l in r && KeyOf(l) != KeyOf(line))
  {
    var i, after := Find(r, KeyOf(line)), Put(r, line);
    if i < |r| {
      assert after[i] == line;
      if l in r && KeyOf(l) != KeyOf(line) {
        var k :| 0 <= k < |r| && r[k] == l;
        assert after[k] == l;
      }
      if l in after && l != line {
        var k :| 0 <= k < |after| && after[k] == l;
        assert r[k] == l && k != i;
      }
    }
  }

  // The generated lines that count: for each key the last one that sets it.
  lemma {:induction false} ReplacementsMean(generated: seq<string>, l: string)
    ensures l in Replacements(generated) <==> exists i :: IsLast(generated, i, KeyOf(l)) && generated[i] == l
  {
    if generated != [] {
      var front, line := generated[..|generated| - 1], generated[|generated| - 1];
      assert generated == front + [line];
      ReplacementsMean(front, l);
      ReplacementsOnePerKey(front);
      LastMoved(front, line, l);
      if Assigns(line) {
        PutMembers(Replacements(front), line, l);
      }
    }
  }

  lemma LastMoved(front: seq<string>, line: string, l: string)
    ensures (exists i :: IsLast(front + [line], i, KeyOf(l)) && (front + [line])[i] == l)
       <==> if Assigns(line) && KeyOf(line) == KeyOf(l) then l == line
            else exists i :: IsLast(front, i, KeyOf(l)) && front[i] == l
  {
    var all, key := front + [line], KeyOf(l);
    if exists i :: IsLast(all, i, key) && all[i] == l {
      var i :| IsLast(all, i, key) && all[i] == l;
      LastOneMore(front, line, i, key);
    }
    if Assigns(line) && KeyOf(line) == key {
      LastOneMore(front, line, |front|, key);
      assert IsLast(all, |front|, key) && all[|front|] == line;
    } else if exists i :: IsLast(front, i, key) && front[i] == l {
      var i :| IsLast(front, i, key) && front[i] == l;
      LastOneMore(front, line, i, key);
      assert all[i] == front[i];
    }
  }

  lemma ReplacedMeans(line: string, generated: seq<string>)
    ensures Eligible(line) ==> forall j :: IsLast(generated, j, KeyOf(line)) ==>
              Replaced(line, Replacements(generated)) == generated[j]
    ensures !(Eligible(line) && exists j :: IsLast(generated, j, KeyOf(line))) ==>
              Replaced(line, Replacements(generated)) == line
  {
    var r := Replacements(generated);
    var k := Find(r, KeyOf(line));
    ReplacementsOnePerKey(generated);
    if k < |r| {
      assert r[k] in r;
      ReplacementsMean(generated, r[k]);
    }
    forall j | IsLast(generated, j, KeyOf(line))
      ensures k < |r| && r[k] == generated[j]
    {
      ReplacementsMean(generated, generated[j]);
      var m :| 0 <= m < |r| && r[m] == generated[j];
      FindSelf(r, m);
    }
  }

  lemma AddedMeans(lines: seq<string>, generated: seq<string>, l: string)
    ensures l in Unseen(lines, Replacements(generated))
       <==> !Seen(lines, KeyOf(l)) && exists j :: IsLast(generated, j, KeyOf(l)) && generated[j] == l
  {
    UnseenMembers(lines, Replacements(generated));
    ReplacementsMean(generated, l);
  }

  // Line by line: a replaceable line whose key is generated becomes the last generated line that
  // sets the key, every other line stays, and what is added are the last lines for the keys that
  // no replaceable line has.
  lemma OutputMeans(lines: seq<string>, generated: seq<string>)
    ensures var out := Output(lines, Replacements(generated));
      && |out| >= |lines|
      && (forall i, j :: 0 <= i < |lines| && Eligible(lines[i]) && IsLast(generated, j, KeyOf(lines[i])) ==>
            out[i] == generated[j])
      && (forall i :: 0 <= i < |lines| && !(Eligible(lines[i]) && exists j :: IsLast(generated, j, KeyOf(lines[i]))) ==>
            out[i] == lines[i])
      && (forall l :: l in out[|lines|..]
            <==> !Seen(lines, KeyOf(l)) && exists j :: IsLast(generated, j, KeyOf(l)) && generated[j] == l)
  {
    var r := Replacements(generated);
    var out := Output(lines, r);
    assert out[|lines|..] == Unseen(lines, r);
    forall i | 0 <= i < |lines|
      ensures out[i] == Replaced(lines[i], r)
    {
    }
    forall i | 0 <= i < |lines| {
      ReplacedMeans(lines[i], generated);
    }
    forall l {
      AddedMeans(lines, generated, l);
    }
  }

  // ---- The order of what is added ----

  // Some line that sets the key a stands above every line that sets the key b.
  ghost predicate SetAbove(generated: seq<string>, i: int, a: string, b: string) {
    && 0 <= i < |generated| && Assigns(generated[i]) && KeyOf(generated[i]) == a
    && forall j :: 0 <= j <= i && Assigns(generated[j]) ==> KeyOf(generated[j]) != b
  }

  lemma {:induction false} KeysKept(generated: seq<string>, j: nat)
    requires j < |generated| && Assigns(generated[j])
    ensures Find(Replacements(generated), KeyOf(generated[j])) < |Replacements(generated)|
  {
    var front, line := generated[..|generated| - 1], generated[|generated| - 1];
    var r, key := Replacements(front), KeyOf(generated[j]);
    if j < |front| {
      KeysKept(front, j);
    }
    var after := Replacements(generated);
    if Assigns(line) {
      var i := Find(r, KeyOf(line));
      var k := if j < |front| then Find(r, key) else if i < |r| then i else |r|;
      assert KeyOf(after[k]) == key;
    }
  }

  lemma SetAboveStays(front: seq<string>, line: string, i: int, a: string, b: string)
    requires SetAbove(front, i, a, b)
    ensures SetAbove(front + [line], i, a, b)
  {
  }

  // Keys stand in the order of their first lines.
  lemma {:induction false} FirstPlaces(generated: seq<string>, p: nat, q: nat)
    requires p < q < |Replacements(generated)|
    ensures var r := Replacements(generated);
            exists i :: SetAbove(generated, i, KeyOf(r[p]), KeyOf(r[q]))
  {
    var front, line := generated[..|generated| - 1], generated[|generated| - 1];
    var r, after := Replacements(front), Replacements(generated);
    assert generated == front + [line];
    if q < |r| {
      FirstPlaces(front, p, q);
      assert KeyOf(after[p]) == KeyOf(r[p]) && KeyOf(after[q]) == KeyOf(r[q]);
      var i :| SetAbove(front, i, KeyOf(r[p]), KeyOf(r[q]));
      SetAboveStays(front, line, i, KeyOf(r[p]), KeyOf(r[q]));
    } else {
      ReplacementsOnePerKey(front);
      ReplacementsMean(front, r[p]);
      assert r[p] in r;
      var i :| IsLast(front, i, KeyOf(r[p])) && front[i] == r[p];
      forall j | 0 <= j <= i && Assigns(front[j])
        ensures KeyOf(front[j]) != KeyOf(line)
      {
        KeysKept(front, j);
      }
      assert SetAbove(front, i, KeyOf(r[p]), KeyOf(line));
      SetAboveStays(front, line, i, KeyOf(r[p]), KeyOf(line));
    }
  }

  function NotSeen(lines: seq<string>): string -> bool { l => !Seen(lines, KeyOf(l)) }

  lemma FilterLast(keep: string -> bool, front: seq<string>, last: string)
    ensures Filter(keep, front + [last]) == Filter(keep, front) + if keep(last) then [last] else []
  {
    FilterAppend(keep, front, [last]);
    assert [last][1..] == [];
  }

  lemma UnseenLast(lines: seq<string>, front: seq<string>, last: string)
    ensures Unseen(lines, front + [last]) == Unseen(lines, front) + if NotSeen(lines)(last) then [last] else []
  {
    assert (front + [last])[..|front|] == front;
  }

  // What is added is the rest of the generated lines that count, in their order.
  lemma {:induction false} UnseenInOrder(lines: seq<string>, r: seq<string>)
    ensures Unseen(lines, r) == Filter(NotSeen(lines), r)
  {
    if r != [] {
      var front, last := r[..|r| - 1], r[|r| - 1];
      assert r == front + [last];
      UnseenInOrder(lines, front);
      UnseenLast(lines, front, last);
      FilterLast(NotSeen(lines), front, last);
    }
  }

  // The lines of a file that is not blank, without the empty ones at its end.
  lemma LinesMean(existing: string)
    ensures TrimStart(existing) == "" ==> Lines(existing) == []
    ensures TrimStart(existing) != "" ==>
              && Lines(existing) <= Split(existing, '\n') && NoEmptyEnd(Lines(existing))
              && forall l :: l in Split(existing, '\n')[|Lines(existing)|..] ==> l == ""
  {
    DroppedAreEmpty(Split(existing, '\n'));
  }

  lemma {:induction false} DroppedAreEmpty(lines: seq<string>)
    ensures var kept := DropEmptyEnd(lines);
            kept <= lines && NoEmptyEnd(kept) && forall l :: l in lines[|kept|..] ==> l == ""
  {
    if lines != [] && lines[|lines| - 1] == "" {
      var front := lines[..|lines| - 1];
      DroppedAreEmpty(front);
      assert lines[|DropEmptyEnd(front)|..] == front[|DropEmptyEnd(front)|..] + [""];
    }
  }

  // The merged text is the merged lines, each ended by a line break; without lines it is one.
  lemma MergedText(existing: string, generated: string)
    ensures var out := Output(Lines(existing), Replacements(Split(generated, '\n')));
            if out == [] then Merge(existing, generated) == "\n"
            else Split(Merge(existing, generated), '\n') == out + [""]
  {
    OutputShape(existing, generated);
    var out := Output(Lines(existing), Replacements(Split(generated, '\n')));
    if out != [] {
      SplitUnlines(out);
    }
  }
}
