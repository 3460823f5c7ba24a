// Top-level keys of a YAML file and their removal: `topLevelYamlKey`, `generatedYamlKeys` and
// `removeYamlKeys` of cli/src/config-files.ts.
module YamlKeys {
  import opened Sequences
  import opened Text

  // The key of an unindented `key:` line.
  function TopLevelKey(line: string): Option<string> {
    var n := Run(line, IsWordChar);
    if 0 < n < |line| && line[n] == ':' && (n + 1 == |line| || IsSpace(line[n + 1])) then Some(line[..n]) else None
  }

  function Keys(lines: seq<string>): set<string> {
    set l | l in lines && TopLevelKey(l).Some? :: TopLevelKey(l).value
  }

  predicate Removes(line: string, keys: set<string>) {
    TopLevelKey(line).Some? && TopLevelKey(line).value in keys
  }

  // The lines that stay; `dropping` says whether the key above is one that goes.
  function Staying(lines: seq<string>, dropping: bool, keys: set<string>): seq<string> {
    if lines == [] then [] else
      var drop := if TopLevelKey(lines[0]).Some? then Removes(lines[0], keys) else dropping;
      (if drop then [] else [lines[0]]) + Staying(lines[1..], drop, keys)
  }

  // Three or more line breaks become two.
  function Squeeze(s: string): string {
    if s == "" then ""
    else if |s| >= 3 && s[0] == '\n' && s[1] == '\n' && s[2] == '\n' then Squeeze(s[1..])
    else [s[0]] + Squeeze(s[1..])
  }

  function JoinLines(lines: seq<string>): string { if lines == [] then "" else Join(lines, '\n') }

  function Without(text: string, keys: set<string>): string {
    TrimEnd(Squeeze(JoinLines(Staying(Split(text, '\n'), false, keys))))
  }

  // The same from a line on.
  function StayingBelow(lines: seq<string>, index: nat, dropping: bool, keys: set<string>): (r: seq<string>)
    requires index <= |lines|
    ensures index == 0 ==> r == Staying(lines, dropping, keys)
    ensures index == |lines| ==> r == []
  {
    assert lines[0..] == lines && lines[|lines|..] == [];
    Staying(lines[index..], dropping, keys)
  }

  // The two loops of `removeYamlKeys`.
  method KeepLines(lines: seq<string>, keys: set<string>) returns (output: seq<string>)
    ensures output == Staying(lines, false, keys)
  {
    output := [];
    var index := 0;
    while index < |lines|
      invariant index <= |lines|
      invariant Staying(lines, false, keys) == output + StayingBelow(lines, index, false, keys)
      decreases |lines| - index
    {
      var key := TopLevelKey(lines[index]);
      if key == None || key.value !in keys {
        KeptStep(lines, index, output, keys);
        output := output + [lines[index]];
        index := index + 1;
        continue;
      }
      DroppedStep(lines, index, false, keys);
      index := index + 1;
      while index < |lines| && TopLevelKey(lines[index]) == None
        invariant index <= |lines|
        invariant Staying(lines, false, keys) == output + StayingBelow(lines, index, true, keys)
        decreases |lines| - index
      {
        DroppedStep(lines, index, true, keys);
        index := index + 1;
      }
      StayingAtKey(lines, index, keys);
    }
    assert output + [] == output;
  }

  // `removeYamlKeys`
  method RemoveYamlKeys(existing: string, keys: set<string>) returns (rest: string)
    ensures rest == Without(existing, keys)
  {
    var output := KeepLines(Split(existing, '\n'), keys);
    return TrimEnd(Squeeze(JoinLines(output)));
  }

  lemma StayingStep(lines: seq<string>, index: nat, dropping: bool, keys: set<string>)
    requires index < |lines|
    ensures var drop := if TopLevelKey(lines[index]).Some? then Removes(lines[index], keys) else dropping;
            StayingBelow(lines, index, dropping, keys)
            == if drop then StayingBelow(lines, index + 1, true, keys)
               else [lines[index]] + StayingBelow(lines, index + 1, false, keys)
  {
    assert lines[index..][0] == lines[index] && lines[index..][1..] == lines[index + 1..];
  }

  lemma KeptStep(lines: seq<string>, index: nat, output: seq<string>, keys: set<string>)
    requires index < |lines| && !Removes(lines[index], keys)
    ensures output + StayingBelow(lines, index, false, keys)
         == (output + [lines[index]]) + StayingBelow(lines, index + 1, false, keys)
  {
    StayingStep(lines, index, false, keys);
    Associate(output, [lines[index]], StayingBelow(lines, index + 1, false, keys));
  }

  lemma DroppedStep(lines: seq<string>, index: nat, dropping: bool, keys: set<string>)
    requires index < |lines|
    requires Removes(lines[index], keys) || (dropping && TopLevelKey(lines[index]) == None)
    ensures StayingBelow(lines, index, dropping, keys) == StayingBelow(lines, index + 1, true, keys)
  {
    StayingStep(lines, index, dropping, keys);
  }

  // At a top-level key it does not matter what stands above.
  lemma StayingAtKey(lines: seq<string>, index: nat, keys: set<string>)
    requires index <= |lines| && (index < |lines| ==> TopLevelKey(lines[index]).Some?)
    ensures StayingBelow(lines, index, true, keys) == StayingBelow(lines, index, false, keys)
  {
    if index < |lines| {
      StayingStep(lines, index, true, keys);
      StayingStep(lines, index, false, keys);
    }
  }

  // ---- Which lines go ----

  // The line that line i belongs to: the last one with a top-level key at or above it.
  ghost predicate Owns(lines: seq<string>, j: int, i: int)
    requires 0 <= i < |lines|
  {
    && 0 <= j <= i
    && TopLevelKey(lines[j]).Some?
    && forall k :: j < k <= i ==> TopLevelKey(lines[k]) == None
  }

  ghost predicate Goes(lines: seq<string>, i: int, keys: set<string>)
    requires 0 <= i < |lines|
  {
    exists j :: Owns(lines, j, i) && Removes(lines[j], keys)
  }

  ghost function NotGoing(lines: seq<string>, i: nat, keys: set<string>): seq<string>
    requires i <= |lines|
    decreases |lines| - i
  {
    if i == |lines| then [] else (if Goes(lines, i, keys) then [] else [lines[i]]) + NotGoing(lines, i + 1, keys)
  }

  lemma GoesNext(lines: seq<string>, i: nat, keys: set<string>)
    requires i < |lines|
    ensures Goes(lines, i, keys)
       <==> if TopLevelKey(lines[i]).Some? then Removes(lines[i], keys) else i > 0 && Goes(lines, i - 1, keys)
  {
    if TopLevelKey(lines[i]).Some? {
      assert Owns(lines, i, i);
    } else {
      if Goes(lines, i, keys) {
        var j :| Owns(lines, j, i) && Removes(lines[j], keys);
        assert Owns(lines, j, i - 1);
      }
      if i > 0 && Goes(lines, i - 1, keys) {
        var j :| Owns(lines, j, i - 1) && Removes(lines[j], keys);
        assert Owns(lines, j, i);
      }
    }
  }

  lemma {:induction false} StayingFrom(lines: seq<string>, i: nat, keys: set<string>)
    requires i <= |lines|
    ensures Staying(lines[i..], i > 0 && Goes(lines, i - 1, keys), keys) == NotGoing(lines, i, keys)
    decreases |lines| - i
  {
    if i < |lines| {
      assert lines[i..][0] == lines[i] && lines[i..][1..] == lines[i + 1..];
      GoesNext(lines, i, keys);
      StayingFrom(lines, i + 1, keys);
    }
  }

  // A line goes exactly when the last top-level key at or above it is one of `keys`.
  lemma StayingExactly(lines: seq<string>, keys: set<string>)
    ensures Staying(lines, false, keys) == NotGoing(lines, 0, keys)
  {
    StayingFrom(lines, 0, keys);
    assert lines[0..] == lines;
  }

  // ---- The clean-up ----

  predicate NotEmpty(line: string) { line != "" }

  lemma {:induction false} SqueezeKeepsLines(s: string)
    ensures Split(Squeeze(s), '\n')[0] == Split(s, '\n')[0]
    ensures Filter(NotEmpty, Split(Squeeze(s), '\n')) == Filter(NotEmpty, Split(s, '\n'))
  {
    if s != "" {
      var rest := s[1..];
      SqueezeKeepsLines(rest);
      assert s == [s[0]] + rest;
      SplitStep(s[0], rest, '\n');
      var x, y := Split(Squeeze(rest), '\n'), Split(rest, '\n');
      if |s| >= 3 && s[0] == '\n' && s[1] == '\n' && s[2] == '\n' {
        assert rest == ['\n'] + rest[1..];
        SplitStep('\n', rest[1..], '\n');
        FilterAppend(NotEmpty, [""], y);
      } else {
        SplitStep(s[0], Squeeze(rest), '\n');
        FilterFirst(x);
        FilterFirst(y);
        if s[0] == '\n' {
          FilterAppend(NotEmpty, [""], x);
          FilterAppend(NotEmpty, [""], y);
        } else {
          FilterAppend(NotEmpty, [[s[0]] + x[0]], x[1..]);
          FilterAppend(NotEmpty, [[s[0]] + y[0]], y[1..]);
          var k := if x[0] == "" then 0 else 1;
          assert Filter(NotEmpty, x[1..]) == Filter(NotEmpty, x)[k..];
          assert Filter(NotEmpty, y[1..]) == Filter(NotEmpty, y)[k..];
        }
      }
    }
  }

  lemma FilterFirst(lines: seq<string>)
    requires lines != []
    ensures Filter(NotEmpty, lines) == (if lines[0] == "" then [] else [lines[0]]) + Filter(NotEmpty, lines[1..])
  {
  }

  // The lines of a text without the white space at its end.
  function TrimLines(lines: seq<string>): seq<string> {
    if lines == [] then []
    else
      var front, last := lines[..|lines| - 1], TrimEnd(lines[|lines| - 1]);
      if last == "" then TrimLines(front) else front + [last]
  }

  // The lines of a text with one more character in front, or at its end.
  function InFront(c: char, lines: seq<string>): seq<string>
    requires lines != []
  {
    if c == '\n' then [""] + lines else [[c] + lines[0]] + lines[1..]
  }

  function AtEnd(lines: seq<string>, c: char): seq<string>
    requires lines != []
  {
    if c == '\n' then lines + [""] else lines[..|lines| - 1] + [lines[|lines| - 1] + [c]]
  }

  lemma InFrontAppend(c: char, lines: seq<string>, last: seq<string>)
    requires lines != []
    ensures InFront(c, lines + last) == InFront(c, lines) + last
  {
    if c == '\n' {
      Associate([""], lines, last);
    } else {
      assert (lines + last)[1..] == lines[1..] + last;
      Associate([[c] + lines[0]], lines[1..], last);
    }
  }

  lemma AtEndAppend(front: seq<string>, line: string, c: char)
    requires c != '\n'
    ensures AtEnd(front + [line], c) == front + [line + [c]]
  {
    assert (front + [line])[..|front|] == front;
  }

  lemma BothEnds(first: char, lines: seq<string>, last: char)
    requires lines != []
    ensures InFront(first, AtEnd(lines, last)) == AtEnd(InFront(first, lines), last)
  {
    var front, line := lines[..|lines| - 1], lines[|lines| - 1];
    assert lines == front + [line];
    if last == '\n' {
      InFrontAppend(first, lines, [""]);
    } else if front != [] {
      InFrontAppend(first, front, [line]);
      InFrontAppend(first, front, [line + [last]]);
      AtEndAppend(front, line, last);
      AtEndAppend(InFront(first, front), line, last);
    } else {
      OneLineEnds(first, line, last);
    }
  }

  lemma OneLineEnds(first: char, line: string, last: char)
    requires last != '\n'
    ensures InFront(first, AtEnd([line], last)) == AtEnd(InFront(first, [line]), last)
  {
    assert [first] + (line + [last]) == ([first] + line) + [last];
  }

  lemma {:induction false} SplitLast(s: string, c: char)
    ensures Split(s + [c], '\n') == AtEnd(Split(s, '\n'), c)
  {
    if s == "" {
      assert s + [c] == [c] + "";
      SplitStep(c, "", '\n');
    } else {
      var rest := s[1..];
      SplitLast(rest, c);
      assert s + [c] == [s[0]] + (rest + [c]) && s == [s[0]] + rest;
      SplitStep(s[0], rest + [c], '\n');
      BothEnds(s[0], Split(rest, '\n'), c);
    }
  }

  lemma TrimEndAppend(s: string, c: char)
    ensures TrimEnd(s + [c]) == if IsSpace(c) then TrimEnd(s) else s + [c]
  {
    assert (s + [c])[..|s|] == s;
  }

  lemma TrimLinesLast(front: seq<string>, last: string)
    ensures TrimLines(front + [last]) == if TrimEnd(last) == "" then TrimLines(front) else front + [TrimEnd(last)]
  {
    assert (front + [last])[..|front|] == front;
  }

  // White space at the end of a text does not matter to its trimmed lines.
  lemma TrimLinesAtEnd(lines: seq<string>, c: char)
    requires lines != []
    ensures TrimLines(AtEnd(lines, c)) == if IsSpace(c) then TrimLines(lines) else AtEnd(lines, c)
  {
    var front, last := lines[..|lines| - 1], lines[|lines| - 1];
    if c == '\n' {
      TrimLinesLast(lines, "");
    } else {
      assert lines == front + [last];
      TrimLinesLast(front, last);
      TrimLinesLast(front, last + [c]);
      TrimEndAppend(last, c);
    }
  }

  // Trimming the end of a text trims its lines from the end.
  lemma {:induction false} TrimEndLines(s: string)
    ensures var lines := TrimLines(Split(s, '\n'));
            Split(TrimEnd(s), '\n') == if lines == [] then [""] else lines
  {
    if s != "" {
      var front, c := s[..|s| - 1], s[|s| - 1];
      assert s == front + [c];
      SplitLast(front, c);
      TrimLinesAtEnd(Split(front, '\n'), c);
      TrimEndAppend(front, c);
      if IsSpace(c) {
        TrimEndLines(front);
      }
    }
  }

  // The lines that are not empty can be taken before or after.
  lemma {:induction false} TrimLinesFiltered(lines: seq<string>)
    ensures Filter(NotEmpty, TrimLines(lines)) == TrimLines(Filter(NotEmpty, lines))
  {
    if lines != [] {
      var front, last := lines[..|lines| - 1], lines[|lines| - 1];
      assert lines == front + [last];
      FilterAppend(NotEmpty, front, [last]);
      FilterAppend(NotEmpty, front, [TrimEnd(last)]);
      TrimLinesFiltered(front);
      if last != "" {
        var kept := Filter(NotEmpty, front);
        assert Filter(NotEmpty, [last]) == [last];
        assert (kept + [last])[..|kept|] == kept;
        assert TrimEnd(last) != "" ==> Filter(NotEmpty, [TrimEnd(last)]) == [TrimEnd(last)];
      } else {
        assert Filter(NotEmpty, [last]) == [];
        assert Filter(NotEmpty, front) + [] == Filter(NotEmpty, front);
      }
    }
  }

  lemma JoinedLines(lines: seq<string>)
    requires Free(lines, '\n')
    ensures Filter(NotEmpty, Split(JoinLines(lines), '\n')) == Filter(NotEmpty, lines)
  {
    if lines == [] {
      assert Split("", '\n') == [""];
    } else {
      SplitJoin(lines, '\n');
    }
  }

  lemma {:induction false} StayingFree(lines: seq<string>, dropping: bool, keys: set<string>)
    requires Free(lines, '\n')
    ensures Free(Staying(lines, dropping, keys), '\n')
  {
    if lines != [] {
      StayingFree(lines[1..], true, keys);
      StayingFree(lines[1..], false, keys);
      assert '\n' !in lines[0];
    }
  }

  // ---- No three line breaks in a row ----

  lemma {:induction false} SqueezeStarts(s: string)
    ensures s != "" ==> Squeeze(s) != "" && Squeeze(s)[0] == s[0]
    ensures |Squeeze(s)| >= 2 && s[0] == '\n' && Squeeze(s)[1] == '\n' ==> |s| >= 2 && s[1] == '\n'
  {
    if s != "" {
      SqueezeStarts(s[1..]);
    }
  }

  lemma {:induction false} SqueezeNoThree(s: string)
    ensures !ThreeBreaks(Squeeze(s))
  {
    if s != "" {
      SqueezeNoThree(s[1..]);
      if !(|s| >= 3 && s[0] == '\n' && s[1] == '\n' && s[2] == '\n') {
        SqueezeStarts(s[1..]);
        NoThreeFirst(s[0], Squeeze(s[1..]));
      }
    }
  }

  lemma NoThreeFirst(c: char, rest: string)
    requires !ThreeBreaks(rest) && !(c == '\n' && |rest| >= 2 && rest[0] == '\n' && rest[1] == '\n')
    ensures !ThreeBreaks([c] + rest)
  {
    if ThreeBreaks([c] + rest) {
      var i :| 0 <= i < |[c] + rest| && BreaksAt([c] + rest, i);
      assert i > 0;
      assert BreaksAt(rest, i - 1);
    }
  }

  // A text without three line breaks in a row stays as it is.
  lemma {:induction false} SqueezeStays(s: string)
    requires !ThreeBreaks(s)
    ensures Squeeze(s) == s
  {
    if s != "" {
      assert !BreaksAt(s, 0);
      if ThreeBreaks(s[1..]) {
        var i :| 0 <= i < |s[1..]| && BreaksAt(s[1..], i);
        assert BreaksAt(s, i + 1);
      }
      SqueezeStays(s[1..]);
      assert s == [s[0]] + s[1..];
    }
  }

  // What is left of a file holds none, whatever was removed.
  lemma WithoutNoThree(text: string, keys: set<string>)
    ensures !ThreeBreaks(Without(text, keys))
  {
    var squeezed := Squeeze(JoinLines(Staying(Split(text, '\n'), false, keys)));
    SqueezeNoThree(JoinLines(Staying(Split(text, '\n'), false, keys)));
    TrimEndPrefix(squeezed);
    if ThreeBreaks(TrimEnd(squeezed)) {
      var i :| 0 <= i < |TrimEnd(squeezed)| && BreaksAt(TrimEnd(squeezed), i);
      assert BreaksAt(squeezed, i);
    }
  }

  // ---- Keys ----

  predicate IsKeyChar(c: char) {
    'a' <= c <= 'z' || 'A' <= c <= 'Z' || '0' <= c <= '9' || c == '_' || c == '-'
  }

  // A key of letters, digits, `_` and `-` at the start of the line, a colon, and white space or
  // the end of the line.
  ghost predicate IsKeyLine(line: string, key: string, rest: string) {
    && key != "" && (forall i :: 0 <= i < |key| ==> IsKeyChar(key[i]))
    && line == key + (":" + rest) && (rest == "" || IsSpace(rest[0]))
  }

  lemma TopLevelKeyMeans(line: string, key: string)
    ensures TopLevelKey(line) == Some(key) <==> exists rest :: IsKeyLine(line, key, rest)
  {
    var n := Run(line, IsWordChar);
    if TopLevelKey(line) == Some(key) {
      assert line == line[..n] + (":" + line[n + 1..]);
      assert IsKeyLine(line, key, line[n + 1..]);
    }
    if exists rest :: IsKeyLine(line, key, rest) {
      var rest :| IsKeyLine(line, key, rest);
      RunOf(key, ":" + rest, IsWordChar);
      assert line[|key|] == ':' && (rest != "" ==> line[|key| + 1] == rest[0]);
    }
  }

  // Of a file without the generated keys, the lines that are not empty are those of the file
  // whose last top-level key at or above them is not generated, up to white space at the end.
  lemma RemovedExactly(text: string, keys: set<string>)
    ensures Filter(NotEmpty, Split(Without(text, keys), '\n'))
         == TrimLines(Filter(NotEmpty, NotGoing(Split(text, '\n'), 0, keys)))
  {
    var lines := Split(text, '\n');
    var staying := Staying(lines, false, keys);
    var joined := JoinLines(staying);
    SplitFree(text, '\n');
    StayingFree(lines, false, keys);
    StayingExactly(lines, keys);
    JoinedLines(staying);
    SqueezeKeepsLines(joined);
    TrimEndLines(Squeeze(joined));
    TrimLinesFiltered(Split(Squeeze(joined), '\n'));
    assert Filter(NotEmpty, [""]) == [];
  }
}
