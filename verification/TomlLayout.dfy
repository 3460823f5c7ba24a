// Blank lines in the TOML merge: trimming, collapsing, and the layout of the merged file.
module TomlLayout {
  import opened Sequences
  import opened TomlDocument

  lemma {:induction false} TrimFrontBlank(blank: seq<Line>, lines: seq<Line>)
    requires AllBlank(blank)
    ensures TrimFront(blank + lines) == TrimFront(lines)
  {
    if blank == [] {
      assert blank + lines == lines;
    } else {
      assert (blank + lines)[1..] == blank[1..] + lines;
      TrimFrontBlank(blank[1..], lines);
    }
  }

  lemma {:induction false} TrimBackBlank(lines: seq<Line>, blank: seq<Line>)
    requires AllBlank(blank)
    ensures TrimBack(lines + blank) == TrimBack(lines)
  {
    if blank == [] {
      assert lines + blank == lines;
    } else {
      var n := |blank| - 1;
      assert (lines + blank)[..|lines + blank| - 1] == lines + blank[..n];
      TrimBackBlank(lines, blank[..n]);
    }
  }

  // Trimming removes the blank lines around a trimmed document and nothing else.
  lemma TrimPadded(before: seq<Line>, lines: seq<Line>, after: seq<Line>)
    requires AllBlank(before) && AllBlank(after) && Trimmed(lines)
    ensures Trim(before + lines + after) == lines
  {
    assert before + lines + after == before + (lines + after);
    TrimFrontBlank(before, lines + after);
    if lines == [] {
      assert lines + after == after == after + [];
      TrimFrontBlank(after, []);
    } else {
      assert TrimFront(lines + after) == lines + after;
      TrimBackBlank(lines, after);
    }
  }

  lemma {:induction false} TrimFrontCut(lines: seq<Line>) returns (before: seq<Line>)
    ensures AllBlank(before) && lines == before + TrimFront(lines)
    ensures TrimFront(lines) != [] ==> !TrimFront(lines)[0].Blank?
  {
    before := [];
    if lines != [] && lines[0].Blank? {
      var rest := TrimFrontCut(lines[1..]);
      before := [lines[0]] + rest;
      assert lines == [lines[0]] + lines[1..];
    }
  }

  lemma {:induction false} TrimBackCut(lines: seq<Line>) returns (after: seq<Line>)
    ensures AllBlank(after) && lines == TrimBack(lines) + after
    ensures TrimBack(lines) != [] ==> !TrimBack(lines)[|TrimBack(lines)| - 1].Blank?
  {
    after := [];
    var n := |lines| - 1;
    if lines != [] && lines[n].Blank? {
      var rest := TrimBackCut(lines[..n]);
      after := rest + [lines[n]];
      assert lines == lines[..n] + [lines[n]];
    }
  }

  // A document is its trimmed part between blank lines.
  lemma TrimSplit(lines: seq<Line>) returns (before: seq<Line>, after: seq<Line>)
    ensures AllBlank(before) && AllBlank(after)
    ensures lines == before + Trim(lines) + after
    ensures Trimmed(Trim(lines))
  {
    before := TrimFrontCut(lines);
    var rest := TrimFront(lines);
    after := TrimBackCut(rest);
    Associate(before, Trim(lines), after);
    assert Trim(lines) != [] ==> rest[0] == Trim(lines)[0];
  }

  lemma {:induction false} CollapseLast(lines: seq<Line>)
    requires lines != []
    ensures Collapse(lines)[|Collapse(lines)| - 1] == lines[|lines| - 1]
  {
    if |lines| >= 2 { CollapseLast(lines[1..]); }
  }

  lemma {:induction false} CollapseTwice(lines: seq<Line>)
    ensures Collapse(Collapse(lines)) == Collapse(lines)
  {
    if |lines| >= 2 {
      CollapseTwice(lines[1..]);
      if !(lines[0] == EMPTY && lines[1] == EMPTY) {
        var c := Collapse(lines[1..]);
        assert ([lines[0]] + c)[1..] == c;
      }
    }
  }

  // The line breaks around the marker lines are not part of a run of empty lines.
  lemma {:induction false} CollapseInner(first: Line, lines: seq<Line>, last: Line)
    requires first != EMPTY && last != EMPTY
    ensures Collapse([first] + lines + [last]) == [first] + Collapse(lines) + [last]
  {
    assert ([first] + lines + [last])[1..] == lines + [last];
    if lines != [] {
      CollapseBefore(lines, last);
    }
  }

  lemma {:induction false} CollapseBefore(lines: seq<Line>, last: Line)
    requires lines != [] && last != EMPTY
    ensures Collapse(lines + [last]) == Collapse(lines) + [last]
  {
    assert (lines + [last])[1..] == lines[1..] + [last];
    if |lines| >= 2 {
      CollapseBefore(lines[1..], last);
    }
  }

  lemma InkAppend(a: seq<Line>, b: seq<Line>)
    ensures Ink(a + b) == Ink(a) + Ink(b)
  {
    FilterAppend(IsInk, a, b);
  }

  lemma InkOfBlank(lines: seq<Line>)
    requires AllBlank(lines)
    ensures Ink(lines) == []
  {
    FilterNone(IsInk, lines);
  }

  lemma InkOfTrim(lines: seq<Line>)
    ensures Ink(Trim(lines)) == Ink(lines)
  {
    var before, after := TrimSplit(lines);
    InkOfBlank(before);
    InkOfBlank(after);
    InkAppend(before + Trim(lines), after);
    InkAppend(before, Trim(lines));
  }

  lemma {:induction false} InkOfCollapse(lines: seq<Line>)
    ensures Ink(Collapse(lines)) == Ink(lines)
  {
    if |lines| >= 2 {
      InkOfCollapse(lines[1..]);
      InkAppend([lines[0]], Collapse(lines[1..]));
      InkAppend([lines[0]], lines[1..]);
      assert lines == [lines[0]] + lines[1..];
    }
  }

  lemma InkOfSection(lines: seq<Line>)
    ensures Ink(Section(lines)) == Ink(lines)
  {
    InkOfTrim(lines);
    InkOfCollapse(Trim(lines));
  }

  lemma InkNonEmpty(lines: seq<Line>)
    requires Trimmed(lines) && lines != []
    ensures Ink(lines) != []
  {
    assert lines == [lines[0]] + lines[1..];
    InkAppend([lines[0]], lines[1..]);
  }

  lemma SectionTrimmed(lines: seq<Line>)
    ensures Trimmed(Section(lines))
    ensures Section(lines) == [] <==> Trim(lines) == []
  {
    var before, after := TrimSplit(lines);
    if Trim(lines) != [] {
      CollapseLast(Trim(lines));
    }
  }

  // A section stays as it is when blank lines are put around it and it is laid out again.
  lemma SectionStable(before: seq<Line>, lines: seq<Line>, after: seq<Line>)
    requires AllBlank(before) && AllBlank(after)
    ensures Section(before + Section(lines) + after) == Section(lines)
  {
    SectionTrimmed(lines);
    TrimPadded(before, Section(lines), after);
    CollapseTwice(Trim(lines));
  }

  // A section and the empty line after it.
  function Pad(lines: seq<Line>): seq<Line> {
    if lines == [] then [] else lines + [EMPTY]
  }

  function PadAll(sections: seq<seq<Line>>): seq<Line> {
    if sections == [] then [] else Pad(sections[0]) + PadAll(sections[1..])
  }

  predicate AllNotEmpty(sections: seq<seq<Line>>) {
    forall i :: 0 <= i < |sections| ==> sections[i] != []
  }

  lemma {:induction false} JoinIsPadded(sections: seq<seq<Line>>)
    requires sections != []
    requires AllNotEmpty(sections)
    ensures JoinSections(sections) + [EMPTY] == PadAll(sections)
  {
    if |sections| > 1 {
      JoinIsPadded(sections[1..]);
      assert JoinSections(sections) + [EMPTY] == Pad(sections[0]) + (JoinSections(sections[1..]) + [EMPTY]);
    } else {
      assert sections[1..] == [];
    }
  }

  lemma {:induction false} PadAllFiltered(sections: seq<seq<Line>>)
    ensures PadAll(Filter(NotEmpty, sections)) == PadAll(sections)
    ensures AllNotEmpty(Filter(NotEmpty, sections))
  {
    if sections != [] {
      PadAllFiltered(sections[1..]);
      var rest := Filter(NotEmpty, sections[1..]);
      if sections[0] != [] {
        assert Filter(NotEmpty, sections) == [sections[0]] + rest;
        assert ([sections[0]] + rest)[1..] == rest;
      } else {
        assert Filter(NotEmpty, sections) == rest;
      }
    }
  }

  lemma PadAllFirst(first: seq<Line>, rest: seq<seq<Line>>)
    ensures PadAll([first] + rest) == Pad(first) + PadAll(rest)
  {
    assert ([first] + rest)[1..] == rest;
  }

  lemma PadAllOfFour(a: seq<Line>, b: seq<Line>, c: seq<Line>, d: seq<Line>)
    ensures PadAll([a, b, c, d]) == Pad(a) + Pad(b) + Pad(c) + Pad(d)
  {
    assert [a, b, c, d] == [a] + ([b] + ([c] + ([d] + [])));
    PadAllFirst(a, [b] + ([c] + ([d] + [])));
    PadAllFirst(b, [c] + ([d] + []));
    PadAllFirst(c, [d] + []);
    PadAllFirst(d, []);
    Associate(Pad(a), Pad(b), Pad(c));
    Associate(Pad(a), Pad(b) + Pad(c), Pad(d));
    Associate(Pad(b), Pad(c), Pad(d));
    assert Pad(d) + [] == Pad(d);
  }

  // The merged file is its sections, each followed by one empty line.
  lemma AssembleLayout(head: seq<Line>, root: seq<Line>, tail: seq<Line>, tables: seq<Line>)
    requires Pad(Section(head)) + Pad(Section(Wrap(root))) + Pad(Section(tail)) + Pad(Section(Wrap(tables))) != []
    ensures Assemble(head, root, tail, tables)
         == Pad(Section(head)) + Pad(Section(Wrap(root))) + Pad(Section(tail)) + Pad(Section(Wrap(tables)))
  {
    var a, b, c, d := Section(head), Section(Wrap(root)), Section(tail), Section(Wrap(tables));
    PadAllOfFour(a, b, c, d);
    PadAllFiltered([a, b, c, d]);
    if Filter(NotEmpty, [a, b, c, d]) != [] {
      JoinIsPadded(Filter(NotEmpty, [a, b, c, d]));
    }
  }
}
