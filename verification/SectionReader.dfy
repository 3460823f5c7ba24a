// What the doctor's `sectionValue` of cli/src/doctor.ts finds, spelled out on the lines of a text.
module SectionReader {
  import opened Sequences
  import opened Text
  import opened TomlReader

  // ---- One line ----

  // A header behind trimming: a text in brackets that holds no closing bracket. It opens the
  // section of that text, trimmed.
  ghost predicate Opens(line: string, section: string) {
    exists inner :: IsOpening(line, inner) && section == Trim(inner)
  }

  ghost predicate IsOpening(line: string, inner: string) {
    inner != "" && ']' !in inner && Trim(line) == "[" + inner + "]"
  }

  ghost predicate IsHeader(line: string) { exists inner :: IsOpening(line, inner) }

  lemma HeaderMeans(line: string, section: string)
    ensures HeaderOf(Trim(line)) == Some(section) <==> Opens(line, section)
  {
    var t := Trim(line);
    if HeaderOf(t).Some? {
      assert t == "[" + t[1..|t| - 1] + "]";
      assert IsOpening(line, t[1..|t| - 1]);
    }
    if Opens(line, section) {
      var inner :| IsOpening(line, inner) && section == Trim(inner);
      assert t[1..|t| - 1] == inner;
    }
  }

  lemma IsHeaderMeans(line: string)
    ensures HeaderOf(Trim(line)).Some? <==> IsHeader(line)
  {
    if IsHeader(line) {
      var inner :| IsOpening(line, inner);
      HeaderMeans(line, Trim(inner));
    }
    if HeaderOf(Trim(line)).Some? {
      HeaderMeans(line, HeaderOf(Trim(line)).value);
    }
  }

  // The key, an equals sign between white space, a quote, a value without quotes, a quote, and
  // anything.
  ghost predicate IsSetting(t: string, key: string, a: string, b: string, p: char, value: string, q: char,
          rest: string)
  {
    && t == key + (a + ("=" + (b + ([p] + (value + ([q] + rest))))))
    && AllOf(IsSpace, a) && AllOf(IsSpace, b)
    && (p == '"' || p == '\'') && (q == '"' || q == '\'')
    && value != "" && '"' !in value && '\'' !in value
  }

  ghost predicate Sets(t: string, key: string, value: string) {
    exists a, b, p, q, rest :: IsSetting(t, key, a, b, p, value, q, rest)
  }

  lemma QuoteEnds(value: string, q: char, rest: string)
    requires (q == '"' || q == '\'') && '"' !in value && '\'' !in value
    ensures Run(value + ([q] + rest), NotQuote) == |value|
    ensures (value + ([q] + rest))[..|value|] == value
  {
    assert forall i :: 0 <= i < |value| ==> value[i] in value;
    RunOf(value, [q] + rest, NotQuote);
  }

  // The value in quotes at the start of a text.
  function Quoted(v: string): Option<string> {
    if v == "" || NotQuote(v[0]) then None else
      var n := Run(v[1..], NotQuote);
      if n == 0 || n == |v| - 1 then None else Some(v[1..][..n])
  }

  ghost predicate QuotedFirst(v: string, p: char, value: string, q: char, rest: string) {
    && v == [p] + (value + ([q] + rest)) && (p == '"' || p == '\'') && (q == '"' || q == '\'')
    && value != "" && '"' !in value && '\'' !in value
  }

  lemma QuotedIsFirst(v: string, value: string)
    requires Quoted(v) == Some(value)
    ensures exists p, q, rest :: QuotedFirst(v, p, value, q, rest)
  {
    var n := Run(v[1..], NotQuote);
    assert value == v[1..][..n] && !NotQuote(v[1..][n]);
    forall c | c in value
      ensures NotQuote(c)
    {
      var i :| 0 <= i < n && value[i] == c;
      assert NotQuote(v[1..][i]);
    }
    ThreeParts(v, n);
    assert QuotedFirst(v, v[0], value, v[1..][n], v[1..][n + 1..]);
  }

  lemma ThreeParts(v: string, n: nat)
    requires v != "" && n < |v| - 1
    ensures v == [v[0]] + (v[1..][..n] + ([v[1..][n]] + v[1..][n + 1..]))
  {
  }

  lemma QuotedMeans(v: string, value: string)
    ensures Quoted(v) == Some(value) <==> exists p, q, rest :: QuotedFirst(v, p, value, q, rest)
  {
    if Quoted(v) == Some(value) {
      QuotedIsFirst(v, value);
    }
    if exists p, q, rest :: QuotedFirst(v, p, value, q, rest) {
      var p, q, rest :| QuotedFirst(v, p, value, q, rest);
      assert v[1..] == value + ([q] + rest);
      QuoteEnds(value, q, rest);
    }
  }

  lemma SettingSteps(t: string, key: string, value: string)
    ensures SettingOf(t, key) == Some(value)
       <==> key <= t && "=" <= TrimStart(t[|key|..])
            && Quoted(TrimStart(TrimStart(t[|key|..])[1..])) == Some(value)
  {
  }

  lemma SettingIsSet(t: string, key: string, value: string)
    requires SettingOf(t, key) == Some(value)
    ensures Sets(t, key, value)
  {
    SettingSteps(t, key, value);
    var a := TrimStartCut(t[|key|..]);
    var u := TrimStart(t[|key|..])[1..];
    var b := TrimStartCut(u);
    QuotedMeans(TrimStart(u), value);
    var p, q, rest :| QuotedFirst(TrimStart(u), p, value, q, rest);
    assert TrimStart(t[|key|..]) == "=" + u;
    assert t == key + t[|key|..];
    assert IsSetting(t, key, a, b, p, value, q, rest);
  }

  lemma SetIsSetting(t: string, key: string, a: string, b: string, p: char, value: string, q: char, rest: string)
    requires IsSetting(t, key, a, b, p, value, q, rest)
    ensures SettingOf(t, key) == Some(value)
  {
    var v := [p] + (value + ([q] + rest));
    var u := b + v;
    assert t[|key|..] == a + ("=" + u);
    TrimStartIs(a, "=" + u);
    assert ("=" + u)[1..] == u;
    TrimStartIs(b, v);
    assert QuotedFirst(v, p, value, q, rest);
    QuotedMeans(v, value);
    SettingSteps(t, key, value);
  }

  // What a trimmed line gives to a key.
  lemma SettingMeans(t: string, key: string, value: string)
    ensures SettingOf(t, key) == Some(value) <==> Sets(t, key, value)
  {
    if SettingOf(t, key) == Some(value) {
      SettingIsSet(t, key, value);
    }
    if Sets(t, key, value) {
      var a, b, p, q, rest :| IsSetting(t, key, a, b, p, value, q, rest);
      SetIsSetting(t, key, a, b, p, value, q, rest);
    }
  }

  // ---- All lines ----

  // The last header above line i opens the section.
  ghost predicate InSection(lines: seq<string>, i: int, section: string)
    requires 0 <= i <= |lines|
  {
    exists j :: 0 <= j < i && Opens(lines[j], section) && forall k :: j < k < i ==> !IsHeader(lines[k])
  }

  // Line i gives the key a value in the section.
  ghost predicate Gives(lines: seq<string>, i: int, section: string, key: string, value: string) {
    0 <= i < |lines| && !IsHeader(lines[i]) && InSection(lines, i, section) && Sets(Trim(lines[i]), key, value)
  }

  lemma NextInSection(lines: seq<string>, i: nat, section: string)
    requires i < |lines|
    ensures InSection(lines, i + 1, section)
       <==> if IsHeader(lines[i]) then Opens(lines[i], section) else InSection(lines, i, section)
  {
    if IsHeader(lines[i]) {
      if InSection(lines, i + 1, section) {
        var j :| 0 <= j < i + 1 && Opens(lines[j], section) && forall k :: j < k < i + 1 ==> !IsHeader(lines[k]);
        assert j == i;
      }
    } else {
      OpensIsHeader(lines[i], section);
      if InSection(lines, i + 1, section) {
        var j :| 0 <= j < i + 1 && Opens(lines[j], section) && forall k :: j < k < i + 1 ==> !IsHeader(lines[k]);
        assert j < i;
      }
    }
  }

  lemma OpensIsHeader(line: string, section: string)
    requires !IsHeader(line)
    ensures !Opens(line, section)
  {
  }

  // No line above line i gives the key a value.
  ghost predicate NoneAbove(lines: seq<string>, i: int, section: string, key: string) {
    forall k, v :: k < i ==> !Gives(lines, k, section, key, v)
  }

  ghost predicate IsFirst(lines: seq<string>, i: int, section: string, key: string, value: string) {
    Gives(lines, i, section, key, value) && NoneAbove(lines, i, section, key)
  }

  lemma GivesHere(lines: seq<string>, i: nat, section: string, key: string, value: string)
    requires i < |lines|
    ensures Gives(lines, i, section, key, value)
       <==> HeaderOf(Trim(lines[i])) == None && InSection(lines, i, section)
            && SettingOf(Trim(lines[i]), key) == Some(value)
  {
    IsHeaderMeans(lines[i]);
    SettingMeans(Trim(lines[i]), key, value);
  }

  lemma NoneAboveNext(lines: seq<string>, i: nat, section: string, key: string)
    requires i < |lines| && NoneAbove(lines, i, section, key)
    requires HeaderOf(Trim(lines[i])).Some? || !InSection(lines, i, section) || SettingOf(Trim(lines[i]), key) == None
    ensures NoneAbove(lines, i + 1, section, key)
  {
    forall k, v | k < i + 1
      ensures !Gives(lines, k, section, key, v)
    {
      if k == i { GivesHere(lines, i, section, key, v); }
    }
  }

  lemma SectionNext(lines: seq<string>, i: nat, section: string)
    requires i < |lines|
    ensures var header := HeaderOf(Trim(lines[i]));
            InSection(lines, i + 1, section)
            <==> if header.Some? then header.value == section else InSection(lines, i, section)
  {
    NextInSection(lines, i, section);
    IsHeaderMeans(lines[i]);
    HeaderMeans(lines[i], section);
  }

  // The value of `key` in section `section` of a text: that of the first line which gives one.
  method SectionValue(toml: string, section: string, key: string) returns (value: Option<string>)
    ensures value.Some? ==> exists i :: IsFirst(Split(toml, '\n'), i, section, key, value.value)
    ensures value == None ==> NoneAbove(Split(toml, '\n'), |Split(toml, '\n')|, section, key)
    ensures value == Read(Split(toml, '\n'), false, section, key)
  {
    var lines := Split(toml, '\n');
    var inSection := false;
    for i := 0 to |lines|
      invariant Read(lines, false, section, key) == Read(lines[i..], inSection, section, key)
      invariant inSection <==> InSection(lines, i, section)
      invariant NoneAbove(lines, i, section, key)
    {
      ReadStep(lines, i, inSection, section, key);
      SectionNext(lines, i, section);
      var line := Trim(lines[i]);
      var header := HeaderOf(line);
      if header.Some? {
        NoneAboveNext(lines, i, section, key);
        inSection := header.value == section;
        continue;
      }
      if !inSection {
        NoneAboveNext(lines, i, section, key);
        continue;
      }
      var found := SettingOf(line, key);
      if found.Some? {
        GivesHere(lines, i, section, key, found.value);
        assert IsFirst(lines, i, section, key, found.value);
        return found;
      }
      NoneAboveNext(lines, i, section, key);
    }
    return None;
  }

  lemma ReadStep(lines: seq<string>, i: nat, inSection: bool, section: string, key: string)
    requires i < |lines|
    ensures var line := Trim(lines[i]);
            Read(lines[i..], inSection, section, key)
            == if HeaderOf(line).Some? then Read(lines[i + 1..], HeaderOf(line).value == section, section, key)
               else if inSection && SettingOf(line, key).Some? then SettingOf(line, key)
               else Read(lines[i + 1..], inSection, section, key)
  {
    assert lines[i..][0] == lines[i] && lines[i..][1..] == lines[i + 1..];
  }
}
