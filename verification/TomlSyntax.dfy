// From text to lines and back: the line patterns of the TOML merger, and the merge of
// two texts.
module TomlSyntax {
  import opened Sequences
  import opened Text
  import TomlDocument

  type Line = TomlDocument.Line

  const START_TEXT := "# freellmapi:start"
  const END_TEXT := "# freellmapi:end"

  predicate IsRootKeyChar(c: char) { IsWordChar(c) || c == '.' }

  predicate IsMarkerText(s: string) {
    var body := s[Run(s, IsIndent)..];
    body == START_TEXT || body == END_TEXT
  }

  // `[name]`, the name without `]`.
  predicate IsTableText(s: string) {
    |s| > 2 && s[0] == '[' && s[|s| - 1] == ']' && ']' !in s[1..|s| - 1]
  }

  // `[[name]]`, the name without `]`.
  predicate IsArrayText(s: string) {
    |s| > 4 && s[..2] == "[[" && s[|s| - 2..] == "]]" && ']' !in s[2..|s| - 2]
  }

  function RootKeyOf(s: string): Option<string> {
    var n := Run(s, IsRootKeyChar);
    if n > 0 && "=" <= TrimStart(s[n..]) then Some(s[..n]) else None
  }

  function EntryNameOf(s: string): Option<string> {
    var t := TrimStart(s);
    if !("name" <= t) then None else
      var u := TrimStart(t[4..]);
      if !("=" <= u) then None else
        var v := TrimStart(u[1..]);
        if v == "" || (v[0] != '"' && v[0] != '\'') then None else
          var i := IndexOf(v[1..], v[0]);
          if i == |v| - 1 then None else Some(v[1..][..i])
  }

  function Classify(s: string): Line {
    if TrimStart(s) == "" then TomlDocument.Blank(s)
    else if IsMarkerText(s) then
      TomlDocument.Marker(s[..Run(s, IsIndent)], s[Run(s, IsIndent)..] == START_TEXT)
    else if IsTableText(s) then TomlDocument.Table(s[1..|s| - 1])
    else if IsArrayText(s) then TomlDocument.ArrayTable(s[2..|s| - 2])
    else TomlDocument.Text(s, RootKeyOf(s), EntryNameOf(s))
  }

  function Render(line: Line): string {
    match line
    case Blank(spaces) => spaces
    case Marker(indent, start) => indent + (if start then START_TEXT else END_TEXT)
    case Table(name) => "[" + name + "]"
    case ArrayTable(name) => "[[" + name + "]]"
    case Text(text, _, _) => text
  }

  lemma CutInThree(s: string, i: nat, j: nat)
    requires i <= j <= |s|
    ensures s == s[..i] + s[i..j] + s[j..]
  {
  }

  lemma RenderMarker(s: string)
    requires IsMarkerText(s)
    ensures s == s[..Run(s, IsIndent)] + (if s[Run(s, IsIndent)..] == START_TEXT then START_TEXT else END_TEXT)
  {
  }

  lemma RenderTable(s: string)
    requires IsTableText(s)
    ensures "[" + s[1..|s| - 1] + "]" == s
  {
    CutInThree(s, 1, |s| - 1);
  }

  lemma RenderArray(s: string)
    requires IsArrayText(s)
    ensures "[[" + s[2..|s| - 2] + "]]" == s
  {
    CutInThree(s, 2, |s| - 2);
  }

  // Nothing of a line is lost by classifying it.
  lemma RenderClassified(s: string)
    ensures Render(Classify(s)) == s
  {
    if TrimStart(s) != "" {
      if IsMarkerText(s) {
        RenderMarker(s);
      } else if IsTableText(s) {
        RenderTable(s);
      } else if IsArrayText(s) {
        RenderArray(s);
      }
    }
  }

  function Lines(text: string): (r: seq<Line>)
    ensures r != []
  {
    var parts := Split(text, '\n');
    seq(|parts|, i requires 0 <= i < |parts| => Classify(parts[i]))
  }

  function RenderAll(lines: seq<Line>): seq<string> {
    seq(|lines|, i requires 0 <= i < |lines| => Render(lines[i]))
  }

  function Unlines(lines: seq<Line>): string
    requires lines != []
  {
    Join(RenderAll(lines), '\n')
  }

  // A line as it comes from a text: classified, without a line break.
  predicate Proper(line: Line) {
    Classify(Render(line)) == line && '\n' !in Render(line)
  }

  predicate AllProper(lines: seq<Line>) { forall l :: l in lines ==> Proper(l) }

  lemma ProperLines(text: string)
    ensures AllProper(Lines(text))
    ensures Unlines(Lines(text)) == text
  {
    var parts := Split(text, '\n');
    SplitFree(text, '\n');
    JoinSplit(text, '\n');
    forall i | 0 <= i < |parts|
      ensures Render(Lines(text)[i]) == parts[i] && Proper(Lines(text)[i])
    {
      RenderClassified(parts[i]);
    }
    assert RenderAll(Lines(text)) == parts;
  }

  lemma LinesOfUnlines(lines: seq<Line>)
    requires lines != [] && AllProper(lines)
    ensures Lines(Unlines(lines)) == lines
  {
    var parts := RenderAll(lines);
    forall i | 0 <= i < |parts|
      ensures '\n' !in parts[i] && Classify(parts[i]) == lines[i]
    {
      assert lines[i] in lines;
    }
    SplitJoin(parts, '\n');
  }

  // ---- Some lines ----

  lemma PlainLine(s: string)
    requires s != "" && !IsSpace(s[0]) && s[0] != '#' && s[0] != '['
    ensures Classify(s) == TomlDocument.Text(s, RootKeyOf(s), EntryNameOf(s))
  {
    assert Run(s, IsIndent) == 0 && s[0..] == s;
    assert START_TEXT[0] == '#' && END_TEXT[0] == '#';
  }

  lemma CommentLine(c: string)
    requires c == "# c"
    ensures Classify(c) == TomlDocument.Text(c, None, None)
  {
    assert Run(c, IsIndent) == 0 && c[0..] == c;
    assert |START_TEXT| > 3 && |END_TEXT| > 3;
    assert Run(c, IsRootKeyChar) == 0;
  }

  lemma KeyBefore(s: string, key: string, tail: string)
    requires s == key + tail && key != "" && (forall i :: 0 <= i < |key| ==> IsRootKeyChar(key[i]))
    requires tail != "" && !IsRootKeyChar(tail[0]) && "=" <= TrimStart(tail)
    ensures RootKeyOf(s) == Some(key) && s != "" && s[0] == key[0]
  {
    var n := |key|;
    assert forall i :: 0 <= i < n ==> s[i] == key[i];
    assert s[n] == tail[0] && s[..n] == key && s[n..] == tail;
    RunIs(s, n, IsRootKeyChar);
  }

  lemma KeyOf(s: string, key: string, value: string)
    requires s == key + (" = " + value) && key != "" && forall i :: 0 <= i < |key| ==> IsRootKeyChar(key[i])
    ensures RootKeyOf(s) == Some(key) && s != "" && s[0] == key[0]
  {
    var tail := " = " + value;
    assert tail[1..] == "= " + value && TrimStart(tail) == tail[1..];
    KeyBefore(s, key, tail);
  }

  lemma KeyLine(x: string)
    requires x == "x = 1"
    ensures Classify(x) == TomlDocument.Text(x, Some("x"), None)
  {
    KeyOf(x, "x", "1");
    PlainLine(x);
    assert TrimStart(x) == x && !("name" <= x) by {
      assert "name"[0] == 'n';
    }
  }

  lemma ArrayLine(a: string)
    requires a == "[[a]]"
    ensures Classify(a) == TomlDocument.ArrayTable("a")
  {
    assert a[1..4][2] == ']' && a[..2] == "[[" && a[2..3] == "a" && a[3..] == "]]";
    assert Run(a, IsIndent) == 0 && a[0..] == a;
    assert |START_TEXT| > 5 && |END_TEXT| > 5;
  }

  lemma TrimOne(rest: string)
    requires rest != "" && !IsSpace(rest[0])
    ensures TrimStart(rest) == rest && TrimStart(" " + rest) == rest
  {
    assert (" " + rest)[1..] == rest;
  }

  // A value in quotes, and the name it gives to an entry.
  function Quoted(quote: char, name: string): string { [quote] + (name + [quote]) }

  lemma QuotedName(quote: char, name: string)
    requires quote !in name
    ensures var v := Quoted(quote, name); v[1..] == name + [quote] && IndexOf(v[1..], quote) == |name|
    ensures (name + [quote])[..|name|] == name
  {
    IndexOfFirst(name, quote, "");
    assert name + [quote] + "" == name + [quote];
  }

  lemma NameFound(s: string, u: string, v: string, n: nat)
    requires "name" <= TrimStart(s) && TrimStart(TrimStart(s)[4..]) == u && "=" <= u && TrimStart(u[1..]) == v
    requires v != "" && (v[0] == '"' || v[0] == '\'') && IndexOf(v[1..], v[0]) == n < |v| - 1
    ensures EntryNameOf(s) == Some(v[1..][..n])
  {
  }

  lemma NameOf(s: string, quote: char, name: string)
    requires s == "name" + (" " + ("=" + (" " + Quoted(quote, name))))
    requires (quote == '"' || quote == '\'') && quote !in name
    ensures EntryNameOf(s) == Some(name)
  {
    var v := Quoted(quote, name);
    var u := "=" + (" " + v);
    QuotedName(quote, name);
    TrimOne(v);
    TrimOne(u);
    assert s[4..] == " " + u && u[1..] == " " + v;
    assert TrimStart(s) == s;
    NameFound(s, u, v, |name|);
  }

  lemma NameKey(n: string, key: string, value: string)
    requires n == key + (" = " + value) && key == "name"
    ensures RootKeyOf(n) == Some(key) && n != "" && n[0] == 'n'
    ensures n == "name" + (" " + ("=" + (" " + value)))
  {
    KeyOf(n, key, value);
  }

  // A line that names an entry.
  lemma NameLine(n: string, name: string)
    requires n == "name" + (" = " + Quoted('\'', name)) && '\'' !in name
    ensures Classify(n) == TomlDocument.Text(n, Some("name"), Some(name))
  {
    NameKey(n, "name", Quoted('\'', name));
    NameOf(n, '\'', name);
    PlainLine(n);
  }
}
