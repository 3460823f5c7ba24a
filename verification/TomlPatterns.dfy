// The line patterns of the TOML merger spelled out: which texts are headers, markers, settings of
// a root key and names of an entry (`tomlTableHeader`, `tomlArrayHeader`, `tomlEntryName`,
// `tomlRootKey`, `isTomlMarkerLine` of cli/src/config-files.ts).
module TomlPatterns {
  import opened Sequences
  import opened Text
  import opened TomlSyntax
  import T = TomlDocument

  lemma OpensWithBracket(s: string)
    requires s != "" && s[0] == '['
    ensures TrimStart(s) == s && !IsMarkerText(s)
  {
    assert Run(s, IsIndent) == 0 && s[0..] == s;
    assert START_TEXT[0] == '#' && END_TEXT[0] == '#';
  }

  lemma NameInBrackets(s: string, name: string)
    requires s == "[" + name + "]"
    ensures s[0] == '[' && s[|s| - 1] == ']' && s[1..|s| - 1] == name && |s| == |name| + 2
  {
  }

  // `[name]`: a name without closing brackets.
  lemma TableMeans(s: string, name: string)
    ensures Classify(s) == T.Table(name) <==> s == "[" + name + "]" && name != "" && ']' !in name
  {
    if Classify(s) == T.Table(name) {
      RenderClassified(s);
    } else if s == "[" + name + "]" {
      NameInBrackets(s, name);
      OpensWithBracket(s);
    }
  }

  lemma NameInTwo(s: string, name: string)
    requires s == "[[" + name + "]]"
    ensures s[0] == '[' && s[|s| - 1] == ']' && s[..2] == "[[" && s[|s| - 2..] == "]]" && s[2..|s| - 2] == name
    ensures |s| == |name| + 4 && s[1..|s| - 1][|name| + 1] == ']'
  {
  }

  // `[[name]]`: a name without closing brackets.
  lemma ArrayMeans(s: string, name: string)
    ensures Classify(s) == T.ArrayTable(name) <==> s == "[[" + name + "]]" && name != "" && ']' !in name
  {
    if Classify(s) == T.ArrayTable(name) {
      RenderClassified(s);
    } else if s == "[[" + name + "]]" {
      NameInTwo(s, name);
      OpensWithBracket(s);
    }
  }

  lemma MarkerTexts(text: string, start: bool)
    requires text == if start then "# freellmapi:start" else "# freellmapi:end"
    ensures text != "" && text[0] == '#' && (text == START_TEXT <==> start) && (text == END_TEXT <==> !start)
  {
    assert |START_TEXT| == 18 && |END_TEXT| == 16;
  }

  lemma IndentIsSpace(indent: string, text: string)
    requires AllOf(IsIndent, indent) && text != "" && !IsSpace(text[0])
    ensures TrimStart(indent + text) == text
  {
    TrimStartIs(indent, text);
  }

  // A marker line: one of the two marker texts behind blanks and tabs.
  lemma MarkerMeans(s: string, indent: string, start: bool)
    ensures Classify(s) == T.Marker(indent, start)
       <==> (forall i :: 0 <= i < |indent| ==> indent[i] == ' ' || indent[i] == '\t')
            && s == indent + if start then "# freellmapi:start" else "# freellmapi:end"
  {
    var text := if start then "# freellmapi:start" else "# freellmapi:end";
    MarkerTexts(text, start);
    if Classify(s) == T.Marker(indent, start) {
      RenderClassified(s);
    } else if (forall i :: 0 <= i < |indent| ==> IsIndent(indent[i])) && s == indent + text {
      RunOf(indent, text, IsIndent);
      IndentIsSpace(indent, text);
    }
  }

  // A line that is nothing but white space.
  lemma BlankMeans(s: string)
    ensures Classify(s).Blank? <==> AllOf(IsSpace, s)
  {
    TrimStartBlank(s);
    assert forall c :: c in s <==> exists i :: 0 <= i < |s| && s[i] == c;
  }

  // ---- Settings ----

  // White space and an equals sign, then anything.
  ghost predicate EqualsAt(u: string, space: string, rest: string) {
    AllOf(IsSpace, space) && u == space + ("=" + rest)
  }

  ghost predicate Equals(u: string, rest: string) { exists space :: EqualsAt(u, space, rest) }

  lemma EqualsMeans(u: string, rest: string)
    ensures Equals(u, rest) <==> TrimStart(u) == "=" + rest
  {
    if Equals(u, rest) {
      var space :| EqualsAt(u, space, rest);
      TrimStartIs(space, "=" + rest);
    }
    if TrimStart(u) == "=" + rest {
      var space := TrimStartCut(u);
      assert EqualsAt(u, space, rest);
    }
  }

  lemma EqualsFirst(u: string)
    ensures "=" <= TrimStart(u) <==> exists rest :: Equals(u, rest)
  {
    if "=" <= TrimStart(u) {
      var rest := TrimStart(u)[1..];
      assert TrimStart(u) == "=" + rest;
      EqualsMeans(u, rest);
    }
    if exists rest :: Equals(u, rest) {
      var rest :| Equals(u, rest);
      EqualsMeans(u, rest);
    }
  }

  predicate IsNameChar(c: char) {
    'a' <= c <= 'z' || 'A' <= c <= 'Z' || '0' <= c <= '9' || c == '_' || c == '-' || c == '.'
  }

  // A root key of letters, digits, `_`, `-` and dots, at the start of the line, and a value.
  ghost predicate SetsRoot(s: string, key: string, tail: string) {
    && key != "" && (forall i :: 0 <= i < |key| ==> IsNameChar(key[i]))
    && s == key + tail && exists rest :: Equals(tail, rest)
  }

  lemma EqualsNoKeyChar(u: string, rest: string)
    requires Equals(u, rest)
    ensures u != "" && !IsRootKeyChar(u[0])
  {
    var space :| EqualsAt(u, space, rest);
    assert u[0] == if space == "" then '=' else space[0];
  }

  lemma RootKeyMeans(s: string, key: string)
    ensures RootKeyOf(s) == Some(key) <==> exists tail :: SetsRoot(s, key, tail)
  {
    var n := Run(s, IsRootKeyChar);
    if RootKeyOf(s) == Some(key) {
      EqualsFirst(s[n..]);
      assert SetsRoot(s, key, s[n..]);
    }
    if exists tail :: SetsRoot(s, key, tail) {
      var tail :| SetsRoot(s, key, tail);
      var rest :| Equals(tail, rest);
      EqualsNoKeyChar(tail, rest);
      RunOf(key, tail, IsRootKeyChar);
      EqualsFirst(tail);
    }
  }

  // ---- Names of entries ----

  // A quote, a name without it, and the same quote again, then anything.
  ghost predicate QuotedAt(v: string, space: string, quote: char, name: string, rest: string) {
    && AllOf(IsSpace, space) && (quote == '"' || quote == '\'') && quote !in name
    && v == space + ([quote] + (name + ([quote] + rest)))
  }

  ghost predicate QuotedFirst(v: string, name: string) {
    exists space, quote, rest :: QuotedAt(v, space, quote, name, rest)
  }

  // White space, `name`, an equals sign between white space, and a quoted name.
  ghost predicate NamesEntry(s: string, space: string, tail: string, value: string, name: string) {
    AllOf(IsSpace, space) && s == space + ("name" + tail) && Equals(tail, value) && QuotedFirst(value, name)
  }

  // The name that a value gives: what stands between its first quote and the next one of the kind.
  function NameIn(v: string): Option<string> {
    if v == "" || (v[0] != '"' && v[0] != '\'') then None
    else
      var i := IndexOf(v[1..], v[0]);
      if i == |v| - 1 then None else Some(v[1..][..i])
  }

  lemma NameInQuoted(v: string, name: string)
    requires NameIn(TrimStart(v)) == Some(name)
    ensures QuotedFirst(v, name)
  {
    var t := TrimStart(v);
    var space := TrimStartCut(v);
    var i := IndexOf(t[1..], t[0]);
    QuoteParts(t, i);
    assert QuotedAt(v, space, t[0], name, t[1..][i + 1..]);
  }

  lemma QuoteParts(t: string, i: nat)
    requires t != "" && i < |t| - 1 && t[1..][i] == t[0]
    ensures t == [t[0]] + (t[1..][..i] + ([t[0]] + t[1..][i + 1..]))
  {
  }

  lemma QuotedNameIn(v: string, space: string, quote: char, name: string, rest: string)
    requires QuotedAt(v, space, quote, name, rest)
    ensures NameIn(TrimStart(v)) == Some(name)
  {
    var u := [quote] + (name + ([quote] + rest));
    TrimStartIs(space, u);
    assert u[1..] == name + [quote] + rest;
    IndexOfFirst(name, quote, rest);
  }

  lemma NameInMeans(v: string, name: string)
    ensures NameIn(TrimStart(v)) == Some(name) <==> QuotedFirst(v, name)
  {
    if NameIn(TrimStart(v)) == Some(name) {
      NameInQuoted(v, name);
    }
    if QuotedFirst(v, name) {
      var space, quote, rest :| QuotedAt(v, space, quote, name, rest);
      QuotedNameIn(v, space, quote, name, rest);
    }
  }

  lemma EntryNameSteps(s: string, name: string)
    ensures EntryNameOf(s) == Some(name)
       <==> var t := TrimStart(s);
            "name" <= t && "=" <= TrimStart(t[4..]) && NameIn(TrimStart(TrimStart(t[4..])[1..])) == Some(name)
  {
  }

  lemma EntryNameMeans(s: string, name: string)
    ensures EntryNameOf(s) == Some(name) <==> exists space, tail, value :: NamesEntry(s, space, tail, value, name)
  {
    EntryNameSteps(s, name);
    var t := TrimStart(s);
    if EntryNameOf(s) == Some(name) {
      var space := TrimStartCut(s);
      var tail := t[4..];
      var value := TrimStart(tail)[1..];
      assert t == "name" + tail && TrimStart(tail) == "=" + value;
      EqualsMeans(tail, value);
      NameInMeans(value, name);
      assert NamesEntry(s, space, tail, value, name);
    }
    if exists space, tail, value :: NamesEntry(s, space, tail, value, name) {
      var space, tail, value :| NamesEntry(s, space, tail, value, name);
      TrimStartIs(space, "name" + tail);
      assert t == "name" + tail && t[4..] == tail;
      EqualsMeans(tail, value);
      assert TrimStart(tail)[1..] == value;
      NameInMeans(value, name);
    }
  }
}
