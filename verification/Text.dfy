// Strings: white space, searching, and cutting a text at a separator character.
module Text {
  // The white space of `trim` and of `\s`.
  predicate IsSpace(c: char) {
    || c == ' ' || c == '\t' || c == '\n' || c == '\r' || c == '\U{000B}' || c == '\U{000C}'
    || c == '\U{00A0}' || c == '\U{1680}'
    || '\U{2000}' <= c <= '\U{200A}' || c == '\U{2028}' || c == '\U{2029}' || c == '\U{202F}'
    || c == '\U{205F}' || c == '\U{3000}' || c == '\U{FEFF}'
  }

  predicate IsIndent(c: char) { c == ' ' || c == '\t' }

  predicate IsWordChar(c: char) {
    'A' <= c <= 'Z' || 'a' <= c <= 'z' || '0' <= c <= '9' || c == '_' || c == '-'
  }

  function TrimStart(s: string): string {
    if s != "" && IsSpace(s[0]) then TrimStart(s[1..]) else s
  }

  function TrimEnd(s: string): string {
    if s != "" && IsSpace(s[|s| - 1]) then TrimEnd(s[..|s| - 1]) else s
  }

  function Trim(s: string): string { TrimEnd(TrimStart(s)) }

  // The length of the longest prefix whose characters are all in `set`.
  function Run(s: string, chars: char -> bool): (n: nat)
    ensures n <= |s|
    ensures forall i :: 0 <= i < n ==> chars(s[i])
    ensures n < |s| ==> !chars(s[n])
  {
    if s != "" && chars(s[0]) then 1 + Run(s[1..], chars) else 0
  }

  // The index of the first `c`, or the length when there is none.
  function IndexOf(s: string, c: char): (i: nat)
    ensures i <= |s|
    ensures c !in s[..i]
    ensures i < |s| ==> s[i] == c
  {
    if s == "" || s[0] == c then 0 else
      var n := 1 + IndexOf(s[1..], c);
      assert s[..n] == [s[0]] + s[1..][..n - 1];
      n
  }

  lemma {:induction false} IndexOfFirst(a: string, c: char, b: string)
    requires c !in a
    ensures IndexOf(a + [c] + b, c) == |a|
  {
    if a == "" {
      assert a + [c] + b == [c] + b;
    } else {
      assert (a + [c] + b)[1..] == a[1..] + [c] + b;
      IndexOfFirst(a[1..], c, b);
    }
  }

  lemma {:induction false} TrimStartSuffix(s: string)
    ensures |TrimStart(s)| <= |s| && TrimStart(s) == s[|s| - |TrimStart(s)|..]
    ensures forall c :: c in TrimStart(s) ==> c in s
    ensures TrimStart(s) != "" ==> !IsSpace(TrimStart(s)[0])
  {
    if s != "" && IsSpace(s[0]) { TrimStartSuffix(s[1..]); }
  }

  predicate AllOf(chars: char -> bool, s: string) { forall i :: 0 <= i < |s| ==> chars(s[i]) }

  lemma {:induction false} RunIs(s: string, n: nat, chars: char -> bool)
    requires n <= |s| && (forall i :: 0 <= i < n ==> chars(s[i])) && (n < |s| ==> !chars(s[n]))
    ensures Run(s, chars) == n
  {
    if n > 0 { RunIs(s[1..], n - 1, chars); }
  }

  lemma RunOf(a: string, b: string, chars: char -> bool)
    requires AllOf(chars, a) && (b == "" || !chars(b[0]))
    ensures Run(a + b, chars) == |a| && (a + b)[..|a|] == a && (a + b)[|a|..] == b
  {
    RunIs(a + b, |a|, chars);
  }

  // Trimming removes the white space in front and nothing else.
  lemma {:induction false} TrimStartIs(space: string, rest: string)
    requires AllOf(IsSpace, space) && (rest == "" || !IsSpace(rest[0]))
    ensures TrimStart(space + rest) == rest
  {
    if space == "" {
      assert space + rest == rest;
    } else {
      assert (space + rest)[0] == space[0] && (space + rest)[1..] == space[1..] + rest;
      TrimStartIs(space[1..], rest);
    }
  }

  lemma {:induction false} TrimStartCut(s: string) returns (space: string)
    ensures AllOf(IsSpace, space) && s == space + TrimStart(s)
    ensures TrimStart(s) == "" || !IsSpace(TrimStart(s)[0])
    ensures s != "" && IsSpace(s[0]) ==> space != ""
  {
    if s != "" && IsSpace(s[0]) {
      var rest := TrimStartCut(s[1..]);
      space := [s[0]] + rest;
      assert s == [s[0]] + s[1..];
    } else {
      space := "";
      assert s == "" + s;
    }
  }

  lemma {:induction false} TrimEndPrefix(s: string)
    ensures |TrimEnd(s)| <= |s| && TrimEnd(s) == s[..|TrimEnd(s)|]
    ensures forall c :: c in TrimEnd(s) ==> c in s
  {
    if s != "" && IsSpace(s[|s| - 1]) { TrimEndPrefix(s[..|s| - 1]); }
  }

  lemma {:induction false} TrimEndIs(text: string, space: string)
    requires AllOf(IsSpace, space) && (text == "" || !IsSpace(text[|text| - 1]))
    ensures TrimEnd(text + space) == text
  {
    if space == "" {
      assert text + space == text;
    } else {
      var n := |space| - 1;
      assert (text + space)[..|text + space| - 1] == text + space[..n];
      TrimEndIs(text, space[..n]);
    }
  }

  lemma {:induction false} TrimEndCut(s: string) returns (space: string)
    ensures AllOf(IsSpace, space) && s == TrimEnd(s) + space
    ensures TrimEnd(s) == "" || !IsSpace(TrimEnd(s)[|TrimEnd(s)| - 1])
  {
    var n := |s| - 1;
    if s != "" && IsSpace(s[n]) {
      var rest := TrimEndCut(s[..n]);
      space := rest + [s[n]];
      assert s == s[..n] + [s[n]];
    } else {
      space := "";
      assert s == s + "";
    }
  }

  lemma TrimNothing(s: string)
    requires s != "" && !IsSpace(s[0]) && !IsSpace(s[|s| - 1])
    ensures Trim(s) == s
  {
  }

  lemma {:induction false} TrimStartBlank(s: string)
    ensures TrimStart(s) == "" <==> forall c :: c in s ==> IsSpace(c)
  {
    if s != "" {
      TrimStartBlank(s[1..]);
      assert s == [s[0]] + s[1..];
    }
  }

  // The parts of `s` between occurrences of `sep`.
  function Split(s: string, sep: char): (r: seq<string>)
    ensures r != []
  {
    if s == "" then [""]
    else
      var rest := Split(s[1..], sep);
      if s[0] == sep then [""] + rest else [[s[0]] + rest[0]] + rest[1..]
  }

  function Join(parts: seq<string>, sep: char): string
    requires parts != []
  {
    if |parts| == 1 then parts[0] else parts[0] + [sep] + Join(parts[1..], sep)
  }

  predicate Free(parts: seq<string>, sep: char) {
    forall i :: 0 <= i < |parts| ==> sep !in parts[i]
  }

  lemma {:induction false} JoinSplit(s: string, sep: char)
    ensures Join(Split(s, sep), sep) == s
  {
    if s != "" {
      JoinSplit(s[1..], sep);
      var rest := Split(s[1..], sep);
      if s[0] == sep {
        assert ([""] + rest)[1..] == rest;
      } else {
        assert s == [s[0]] + s[1..];
        assert ([[s[0]] + rest[0]] + rest[1..])[1..] == rest[1..];
      }
    }
  }

  lemma {:induction false} SplitFree(s: string, sep: char)
    ensures Free(Split(s, sep), sep)
  {
    if s != "" { SplitFree(s[1..], sep); }
  }

  // A part holds characters of the text, and every other character is in some part.
  lemma {:induction false} SplitChars(s: string, sep: char, c: char)
    ensures c in s && c != sep ==> exists i :: 0 <= i < |Split(s, sep)| && c in Split(s, sep)[i]
    ensures forall i :: 0 <= i < |Split(s, sep)| && c in Split(s, sep)[i] ==> c in s
  {
    if s != "" {
      var rest, parts := Split(s[1..], sep), Split(s, sep);
      SplitChars(s[1..], sep, c);
      if c in s && c != sep {
        if c == s[0] {
          assert c in parts[0];
        } else {
          var i :| 0 <= i < |rest| && c in rest[i];
          assert c in parts[if s[0] == sep then i + 1 else i];
        }
      }
    }
  }

  lemma {:induction false} SplitWord(s: string, sep: char)
    requires sep !in s
    ensures Split(s, sep) == [s]
  {
    if s != "" {
      SplitWord(s[1..], sep);
      assert s == [s[0]] + s[1..];
    }
  }

  lemma SplitStep(c: char, rest: string, sep: char)
    ensures Split([c] + rest, sep)
         == if c == sep then [""] + Split(rest, sep)
            else [[c] + Split(rest, sep)[0]] + Split(rest, sep)[1..]
  {
    assert ([c] + rest)[1..] == rest;
  }

  lemma {:induction false} SplitConcat(a: string, b: string, sep: char)
    ensures Split(a + [sep] + b, sep) == Split(a, sep) + Split(b, sep)
  {
    if a == "" {
      assert a + [sep] + b == [sep] + b;
      SplitStep(sep, b, sep);
      assert Split(a, sep) == [""];
    } else {
      var rest, x, y := a[1..] + [sep] + b, Split(a[1..], sep), Split(b, sep);
      SplitConcat(a[1..], b, sep);
      assert a + [sep] + b == [a[0]] + rest && a == [a[0]] + a[1..];
      SplitStep(a[0], rest, sep);
      SplitStep(a[0], a[1..], sep);
      FirstOfTwo(a[0], x, y, sep);
    }
  }

  // A character in front of the parts of two texts is in front of those of the first.
  lemma FirstOfTwo(c: char, x: seq<string>, y: seq<string>, sep: char)
    requires x != []
    ensures (if c == sep then [""] + (x + y) else [[c] + (x + y)[0]] + (x + y)[1..])
         == (if c == sep then [""] + x else [[c] + x[0]] + x[1..]) + y
  {
    assert (x + y)[1..] == x[1..] + y;
  }

  lemma {:induction false} SplitJoin(parts: seq<string>, sep: char)
    requires parts != [] && Free(parts, sep)
    ensures Split(Join(parts, sep), sep) == parts
  {
    SplitWord(parts[0], sep);
    if |parts| > 1 {
      SplitJoin(parts[1..], sep);
      SplitConcat(parts[0], Join(parts[1..], sep), sep);
    }
  }

  predicate BreaksAt(s: string, i: int) { 0 <= i < |s| - 2 && s[i] == '\n' && s[i + 1] == '\n' && s[i + 2] == '\n' }

  // Three line breaks in a row.
  predicate ThreeBreaks(s: string) { exists i :: 0 <= i < |s| && BreaksAt(s, i) }

  // They stand around two empty parts.
  lemma BreaksAroundEmpty(s: string)
    requires ThreeBreaks(s)
    ensures var parts := Split(s, '\n');
            exists k :: 0 <= k < |parts| - 1 && parts[k] == "" && parts[k + 1] == ""
  {
    var i :| 0 <= i < |s| && BreaksAt(s, i);
    var a, b := s[..i], s[i + 3..];
    assert s == a + ['\n'] + (['\n'] + (['\n'] + b));
    SplitConcat(a, ['\n'] + (['\n'] + b), '\n');
    SplitStep('\n', ['\n'] + b, '\n');
    SplitStep('\n', b, '\n');
    var k := |Split(a, '\n')|;
    assert Split(s, '\n')[k] == "" && Split(s, '\n')[k + 1] == "";
  }
}
