// A library that meets the laws which `ConfigFiles` asks of a JSON or YAML library, so that
// these can be met together: every text is a value, and an object has one text.
module LibraryLaws {
  import opened Sequences
  import opened PatchMerge
  import opened ConfigFiles
  import P = PatchEdits

  function Quote(s: string): string { if s == "" then "." else "," + ([s[0]] + Quote(s[1..])) }

  function Encode(fields: Fields): (text: string)
    ensures text != ""
  {
    if fields == [] then "."
    else "," + (Quote(fields[0].key) + (EncodeValue(fields[0].value) + Encode(fields[1..])))
  }

  function EncodeValue(value: Tree): string {
    if value.Leaf? then "l" + Quote(value.text) else "o" + Encode(value.fields)
  }

  lemma AfterFirst(a: string, x: string, b: string, y: string)
    requires a != "" && b != "" && a + x == b + y
    ensures a[0] == b[0] && a[1..] + x == b[1..] + y
  {
    assert (a + x)[0] == a[0] && (b + y)[0] == b[0];
    assert (a + x)[1..] == a[1..] + x && (b + y)[1..] == b[1..] + y;
  }

  // A quoted text tells where it ends.
  lemma {:induction false} QuoteUnique(a: string, x: string, b: string, y: string)
    requires Quote(a) + x == Quote(b) + y
    ensures a == b && x == y
  {
    AfterFirst(Quote(a), x, Quote(b), y);
    if a == "" || b == "" {
      assert Quote("")[1..] == "";
      assert a == b;
      assert "" + x == x && "" + y == y;
    } else {
      var c, d := [a[0]] + Quote(a[1..]), [b[0]] + Quote(b[1..]);
      assert Quote(a)[1..] == c && Quote(b)[1..] == d;
      AfterFirst(c, x, d, y);
      assert c[1..] == Quote(a[1..]) && d[1..] == Quote(b[1..]);
      QuoteUnique(a[1..], x, b[1..], y);
      assert a == [a[0]] + a[1..] && b == [b[0]] + b[1..];
    }
  }

  lemma EncodeFirst(fields: Fields, x: string)
    requires fields != []
    ensures Encode(fields)[0] == ','
    ensures Encode(fields)[1..] + x
         == Quote(fields[0].key) + (EncodeValue(fields[0].value) + (Encode(fields[1..]) + x))
  {
    var key, value, rest := Quote(fields[0].key), EncodeValue(fields[0].value), Encode(fields[1..]);
    assert Encode(fields) == "," + (key + (value + rest));
    Associate(key, value + rest, x);
    Associate(value, rest, x);
  }

  // So does an encoded object.
  lemma {:induction false} EncodeUnique(f: Fields, x: string, g: Fields, y: string)
    requires Encode(f) + x == Encode(g) + y
    ensures f == g && x == y
    decreases f
  {
    AfterFirst(Encode(f), x, Encode(g), y);
    if f == [] || g == [] {
      assert Encode([])[1..] == "";
      assert f == g by {
        if f != [] { EncodeFirst(f, x); }
        if g != [] { EncodeFirst(g, y); }
      }
      assert "" + x == x && "" + y == y;
    } else {
      EncodeFirst(f, x);
      EncodeFirst(g, y);
      var after, behind := Encode(f[1..]) + x, Encode(g[1..]) + y;
      QuoteUnique(f[0].key, EncodeValue(f[0].value) + after, g[0].key, EncodeValue(g[0].value) + behind);
      ValueUnique(f, g, after, behind);
      EncodeUnique(f[1..], x, g[1..], y);
      assert f == [f[0]] + f[1..] && g == [g[0]] + g[1..];
    }
  }

  lemma {:induction false} ValueUnique(f: Fields, g: Fields, x: string, y: string)
    requires f != [] && g != [] && EncodeValue(f[0].value) + x == EncodeValue(g[0].value) + y
    ensures f[0].value == g[0].value && x == y
    decreases f, 0
  {
    var a, b := f[0].value, g[0].value;
    AfterFirst(EncodeValue(a), x, EncodeValue(b), y);
    if a.Leaf? && b.Leaf? {
      assert EncodeValue(a)[1..] == Quote(a.text) && EncodeValue(b)[1..] == Quote(b.text);
      QuoteUnique(a.text, x, b.text, y);
    } else {
      assert EncodeValue(a)[1..] == Encode(a.fields) && EncodeValue(b)[1..] == Encode(b.fields);
      EncodeUnique(a.fields, x, b.fields, y);
    }
  }

  predicate AnyText(text: string) { true }

  ghost predicate IsText(text: string) { exists f :: Plain(AnyText, f) && Encode(f) == text }

  ghost function Decode(text: string): Fields
    requires IsText(text)
  {
    var f :| Plain(AnyText, f) && Encode(f) == text;
    f
  }

  lemma DecodeOfEncode(f: Fields)
    requires Plain(AnyText, f)
    ensures IsText(Encode(f)) && Decode(Encode(f)) == f && Encode(f) != ""
  {
    EncodeUnique(Decode(Encode(f)), "", f, "");
  }

  // Nothing is said by the empty text, and whatever else is no text of an object is broken.
  ghost function Example<T(!new)>(nothing: T, broken: T, said: Fields -> T): Library<T> {
    Library(text => if text == "" then nothing else if IsText(text) then said(Decode(text)) else broken,
            AnyText,
            text => text == "" || IsText(text),
            (text, fields) => Encode(fields))
  }

  lemma ExampleWrites<T(!new)>(nothing: T, broken: T, said: Fields -> T)
    ensures Example(nothing, broken, said).Writes(said)
  {
    var lib := Example(nothing, broken, said);
    forall t, f | lib.isEditable(t) && Plain(lib.isValue, f)
      ensures lib.Settles(said, lib.write(t, f), f)
    {
      DecodeOfEncode(f);
    }
  }

  lemma ExampleReads<T(!new)>(nothing: T, broken: T, said: Fields -> T, text: string)
    requires Example(nothing, broken, said).isEditable(text)
    ensures var lib := Example(nothing, broken, said);
            lib.parse(text) == nothing || exists f :: Plain(lib.isValue, f) && lib.parse(text) == said(f)
  {
    if text != "" {
      assert Plain(AnyText, Decode(text));
    }
  }

  // There are lawful libraries that can edit the empty text and write every value.
  lemma JsonLawsCanBeMet()
    ensures exists lib :: LawfulJson(lib) && lib.isEditable("") && forall text :: lib.isValue(text)
  {
    var said := (f: Fields) => P.Object(f);
    var lib := Example(P.Nothing, P.Broken, said);
    ExampleWrites(P.Nothing, P.Broken, said);
    forall t | lib.isEditable(t)
      ensures lib.parse(t).Nothing? || (lib.parse(t).Object? && Plain(lib.isValue, lib.parse(t).fields))
    {
      ExampleReads(P.Nothing, P.Broken, said, t);
    }
    assert LawfulJson(lib) && lib.isEditable("") && forall text :: lib.isValue(text);
  }

  lemma YamlLawsCanBeMet()
    ensures exists lib :: LawfulYaml(lib) && lib.isEditable("") && forall text :: lib.isValue(text)
  {
    var said := (f: Fields) => P.Mapping(f);
    var lib := Example(P.NoText, P.Unparsable, said);
    ExampleWrites(P.NoText, P.Unparsable, said);
    forall t | lib.isEditable(t)
      ensures lib.parse(t).NoText? || (lib.parse(t).Mapping? && Plain(lib.isValue, lib.parse(t).fields))
    {
      ExampleReads(P.NoText, P.Unparsable, said, t);
    }
    assert LawfulYaml(lib) && lib.isEditable("") && forall text :: lib.isValue(text);
  }
}
