// The two ways cli/src/config-files.ts applies a patch, as sequences of edits at paths,
// and the proof that both amount to the deep merge.
module PatchEdits {
  import opened Sequences
  import opened PatchMerge

  datatype Edit = SetAt(path: Path, value: Tree) | DeleteAt(path: Path)

  predicate HasPath(edit: Edit) { edit.path != [] }

  function Perform(fields: Fields, edit: Edit): Fields
    requires HasPath(edit)
  {
    match edit
    case SetAt(path, value) => SetIn(fields, path, value)
    case DeleteAt(path) => DeleteIn(fields, path)
  }

  predicate AllPaths(edits: seq<Edit>) { forall i :: 0 <= i < |edits| ==> HasPath(edits[i]) }

  function PerformAll(fields: Fields, edits: seq<Edit>): Fields
    requires AllPaths(edits)
    decreases |edits|
  {
    if edits == [] then fields
    else PerformAll(Perform(fields, edits[0]), edits[1..])
  }

  function Under(prefix: Path, edit: Edit): Edit {
    match edit
    case SetAt(path, value) => SetAt(prefix + path, value)
    case DeleteAt(path) => DeleteAt(prefix + path)
  }

  function AllUnder(prefix: Path, edits: seq<Edit>): (r: seq<Edit>)
    ensures |r| == |edits|
    ensures AllPaths(edits) ==> AllPaths(r)
  {
    seq(|edits|, i requires 0 <= i < |edits| => Under(prefix, edits[i]))
  }

  // ---- JSON: the edits are chosen by looking at the document as first parsed ----

  // The edit for a generated value that is not merged into an object.
  function EditFor(patch: Patch, path: Path): Edit {
    if patch.Undefined? then DeleteAt(path) else SetAt(path, FreshValue(patch))
  }

  function EditsFor(base: Fields, entry: Entry, parent: Path): (r: seq<Edit>)
    ensures AllPaths(r)
    decreases entry, 1
  {
    var current := Get(base, entry.key);
    var path := parent + [entry.key];
    if current.Some? && current.value.Obj? && entry.patch.Sub? then
      Edits(current.value.fields, entry.patch.entries, path)
    else [EditFor(entry.patch, path)]
  }

  function Edits(base: Fields, entries: Entries, parent: Path): (r: seq<Edit>)
    ensures AllPaths(r)
    decreases entries, 0
  {
    if entries == [] then [] else EditsFor(base, entries[0], parent) + Edits(base, entries[1..], parent)
  }

  lemma {:induction false} PerformAppend(fields: Fields, a: seq<Edit>, b: seq<Edit>)
    requires AllPaths(a) && AllPaths(b)
    ensures AllPaths(a + b)
    ensures PerformAll(fields, a + b) == PerformAll(PerformAll(fields, a), b)
    decreases |a|
  {
    if a == [] {
      assert a + b == b;
    } else {
      assert (a + b)[1..] == a[1..] + b;
      PerformAppend(Perform(fields, a[0]), a[1..], b);
    }
  }

  lemma AllUnderAppend(prefix: Path, a: seq<Edit>, b: seq<Edit>)
    ensures AllUnder(prefix, a + b) == AllUnder(prefix, a) + AllUnder(prefix, b)
  {
  }

  lemma {:induction false} EditsForBelow(base: Fields, entry: Entry, prefix: Path, parent: Path)
    ensures EditsFor(base, entry, prefix + parent) == AllUnder(prefix, EditsFor(base, entry, parent))
    decreases entry, 1
  {
    var key, current := entry.key, Get(base, entry.key);
    assert (prefix + parent) + [key] == prefix + (parent + [key]);
    if current.Some? && current.value.Obj? && entry.patch.Sub? {
      EditsBelow(current.value.fields, entry.patch.entries, prefix, parent + [key]);
    }
  }

  // The edits below a path are those of the top level, moved there.
  lemma {:induction false} EditsBelow(base: Fields, entries: Entries, prefix: Path, parent: Path)
    ensures Edits(base, entries, prefix + parent) == AllUnder(prefix, Edits(base, entries, parent))
    decreases entries, 0
  {
    if entries != [] {
      EditsForBelow(base, entries[0], prefix, parent);
      EditsBelow(base, entries[1..], prefix, parent);
      AllUnderAppend(prefix, EditsFor(base, entries[0], parent), Edits(base, entries[1..], parent));
    }
  }

  // Edits below a key edit the object under that key.
  lemma {:induction false} PerformBelow(fields: Fields, key: string, edits: seq<Edit>)
    requires AllPaths(edits)
    requires Get(fields, key).Some? && Get(fields, key).value.Obj?
    ensures PerformAll(fields, AllUnder([key], edits))
         == Set(fields, key, Obj(PerformAll(Get(fields, key).value.fields, edits)))
    decreases |edits|
  {
    var inner := Get(fields, key).value.fields;
    if edits == [] {
      SetSame(fields, key, Obj(inner));
    } else {
      var first := edits[0];
      var below := Under([key], first);
      assert below.path[0] == key && below.path[1..] == first.path && |below.path| > 1;
      var next := Perform(fields, below);
      assert next == Set(fields, key, Obj(Perform(inner, first)));
      GetSet(fields, key, Obj(Perform(inner, first)), key);
      assert AllUnder([key], edits)[1..] == AllUnder([key], edits[1..]);
      PerformBelow(next, key, edits[1..]);
      SetTwice(fields, key, Obj(Perform(inner, first)), Obj(PerformAll(Perform(inner, first), edits[1..])));
    }
  }

  lemma {:induction false} EditsForIsDeep(fields: Fields, base: Fields, entry: Entry)
    requires Distinct([entry])
    requires Get(fields, entry.key) == Get(base, entry.key)
    ensures PerformAll(fields, EditsFor(base, entry, [])) == DeepField(fields, entry.key, entry.patch)
    decreases entry, 1
  {
    var key, current := entry.key, Get(base, entry.key);
    assert [] + [key] == [key];
    if current.Some? && current.value.Obj? && entry.patch.Sub? {
      var inner := current.value.fields;
      EditsBelow(inner, entry.patch.entries, [key], []);
      assert [key] + [] == [key];
      PerformBelow(fields, key, Edits(inner, entry.patch.entries, []));
      assert [entry][0] == entry;
      EditsAreDeep(inner, inner, entry.patch.entries);
    } else {
      var edit := EditFor(entry.patch, [key]);
      assert PerformAll(fields, [edit]) == PerformAll(Perform(fields, edit), [edit][1..]) == Perform(fields, edit);
    }
  }

  // Left to right, the edits turn the document into the deep merge, although each is chosen
  // by the document as it was in the beginning.
  lemma {:induction false} EditsAreDeep(fields: Fields, base: Fields, entries: Entries)
    requires Distinct(entries)
    requires forall i :: 0 <= i < |entries| ==> Get(fields, entries[i].key) == Get(base, entries[i].key)
    ensures PerformAll(fields, Edits(base, entries, [])) == Deep(fields, entries)
    decreases entries, 0
  {
    if entries != [] {
      var first, rest := entries[0], entries[1..];
      assert Distinct([first]);
      EditsForIsDeep(fields, base, first);
      var next := DeepField(fields, first.key, first.patch);
      PerformAppend(fields, EditsFor(base, first, []), Edits(base, rest, []));
      forall i | 0 <= i < |rest|
        ensures Get(next, rest[i].key) == Get(base, rest[i].key)
      {
        assert rest[i] == entries[i + 1];
        DeepFieldGet(fields, first.key, first.patch, rest[i].key);
      }
      EditsAreDeep(next, base, rest);
    }
  }

  // The parsed text of an existing JSON file.
  datatype JsonText = Nothing | Broken | NotAnObject | Object(fields: Fields)

  datatype Error = CannotParse | NotAMapping | NoCollection

  class JsonMerge {
    var rendered: Fields

    constructor (rendered: Fields)
      ensures this.rendered == rendered
    {
      this.rendered := rendered;
    }

    // `applyPatch` of `mergeJson`.
    method ApplyPatch(base: Fields, patch: Entries, parentPath: Path)
      modifies this
      ensures rendered == PerformAll(old(rendered), Edits(base, patch, parentPath))
      decreases patch
    {
      ghost var start := rendered;
      for i := 0 to |patch|
        invariant PerformAll(start, Edits(base, patch, parentPath))
               == PerformAll(rendered, Edits(base, patch[i..], parentPath))
      {
        var entry := patch[i];
        assert patch[i..][0] == entry && patch[i..][1..] == patch[i + 1..];
        PerformAppend(rendered, EditsFor(base, entry, parentPath), Edits(base, patch[i + 1..], parentPath));
        var current := Get(base, entry.key);
        var propertyPath := parentPath + [entry.key];
        if current.Some? && current.value.Obj? && entry.patch.Sub? {
          ApplyPatch(current.value.fields, entry.patch.entries, propertyPath);
          continue;
        }
        var edit := EditFor(entry.patch, propertyPath);
        assert PerformAll(rendered, [edit]) == PerformAll(Perform(rendered, edit), [edit][1..]);
        rendered := Perform(rendered, edit);
      }
    }
  }

  // What the merge makes of a JSON file: an unusable file is an error, and otherwise the file
  // becomes the deep merge.
  function MergedJson(existing: JsonText, value: Entries): Result<Fields, Error> {
    match existing
    case Nothing => Ok(Fresh(value))
    case Object(fields) => Ok(Deep(fields, value))
    case _ => Err(CannotParse)
  }

  // What a merge promises of the paths of a document: those not under a leaf of the value read as
  // before, and the leaves read as the value says.
  ghost predicate Carries(fields: Fields, value: Entries, merged: Fields) {
    && (forall path: Path :: path != [] && Untouched(fields, value, path) ==>
          GetIn(merged, path) == GetIn(fields, path))
    && (forall path: Path :: path != [] && LeafAt(value, path).Some? ==>
          GetIn(merged, path) == LeafValue(LeafAt(value, path).value))
  }

  lemma DeepCarries(fields: Fields, value: Entries)
    requires Distinct(value)
    ensures Carries(fields, value, Deep(fields, value))
  {
    forall path: Path | path != [] && Untouched(fields, value, path)
      ensures GetIn(Deep(fields, value), path) == GetIn(fields, path)
    {
      DeepFrame(fields, value, path);
    }
    forall path: Path | path != [] && LeafAt(value, path).Some?
      ensures GetIn(Deep(fields, value), path) == LeafValue(LeafAt(value, path).value)
    {
      DeepLeaves(fields, value, path);
    }
  }

  // `mergeJson`
  method MergeJson(existing: JsonText, value: Entries) returns (r: Result<Fields, Error>)
    requires Distinct(value)
    ensures r.Ok? <==> existing.Nothing? || existing.Object?
    ensures r.Err? ==> r.error == CannotParse
    ensures r.Ok? ==> Carries(if existing.Object? then existing.fields else [], value, r.value)
    ensures r == MergedJson(existing, value)
  {
    if existing.Broken? || existing.NotAnObject? {
      return Err(CannotParse);
    }
    var parsed := if existing.Nothing? then [] else existing.fields;
    var merge := new JsonMerge(parsed);
    merge.ApplyPatch(parsed, value, []);
    EditsAreDeep(parsed, parsed, value);
    DeepCarries(parsed, value);
    if existing.Nothing? {
      DeepOfNothing([], value);
      assert [] + Fresh(value) == Fresh(value);
    }
    return Ok(merge.rendered);
  }

  // ---- YAML: the edits are chosen by looking at the document as it is by then ----

  // The document after one entry, the path of its object given.
  function StepAt(fields: Fields, entry: Entry, parent: Path): Fields
    decreases entry, 1
  {
    var path := parent + [entry.key];
    var current := GetIn(fields, path);
    if entry.patch.Undefined? then DeleteIn(fields, path)
    else if entry.patch.Sub? && current.Some? && current.value.Obj? then StepsAt(fields, entry.patch.entries, path)
    else SetIn(fields, path, FreshValue(entry.patch))
  }

  function StepsAt(fields: Fields, entries: Entries, parent: Path): Fields
    decreases entries, 0
  {
    if entries == [] then fields else StepsAt(StepAt(fields, entries[0], parent), entries[1..], parent)
  }

  lemma {:induction false} StepBelow(fields: Fields, entry: Entry, key: string, parent: Path)
    requires Get(fields, key).Some? && Get(fields, key).value.Obj?
    ensures StepAt(fields, entry, [key] + parent)
         == Set(fields, key, Obj(StepAt(Get(fields, key).value.fields, entry, parent)))
    decreases entry, 1
  {
    var path := parent + [entry.key];
    var whole := ([key] + parent) + [entry.key];
    assert whole[0] == key && whole[1..] == path && |whole| > 1;
    if entry.patch.Sub? && GetIn(fields, whole).Some? && GetIn(fields, whole).value.Obj? {
      assert whole == [key] + path;
      StepsBelow(fields, entry.patch.entries, key, path);
    }
  }

  // Merging below a key merges into the object under that key.
  lemma {:induction false} StepsBelow(fields: Fields, entries: Entries, key: string, parent: Path)
    requires Get(fields, key).Some? && Get(fields, key).value.Obj?
    ensures StepsAt(fields, entries, [key] + parent)
         == Set(fields, key, Obj(StepsAt(Get(fields, key).value.fields, entries, parent)))
    decreases entries, 0
  {
    var inner := Get(fields, key).value.fields;
    if entries == [] {
      SetSame(fields, key, Obj(inner));
    } else {
      StepBelow(fields, entries[0], key, parent);
      var moved := StepAt(inner, entries[0], parent);
      GetSet(fields, key, Obj(moved), key);
      StepsBelow(Set(fields, key, Obj(moved)), entries[1..], key, parent);
      SetTwice(fields, key, Obj(moved), Obj(StepsAt(moved, entries[1..], parent)));
    }
  }

  lemma {:induction false} StepsAreDeep(fields: Fields, entries: Entries)
    ensures StepsAt(fields, entries, []) == Deep(fields, entries)
    decreases entries
  {
    if entries != [] {
      var key, patch := entries[0].key, entries[0].patch;
      assert [] + [key] == [key];
      var current := Get(fields, key);
      if patch.Sub? && current.Some? && current.value.Obj? {
        assert [key] + [] == [key];
        StepsBelow(fields, patch.entries, key, []);
        StepsAreDeep(current.value.fields, patch.entries);
      }
      StepsAreDeep(DeepField(fields, key, patch), entries[1..]);
    }
  }

  // The parsed text of an existing YAML file; `Comments` holds no value at all.
  datatype YamlText = NoText | Unparsable | NotMapping | Comments | Mapping(fields: Fields)

  class YamlDocumentMerge {
    var doc: Fields

    constructor (doc: Fields)
      ensures this.doc == doc
    {
      this.doc := doc;
    }

    // `applyPatch` of `mergeYamlDocument`.
    method ApplyPatch(patch: Entries, parentPath: Path)
      modifies this
      ensures doc == StepsAt(old(doc), patch, parentPath)
      decreases patch
    {
      ghost var start := doc;
      for i := 0 to |patch|
        invariant StepsAt(start, patch, parentPath) == StepsAt(doc, patch[i..], parentPath)
      {
        var entry := patch[i];
        assert patch[i..][0] == entry && patch[i..][1..] == patch[i + 1..];
        var propertyPath := parentPath + [entry.key];
        if entry.patch.Undefined? {
          doc := DeleteIn(doc, propertyPath);
          continue;
        }
        var current := GetIn(doc, propertyPath);
        if entry.patch.Sub? && current.Some? && current.value.Obj? {
          ApplyPatch(entry.patch.entries, propertyPath);
          continue;
        }
        doc := SetIn(doc, propertyPath, FreshValue(entry.patch));
      }
    }
  }

  // The value begins with a deletion.
  predicate DeletesFirst(value: Entries) { value != [] && value[0].patch.Undefined? }

  // What the merge makes of a YAML file. A file with comments only is a mapping without fields
  // once something is set in it; a patch that begins with a deletion finds nothing to delete
  // from and fails.
  function MergedYaml(existing: YamlText, value: Entries): Result<Fields, Error> {
    match existing
    case NoText => Ok(Fresh(value))
    case Mapping(fields) => Ok(Deep(fields, value))
    case Comments => if DeletesFirst(value) then Err(NoCollection) else Ok(Fresh(value))
    case Unparsable => Err(CannotParse)
    case NotMapping => Err(NotAMapping)
  }

  lemma FreshCarries(value: Entries)
    requires Distinct(value)
    ensures Carries([], value, Fresh(value))
  {
    DeepCarries([], value);
    DeepOfNothing([], value);
    assert [] + Fresh(value) == Fresh(value);
  }

  // `mergeYamlDocument`
  method MergeYamlDocument(existing: YamlText, value: Entries) returns (r: Result<Fields, Error>)
    requires Distinct(value)
    ensures r == Err(CannotParse) <==> existing.Unparsable?
    ensures r == Err(NotAMapping) <==> existing.NotMapping?
    ensures r == Err(NoCollection) <==> existing.Comments? && DeletesFirst(value)
    ensures r.Ok? ==> Carries(if existing.Mapping? then existing.fields else [], value, r.value)
    ensures r == MergedYaml(existing, value)
  {
    FreshCarries(value);
    if existing.NoText? {
      return Ok(Fresh(value));
    }
    if existing.Unparsable? {
      return Err(CannotParse);
    }
    if existing.NotMapping? {
      return Err(NotAMapping);
    }
    if existing.Comments? && DeletesFirst(value) {
      return Err(NoCollection);
    }
    var merge := new YamlDocumentMerge(if existing.Comments? then [] else existing.fields);
    merge.ApplyPatch(value, []);
    StepsAreDeep(if existing.Comments? then [] else existing.fields, value);
    DeepCarries(if existing.Comments? then [] else existing.fields, value);
    if existing.Comments? {
      DeepOfNothing([], value);
      assert [] + Fresh(value) == Fresh(value);
    }
    return Ok(merge.doc);
  }

  // ---- Merging again ----

  lemma FreshStays(value: Entries)
    requires Distinct(value)
    ensures Deep(Fresh(value), value) == Fresh(value)
  {
    FreshSettled(value);
    SettledStays(Fresh(value), value);
  }

  // A merged JSON file merged with the same value again stays as it is.
  lemma JsonTwice(existing: JsonText, value: Entries)
    requires Distinct(value) && MergedJson(existing, value).Ok?
    ensures var fields := MergedJson(existing, value).value;
            MergedJson(Object(fields), value) == Ok(fields)
  {
    match existing {
      case Nothing => FreshStays(value);
      case Object(fields) => DeepIdempotent(fields, value);
    }
  }

  // So does a YAML file.
  lemma YamlTwice(existing: YamlText, value: Entries)
    requires Distinct(value) && MergedYaml(existing, value).Ok?
    ensures var fields := MergedYaml(existing, value).value;
            MergedYaml(Mapping(fields), value) == Ok(fields)
  {
    match existing {
      case NoText => FreshStays(value);
      case Comments => FreshStays(value);
      case Mapping(fields) => DeepIdempotent(fields, value);
    }
  }
}
