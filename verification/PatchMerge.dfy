// The structural merge of a patch into a JSON or YAML document: the path edits of the
// two `applyPatch` recursions of cli/src/config-files.ts against a deep merge of trees.
module PatchMerge {
  import opened Sequences

  // A value: an object with its fields in order, or anything else (scalars and arrays, which
  // the merge never looks into).
  datatype Tree = Leaf(text: string) | Obj(fields: Fields)

  datatype Field = Field(key: string, value: Tree)

  type Fields = seq<Field>

  // A generated value: `undefined`, a scalar or array, or an object.
  datatype Patch = Undefined | Put(text: string) | Sub(entries: Entries)

  datatype Entry = Entry(key: string, patch: Patch)

  type Entries = seq<Entry>

  type Path = seq<string>

  // ---- Fields ----

  function Get(fields: Fields, key: string): Option<Tree> {
    if fields == [] then None
    else if fields[0].key == key then Some(fields[0].value)
    else Get(fields[1..], key)
  }

  // Replaces the field where it stands, or adds it at the end.
  function Set(fields: Fields, key: string, value: Tree): (r: Fields)
    ensures r != []
  {
    if fields == [] then [Field(key, value)]
    else if fields[0].key == key then [Field(key, value)] + fields[1..]
    else [fields[0]] + Set(fields[1..], key, value)
  }

  function Remove(fields: Fields, key: string): Fields {
    if fields == [] then []
    else if fields[0].key == key then Remove(fields[1..], key)
    else [fields[0]] + Remove(fields[1..], key)
  }

  function GetIn(fields: Fields, path: Path): Option<Tree>
    requires path != []
    decreases path
  {
    var value := Get(fields, path[0]);
    if |path| == 1 then value
    else if value.Some? && value.value.Obj? then GetIn(value.value.fields, path[1..])
    else None
  }

  // Objects around a value, one for each step of a path.
  function Nest(path: Path, value: Tree): Tree {
    if path == [] then value else Obj([Field(path[0], Nest(path[1..], value))])
  }

  function SetIn(fields: Fields, path: Path, value: Tree): Fields
    requires path != []
    decreases path
  {
    var current := Get(fields, path[0]);
    if |path| == 1 then Set(fields, path[0], value)
    else if current.Some? && current.value.Obj? then
      Set(fields, path[0], Obj(SetIn(current.value.fields, path[1..], value)))
    else Set(fields, path[0], Nest(path[1..], value))
  }

  function DeleteIn(fields: Fields, path: Path): Fields
    requires path != []
    decreases path
  {
    var current := Get(fields, path[0]);
    if |path| == 1 then Remove(fields, path[0])
    else if current.Some? && current.value.Obj? then
      Set(fields, path[0], Obj(DeleteIn(current.value.fields, path[1..])))
    else fields
  }

  lemma {:induction false} GetSet(fields: Fields, key: string, value: Tree, other: string)
    ensures Get(Set(fields, key, value), other) == if other == key then Some(value) else Get(fields, other)
  {
    if fields != [] && fields[0].key != key {
      GetSet(fields[1..], key, value, other);
      assert ([fields[0]] + Set(fields[1..], key, value))[1..] == Set(fields[1..], key, value);
    } else if fields != [] {
      assert ([Field(key, value)] + fields[1..])[1..] == fields[1..];
    }
  }

  lemma {:induction false} GetRemove(fields: Fields, key: string, other: string)
    ensures Get(Remove(fields, key), other) == if other == key then None else Get(fields, other)
  {
    if fields != [] {
      GetRemove(fields[1..], key, other);
      if fields[0].key != key {
        assert ([fields[0]] + Remove(fields[1..], key))[1..] == Remove(fields[1..], key);
      }
    }
  }

  lemma {:induction false} SetSame(fields: Fields, key: string, value: Tree)
    requires Get(fields, key) == Some(value)
    ensures Set(fields, key, value) == fields
  {
    if fields[0].key != key {
      SetSame(fields[1..], key, value);
    }
  }

  lemma {:induction false} SetTwice(fields: Fields, key: string, a: Tree, b: Tree)
    ensures Set(Set(fields, key, a), key, b) == Set(fields, key, b)
  {
    if fields != [] && fields[0].key != key {
      SetTwice(fields[1..], key, a, b);
      assert ([fields[0]] + Set(fields[1..], key, a))[1..] == Set(fields[1..], key, a);
    } else if fields != [] {
      assert ([Field(key, a)] + fields[1..])[1..] == fields[1..];
    }
  }

  lemma {:induction false} RemoveMissing(fields: Fields, key: string)
    requires Get(fields, key) == None
    ensures Remove(fields, key) == fields
  {
    if fields != [] {
      RemoveMissing(fields[1..], key);
    }
  }

  // ---- The deep merge ----

  // A generated value as a document value: undefined fields are left out.
  function Fresh(entries: Entries): Fields {
    if entries == [] then [] else
      (match entries[0].patch
       case Undefined => []
       case Put(text) => [Field(entries[0].key, Leaf(text))]
       case Sub(sub) => [Field(entries[0].key, Obj(Fresh(sub)))])
      + Fresh(entries[1..])
  }

  function FreshValue(patch: Patch): Tree
    requires !patch.Undefined?
  {
    if patch.Put? then Leaf(patch.text) else Obj(Fresh(patch.entries))
  }

  // Both sides objects: merged. Otherwise the generated value replaces, or deletes.
  function DeepField(fields: Fields, key: string, patch: Patch): Fields
    decreases patch, 0
  {
    var current := Get(fields, key);
    if patch.Undefined? then Remove(fields, key)
    else if patch.Sub? && current.Some? && current.value.Obj? then
      Set(fields, key, Obj(Deep(current.value.fields, patch.entries)))
    else Set(fields, key, FreshValue(patch))
  }

  function Deep(fields: Fields, entries: Entries): Fields
    decreases entries, 1
  {
    if entries == [] then fields
    else Deep(DeepField(fields, entries[0].key, entries[0].patch), entries[1..])
  }

  // The entries name distinct keys, at every depth, as the properties of an object do.
  predicate Distinct(entries: Entries) {
    entries != [] ==>
      && (forall i :: 1 <= i < |entries| ==> entries[i].key != entries[0].key)
      && (entries[0].patch.Sub? ==> Distinct(entries[0].patch.entries))
      && Distinct(entries[1..])
  }

  function Lookup(entries: Entries, key: string): Option<Patch> {
    if entries == [] then None
    else if entries[0].key == key then Some(entries[0].patch)
    else Lookup(entries[1..], key)
  }

  lemma {:induction false} LookupNone(entries: Entries, key: string)
    requires forall i :: 0 <= i < |entries| ==> entries[i].key != key
    ensures Lookup(entries, key) == None
  {
    if entries != [] { LookupNone(entries[1..], key); }
  }

  lemma DeepFieldGet(fields: Fields, key: string, patch: Patch, other: string)
    ensures other != key ==> Get(DeepField(fields, key, patch), other) == Get(fields, other)
    ensures Get(DeepField(fields, key, patch), key)
         == if patch.Undefined? then None
            else if patch.Sub? && Get(fields, key).Some? && Get(fields, key).value.Obj? then
              Some(Obj(Deep(Get(fields, key).value.fields, patch.entries)))
            else Some(FreshValue(patch))
  {
    GetRemove(fields, key, other);
    GetRemove(fields, key, key);
    var current := Get(fields, key);
    if patch.Sub? && current.Some? && current.value.Obj? {
      var value := Obj(Deep(current.value.fields, patch.entries));
      GetSet(fields, key, value, other);
      GetSet(fields, key, value, key);
    } else if !patch.Undefined? {
      GetSet(fields, key, FreshValue(patch), other);
      GetSet(fields, key, FreshValue(patch), key);
    }
  }

  // What the merged object holds under each key.
  lemma {:induction false} DeepGet(fields: Fields, entries: Entries, key: string)
    requires Distinct(entries)
    ensures Get(Deep(fields, entries), key)
         == var patch, current := Lookup(entries, key), Get(fields, key);
            if patch == None then current
            else if patch.value.Undefined? then None
            else if patch.value.Sub? && current.Some? && current.value.Obj? then
              Some(Obj(Deep(current.value.fields, patch.value.entries)))
            else Some(FreshValue(patch.value))
    decreases entries
  {
    if entries != [] {
      DeepGet(DeepField(fields, entries[0].key, entries[0].patch), entries[1..], key);
      DeepFieldGet(fields, entries[0].key, entries[0].patch, key);
      if entries[0].key == key {
        LookupNone(entries[1..], key);
      }
    }
  }

  // ---- A second merge changes nothing ----

  // The document already says what the patch says.
  predicate Settled(fields: Fields, entries: Entries)
    decreases entries
  {
    entries != [] ==>
      && SettledField(fields, entries[0].key, entries[0].patch)
      && Settled(fields, entries[1..])
  }

  predicate SettledField(fields: Fields, key: string, patch: Patch)
    decreases patch, 0
  {
    var current := Get(fields, key);
    match patch
    case Undefined => current == None
    case Put(text) => current == Some(Leaf(text))
    case Sub(entries) => current.Some? && current.value.Obj? && Settled(current.value.fields, entries)
  }

  lemma {:induction false} SettledStays(fields: Fields, entries: Entries)
    requires Settled(fields, entries)
    ensures Deep(fields, entries) == fields
    decreases entries
  {
    if entries != [] {
      var key, patch := entries[0].key, entries[0].patch;
      match patch {
        case Undefined => RemoveMissing(fields, key);
        case Put(text) => SetSame(fields, key, Leaf(text));
        case Sub(sub) =>
          SettledStays(Get(fields, key).value.fields, sub);
          SetSame(fields, key, Get(fields, key).value);
      }
      SettledStays(fields, entries[1..]);
    }
  }

  lemma {:induction false} SettledAll(fields: Fields, entries: Entries)
    requires forall i :: 0 <= i < |entries| ==> SettledField(fields, entries[i].key, entries[i].patch)
    ensures Settled(fields, entries)
  {
    if entries != [] {
      forall i | 0 <= i < |entries[1..]|
        ensures SettledField(fields, entries[1..][i].key, entries[1..][i].patch)
      {
        assert entries[1..][i] == entries[i + 1];
      }
      SettledAll(fields, entries[1..]);
    }
  }

  lemma {:induction false} LookupEntry(entries: Entries, i: nat)
    requires Distinct(entries) && i < |entries|
    ensures Lookup(entries, entries[i].key) == Some(entries[i].patch)
  {
    if i > 0 {
      assert entries[1..][i - 1] == entries[i];
      LookupEntry(entries[1..], i - 1);
    }
  }

  lemma {:induction false} DistinctSub(entries: Entries, i: nat)
    requires Distinct(entries) && i < |entries| && entries[i].patch.Sub?
    ensures Distinct(entries[i].patch.entries)
  {
    if i > 0 {
      assert entries[1..][i - 1] == entries[i];
      DistinctSub(entries[1..], i - 1);
    }
  }

  lemma GetFirst(first: Field, rest: Fields, key: string)
    ensures Get([first] + rest, key) == if first.key == key then Some(first.value) else Get(rest, key)
  {
    assert ([first] + rest)[1..] == rest;
  }

  // A generated object written out afresh says what the patch says.
  lemma {:induction false} FreshGet(entries: Entries, key: string)
    requires Distinct(entries)
    ensures Get(Fresh(entries), key)
         == var patch := Lookup(entries, key);
            if patch == None || patch.value.Undefined? then None else Some(FreshValue(patch.value))
  {
    if entries != [] {
      FreshGet(entries[1..], key);
      var first := entries[0];
      if first.patch.Undefined? {
        assert Fresh(entries) == Fresh(entries[1..]);
        if first.key == key { LookupNone(entries[1..], key); }
      } else {
        GetFirst(Field(first.key, FreshValue(first.patch)), Fresh(entries[1..]), key);
      }
    }
  }

  lemma {:induction false} FreshSettled(entries: Entries)
    requires Distinct(entries)
    ensures Settled(Fresh(entries), entries)
    decreases entries
  {
    forall i | 0 <= i < |entries|
      ensures SettledField(Fresh(entries), entries[i].key, entries[i].patch)
    {
      FreshGet(entries, entries[i].key);
      LookupEntry(entries, i);
      if entries[i].patch.Sub? {
        DistinctSub(entries, i);
        FreshSettled(entries[i].patch.entries);
      }
    }
    SettledAll(Fresh(entries), entries);
  }

  lemma {:induction false} DeepSettled(fields: Fields, entries: Entries)
    requires Distinct(entries)
    ensures Settled(Deep(fields, entries), entries)
    decreases entries
  {
    forall i | 0 <= i < |entries|
      ensures SettledField(Deep(fields, entries), entries[i].key, entries[i].patch)
    {
      var key, patch := entries[i].key, entries[i].patch;
      DeepGet(fields, entries, key);
      LookupEntry(entries, i);
      if patch.Sub? {
        DistinctSub(entries, i);
        var current := Get(fields, key);
        if current.Some? && current.value.Obj? {
          DeepSettled(current.value.fields, patch.entries);
        } else {
          FreshSettled(patch.entries);
        }
      }
    }
    SettledAll(Deep(fields, entries), entries);
  }

  // Merging the same patch again changes nothing.
  lemma DeepIdempotent(fields: Fields, entries: Entries)
    requires Distinct(entries)
    ensures Deep(Deep(fields, entries), entries) == Deep(fields, entries)
  {
    DeepSettled(fields, entries);
    SettledStays(Deep(fields, entries), entries);
  }

  // ---- Frame and read-back ----

  // Whether the merge leaves alone what stands at a path: some step of the path is not
  // named by the patch while all objects above are merged on both sides.
  predicate Untouched(fields: Fields, entries: Entries, path: Path)
    requires path != []
    decreases path
  {
    var patch, current := Lookup(entries, path[0]), Get(fields, path[0]);
    if patch == None then true
    else
      && patch.value.Sub? && |path| > 1
      && current.Some? && current.value.Obj?
      && Untouched(current.value.fields, patch.value.entries, path[1..])
  }

  lemma {:induction false} LookupDistinct(entries: Entries, key: string)
    requires Distinct(entries) && Lookup(entries, key).Some? && Lookup(entries, key).value.Sub?
    ensures Distinct(Lookup(entries, key).value.entries)
  {
    if entries[0].key != key { LookupDistinct(entries[1..], key); }
  }

  // Every path not under a leaf of the patch reads as before.
  lemma {:induction false} DeepFrame(fields: Fields, entries: Entries, path: Path)
    requires Distinct(entries) && path != [] && Untouched(fields, entries, path)
    ensures GetIn(Deep(fields, entries), path) == GetIn(fields, path)
    decreases path
  {
    DeepGet(fields, entries, path[0]);
    if Lookup(entries, path[0]).Some? {
      LookupDistinct(entries, path[0]);
      DeepFrame(Get(fields, path[0]).value.fields, Lookup(entries, path[0]).value.entries, path[1..]);
    }
  }

  // The leaf of the patch at a path, if there is one: `Undefined` or a `Put`.
  function LeafAt(entries: Entries, path: Path): Option<Patch>
    requires path != []
    decreases path
  {
    var patch := Lookup(entries, path[0]);
    if patch == None then None
    else if |path| == 1 then (if patch.value.Sub? then None else patch)
    else if patch.value.Sub? then LeafAt(patch.value.entries, path[1..])
    else None
  }

  // What a leaf of the patch puts in its place; nothing for a deletion.
  function LeafValue(patch: Patch): Option<Tree> { if patch.Put? then Some(Leaf(patch.text)) else None }

  // Every leaf of the patch reads as the patch says.
  lemma {:induction false} DeepLeaves(fields: Fields, entries: Entries, path: Path)
    requires Distinct(entries) && path != [] && LeafAt(entries, path).Some?
    ensures GetIn(Deep(fields, entries), path) == LeafValue(LeafAt(entries, path).value)
    decreases path
  {
    DeepGet(fields, entries, path[0]);
    if |path| > 1 {
      LookupDistinct(entries, path[0]);
      var sub, current := Lookup(entries, path[0]).value.entries, Get(fields, path[0]);
      if current.Some? && current.value.Obj? {
        DeepLeaves(current.value.fields, sub, path[1..]);
      } else {
        FreshLeaves(sub, path[1..]);
      }
    }
  }

  lemma {:induction false} FreshLeaves(entries: Entries, path: Path)
    requires Distinct(entries) && path != [] && LeafAt(entries, path).Some?
    ensures GetIn(Fresh(entries), path) == LeafValue(LeafAt(entries, path).value)
    decreases path
  {
    FreshGet(entries, path[0]);
    if |path| > 1 {
      LookupDistinct(entries, path[0]);
      FreshLeaves(Lookup(entries, path[0]).value.entries, path[1..]);
    }
  }

  // A fresh document is the patch merged into an empty one.
  lemma {:induction false} DeepOfNothing(fields: Fields, entries: Entries)
    requires Distinct(entries)
    requires forall i :: 0 <= i < |entries| ==> Get(fields, entries[i].key) == None
    ensures Deep(fields, entries) == fields + Fresh(entries)
    decreases entries
  {
    if entries != [] {
      var key, patch, rest := entries[0].key, entries[0].patch, entries[1..];
      var next := DeepField(fields, key, patch);
      forall i | 0 <= i < |rest|
        ensures Get(next, rest[i].key) == None
      {
        assert rest[i] == entries[i + 1];
        DeepFieldGet(fields, key, patch, rest[i].key);
      }
      DeepOfNothing(next, rest);
      if patch.Undefined? {
        RemoveMissing(fields, key);
        assert Fresh(entries) == Fresh(rest);
      } else {
        SetMissing(fields, key, FreshValue(patch));
        Associate(fields, [Field(key, FreshValue(patch))], Fresh(rest));
        assert Fresh(entries) == [Field(key, FreshValue(patch))] + Fresh(rest);
      }
    }
  }

  lemma {:induction false} SetMissing(fields: Fields, key: string, value: Tree)
    requires Get(fields, key) == None
    ensures Set(fields, key, value) == fields + [Field(key, value)]
  {
    if fields != [] {
      SetMissing(fields[1..], key, value);
    }
  }

  // ---- Plain documents ----

  // The fields of an object as a library reads and writes them: each key once, at every depth,
  // and texts of values as leaves.
  predicate Plain(isValue: string -> bool, fields: Fields) {
    fields != [] ==>
      && Get(fields[1..], fields[0].key) == None
      && (fields[0].value.Leaf? ==> isValue(fields[0].value.text))
      && (fields[0].value.Obj? ==> Plain(isValue, fields[0].value.fields))
      && Plain(isValue, fields[1..])
  }

  predicate PlainTree(isValue: string -> bool, tree: Tree) {
    match tree
    case Leaf(text) => isValue(text)
    case Obj(fields) => Plain(isValue, fields)
  }

  // What a patch puts are texts of values.
  predicate PutsValues(isValue: string -> bool, entries: Entries) {
    entries != [] ==>
      && (entries[0].patch.Put? ==> isValue(entries[0].patch.text))
      && (entries[0].patch.Sub? ==> PutsValues(isValue, entries[0].patch.entries))
      && PutsValues(isValue, entries[1..])
  }

  lemma {:induction false} GetPlain(isValue: string -> bool, fields: Fields, key: string)
    requires Plain(isValue, fields) && Get(fields, key).Some?
    ensures PlainTree(isValue, Get(fields, key).value)
  {
    if fields[0].key != key { GetPlain(isValue, fields[1..], key); }
  }

  lemma PlainFirst(isValue: string -> bool, first: Field, rest: Fields)
    requires PlainTree(isValue, first.value) && Plain(isValue, rest) && Get(rest, first.key) == None
    ensures Plain(isValue, [first] + rest)
  {
    assert ([first] + rest)[1..] == rest;
  }

  lemma {:induction false} SetPlain(isValue: string -> bool, fields: Fields, key: string, value: Tree)
    requires Plain(isValue, fields) && PlainTree(isValue, value)
    ensures Plain(isValue, Set(fields, key, value))
  {
    if fields == [] {
      PlainFirst(isValue, Field(key, value), []);
      assert [Field(key, value)] + [] == [Field(key, value)];
    } else if fields[0].key == key {
      PlainFirst(isValue, Field(key, value), fields[1..]);
    } else {
      SetPlain(isValue, fields[1..], key, value);
      GetSet(fields[1..], key, value, fields[0].key);
      PlainFirst(isValue, fields[0], Set(fields[1..], key, value));
    }
  }

  lemma {:induction false} RemovePlain(isValue: string -> bool, fields: Fields, key: string)
    requires Plain(isValue, fields)
    ensures Plain(isValue, Remove(fields, key))
  {
    if fields != [] {
      RemovePlain(isValue, fields[1..], key);
      if fields[0].key != key {
        GetRemove(fields[1..], key, fields[0].key);
        PlainFirst(isValue, fields[0], Remove(fields[1..], key));
      }
    }
  }

  lemma {:induction false} FreshPlain(isValue: string -> bool, entries: Entries)
    requires Distinct(entries) && PutsValues(isValue, entries)
    ensures Plain(isValue, Fresh(entries))
    decreases entries
  {
    if entries != [] {
      var first, rest := entries[0], entries[1..];
      FreshPlain(isValue, rest);
      if first.patch.Undefined? {
        assert Fresh(entries) == Fresh(rest);
      } else {
        if first.patch.Sub? {
          FreshPlain(isValue, first.patch.entries);
        }
        LookupNone(rest, first.key);
        FreshGet(rest, first.key);
        PlainFirst(isValue, Field(first.key, FreshValue(first.patch)), Fresh(rest));
        assert Fresh(entries) == [Field(first.key, FreshValue(first.patch))] + Fresh(rest);
      }
    }
  }

  // Merging a patch of values into a plain document leaves it plain.
  lemma {:induction false} DeepPlain(isValue: string -> bool, fields: Fields, entries: Entries)
    requires Plain(isValue, fields) && Distinct(entries) && PutsValues(isValue, entries)
    ensures Plain(isValue, Deep(fields, entries))
    decreases entries
  {
    if entries != [] {
      var key, patch, current := entries[0].key, entries[0].patch, Get(fields, entries[0].key);
      if patch.Undefined? {
        RemovePlain(isValue, fields, key);
      } else {
        if current.Some? {
          GetPlain(isValue, fields, key);
        }
        if patch.Sub? {
          FreshPlain(isValue, patch.entries);
          if current.Some? && current.value.Obj? {
            DeepPlain(isValue, current.value.fields, patch.entries);
            SetPlain(isValue, fields, key, Obj(Deep(current.value.fields, patch.entries)));
          } else {
            SetPlain(isValue, fields, key, FreshValue(patch));
          }
        } else {
          SetPlain(isValue, fields, key, FreshValue(patch));
        }
      }
      DeepPlain(isValue, DeepField(fields, key, patch), entries[1..]);
    }
  }
}
