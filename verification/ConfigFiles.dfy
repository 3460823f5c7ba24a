// Rendering one generated file and setting up a batch of them: `renderFile` and
// `printDryRunDiff` of cli/src/config-files.ts.
module ConfigFiles {
  import opened Sequences
  import opened Text
  import opened BatchCommit
  import ContinueTexts
  import EnvMerge
  import opened PatchMerge
  import P = PatchEdits
  import TomlDocument
  import TomlSyntax
  import TomlText
  import YamlMerge

  // What a library makes of texts: the value of a text, which texts stand for scalars and arrays,
  // which texts it can edit, and an existing text edited so that it says something else. Law: an
  // edited text says what it was edited to say, and is left alone when it says so already.
  datatype Library<T> = Library(
    parse: string -> T, isValue: string -> bool, isEditable: string -> bool, write: (string, Fields) -> string)
  {
    ghost predicate Writes(said: Fields -> T) {
      forall t, f :: isEditable(t) && Plain(isValue, f) ==> Settles(said, write(t, f), f)
    }

    ghost predicate Settles(said: Fields -> T, text: string, fields: Fields) {
      isEditable(text) && parse(text) == said(fields) && write(text, fields) == text
    }
  }

  // A text that a library can edit says a plain value, or nothing.
  ghost predicate LawfulJson(lib: Library<P.JsonText>) {
    && lib.Writes(f => P.Object(f))
    && forall t :: lib.isEditable(t) ==>
         lib.parse(t).Nothing? || (lib.parse(t).Object? && Plain(lib.isValue, lib.parse(t).fields))
  }

  ghost predicate LawfulYaml(lib: Library<P.YamlText>) {
    && lib.Writes(f => P.Mapping(f))
    && forall t :: lib.isEditable(t) ==>
         || lib.parse(t).NoText? || lib.parse(t).Comments?
         || (lib.parse(t).Mapping? && Plain(lib.isValue, lib.parse(t).fields))
  }

  // A generated file: a text to be merged, or a value.
  datatype GeneratedFile =
    | Env(content: string)
    | Toml(content: string)
    | Yaml(content: string)
    | Json(value: Entries, json: Library<P.JsonText>)
    | YamlDocument(value: Entries, yaml: Library<P.YamlText>)

  function Message(error: P.Error): string {
    match error
    case CannotParse => "cannot be parsed safely"
    case NotAMapping => "is not a mapping at the top level"
    case NoCollection => "has no collection to delete from"
  }

  // The existing text, edited so that it says the merged value.
  function Edited(merged: Result<Fields, P.Error>, existing: string, write: (string, Fields) -> string)
    : Result<string, string>
  {
    match merged
    case Ok(fields) => Ok(write(existing, fields))
    case Err(error) => Err(Message(error))
  }

  // `renderFile`. A YAML file with comments only stays as it is when nothing is set in it.
  function RenderFile(file: GeneratedFile, existing: string): Result<string, string> {
    match file
    case Env(content) => Ok(EnvMerge.Merge(existing, content))
    case Toml(content) => Ok(TomlText.MergeText(existing, content))
    case Yaml(content) => Ok(YamlMerge.MergeYaml(existing, content))
    case Json(value, lib) => Edited(P.MergedJson(lib.parse(existing), value), existing, lib.write)
    case YamlDocument(value, lib) =>
      if lib.parse(existing) == P.Comments && value == [] then Ok(existing)
      else Edited(P.MergedYaml(lib.parse(existing), value), existing, lib.write)
  }

  // An existing file is refused, and the batch with it, exactly when it is to take a value and
  // the library finds it unusable. Texts are merged into every file.
  lemma RenderingFails(file: GeneratedFile, existing: string)
    ensures RenderFile(file, existing).Err?
       <==> || (file.Json? && (file.json.parse(existing).Broken? || file.json.parse(existing).NotAnObject?))
            || (file.YamlDocument?
                && (file.yaml.parse(existing).Unparsable? || file.yaml.parse(existing).NotMapping?
                    || (file.yaml.parse(existing).Comments? && P.DeletesFirst(file.value))))
  {
  }

  // What a rendered JSON file says: the leaves of the value, and everything else as it was said.
  lemma JsonSays(value: Entries, lib: Library<P.JsonText>, existing: string)
    requires Distinct(value) && PutsValues(lib.isValue, value) && LawfulJson(lib) && lib.isEditable(existing)
    ensures var was, text := lib.parse(existing), RenderFile(Json(value, lib), existing);
            && text.Ok? && lib.parse(text.value).Object?
            && P.Carries(if was.Object? then was.fields else [], value, lib.parse(text.value).fields)
  {
    var was := lib.parse(existing);
    var merged := P.MergedJson(was, value).value;
    FreshPlain(lib.isValue, value);
    P.FreshCarries(value);
    if was.Object? {
      DeepPlain(lib.isValue, was.fields, value);
      P.DeepCarries(was.fields, value);
    }
    assert lib.Settles(f => P.Object(f), lib.write(existing, merged), merged);
  }

  // The same for a YAML file. One with comments only is left alone when nothing is set in it, and
  // refused when the value begins with a deletion.
  lemma YamlSays(value: Entries, lib: Library<P.YamlText>, existing: string)
    requires Distinct(value) && PutsValues(lib.isValue, value) && LawfulYaml(lib) && lib.isEditable(existing)
    ensures var was, text := lib.parse(existing), RenderFile(YamlDocument(value, lib), existing);
            if was.Comments? && value == [] then text == Ok(existing)
            else if was.Comments? && value[0].patch.Undefined? then text.Err?
            else && text.Ok? && lib.parse(text.value).Mapping?
                 && P.Carries(if was.Mapping? then was.fields else [], value, lib.parse(text.value).fields)
  {
    var was := lib.parse(existing);
    if !(was.Comments? && (value == [] || value[0].patch.Undefined?)) {
      var merged := P.MergedYaml(was, value).value;
      FreshPlain(lib.isValue, value);
      P.FreshCarries(value);
      if was.Mapping? {
        DeepPlain(lib.isValue, was.fields, value);
        P.DeepCarries(was.fields, value);
      }
      assert lib.Settles(f => P.Mapping(f), lib.write(existing, merged), merged);
    }
  }

  ghost predicate EnvRepeats(content: string) {
    forall l :: l in EnvMerge.Replacements(Split(content, '\n')) ==> EnvMerge.Eligible(l)
  }

  ghost predicate TomlRepeats(content: string, existing: string) {
    if TrimStart(existing) == "" then
      var plan := TomlDocument.SplitSections(TomlSyntax.Lines(content));
      || TrimStart(content) == ""
      || (TomlText.RootSetsKeysOnly(content)
          && TomlSyntax.Lines(content) == TomlDocument.Assemble([], plan.root, [], plan.tables))
    else if TomlText.HasContent(content) then TomlText.RootSetsKeysOnly(content)
    else TomlText.HasContent(existing) || content == "\n"
  }

  // One block between plain markers.
  ghost predicate IsMarked(content: string) {
    exists middle :: YamlMerge.IsBlock(middle) && content == YamlMerge.BlockText(middle)
  }

  // What a generator hands over: a value names each key once and comes with a lawful library
  // that can edit the file; a YAML text is one marked block or a Continue configuration.
  ghost predicate WellFormed(file: GeneratedFile, existing: string) {
    match file
    case Env(_) => true
    case Toml(_) => true
    case Yaml(content) =>
      if YamlMerge.IsContinue(content) then ContinueTexts.ContinueForm(content) else IsMarked(content)
    case Json(value, lib) =>
      Distinct(value) && PutsValues(lib.isValue, value) && LawfulJson(lib) && lib.isEditable(existing)
    case YamlDocument(value, lib) =>
      Distinct(value) && PutsValues(lib.isValue, value) && LawfulYaml(lib) && lib.isEditable(existing)
  }

  // When rendering over the rendering changes nothing.
  ghost predicate Repeats(file: GeneratedFile, existing: string) {
    match file
    case Env(content) => EnvRepeats(content)
    case Toml(content) => TomlRepeats(content, existing)
    case Yaml(content) =>
      if YamlMerge.IsContinue(content) then ContinueTexts.OneBlock(existing)
      else TrimStart(existing) == "" || YamlMerge.Closed(existing, content)
    case _ => true
  }

  lemma YamlRepeated(content: string, existing: string)
    requires WellFormed(Yaml(content), existing)
    ensures var once := YamlMerge.MergeYaml(existing, content);
            YamlMerge.MergeYaml(once, content) == once <==> Repeats(Yaml(content), existing)
  {
    if YamlMerge.IsContinue(content) {
      ContinueTexts.ContinueTwice(existing, content);
    } else {
      var middle :| YamlMerge.IsBlock(middle) && content == YamlMerge.BlockText(middle);
      YamlMerge.MarkedTwice(existing, middle);
    }
  }

  lemma TomlRepeated(content: string, existing: string)
    ensures var once := TomlText.MergeText(existing, content);
            TomlText.MergeText(once, content) == once <==> Repeats(Toml(content), existing)
  {
    if TrimStart(existing) == "" {
      TomlText.FreshTextIdempotence(existing, content);
    } else {
      TomlText.MergeTextIdempotence(existing, content);
    }
  }

  lemma JsonRepeated(value: Entries, lib: Library<P.JsonText>, existing: string)
    requires WellFormed(Json(value, lib), existing) && RenderFile(Json(value, lib), existing).Ok?
    ensures var once := RenderFile(Json(value, lib), existing);
            RenderFile(Json(value, lib), once.value) == once
  {
    var text := lib.parse(existing);
    var merged := P.MergedJson(text, value).value;
    FreshPlain(lib.isValue, value);
    if text.Object? {
      DeepPlain(lib.isValue, text.fields, value);
    }
    P.JsonTwice(text, value);
    assert lib.Settles(f => P.Object(f), lib.write(existing, merged), merged);
  }

  lemma YamlDocumentRepeated(value: Entries, lib: Library<P.YamlText>, existing: string)
    requires WellFormed(YamlDocument(value, lib), existing) && RenderFile(YamlDocument(value, lib), existing).Ok?
    ensures var once := RenderFile(YamlDocument(value, lib), existing);
            RenderFile(YamlDocument(value, lib), once.value) == once
  {
    var text := lib.parse(existing);
    if !(text.Comments? && value == []) {
      var merged := P.MergedYaml(text, value).value;
      FreshPlain(lib.isValue, value);
      if text.Mapping? {
        DeepPlain(lib.isValue, text.fields, value);
      }
      P.YamlTwice(text, value);
      assert lib.Settles(f => P.Mapping(f), lib.write(existing, merged), merged);
    }
  }

  // Rendering over a rendering changes nothing exactly under the condition of the format, and
  // for values always.
  lemma RenderedTwice(file: GeneratedFile, existing: string)
    requires WellFormed(file, existing) && RenderFile(file, existing).Ok?
    ensures RenderFile(file, RenderFile(file, existing).value) == RenderFile(file, existing)
       <==> Repeats(file, existing)
  {
    match file {
      case Env(content) => EnvMerge.MergeIdempotence(existing, content);
      case Toml(content) => TomlRepeated(content, existing);
      case Yaml(content) => YamlRepeated(content, existing);
      case Json(value, lib) => JsonRepeated(value, lib, existing);
      case YamlDocument(value, lib) => YamlDocumentRepeated(value, lib, existing);
    }
  }

  // Running setup again with the same generated files writes nothing exactly when each of them
  // meets the condition of its format.
  lemma {:induction false} SetupTwice(disk: Disk, targets: seq<Target<GeneratedFile>>,
          again: seq<Target<GeneratedFile>>)
    requires Apart(Slots(targets)) && PlansOf(disk, targets, RenderFile).Ok? && SameFiles(targets, again)
    requires forall i :: 0 <= i < |targets| ==> WellFormed(targets[i].file, Read(disk, targets[i].slot.path))
    ensures NothingLeft(BatchCommit.Run(disk, AllSteps(PlansOf(disk, targets, RenderFile).value)), again, RenderFile)
       <==> forall i :: 0 <= i < |targets| ==> Repeats(targets[i].file, Read(disk, targets[i].slot.path))
  {
    PlansAre(disk, targets, RenderFile);
    forall i | 0 <= i < |targets|
      ensures var plan := PlanOf(disk, targets[i], RenderFile);
              plan.Ok? && (RenderFile(targets[i].file, plan.value.rendered) == Ok(plan.value.rendered)
                           <==> Repeats(targets[i].file, Read(disk, targets[i].slot.path)))
    {
      RenderedTwice(targets[i].file, Read(disk, targets[i].slot.path));
    }
    AppliedTwice(disk, targets, again, RenderFile);
  }

  // ---- The dry run ----

  // A dry run's report of one file: from which line on (none for a file without content), the
  // lines removed and the lines added.
  datatype Diff = Diff(at: Option<nat>, removed: seq<string>, added: seq<string>)

  // The index of the first old line that the new lines do not have in its place, or the number
  // of old lines.
  function FirstChange(before: seq<string>, after: seq<string>): (i: nat)
    ensures i <= |before| && i <= |after|
    ensures forall k :: 0 <= k < i ==> before[k] == after[k]
    ensures i < |before| ==> i >= |after| || before[i] != after[i]
  {
    if before == [] || after == [] || before[0] != after[0] then 0 else 1 + FirstChange(before[1..], after[1..])
  }

  function DiffOf(before: seq<string>, after: seq<string>): Diff {
    var prefix := FirstChange(before, after);
    var at := if prefix == |before| then 0 else prefix;
    Diff(Some(at), before[at..], after[at..])
  }

  // `printDryRunDiff`
  function DryRunDiff(previous: string, rendered: string): Diff {
    if previous == "" then Diff(None, [], Split(rendered, '\n'))
    else DiffOf(Split(previous, '\n'), Split(rendered, '\n'))
  }

  // Reading a report: its lines take the place of the removed ones, everything before them stays.
  function Patched(before: seq<string>, diff: Diff): Option<seq<string>> {
    match diff.at
    case None => Some(diff.added)
    case Some(at) => if at <= |before| && before[at..] == diff.removed then Some(before[..at] + diff.added) else None
  }

  lemma DiffPatches(before: seq<string>, after: seq<string>)
    ensures Patched(before, DiffOf(before, after)) == Some(after)
  {
    var at := DiffOf(before, after).at.value;
    assert before[..at] == after[..at];
    assert after[..at] + after[at..] == after;
  }

  // A report starts at the first old line that the new lines do not have in its place, or at the
  // top when they have them all, and gives the lines of both from there.
  predicate Starts(diff: Diff, before: seq<string>, after: seq<string>) {
    if before <= after then diff == Diff(Some(0), before, after)
    else && diff.at.Some? && diff.at.value < |before| && before[..diff.at.value] <= after
         && (diff.at.value < |after| ==> after[diff.at.value] != before[diff.at.value])
         && before == before[..diff.at.value] + diff.removed
         && after == before[..diff.at.value] + diff.added
  }

  lemma DiffOfStarts(before: seq<string>, after: seq<string>)
    ensures Starts(DiffOf(before, after), before, after)
  {
    var i := FirstChange(before, after);
    assert before[..i] == after[..i];
    if before <= after {
      assert before[0..] == before && after[0..] == after;
    } else {
      assert i == |before| ==> before <= after;
      assert before == before[..i] + before[i..] && after == after[..i] + after[i..];
    }
  }

  // A file without content is reported as its new lines.
  lemma DiffStarts(previous: string, rendered: string)
    ensures previous == "" ==> DryRunDiff(previous, rendered) == Diff(None, [], Split(rendered, '\n'))
    ensures previous != "" ==> Starts(DryRunDiff(previous, rendered), Split(previous, '\n'), Split(rendered, '\n'))
  {
    DiffOfStarts(Split(previous, '\n'), Split(rendered, '\n'));
  }

  // The report tells exactly what would be written.
  lemma DiffIsComplete(previous: string, rendered: string)
    ensures Patched(Split(previous, '\n'), DryRunDiff(previous, rendered)) == Some(Split(rendered, '\n'))
    ensures Join(Split(rendered, '\n'), '\n') == rendered
  {
    JoinSplit(rendered, '\n');
    DiffPatches(Split(previous, '\n'), Split(rendered, '\n'));
  }
}
