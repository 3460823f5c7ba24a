# FreeLLMAPI in Dafny

A model of the parts of FreeLLMAPI and its agent runtime whose correctness depends on state or on
long chains of edits, with proofs of what they promise. `dafny verify dfyconfig.toml` checks
everything.

| files | what they model |
|---|---|
| `TomlDocument`, `TomlLayout`, `TomlBlocks`, `TomlSyntax`, `TomlText`, `TomlMerge` | the TOML merge of `cli/src/config-files.ts`, on classified lines and on texts, as loops and as functions |
| `TomlIdempotence`, `TomlFrame`, `TomlSpacing`, `TomlPatterns` | when merging is repeatable, what is kept, where generated lines go and how they are spaced, and what each line pattern matches |
| `TomlReader`, `SectionReader` | what the doctor command (`cli/src/doctor.ts`) reads back |
| `EnvMerge`, `YamlKeys`, `ContinueYaml`, `YamlMerge`, `YamlChoices`, `ContinueTexts` | the line-based merges for env files and YAML |
| `PatchMerge`, `PatchEdits` | the structural merges for JSON and YAML trees |
| `BatchCommit`, `ConfigFiles`, `LibraryLaws` | planning and committing a batch of files, running setup twice, the dry run; that the laws asked of the JSON and YAML libraries can be met |
| `Digraph`, `GraphSearch`, `GraphValidators` | the three depth-first graph checks |
| `LogSink` | the rotating log file of the desktop app |
| `AgentProtocol`, `AgentInteraction` | message validity and the replay window; stream frames and tool targets |
| `RunStore`, `RunStoreLaws`, `RunStoreAnswers`, `Decimal` | the run and event store of the API server with its idempotency keys, cancel, and event streams |
| `Consensus` | weighted consensus |
| `Sequences`, `Text` | shared vocabulary: optional values, filters, splitting and trimming texts |

`cli/src/config-files.ts` carries unresolved conflict markers; the model follows the
`upstream/main` side, which knows arrays of tables (section "Array of Tables" of TOML v1.0.0).

Code that loops over or updates state is a method or a class here, proved equal to a function of
its inputs and old state; the laws are lemmas about those functions. Code made of expressions is
a function. What such a function yields is stated once more without it: for each line pattern,
parse, answer and reason a lemma says, on the characters, lines and fields themselves, when it is
given and what it is.

Some promises do not hold for all inputs. For these a lemma gives an input that fails, and the
condition is exact, an if-and-only-if, unless said otherwise:

- Merging the same generated TOML again changes nothing if and only if every generated line before
  the first header sets a key or is blank (`TomlText.MergeTextIdempotence`); a comment there is
  written once more each time (`TomlIdempotence.CommentIsRepeated`). A file that is empty or white
  space gets the generated text as it is, so there that text must also be laid out as the merge
  lays it out (`TomlText.FreshTextIdempotence`); one merge later it is
  (`TomlIdempotence.FreshFileSettles`).
- Merging the same generated env file again changes nothing if and only if every generated
  assignment has a key that the merge looks at (`EnvMerge.MergeIdempotence`); a line without a key
  is added once more each time (`EnvMerge.KeylessLineIsRepeated`).
- Merging the same marked YAML block again changes nothing if and only if the file is blank or the
  first start marker that the merge finds in it is closed (`YamlMerge.MarkedTwice`). The merge looks
  after removing the generated keys when the file has no plain start marker, and that removal can
  take the end marker of an indented or `//` block with it: the merge after the next one then loses
  the lines below (`YamlMerge.OtherIsLost`, and `YamlMerge.BlockLosesItsEnd` for files of four lines
  with a block that sets one generated key).
- Merging the same Continue configuration again changes nothing if and only if the file holds no
  closed block, apart from its first one and outside the FreeLLMAPI item
  (`ContinueTexts.ContinueTwice`). Each merge cuts one block, the user's own included, so a line in
  a second block survives the first merge and is lost in the second one
  (`ContinueTexts.SecondBlockIsLost`, `ContinueTexts.SettingIsLost`); repeated merging settles
  (`ContinueTexts.MergingSettles`).
- An array entry of the user is replaced if and only if a generated entry of the same array carries
  the same name, an entry without a name counting as one named "undefined"
  (`TomlFrame.EntryHitMeans`), so a user's entry of that name can go (`TomlFrame.UndefinedEntryGoes`).
  Array names hold no NUL there: with one, the keys of different entries can be the same
  (`TomlFrame.NulKeysCollide`).
- No run under given clock readings admits a message twice if and only if no reading is later than
  one before it and one after it (`AgentProtocol.OnceIffNoPeak`).
- Among senders without a colon, a valid message is admitted when its sender and nonce were not
  asked for before (`AgentProtocol.FirstUseAdmitted`), since their keys are then the same only for
  the same sender and nonce (`AgentProtocol.KeyMeans`). With a colon a first use can be refused
  (`AgentProtocol.ColonRefused`); the keys decide (`AgentProtocol.FirstKeyAdmitted`).
- The doctor takes keys of an array entry for keys of the table before it. In a file without array
  entries it reads the same after a merge if and only if it read a value before, or the kept part
  does not end in the table, or the generated entries in front do not set the key
  (`TomlReader.ReadsExisting`, `TomlReader.ArrayIsReadThrough`). In a file with array entries the
  same holds when the first block that is read for the table is the same before and after the merge,
  or there is none in both (`TomlReader.ReadsAmongArrays`). When the blocks that set the key, and
  what is appended, give it different values, both conditions together are exact
  (`TomlReader.ReadsExactly`): with equal values the doctor cannot tell one block from another.
  Entries that are replaced
  (`TomlReader.ReplacedEntryIsUnread`, `TomlReader.ArrayIsUnread`) and entries left behind a table
  that moves (`TomlReader.LeftEntryIsRead`) do change what is read.

## Model

| member | source | states |
|---|---|---|
| `TomlMerge.TrimBlankEdges` | cli/src/config-files.ts:249-255 | the loop removes exactly the blank lines at both ends |
| `TomlMerge.CutBlocks` | cli/src/config-files.ts:231-238 | the loop yields the root region and one block per header |
| `TomlDocument.BlocksShape` | cli/src/config-files.ts:229-238 | cutting a document into blocks loses nothing: the first region has no header, every block is one header and the lines up to the next, and together they are the document |
| `TomlBlocks.BlocksOfFlatten` | cli/src/config-files.ts:231-238 | blocks written one after another are cut into the same blocks again |
| `TomlMerge.TomlEntryName` | cli/src/config-files.ts:218-227 | the loop finds the first name of an array entry before the next header |
| `TomlMerge.SplitTomlSections` | cli/src/config-files.ts:262-274 | the generated document is cut at its first header, markers left out and blank edges trimmed |
| `TomlMerge.KeepBlocks` | cli/src/config-files.ts:317-331 | the loop over existing blocks keeps what the specification keeps, with the memory of the array entry dropped last |
| `TomlMerge.MergeToml` | cli/src/config-files.ts:288-348 | the merge, loops and all, equals the specification `TomlDocument.Merge`, whose parts `TomlFrame.KeptExactly`, `TomlFrame.RootKeysSetOnce` and `TomlSpacing.MergedLayout` spell out |
| `TomlSpacing.MergedLayout` | cli/src/config-files.ts:332-347 | the merged file is four sections in order: kept root lines, generated root lines between markers, kept tables, generated tables between markers; each without blank edges and repeated empty lines, one empty line after each, empty ones left out |
| `TomlSpacing.CollapseExactly` | cli/src/config-files.ts:345 | of a run of empty lines exactly the first stays, and so does every other line |
| `TomlSpacing.SectionMeans` | cli/src/config-files.ts:249-255 | a section is its lines without blank edges and repeated empty lines |
| `TomlSpacing.NoThreeBreaks` | cli/src/config-files.ts:343-347 | the merged text of a file that is not blank never holds three line breaks in a row |
| `TomlSpacing.RegionStands` | cli/src/config-files.ts:343-347 | kept or generated lines without blank edges and without two adjacent empty lines stand in the merged file verbatim, blank lines included |
| `TomlIdempotence.PlanShape` | cli/src/config-files.ts:262-274 | the generated root has no header and no marker, the generated tables start with a header, both are trimmed |
| `TomlIdempotence.MergeIdempotence` | cli/src/config-files.ts:288-348 | on a file that is not blank, merging again changes nothing if and only if the generated root region sets keys only; with nothing generated, if and only if the file has content or the generated document is one line break |
| `TomlIdempotence.CommentIsRepeated` | cli/src/config-files.ts:308-316 | the generated line `# c` makes the second merge into `x = 1` differ from the first |
| `TomlIdempotence.FreshFileSettles` | cli/src/config-files.ts:289 | a blank file becomes the generated document; merging once more gives a document that further merges leave alone |
| `TomlIdempotence.FreshIdempotence` | cli/src/config-files.ts:288-348 | on a blank file merging again changes nothing if and only if the generated document is blank, or sets root keys only and is laid out as the merge lays it out |
| `TomlText.LinesOfMerge` | cli/src/config-files.ts:288-348 | the merge of two texts, read as lines, is the merge of their lines |
| `TomlText.MergeTextIdempotence` | cli/src/config-files.ts:249-348 | the same if-and-only-if on texts, through line splitting, classification and joining |
| `TomlText.FreshTextIdempotence` | cli/src/config-files.ts:289 | the same on texts: a blank file takes the generated text, and when merging it again changes nothing |
| `TomlSyntax.RenderClassified` | cli/src/config-files.ts:204-247 | classifying a line loses nothing of it |
| `TomlPatterns.TableMeans` | cli/src/config-files.ts:204-206 | a table header is a bracket, a name without closing brackets, and a bracket |
| `TomlPatterns.ArrayMeans` | cli/src/config-files.ts:210-212 | the same for array headers with two brackets |
| `TomlPatterns.RootKeyMeans` | cli/src/config-files.ts:241-243 | a root key is what stands before white space and an equals sign, if it is made of letters, digits, dots, dashes and underscores |
| `TomlPatterns.EntryNameMeans` | cli/src/config-files.ts:223 | the name of an entry is what stands between the quotes behind `name` and an equals sign |
| `TomlPatterns.BlankMeans` | cli/src/config-files.ts:249-255 | a blank line is white space only |
| `TomlPatterns.MarkerMeans` | cli/src/config-files.ts:245-247 | a marker line is one of the two markers behind blanks and tabs |
| `TomlFrame.KeptByKey` | cli/src/config-files.ts:317-331 | an existing block is dropped exactly when it is a generated table, an entry whose key is that of a generated entry, or lies directly behind such an entry among tables of its array; all others are kept in order |
| `TomlFrame.EntryHitMeans` | cli/src/config-files.ts:304-306 | the key of an existing entry is that of a generated one if and only if the generated one has the same array and the same name, no name counting as "undefined" |
| `TomlFrame.FirstNameMeans` | cli/src/config-files.ts:220-227 | the name of an entry is that of the first line below its header that gives one, if no other header comes before it |
| `TomlFrame.KeptExactly` | cli/src/config-files.ts:317-331 | the same as KeptByKey in terms of arrays and names, when no array name holds a NUL |
| `TomlFrame.UndefinedEntryGoes` | cli/src/config-files.ts:218-227 | the user's lines `[[a]]` and `name = 'undefined'` are dropped when the line `[[a]]` is generated |
| `TomlFrame.NulKeysCollide` | cli/src/config-files.ts:306 | with a NUL in an array name two different entries have one key |
| `TomlFrame.MergedRegions` | cli/src/config-files.ts:316-348 | apart from blank lines and markers the merged file is: surviving root lines, generated root lines, surviving blocks, generated blocks, so every generated root key stands before the first header |
| `TomlFrame.RootKeysSetOnce` | cli/src/config-files.ts:276-287 | every generated root line is in the merged root region, a root line that sets a generated key is a generated one, and every other root line of the user stays |
| `TomlFrame.GeneratedTablesOnce` | cli/src/config-files.ts:276-287 | a generated table stands in the merged file as generated, and nothing else does under its name |
| `SectionReader.SectionValue` | cli/src/doctor.ts:261-277 | the value returned is that of the first line which gives the key one and whose last header above it is the section; none is returned only when there is no such line |
| `SectionReader.SettingMeans` | cli/src/doctor.ts:273-274 | a line gives a key a value exactly when it is the key, white space, an equals sign, white space, a quote of either kind, the value without quotes, a quote of either kind, and anything |
| `SectionReader.HeaderMeans` | cli/src/doctor.ts:267-270 | a line opens a section exactly when it is a bracket, a text without closing brackets that is the name with white space around it, and a bracket |
| `TomlReader.ReadsGenerated` | cli/src/doctor.ts:262-277 | for every generated table and every key the doctor reads from the merged file what the generated document says |
| `TomlReader.ReadsExisting` | cli/src/doctor.ts:262-277 | in a file without array entries, for every table that is not generated and every key, the doctor reads what it read before if and only if it read a value, or the kept part does not end in that table, or the generated array entries in front do not set the key |
| `TomlReader.ReadsAmongArrays` | cli/src/doctor.ts:262-277 | the same if-and-only-if for every file in which the first block read for the table is the same before and after the merge, or none is read in both |
| `TomlReader.ReadsExactly` | cli/src/doctor.ts:262-277 | for every file whose blocks give the key different values, the doctor reads what it read before if and only if both conditions hold |
| `TomlReader.SetupThenDoctor` | cli/src/doctor.ts:262-277 | all of this on texts: setup writes, the doctor reads |
| `TomlReader.ArrayIsReadThrough` | cli/src/doctor.ts:266-275 | the doctor reads a key of a generated array entry as a key of the table before it |
| `TomlReader.EntryIsReadThrough` | cli/src/doctor.ts:266-275 | for every table without the key and every generated array entry, the doctor reads the key of the entry as one of the table |
| `TomlReader.ReplacedEntryIsUnread` | cli/src/doctor.ts:266-275 | when an existing entry behind a table is replaced, the doctor reads the key of the new entry instead |
| `TomlReader.ArrayIsUnread` | cli/src/doctor.ts:266-275 | three lines after which a value that was read is read no more |
| `TomlReader.LeftEntryIsRead` | cli/src/doctor.ts:266-275 | when the table between another table and an entry is written anew at the end, the key of the entry is read as one of the other table |
| `EnvMerge.CollectReplacements` | cli/src/config-files.ts:351-355 | the generated lines, one for each key: its first place and its last line |
| `EnvMerge.ReplaceLines` | cli/src/config-files.ts:364-373 | the loop replaces lines positionwise and remembers the keys it met |
| `EnvMerge.MergeEnv` | cli/src/config-files.ts:350-378 | the merge, loops and all, equals the specification `EnvMerge.Merge` |
| `EnvMerge.OutputPositions` | cli/src/config-files.ts:364-376 | every line stays where it is; an eligible line whose key is generated becomes the generated line, every other line is as before, and every generated line is in the result |
| `EnvMerge.OutputMeans` | cli/src/config-files.ts:364-376 | the lines of the result, in terms of the existing lines and the generated ones only: what is replaced and by which line, and what is appended |
| `EnvMerge.ReplacementsMean` | cli/src/config-files.ts:351-355 | the generated lines that count are the last ones for their keys |
| `EnvMerge.FirstPlaces` | cli/src/config-files.ts:351-355 | the replacements stand in the order in which their keys are first generated |
| `EnvMerge.UnseenInOrder` | cli/src/config-files.ts:374-376 | what is appended keeps that order |
| `EnvMerge.AssignsMeans` | cli/src/config-files.ts:353 | a generated line sets a key exactly when it is a key without equals sign, an equals sign and a value, and does not begin with `#` |
| `EnvMerge.EligibleMeans` | cli/src/config-files.ts:364-366 | an existing line is looked at exactly when it is a non-empty key, an equals sign and a value, and its first character that is no white space is not `#` |
| `EnvMerge.LinesMean` | cli/src/config-files.ts:356-363 | the merge starts from the lines of the file without the empty ones at its end, or from none if the file is blank |
| `EnvMerge.MergedText` | cli/src/config-files.ts:377 | the merged text is its lines, each ended by one line break |
| `EnvMerge.LinesOfMerge` | cli/src/config-files.ts:350-378 | reading a merged file back gives the lines of the merge |
| `EnvMerge.MergeIdempotence` | cli/src/config-files.ts:350-378 | merging again changes nothing if and only if every generated assignment has a key the merge looks at |
| `EnvMerge.KeylessLineIsRepeated` | cli/src/config-files.ts:364-376 | the generated line `=x` is added again |
| `YamlKeys.KeepLines` | cli/src/config-files.ts:131-140 | the nested loops end and keep what the specification keeps |
| `YamlKeys.RemoveYamlKeys` | cli/src/config-files.ts:128-142 | the whole removal, blank-line clean-up included, equals its specification |
| `YamlKeys.TopLevelKeyMeans` | cli/src/config-files.ts:118-120 | a top-level key is the letters, digits, dashes and underscores at the start of a line before a colon that ends the line or has white space behind it |
| `YamlKeys.WithoutNoThree` | cli/src/config-files.ts:141 | what is left never holds three line breaks in a row |
| `YamlKeys.SqueezeStays` | cli/src/config-files.ts:141 | a text without three line breaks in a row is not changed by the reduction |
| `YamlKeys.StayingExactly` | cli/src/config-files.ts:131-140 | a line goes exactly when the last top-level key at or above it is one of the generated keys |
| `YamlKeys.SqueezeKeepsLines` | cli/src/config-files.ts:141 | reducing line breaks keeps every line that is not empty, in order |
| `YamlKeys.TrimEndLines` | cli/src/config-files.ts:141 | trimming the end of a text trims its lines from the end |
| `YamlKeys.RemovedExactly` | cli/src/config-files.ts:128-142 | the lines of the result that are not empty are those of the file whose last top-level key at or above them is not generated, up to white space at the end |
| `ContinueYaml.MergeContinueYaml` | cli/src/config-files.ts:153-191 | the merge, loops and all, equals the specification `ContinueYaml.MergeLines`; what that holds is `EntryStands`, `HeadersOnTop`, `OthersSurvive`, `EndsWithSection` and `EndsWithoutEmpty` |
| `ContinueYaml.EntryStands` | cli/src/config-files.ts:144-191 | for every file and every generated file, with an end marker or without: the lines between the generated `models:` line and the end marker stand in the first models section of the merged file, whole and in order, but for empty lines with which they would end the file |
| `ContinueYaml.HeadersOnTop` | cli/src/config-files.ts:155-158 | on top of the merged file stand the generated name, version and schema lines that the file lacks, the first generated one each, in that order |
| `ContinueYaml.HeadersSupplied` | cli/src/config-files.ts:155-158 | the merged file has a header exactly when the file had it or it is generated |
| `ContinueYaml.EndsWithSection` | cli/src/config-files.ts:163-167 | a file without models section gets it at the end, below an empty line if the file has content |
| `ContinueYaml.EndsWithoutEmpty` | cli/src/config-files.ts:190 | a file with a models section does not end with an empty line after the merge |
| `ContinueYaml.ItemMeans` | cli/src/config-files.ts:180 | a list item is two white-space characters, a dash, white space and anything |
| `ContinueYaml.OurNameMeans` | cli/src/config-files.ts:174 | the name of our item is FreeLLMAPI, with or without a quote on either side |
| `ContinueYaml.OursMeans` | cli/src/config-files.ts:174 | an item is ours exactly when it is two white-space characters, a dash, white space, `name:`, white space, FreeLLMAPI with or without a quote on either side, and white space |
| `ContinueYaml.FindSectionEnd` | cli/src/config-files.ts:169-170 | the loop stops at the next top-level key |
| `ContinueYaml.FindEntryEnd` | cli/src/config-files.ts:177-184 | the loop stops at the next list item |
| `ContinueYaml.MergeIsResult` | cli/src/config-files.ts:153-191 | the merged file is: missing headers, the file up to `models:`, the items before ours, the generated entry, the items after, the rest |
| `ContinueYaml.MergeTwice` | cli/src/config-files.ts:153-191 | merging the entry again changes nothing |
| `ContinueYaml.OthersSurvive` | cli/src/config-files.ts:171-190 | every line outside our entry survives verbatim and in order |
| `ContinueYaml.OneItemAfterMerge` | cli/src/config-files.ts:171-188 | a models section with at most one FreeLLMAPI item has exactly one afterwards, the generated one |
| `ContinueYaml.HeadersNotOverridden` | cli/src/config-files.ts:155-158 | a `name`, `version` or `schema` that the file has is not added again |
| `YamlMerge.CutAgain` | cli/src/config-files.ts:99-104 | the marker pattern finds exactly the first marked block, with the white space behind it |
| `YamlMerge.MarkedReplaces` | cli/src/config-files.ts:106-116 | a marked block gives way to the generated one; nothing else changes but the white space behind it |
| `YamlMerge.IsStartMeans` | cli/src/config-files.ts:99-104 | the block pattern begins at a line of blanks or tabs, `#` or `//`, a blank, the start marker, and anything |
| `YamlMerge.AfterEndMeans` | cli/src/config-files.ts:99-104 | and ends behind the end marker of such a line |
| `YamlChoices.TakesGenerated` | cli/src/config-files.ts:106-116 | a blank file takes the generated text, and so does every file when the generated text lacks one of the markers |
| `YamlChoices.AppendsGenerated` | cli/src/config-files.ts:114-202 | a file without marked block keeps its text, or what is left of it without the generated keys, and the generated text follows below an empty line |
| `YamlChoices.ReplacesBlock` | cli/src/config-files.ts:111-202 | the first marked block gives way to the generated one, with everything above and below it, but for white space behind it, as it was |
| `YamlMerge.MarkedTwice` | cli/src/config-files.ts:193-202 | merging the same marked block again changes nothing if and only if the file is blank or the first start marker found in it is closed |
| `YamlMerge.UnmarkedIsClosed` | cli/src/config-files.ts:193-202 | so it does for every file without start marker |
| `YamlMerge.DanglingLoses` | cli/src/config-files.ts:99-116 | below a start marker without end, the second merge loses every line from that marker on |
| `YamlMerge.BlockLosesItsEnd` | cli/src/config-files.ts:118-142 | for every file of four lines, an indented or `//` block around one generated key and a line below: removing the key takes the end marker along, and the second merge loses the line below |
| `YamlMerge.OtherIsLost` | cli/src/config-files.ts:193-202 | four lines of which the last is lost |
| `ContinueTexts.MergedTextOf` | cli/src/config-files.ts:193-197 | for every property of lines that no generated line has, the lines of the merged text that have it are those that the merge keeps of the file, in order |
| `ContinueTexts.EntryIsWritten` | cli/src/config-files.ts:193-197 | the merged text holds the lines of the generated entry in its first models section, whole and in order, whatever the existing text is |
| `ContinueTexts.CutFewer` | cli/src/config-files.ts:99-104 | a text without its first block mentions a word at most as often as the text does outside of the block, although the rest of the end marker's line is joined with what follows |
| `ContinueTexts.MergedHasBlock` | cli/src/config-files.ts:193-197 | the merged text holds a closed block if and only if one is left, outside the FreeLLMAPI item, in the file without its first block |
| `ContinueTexts.BlockedLosesStart` | cli/src/config-files.ts:193-197 | a merge into a file with a closed block leaves fewer lines that mention the start marker |
| `ContinueTexts.ContinueTwice` | cli/src/config-files.ts:193-197 | merging the same Continue configuration again changes nothing if and only if no closed block is left, outside the FreeLLMAPI item, in the file without its first block |
| `ContinueTexts.NoOtherStart` | cli/src/config-files.ts:193-197 | so it is for every file without start marker besides one block |
| `ContinueTexts.MergingSettles` | cli/src/config-files.ts:193-197 | merging again and again settles for every file, after one more merge than the first leaves lines that mention the start marker |
| `ContinueTexts.SecondBlockIsLost` | cli/src/config-files.ts:193-197 | the line in the second block of a file is there after the first merge and gone after the second |
| `ContinueTexts.SettingIsLost` | cli/src/config-files.ts:193-197 | six lines of which `b: 2` is lost |
| `PatchEdits.JsonMerge.ApplyPatch` | cli/src/config-files.ts:34-52 | the recursion turns the rendered document into the one with its edits performed, left to right |
| `PatchEdits.EditsAreDeep` | cli/src/config-files.ts:34-52 | those edits, chosen by the document as first parsed, yield the structural deep merge |
| `PatchEdits.MergeJson` | cli/src/config-files.ts:18-54 | an error if and only if the file cannot be parsed or holds no object; otherwise every leaf of the value reads as the value says, every path not under one reads as before, and the result is the deep merge |
| `PatchEdits.JsonTwice` | cli/src/config-files.ts:18-54 | a merged JSON file merged with the same value again stays as it is, blank files included |
| `PatchEdits.YamlDocumentMerge.ApplyPatch` | cli/src/config-files.ts:79-92 | the recursion over the changing document performs the specified steps |
| `PatchEdits.StepsAreDeep` | cli/src/config-files.ts:79-94 | choosing each step by the document as it is by then gives the same deep merge |
| `PatchEdits.MergeYamlDocument` | cli/src/config-files.ts:67-97 | the three errors, each if and only if: a file that cannot be parsed, one that is no mapping, one with comments only and a value that begins with a deletion; otherwise the same as for JSON |
| `PatchEdits.YamlTwice` | cli/src/config-files.ts:67-97 | a merged YAML document merged with the same value again stays as it is, blank files and files with comments only included |
| `PatchMerge.DeepGet` | cli/src/config-files.ts:34-52 | what the merged object holds under each key, by what the file and the patch hold there |
| `PatchMerge.DeepIdempotent` | cli/src/config-files.ts:56-66 | merging the same patch again changes nothing |
| `PatchMerge.DeepFrame` | cli/src/config-files.ts:56-66 | every path not under a leaf of the patch reads as before |
| `PatchMerge.DeepLeaves` | cli/src/config-files.ts:56-66 | every leaf of the patch reads as the patch says, deletions included |
| `PatchMerge.DeepPlain` | cli/src/config-files.ts:34-52 | merging keeps an object one that a library can write: each key once, and values as leaves, at every depth |
| `PatchMerge.DeepOfNothing` | cli/src/config-files.ts:68-71 | a fresh document is the patch merged into an empty one |
| `BatchCommit.PlanningFails` | cli/src/config-files.ts:408-420 | there is no plan if and only if some target cannot be rendered |
| `BatchCommit.FileSystem.CommitPlannedWrite` | cli/src/config-files.ts:422-436 | one commit performs the backup, the write beside the target and the rename, or nothing for an unchanged target |
| `BatchCommit.FileSystem.ApplyGeneratedFiles` | cli/src/config-files.ts:438-448 | an error if and only if some target cannot be rendered over its content; an error or a dry run leaves the disk as it was; otherwise all commits are performed in order, one path named twice included. Each result gives, by the target and the disk: the path, the old content, what is rendered over it, whether the two differ, and the backup, if there is one |
| `BatchCommit.LastPlanStays` | cli/src/config-files.ts:422-448 | of several plans for one path the last that changes it stays |
| `BatchCommit.BatchCommitted` | cli/src/config-files.ts:422-448 | every target has its rendering, every changed target that was there has a backup equal to its old content, no temporary file stays, and no other path changes |
| `BatchCommit.BatchApplied` | cli/src/config-files.ts:408-448 | the same in terms of targets: after a batch each path holds what is rendered over its old content; where that is new, no temporary file stays and a file that was there has its old content in its backup |
| `BatchCommit.BatchStaysBeside` | cli/src/config-files.ts:408-448 | no path is touched but the target, its backup and its temporary file, by name |
| `BatchCommit.BatchStopped` | cli/src/config-files.ts:422-448 | wherever the process stops, a copy or write half done included, every target is as it was or complete with a backup of its old content |
| `BatchCommit.AppliedTwice` | cli/src/config-files.ts:438-448 | applying again writes nothing if and only if rendering over each rendering changes nothing |
| `BatchCommit.PrefixFreeIsApart` | cli/src/config-files.ts:428-431 | backups and temporary files never collide with anything when no target's path begins with another's |
| `ConfigFiles.RenderedTwice` | cli/src/config-files.ts:380-389 | rendering over a rendering changes nothing if and only if the condition of the format holds; for JSON and YAML values under a lawful library it always does |
| `ConfigFiles.RenderingFails` | cli/src/config-files.ts:380-389 | a file is refused if and only if it is to take a value and is unusable; merged texts are never refused |
| `ConfigFiles.JsonSays` | cli/src/config-files.ts:18-54 | under a lawful library the rendered JSON file says the leaves of the value, and on every other path what it said before |
| `ConfigFiles.YamlSays` | cli/src/config-files.ts:67-97 | the same for YAML; a file with comments only is left alone when nothing is set in it, and refused when the value begins with a deletion |
| `ConfigFiles.SetupTwice` | cli/src/config-files.ts:438-448 | running setup again with the same generated files writes nothing if and only if each file meets the condition of its format |
| `ConfigFiles.DiffIsComplete` | cli/src/config-files.ts:454-469 | the reported change applied to the old lines gives exactly the lines that would be written |
| `ConfigFiles.DiffStarts` | cli/src/config-files.ts:454-468 | a report starts at the first old line that the new lines do not have in its place, at the top when they have them all, and gives the lines of both from there; a file without content is reported as its new lines |
| `GraphSearch.Search.VisitUntilCycle` | agent/src/core/agent-graph-runtime.ts:88-98 | the recursion ends; it reports a cycle only if there is one, and otherwise leaves the visited nodes in order, every successor first |
| `GraphSearch.Search.VisitAll` | agent/src/core/ai-workflow-builder-runtime.ts:100-109 | the recursion ends and keeps: visited nodes are reached and closed under edges up to those being visited, and every back edge met lies on a cycle |
| `GraphSearch.SearchComplete` | agent/src/core/ai-workflow-builder-runtime.ts:102-110 | a finished search has visited exactly what the root reaches, and met a back edge if and only if a cycle lies there |
| `GraphValidators.FindCycle` | agent/src/core/agent-graph-runtime.ts:84-100 | true if and only if some non-empty closed walk of edges starts at listed nodes; otherwise the order of visits is a reverse topological order of the nodes |
| `GraphValidators.ReverseIsSchedule` | agent/src/core/agent-graph-runtime.ts:90-99 | the visits in reverse list every node once, each edge's source before its target |
| `GraphValidators.ScheduleIsAcyclic` | agent/src/core/agent-graph-runtime.ts:84-100 | a graph that can be scheduled has no cycle |
| `GraphValidators.ValidateM180Graph` | agent/src/core/agent-graph-runtime.ts:102-111 | each reason is given if and only if what it says holds of the fields of the graph, approval is required if and only if the state is approved or running, and a graph is allowed if and only if it is well formed and can be scheduled |
| `GraphValidators.FindWorkflowCycle` | agent/src/core/agent-orchestration-runtime.ts:85-101 | the same if-and-only-if for edges given as objects and keys in order of insertion |
| `GraphValidators.ValidateAgentWorkflowGraph` | agent/src/core/agent-orchestration-runtime.ts:103-115 | each reason is given if and only if what it says holds of the fields of the graph, the cycle reason if and only if there is a cycle or the graph is not declared acyclic; approval is always required; allowed if and only if well formed and schedulable |
| `GraphValidators.ValidateWorkflowGraph` | agent/src/core/ai-workflow-builder-runtime.ts:96-113 | "not reachable" appears if and only if the entry does not feed the output, the cycle reason if and only if a cycle lies among the nodes that do, a self-reference reason for exactly the nodes that list themselves |
| `LogSink.FileSink.Write` | desktop/src/logger.ts:62-74 | opens, rotates and appends as specified, and keeps the size equal to the file's length while open |
| `LogSink.FileSink.Close` | desktop/src/logger.ts:75-82 | closes and changes neither file |
| `LogSink.FileSink.Rotate` | desktop/src/logger.ts:51-59 | the current file becomes the previous one, and an empty current one is opened |
| `LogSink.RunRetains` | desktop/src/logger.ts:39-84 | over every run of writes and closes the two files hold the last written lines, whole and in order, and lines are missing only once the files together are longer than the limit |
| `LogSink.RunKeepsSuffix` | desktop/src/logger.ts:39-84 | the older file followed by the newer is a suffix of all bytes ever written, and is all of them or longer than the limit |
| `LogSink.HistoryIs` | desktop/src/logger.ts:62-74 | the pieces of which the two laws above speak are what the files held at first and then every line written, whole and in order, each ended by a line break that is added only where it lacked one |
| `LogSink.WriteBound` | desktop/src/logger.ts:65-70 | after a write the current file ends with the line, a line break added if it had none, and is at most the limit long or holds nothing else |
| `AgentProtocol.AllowedMeans` | agent/src/core/agent-protocol.ts:54-73 | a message is allowed if and only if every check holds and the signature is verified |
| `AgentProtocol.ReasonIsFirst` | agent/src/core/agent-protocol.ts:54-65 | a message that is not valid is given the reason of the first check that fails, in the order of the checks |
| `AgentProtocol.ReasonsMean` | agent/src/core/agent-protocol.ts:67-73 | besides that reason only a signature that is not confirmed is reported, and always after it |
| `AgentProtocol.ReplayWindow.Accept` | agent/src/core/agent-protocol.ts:75-86 | accepts as specified; after a success only entries that have not expired are kept |
| `AgentProtocol.AdmittedAgain` | agent/src/core/agent-protocol.ts:54-86 | whatever the clock does, a sender and nonce are admitted again only after some attempt at or after the expiry of the first message |
| `AgentProtocol.AdmittedOncePerNonce` | agent/src/core/agent-protocol.ts:54-86 | in every run with a clock that does not run back, a sender and nonce are admitted again only after the first message has expired |
| `AgentProtocol.AdmittedOnce` | agent/src/core/agent-protocol.ts:54-86 | no message is admitted twice in a run whose clock has no peak |
| `AgentProtocol.FirstKeyAdmitted` | agent/src/core/agent-protocol.ts:78-86 | a valid message is admitted when its key was not asked for before |
| `AgentProtocol.KeyMeans` | agent/src/core/agent-protocol.ts:79 | two messages of senders without a colon have the same key if and only if they have the same sender and nonce |
| `AgentProtocol.FirstUseAdmitted` | agent/src/core/agent-protocol.ts:78-86 | among senders without a colon a valid message is admitted when its sender and nonce were not asked for before |
| `AgentProtocol.ColonRefused` | agent/src/core/agent-protocol.ts:79 | a valid first message of the sender `s` with the nonce `t:n` is refused behind one of the sender `s:t` with the nonce `n` |
| `AgentProtocol.PeakAdmitsTwice` | agent/src/core/agent-protocol.ts:78-85 | for all clock readings with a peak there is a run with those readings, asking for valid messages only, that admits a message twice |
| `AgentProtocol.OnceIffNoPeak` | agent/src/core/agent-protocol.ts:54-86 | no run under given clock readings admits a message twice if and only if they have no peak, for gateways that ask for valid messages only and for all others |
| `AgentInteraction.StreamIsContiguous` | agent/src/core/agent-interaction-runtime.ts:126-135 | whatever frames are sent in whatever order, those accepted are numbered without gap or repetition, their bytes add up, and none follows an ending frame |
| `AgentInteraction.InOrderArrives` | agent/src/core/agent-interaction-runtime.ts:126-135 | frames sent in order are all accepted |
| `AgentInteraction.FrameAccepted` | agent/src/core/agent-interaction-runtime.ts:126-135 | a frame is accepted if and only if nothing is blank and it is the next frame of a stream that has not ended; it moves the number and the bytes on by itself and ends the stream if it is a terminal or an error frame |
| `AgentInteraction.FrameRefused` | agent/src/core/agent-interaction-runtime.ts:126-135 | otherwise the error is that of the first check that fails |
| `AgentInteraction.WithinIsPrefix` | agent/src/core/agent-interaction-runtime.ts:143 | being within an allowed path is having its segments as first segments |
| `AgentInteraction.FileTargetAllowed` | agent/src/core/agent-interaction-runtime.ts:94-152 | a file target is allowed if and only if its segments start with those of some allowed path, none is empty or climbs up, no backslash occurs, and a side effect is approved |
| `AgentInteraction.FileReasonsMean` | agent/src/core/agent-interaction-runtime.ts:137-152 | each reason against a file target is given if and only if what it says holds |
| `AgentInteraction.ApiTargetAllowed` | agent/src/core/agent-interaction-runtime.ts:137-152 | an API target is allowed if and only if its host is listed and is not the local one, a method is named, and a side effect is approved |
| `AgentInteraction.ApiReasonsMean` | agent/src/core/agent-interaction-runtime.ts:137-152 | each reason against an API target is given if and only if what it says holds |
| `RunStore.InMemoryApiStore.CreateRun` | agent/apps/api/server.ts:100-117 | a run under the next id, with an empty log |
| `RunStore.InMemoryApiStore.AppendEvent` | agent/apps/api/server.ts:138-161 | the log of the run grows by one event numbered by its length |
| `RunStore.InMemoryApiStore.CancelRun` | agent/apps/api/server.ts:383-387 | the state becomes cancelled unless the run is done or failed |
| `RunStore.InMemoryApiStore.Create` | agent/apps/api/server.ts:287-322 | the create handler, every refusal included, equals the specified step, which `RunStoreAnswers` spells out |
| `RunStore.InMemoryApiStore.Cancel` | agent/apps/api/server.ts:348-393 | the cancel handler, every refusal included, equals the specified step, which `RunStoreAnswers` spells out |
| `RunStoreAnswers.CreateChanges` | agent/apps/api/server.ts:278-322 | a create request changes the store if and only if the caller is permitted and within its project, the body is good, and a valid key is sent that is free or expired |
| `RunStoreAnswers.CreateRefused` | agent/apps/api/server.ts:278-311 | what is answered otherwise: 403 without permission, 404 outside the project, the error of a bad body, 400 without key, 500 for a key that is not valid, the recorded answer for the same request of the same organization, 409 for another one |
| `RunStoreAnswers.CreatedRun` | agent/apps/api/server.ts:100-117 | every field of the run that is created, of its first event and of the recorded answer: private and supervised unless the input says otherwise, and for 24 hours under the key |
| `RunStoreAnswers.CancelChanges` | agent/apps/api/server.ts:348-393 | a cancel request changes the store if and only if the run is visible to the caller, the caller is permitted, and a valid key is sent that is free or expired |
| `RunStoreAnswers.CancelRefused` | agent/apps/api/server.ts:348-382 | what is answered otherwise: 404 for a run that is not visible, then 403 without permission, then by the key as for create |
| `RunStoreAnswers.CancelledRun` | agent/apps/api/server.ts:383-392 | every field of the cancelled run, of the event behind its log and of the recorded answer |
| `RunStoreAnswers.ShownRun` | agent/apps/api/server.ts:324-333 | a run is shown as it is if and only if it is of the organization of the caller, and of its project if it has one |
| `RunStoreAnswers.ShownEvents` | agent/apps/api/server.ts:335-346 | so are the events of its log behind the one whose id is sent, all of them when what is sent is no id of the run |
| `RunStoreAnswers.ShownBehind` | agent/apps/api/server.ts:468-474 | what may stand behind the id of the run: digits count as the number they are, nothing as zero, and other texts as the number they convert to |
| `RunStoreAnswers.ValidKeyMeans` | agent/src/core/idempotency.ts:46-50 | a key is 8 to 128 letters, digits, dots, underscores, colons and dashes |
| `RunStoreAnswers.ReadingChangesNothing` | agent/apps/api/server.ts:324-346 | showing a run or its events leaves the store as it was |
| `RunStoreLaws.RunIdsDiffer` | agent/apps/api/server.ts:102 | two runs never share an id, whatever the random suffixes |
| `RunStoreLaws.HandleKeeps` | agent/apps/api/server.ts:287-393 | every handler keeps the invariant; runs keep owner and project, and logs only grow |
| `RunStoreLaws.LogsAgree` | agent/apps/api/server.ts:100-161 | after every run of requests each log is numbered from 0, is a creation followed by cancellations only, carries the run's organization, and holds a cancellation if and only if the run is cancelled |
| `RunStoreLaws.TenantsAreApart` | agent/apps/api/server.ts:398-408 | no request is answered with data of another organization, nor a caller with a project with data of another project; replayed answers included |
| `RunStoreLaws.SentAgain` | agent/src/core/idempotency.ts:60-123 | a request sent again with its key before the key expires, whatever came between, changes nothing and gets the first answer again if it is let through |
| `RunStoreLaws.LastEventIdRoundTrip` | agent/apps/api/server.ts:468-474 | the id printed with an event is read back as its sequence number |
| `RunStoreLaws.ResumeIsComplete` | agent/apps/api/server.ts:335-346 | for every interleaving of requests, connections and broken connections a client has received a prefix of the log without gap or repetition, and all of it after an accepted connection that was not broken off (section 9.2.4 of the WHATWG HTML Standard) |
| `Decimal.ValueOfPrint` | agent/apps/api/server.ts:149 | a printed number reads back as itself |
| `Consensus.DecideConsensus` | agent/src/core/consensus.ts:40-77 | an error if and only if the input is invalid, and then the first one that applies; otherwise the decision is the outcome determined by the support of the candidates |
| `Consensus.CountVotes` | agent/src/core/consensus.ts:55-64 | the loop over votes finds exactly the invalid vote lists, names what is wrong with the first vote that is refused, and sums the passing votes |
| `Consensus.CheckCandidates` | agent/src/core/consensus.ts:45-54 | candidates and quorum are refused exactly when they are not good, with the first error that applies |
| `Consensus.OneVoteCounts` | agent/src/core/consensus.ts:63 | without votes there is no support; one more vote gives its candidate the weight times the confidence if it passes the invariants, and nobody else anything |
| `Consensus.TotalIsSum` | agent/src/core/consensus.ts:65 | the total is the sum of the weights |
| `Consensus.SingleVote` | agent/src/core/consensus.ts:63-74 | a single vote decides for its candidate if and only if it passes the invariants and weight times confidence meets the share of the total weight that the quorum asks for |
| `Consensus.Rank` | agent/src/core/consensus.ts:66 | all entries, each once, by falling support |
| `Consensus.OutcomeUnique` | agent/src/core/consensus.ts:66-76 | the decision is determined by the candidates' support |
| `Consensus.AcceptedWins` | agent/src/core/consensus.ts:70-74 | a candidate is accepted if and only if it reaches quorum times the total weight and has strictly more support than every other |
| `Consensus.VotesPermuted` | agent/src/core/consensus.ts:58-64 | permuting the votes changes nothing |
| `Consensus.CandidatesPermuted` | agent/src/core/consensus.ts:55-66 | permuting the candidates changes nothing |
| `Consensus.OrderDoesNotMatter` | agent/src/core/consensus.ts:40-77 | the same candidates and votes in another order are as valid and decided alike |
| `Consensus.FailingVotesIgnored` | agent/src/core/consensus.ts:63 | votes that fail the invariants change nothing |
| `Consensus.WinnerKeepsWinning` | agent/src/core/consensus.ts:63-74 | one more passing vote for the winner keeps it the winner |

## Left out

- Regular expressions are written as predicates on strings and lines; carriage returns, and the other line separators that a multi-line pattern knows, are not line ends here.
- The parsing and formatting of the JSON and YAML libraries: files are trees, and setting or deleting at a path is what the libraries do. Properties that every JavaScript object inherits are no properties of a parsed file here.
- YamlMerge.MarkedTwice, and YamlChoices.ReplacesBlock: generated texts with `$` patterns of the string replacement are excluded; the generated text is one block between plain markers, as the generators write it.
- ContinueTexts.ContinueTwice: the generated entry has the form the generators give it: a FreeLLMAPI item, without other items, keys or markers; no generated header mentions the start marker.
- TomlReader.ReadsExisting: headers with white space inside the brackets are excluded because the two readers of headers disagree about them.
- TomlReader.ReadsExactly: blocks that give the key the same value are excluded, since reading one for the other changes nothing; ReadsAmongArrays covers them in one direction.
- TomlFrame.KeptExactly: array names with a NUL are excluded; what happens to them is KeptByKey.
- PatchEdits.MergeYamlDocument: in a file with comments only, deleting first is an error in the library and an error here; anything else makes the file a mapping.
- BatchCommit.FileSystem.ApplyGeneratedFiles: failing file operations, permissions and directories are not modelled; what stopping part-way leaves behind is. No target has the name of a temporary file of the batch, whose copy would fail. BatchCommitted, BatchStopped and AppliedTwice are about targets, backups and temporary files with different names.
- ConfigFiles.RenderedTwice: how a library keeps comments and layout is not modelled: it edits an existing text so that it says given fields. Two laws are asked of it, for texts it can edit and fields with each key once: the edited text says those fields, and editing it again to say them leaves it alone (`LibraryLaws.JsonLawsCanBeMet`, `LibraryLaws.YamlLawsCanBeMet`). A JSON text that names a key twice is none that it can edit. A YAML file with comments only and nothing to set is left as it is, without the library's own reprinting.
- ConfigFiles.DiffIsComplete: the report is its line number and its removed and added lines, not the prefixes they are printed with.
- LogSink: file operations succeed, and a line is its bytes; its encoding is not modelled.
- Consensus: numbers are exact reals; infinities, values that are no numbers and rounding are not modelled.
- AgentProtocol: times are reals, without infinities and values that are no numbers; the verifier of signatures is its answer.
- AgentInteraction: sequence numbers and lengths are integers.
- RunStore: one reading of the clock for each request; request hashes are compared as the requests themselves; a key that is in flight is seen by the model but never left behind by a handler, since completing follows at once. Texts after the run id that are not plain digits are converted by a parameter. Authentication, rate limits, body parsing and the other routes are not modelled.
- Hashes of decisions and audits, and the many flat checks of the agent runtime.
- Setup generators, commands, user interface, updater and server wiring.
