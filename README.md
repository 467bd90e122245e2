# openapi-edc-scanner: a verified model of the OpenAPI-to-catalog converter

The scanner reads OpenAPI (Swagger) description files and produces the two
tables an enterprise data catalog loads as custom metadata:

- `objects.csv` has one row per catalog object. The objects are the API endpoint, its Info block, its externalDocs block, every schema of `components.schemas` and every property of each schema.
- `links.csv` has one row per association between two objects.

This project models the core of that converter in Dafny and proves what it promises.

- **Model** (`model.dfy`, module `Model`) holds the tag strings of the
  catalog model:
  - the five class tags;
  - the nine package attributes and the six attributes inherited from the relational base model;
  - the seven association tags;
  - the instance fields of `OpenAPIModel` in assignment order.
- **Documents** (`documents.dfy`) is the parsed JSON document. Its objects keep member order, as Python dicts do. It also holds the dotted-path accessor `safe_get`. Its reference definition `Find` fails as soon as a key is missing or a value on the way is not an object.
- **Parser** (`parser.dfy`) is the row builder of `OpenAPIParser`:
  - the objects.csv header, built by the constructor's loop over the model's `_attr_` fields;
  - the Endpoint, Info and externalDocs rows;
  - one row per schema, followed by its property rows;
  - the link rows that mirror those objects.

  `ConvertObjects` and `ConvertLinks` are the methods that emit the rows one at a time. Each Python exception becomes an `Err` of the `Failure` datatype. The temporary table is renamed only after its last row, so a conversion that raises publishes nothing.
- **ParserProperties** (`parser_properties.dfy`) states what the emitted rows guarantee against a reference traversal: every schema in document order, each followed by its properties. It covers:
  - order, counts and cell contents;
  - that every link points at an emitted object and starts at an earlier one;
  - that no link targets externalDocs;
  - that every row fills exactly the header's columns;
  - the failure cases;
  - that identities are unique, for schema names without `/`.
- **Preprocessing** (`preprocessing.dfy`) models `Preprocessor.fix`. A `null` description is rewritten to the empty string in both spellings, and the processed copy's path is `processed_` plus the file's base name.
- **Text** (`text.dfy`) models Python's `str.replace` and `str.split` as one left-to-right, non-overlapping scan, together with their round trips and lengths.
- **Driver** (`driver.dfy`) models `execute` in main.py:
  - the `.json` filter;
  - the preprocessing and conversion of each spec file;
  - skipping a file whose conversion raises;
  - renaming the tables to `objects-<file>.csv` and `links-<file>.csv`;
  - the header-de-duplicating merge of the renamed tables.
  - `execute` as written, with its nested cleanup walk, up to the exception that ends it.

## Model

| member | source | states |
|---|---|---|
| Documents.Lookup | parser/openapi.py:33 | the dict lookup finds a value exactly when some member has the key, and the value found is stored under that key |
| Documents.WalkIsFind | parser/openapi.py:33 | folding `d.get(key, default)` over the keys equals the reference lookup `Find`, or the default when a key is missing or a value on the way is not an object |
| Documents.SafeGetFinds | parser/openapi.py:31-33 | `safe_get` of a dotted path is the reference lookup of the path's `.`-separated segments, none of which holds a `.`, or the default |
| Documents.SafeGetTwoKeys | parser/openapi.py:31-33 | `safe_get('a.b')` is two dict steps: b looked up in the value of a, with the default wherever a step finds no object |
| Documents.SplitAtFirstDot | parser/openapi.py:33 | splitting `a.b` on `.` gives `a`, then the pieces of `b`, when `a` has no dot |
| Parser.BuildObjectsHead | parser/openapi.py:20-29 | the header loop inserts each `_attr_` field's value into the ordered dict; the result is duplicate-free, starts with the four core columns and holds exactly the core columns and the attribute values |
| Parser.InsertKeysShape | parser/openapi.py:27-29 | inserting into an ordered dict keeps the existing keys first, adds no duplicate, and ends up holding the old keys and the added ones |
| Parser.InsertFreshKeys | parser/openapi.py:27-29 | inserting keys that are all new appends them in order |
| Parser.HeaderFromModel | parser/openapi.py:20-29 | the model's fields yield the header `class`, `identity`, `core.name`, `core.description`, then the 15 attribute keys in declaration order: 19 distinct columns |
| Parser.OpenAPIParser.constructor | parser/openapi.py:9-29 | the parser keeps the document, and its objects header is the 19-column header |
| Parser.OpenAPIParser.ConvertObjects | parser/openapi.py:35-68 | fails with `TableExists` when objects.csv already exists; otherwise emits exactly the rows `ObjectRows` prescribes (Endpoint, Info, externalDocs, then every schema with its properties) or fails as the first failing step does |
| Parser.OpenAPIParser.RowsOfSchemas | parser/openapi.py:158-177 | the outer loop emits each schema's block in document order and stops at the first schema or property that raises |
| Parser.OpenAPIParser.RowsOfSchema | parser/openapi.py:162-177 | a schema's block is its schema row, then one row per property, stopping at the first property that is not an object |
| Parser.OpenAPIParser.ConvertLinks | parser/openapi.py:70-100 | fails with `TableExists` when links.csv already exists; otherwise emits the root link, the Endpoint-to-Info link, then every schema's links, or fails where the schema walk fails |
| Parser.OpenAPIParser.LinksOfSchema | parser/openapi.py:195-207 | a schema's links are the Endpoint-to-schema link, then one schema-to-property link per property, from the schema's identity to the identity plus `/` and the property name |
| ParserProperties.PropertyNodes | parser/openapi.py:169-177 | the traversal visits one node per property of a schema, in document order |
| ParserProperties.SchemaRowFollows | parser/openapi.py:162-167 | a schema row has the schema class, the schema name, identity `Endpoint/Schemas/<name>` and that identity as description, other columns blank |
| ParserProperties.PropertyRowFollows | parser/openapi.py:170-177 | a property row has the property class, the property name, the schema identity plus `/` and the name, and the property's `type`, `format` and `example`; `core.description` and every other header column stay blank |
| ParserProperties.PropertyRowsFollow | parser/openapi.py:169-177 | a schema's property rows succeed exactly when every property is an object, and then follow the property nodes one to one |
| ParserProperties.SchemaRowsFollow | parser/openapi.py:158-177 | the schema rows succeed exactly when every schema has a property map whose values are objects, and then follow the traversal one to one |
| ParserProperties.ObjectRowsFollowTraversal | parser/openapi.py:62-65 | the object rows succeed exactly when the Info description is usable, the schemas walk and every property is an object; the rows are then Endpoint, Info, externalDocs, then one row per traversal node in traversal order |
| ParserProperties.SchemaLinksFollow | parser/openapi.py:192-207 | the schema links succeed exactly when the schema walk does, and then follow the traversal one to one: schemas linked from Endpoint, properties from their schema |
| ParserProperties.LinkRowsFollowTraversal | parser/openapi.py:95-97 | the link rows are the root link (empty source, to `Endpoint`), Endpoint to `Endpoint/Info`, then one link per traversal node |
| ParserProperties.ObjectsConvertThenLinksConvert | parser/openapi.py:192-207 | whenever the objects convert, the links convert too |
| ParserProperties.TraversalSize | parser/openapi.py:161-169 | the traversal has one node per schema plus one per property |
| ParserProperties.RowCounts | parser/openapi.py:158-207 | there are 3 + #schemas + Σ#properties object rows and 2 + #schemas + Σ#properties link rows |
| ParserProperties.SchemaNodesParentsFirst | parser/openapi.py:161-177 | each property comes right after its schema, with only properties of the same schema in between |
| ParserProperties.Alignment | parser/openapi.py:123-207 | object row 3+i and link 2+i come from the same traversal node, and the fixed rows and links are in place |
| ParserProperties.LinksReferToObjects | parser/openapi.py:179-207 | there is one object row more than link rows; every link's target is the identity of an emitted object row, every link after the root starts at an earlier row, and no link targets externalDocs |
| ParserProperties.AlignedTargets | parser/openapi.py:182-206 | link k points at the identity of object row k (first two links) or k+1 (the rest) |
| ParserProperties.AlignedSources | parser/openapi.py:188-205 | every link after the root starts at the identity of an earlier object row: Endpoint for Info and schemas, the schema for its properties |
| ParserProperties.AlignedSkipsExternalDocs | parser/openapi.py:179-207 | no link targets `Endpoint/externalDocs` |
| ParserProperties.NodeIdentityPrefix | parser/openapi.py:165 | every schema and property identity starts with `Endpoint/Schemas/` |
| ParserProperties.NodeIdentityNotFixed | parser/openapi.py:126-173 | no schema or property identity equals `Endpoint`, `Endpoint/Info` or `Endpoint/externalDocs` |
| ParserProperties.SameIdentity | parser/openapi.py:165-173 | for slash-free schema names, equal identities mean the same schema, the same kind of object and the same property |
| ParserProperties.DifferentIdentity | parser/openapi.py:165-173 | for slash-free schema names, different schemas, kinds or properties give different identities |
| ParserProperties.SchemaNodesDistinct | parser/openapi.py:161-173 | with distinct slash-free schema names and distinct property names, the traversal's identities are pairwise distinct |
| ParserProperties.IdentitiesUnique | parser/openapi.py:123-177 | for such names, every object row has an identity and no two object rows share one |
| ParserProperties.SlashedSchemaNameClashes | parser/openapi.py:165-173 | the schema `A/x` and the property `x` of schema `A` get the same identity, so uniqueness needs slash-free names |
| ParserProperties.InfoDescriptionOutcome | parser/openapi.py:132-134 | a missing, boolean or numeric description raises (no length); a non-empty list or object raises (no replace); empty ones pass unchanged; text has each newline replaced by `\n`, keeps no newline and grows by one character per newline |
| ParserProperties.InfoRowDescription | parser/openapi.py:136-147 | the escaped description is stored both in `core.description` and in the infodescription attribute |
| ParserProperties.FixedRowIdentities | parser/openapi.py:138-153 | the Info row's identity is `Endpoint/Info` and the externalDocs row's is `Endpoint/externalDocs` |
| ParserProperties.EndpointRowIdentity | parser/openapi.py:123-129 | the Endpoint row's identity is `Endpoint` |
| ParserProperties.SchemaNodesFail | parser/openapi.py:161-169 | the schema walk succeeds exactly when every schema value is an object with a `properties` object |
| ParserProperties.ConversionAborts | parser/openapi.py:132-202 | a missing `info.description` aborts the objects with the no-length error; missing `components.schemas` aborts both tables; a schema without a usable `properties` aborts both |
| ParserProperties.HeaderHoldsRowColumns | parser/openapi.py:20-29 | every column a row builder sets is a header column |
| ParserProperties.ObjectRowsFitHeader | parser/openapi.py:59-65 | every emitted object row has exactly the header's columns, as the DictWriter requires |
| Model.ClassTagsInPackage | model/model.py:8-13 | the five class tags are the package name followed by a `.` suffix, and are distinct |
| Model.AttributeNamespaces | model/model.py:16-32 | the nine package attributes carry the package prefix, the six inherited ones the `com.infa.ldm.relational.` namespace, and all 15 are distinct |
| Model.PackageAttributesDistinct | model/model.py:16-24 | the nine package attributes are pairwise distinct |
| Model.InheritedAttributesDistinct | model/model.py:27-32 | the six inherited attributes are pairwise distinct |
| Model.AssociationNamespaces | model/model.py:35-43 | the seven association tags are distinct; ResourceParentChild and the three lineage tags are in `core.`, the other three are package-prefixed |
| Model.AttributeFieldValues | parser/openapi.py:27-29 | every value collected from the fields comes from a field whose name starts with `_attr_` |
| Model.AttributeFieldsAreAttributes | model/model.py:8-43 | the `_attr_` fields of the model give exactly the 15 attribute keys, in declaration order |
| Model.ClassFieldsAreNotAttributes | model/model.py:8-13 | no class field is collected into the header |
| Model.AssociationFieldsAreNotAttributes | model/model.py:35-43 | no association field is collected into the header |
| Model.AttributeFieldValuesAppend | parser/openapi.py:27-29 | collecting over two runs of fields is collecting over each in turn |
| Text.ReplaceIsJoinOfSplit | parser/preprocessing.py:11-12 | replacing every match is splitting on the pattern and joining with the replacement |
| Text.SplitJoinRoundTrip | parser/openapi.py:33 | joining the pieces of a split with the separator gives the text back |
| Text.SplitPieceCount | parser/openapi.py:33 | a split has one piece more than there are separator matches |
| Text.ReplaceLength | parser/preprocessing.py:11-12 | each match replaced changes the length by the difference between replacement and pattern |
| Text.CountPositiveIffContains | parser/preprocessing.py:11-12 | there is a match exactly when the text contains the pattern |
| Text.ReplaceWithoutMatch | parser/preprocessing.py:11-12 | text without a match is returned unchanged |
| Text.ReplaceRemovesChar | parser/openapi.py:134 | replacing a character by text without it leaves none of it |
| Preprocessing.FixLength | parser/preprocessing.py:11-12 | the fixed text is 2 characters shorter per spaced null and 1 per tight null found after the first pass |
| Preprocessing.FixUnchangedIff | parser/preprocessing.py:11-12 | the fix changes the text exactly when it contains a null description in either spelling |
| Preprocessing.FixExample | parser/preprocessing.py:11-12 | the two one-member objects `{"description": null}` and `{"description":null}` both become `{"description": ""}` |
| Preprocessing.BasenameShape | parser/preprocessing.py:14 | the base name is a slash-free suffix of the path that is the whole path or follows a `/` |
| Preprocessing.BasenameOf | parser/preprocessing.py:14 | the slash-free part after the last `/` is the base name |
| Preprocessing.ProcessedName | parser/preprocessing.py:14 | the processed copy lies in the processing directory and is named `processed_` plus the file's base name |
| Preprocessing.Preprocessor.constructor | parser/preprocessing.py:4-6 | the preprocessor keeps the file path and the processing directory |
| Preprocessing.Preprocessor.Fix | parser/preprocessing.py:8-19 | the processed text is the two chained replacements, unchanged when neither null spelling occurs, and the returned path is the processed copy's path |
| Driver.JoinedName | main.py:54-55 | joining a slash-free name to a directory ends with that name, directly or after one added `/` |
| Driver.JoinedApart | main.py:54-57 | distinct slash-free names join to distinct paths in the same directory |
| Driver.OutputPathsApart | main.py:54-58 | renamed tables of different files never collide, an objects table never collides with a links table, and neither collides with `objects.csv` or `links.csv` |
| Driver.SelectedEntries | main.py:30-52 | the processed files are exactly the listed regular `.json` files; the converted ones exactly those whose tables convert; neither list grows beyond the listing |
| Driver.Execute | main.py:12-62 | without the output directory nothing happens; otherwise one processed copy per spec file in listing order, at the processed path and holding the fixed text of the file, and one renamed pair of tables per file that converts, holding that file's object and link rows; failing files are skipped |
| Driver.ClearAsWritten | main.py:25-28 | one directory of the cleanup as written fails exactly when it holds two or more files and a subdirectory, after removing two files and every subdirectory; otherwise it removes its files, and its subdirectories when it has a file |
| Driver.ClearAsWrittenFailsOnSubdirectory | main.py:24-28 | two files and one subdirectory make the cleanup raise |
| Driver.WalkAsWritten | main.py:24-28 | the top-down walk of the cleanup as written raises exactly when it reaches a directory with two files and a subdirectory: the top one, or one below directories that hold no file, since only those keep their subdirectories for the walk to enter |
| Driver.WalkAsWrittenFailsBelow | main.py:24-28 | with no file at the top, a subdirectory holding two files and a subdirectory of its own makes the walk raise |
| Driver.Clear | parser/openapi.py:46-50 | removing every file, then every subdirectory, removes all of them |
| Driver.ExecuteAsWritten | main.py:12-112 | as written, `execute` returns at once without the output directory; otherwise it raises FileNotFoundError exactly when the cleanup walk fails, else TypeError at the constructor call after `fix()` has written the processed copy of the first spec file, else (no spec file) UnboundLocalError at main.py:112 |
| Driver.AsWrittenNeverFinishes | main.py:12-112 | as written, `execute` on an existing output directory always ends in an exception |
| Driver.DropHeadersKeeps | main.py:79-81 | the merge keeps exactly the lines that do not start with the header |
| Driver.MergeLinesSnoc | main.py:74-81 | one more line is appended unless it starts with the first line |
| Driver.MergeFiles | main.py:68-86 | the merge loop over the per-file tables writes the first line, then every later line that does not start with it, in file order and then line order |
| Driver.MergeFile | main.py:73-83 | merging one more file keeps the header state and the output in step with all lines read so far |
| Driver.MergeStep | main.py:74-81 | one line of the loop keeps the header state and the output in step with the lines read |
| Driver.MergedHeaderOnce | main.py:72-81 | the merge is empty exactly when there are no lines; it starts with the first line, no later line starts with it, and every other later line is kept |
| Driver.DropNothing | main.py:79-81 | when no line starts with the header, nothing is dropped |
| Driver.MergeIdempotent | main.py:68-86 | merging an already merged table changes nothing |

## Left out

- File-system effects are not modelled: the temporary table names with random suffixes, `os.rename`, `os.unlink`, `shutil.rmtree`, and file reads and writes. Existence checks become boolean parameters (`outputExists`, `objectsCsvExists`, `linksCsvExists`). The text of an input file and the document its processed copy parses to are fields of `Driver.DirEntry`.
- JSON parsing of the processed copy is not modelled. Numbers are integers: property `example` values are copied unread, so floating point plays no part.
- `csv.DictWriter` rendering of rows into lines is not modelled. `Driver.Execute` returns the rows of every renamed table, and `Driver.MergeFiles` merges tables given as lines, so the step from rows to lines lies between the two. The object merge and the link merge are two calls of `Driver.MergeFiles`, each starting with no header.
- `zip_metadata` (parser/openapi.py:103-121) and its call at main.py:112 only archive files.
- The `force=True` branch of `convert_objects` (parser/openapi.py:42-50) is not modelled as a conversion, because `execute` always passes `False`. Its removal order is the one `Driver.Clear` follows.
- Directory existence assertions (parser/openapi.py:38, 73) are not modelled: `execute` has already returned when the output directory is missing.
- Driver.Clear models the top level of the corrected walk only: removing a subdirectory removes everything below it, and the walk skips what is gone.
- Driver.ClearAsWritten models one directory of the walk; Driver.WalkAsWritten models the whole walk but reports only whether it raises, not which files and subdirectories remain.
- Driver.ExecuteAsWritten stops at the exception that ends `execute`; with no spec file the merges it passes find no tables and are not modelled.
- Documents are assumed to hold distinct keys in each object, as a parsed Python dict does. `Documents.Lookup` returns the first member with a key, while Python's `json` keeps the last value of a repeated key; the two agree on distinct keys.
- Driver.Execute builds the parser from the processed file's document and the output directory, as parser/openapi.py:9 expects, not with the four arguments main.py:40 passes (see Findings).
- Driver.Execute empties the output directory with `Driver.Clear`, not the nested loop of main.py:24-28 (see Findings).
- ParserProperties.IdentitiesUnique requires schema names without `/` and distinct member names (`WellNamed`). The code does not check this; `ParserProperties.SlashedSchemaNameClashes` shows the collision otherwise.
- Preprocessing.FixUnchangedIff and Preprocessing.FixLength say nothing about nulls that survive the fix. One pass can create a new match next to a replacement, so no such claim holds.
- Logging, command-line parsing and the `__main__` block of main.py are not modelled.
- Python's `str.replace` and `str.split` are modelled by one left-to-right, non-overlapping scan over characters, with no Unicode handling.

## Findings

| source | as written | input that shows it | evidently intended | confidence | as-written member | corrected member |
|---|---|---|---|---|---|---|
| main.py:24-28 | the subdirectory loop is nested inside the file loop, so every file removes every subdirectory again | an output directory holding two files and one subdirectory: the second file's pass removes the already removed subdirectory and `shutil.rmtree` raises; likewise one level down below a top level without files | remove every file, then every subdirectory, as parser/openapi.py:46-50 does | not executed | Driver.ClearAsWrittenFailsOnSubdirectory, Driver.WalkAsWrittenFailsBelow | Driver.Clear |
| main.py:40 | the parser is built with four arguments (file name, processed path, output directory, debug flag), but its constructor (parser/openapi.py:9) takes a document and a directory; with no spec file, `parser` at main.py:112 was never assigned | any input directory with a regular `.json` file raises TypeError; one without raises UnboundLocalError | build the parser from the processed document and the output directory, then convert each spec file and skip those that fail | not executed | Driver.ExecuteAsWritten, Driver.AsWrittenNeverFinishes | Driver.Execute |
