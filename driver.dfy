/**
 * The batch driver `execute` of main.py: empty the output directory, fix
 * and convert every `.json` file of the input directory, rename each
 * converted pair of tables after its file, then merge the renamed tables
 * into one objects.csv and one links.csv.
 */
module Driver {
  import opened Results
  import opened Text
  import opened Documents
  import opened Model
  import opened Parser
  import opened ParserProperties
  import opened Preprocessing

  const ObjectsTable: string := "objects.csv"
  const LinksTable: string := "links.csv"

  /**
   * An entry of the input directory: its name, whether it is a regular
   * file, its text, and the document its processed copy parses to.
   */
  datatype DirEntry = DirEntry(name: string, isFile: bool, text: string, document: Json)

  /** `os.path.join(dir, name)` on POSIX. */
  function PathJoin(dir: string, name: string): string
  {
    if StartsWith(name, "/") then name
    else if dir == [] || dir[|dir| - 1] == '/' then dir + name
    else dir + "/" + name
  }

  /** A plain name joined to a directory is the base name of the result, which lies in that directory. */
  lemma JoinedName(dir: string, name: string)
    requires '/' !in name
    ensures Basename(PathJoin(dir, name)) == name
    ensures PathJoin(dir, name) == dir + name || PathJoin(dir, name) == dir + "/" + name
  {
    if |name| > 0 {
      assert name[..1][0] == name[0] != '/';
    }
    assert !StartsWith(name, "/");
    if dir == [] || dir[|dir| - 1] == '/' {
      BasenameOf(dir, name);
    } else {
      var slashed := dir + "/";
      assert slashed[|slashed| - 1] == '/';
      BasenameOf(slashed, name);
    }
  }

  function ObjectFilePath(output: string, name: string): string
  {
    PathJoin(output, "objects-" + name + ".csv")
  }

  function LinkFilePath(output: string, name: string): string
  {
    PathJoin(output, "links-" + name + ".csv")
  }

  /** Plain names joined to one directory give different paths when the names differ. */
  lemma JoinedApart(dir: string, a: string, b: string)
    requires '/' !in a && '/' !in b && a != b
    ensures PathJoin(dir, a) != PathJoin(dir, b)
  {
    JoinedName(dir, a);
    JoinedName(dir, b);
  }

  /** A table name built from a plain file name is plain and gives the file name back. */
  lemma TableName(prefix: string, n: string)
    requires '/' !in prefix && '/' !in n
    ensures '/' !in prefix + n + ".csv"
    ensures (prefix + n + ".csv")[|prefix|..|prefix| + |n|] == n
  {
    var t := prefix + n + ".csv";
    assert forall k :: 0 <= k < |t| ==> t[k] == if k < |prefix| then prefix[k] else if k < |prefix| + |n| then n[k - |prefix|] else ".csv"[k - |prefix| - |n|];
    assert '/' !in ".csv";
  }

  /** Different plain file names give different table names. */
  lemma TableNameInjective(prefix: string, a: string, b: string)
    ensures prefix + a + ".csv" == prefix + b + ".csv" ==> a == b
  {
    var ta, tb := prefix + a + ".csv", prefix + b + ".csv";
    if ta == tb {
      assert |a| == |ta| - |prefix| - 4 == |b|;
      assert ta[|prefix|..|prefix| + |a|] == a;
      assert tb[|prefix|..|prefix| + |b|] == b;
    }
  }

  /**
   * For plain file names, each renamed table has its own path: different
   * files give different paths, object and link tables never share one, and
   * no renamed table lands on the merged objects.csv or links.csv.
   */
  lemma OutputPathsApart(output: string, n1: string, n2: string)
    requires '/' !in n1 && '/' !in n2
    ensures ObjectFilePath(output, n1) == ObjectFilePath(output, n2) ==> n1 == n2
    ensures LinkFilePath(output, n1) == LinkFilePath(output, n2) ==> n1 == n2
    ensures ObjectFilePath(output, n1) != LinkFilePath(output, n2)
    ensures ObjectFilePath(output, n1) != PathJoin(output, ObjectsTable)
    ensures LinkFilePath(output, n1) != PathJoin(output, LinksTable)
  {
    var o1, o2 := "objects-" + n1 + ".csv", "objects-" + n2 + ".csv";
    var l1, l2 := "links-" + n1 + ".csv", "links-" + n2 + ".csv";
    assert |"objects-"| == 8 && |"links-"| == 6;
    assert '/' !in "objects-" && '/' !in "links-";
    TableName("objects-", n1);
    TableName("objects-", n2);
    TableName("links-", n1);
    TableName("links-", n2);
    if n1 != n2 {
      TableNameInjective("objects-", n1, n2);
      JoinedApart(output, o1, o2);
      TableNameInjective("links-", n1, n2);
      JoinedApart(output, l1, l2);
    }
    assert o1[0] == 'o' && l2[0] == 'l';
    JoinedApart(output, o1, l2);
    assert o1[7] == '-' && ObjectsTable[7] == '.';
    JoinedApart(output, o1, ObjectsTable);
    assert l1[5] == '-' && LinksTable[5] == '.';
    JoinedApart(output, l1, LinksTable);
  }

  // ---------------------------------------------------------------------
  // Which input files are processed and converted

  /** `os.path.isfile(...)` and `spec_json.endswith(".json")` */
  predicate IsSpecFile(e: DirEntry)
  {
    e.isFile && EndsWith(e.name, ".json")
  }

  /** A spec file whose objects convert, and whose links then convert too. */
  predicate Converts(e: DirEntry)
  {
    IsSpecFile(e) && ObjectRows(HeaderColumns, e.document).Ok?
  }

  /** The spec files, in listing order. */
  function SpecEntries(es: seq<DirEntry>): seq<DirEntry>
    decreases |es|
  {
    if es == [] then []
    else
      var front, last := es[..|es| - 1], es[|es| - 1];
      SpecEntries(front) + (if IsSpecFile(last) then [last] else [])
  }

  /** The spec files that convert, in listing order. */
  function Converted(es: seq<DirEntry>): seq<DirEntry>
    decreases |es|
  {
    if es == [] then []
    else
      var front, last := es[..|es| - 1], es[|es| - 1];
      Converted(front) + (if Converts(last) then [last] else [])
  }

  /**
   * The spec files are exactly the listed regular `.json` files, and the
   * converted ones exactly those spec files whose tables convert.
   */
  lemma {:induction false} SelectedEntries(es: seq<DirEntry>)
    ensures |Converted(es)| <= |SpecEntries(es)| <= |es|
    ensures forall e :: e in SpecEntries(es) <==> e in es && IsSpecFile(e)
    ensures forall e :: e in Converted(es) <==> e in es && Converts(e)
    decreases |es|
  {
    if es != [] {
      var front, last := es[..|es| - 1], es[|es| - 1];
      assert es == front + [last];
      SelectedEntries(front);
    }
  }

  /** The processed copies `fix` writes, path and text, one per spec file. */
  predicate ProcessedFor(processed: seq<(string, string)>, input: string, output: string, specs: seq<DirEntry>)
  {
    |processed| == |specs| &&
    forall k :: 0 <= k < |specs| ==>
      processed[k] == (ProcessedPath(output, PathJoin(input, specs[k].name)), FixText(specs[k].text))
  }

  /** The renamed tables and what they hold, one pair per converted file. */
  predicate TablesFor(output: string, objectFiles: seq<string>, linkFiles: seq<string>,
                      objectTables: seq<seq<Row>>, linkTables: seq<seq<Link>>, done: seq<DirEntry>)
  {
    && |objectFiles| == |done| && |linkFiles| == |done|
    && |objectTables| == |done| && |linkTables| == |done|
    && forall k :: 0 <= k < |done| ==>
         && objectFiles[k] == ObjectFilePath(output, done[k].name)
         && linkFiles[k] == LinkFilePath(output, done[k].name)
         && ObjectRows(HeaderColumns, done[k].document) == Ok(objectTables[k])
         && LinkRows(done[k].document) == Ok(linkTables[k])
  }

  lemma EntriesSnoc(entries: seq<DirEntry>, i: nat)
    requires i < |entries|
    ensures SpecEntries(entries[..i + 1]) ==
              SpecEntries(entries[..i]) + (if IsSpecFile(entries[i]) then [entries[i]] else [])
    ensures Converted(entries[..i + 1]) ==
              Converted(entries[..i]) + (if Converts(entries[i]) then [entries[i]] else [])
  {
    assert entries[..i + 1][..i] == entries[..i] && entries[..i + 1][i] == entries[i];
  }

  lemma ProcessedForSnoc(processed: seq<(string, string)>, input: string, output: string, specs: seq<DirEntry>, e: DirEntry)
    requires ProcessedFor(processed, input, output, specs)
    ensures ProcessedFor(processed + [(ProcessedPath(output, PathJoin(input, e.name)), FixText(e.text))],
                         input, output, specs + [e])
  {
  }

  lemma TablesForSnoc(output: string, objectFiles: seq<string>, linkFiles: seq<string>,
                      objectTables: seq<seq<Row>>, linkTables: seq<seq<Link>>, done: seq<DirEntry>,
                      e: DirEntry, objects: seq<Row>, links: seq<Link>)
    requires TablesFor(output, objectFiles, linkFiles, objectTables, linkTables, done)
    requires ObjectRows(HeaderColumns, e.document) == Ok(objects) && LinkRows(e.document) == Ok(links)
    ensures TablesFor(output, objectFiles + [ObjectFilePath(output, e.name)], linkFiles + [LinkFilePath(output, e.name)],
                      objectTables + [objects], linkTables + [links], done + [e])
  {
    var done' := done + [e];
    var objectFiles', linkFiles' := objectFiles + [ObjectFilePath(output, e.name)], linkFiles + [LinkFilePath(output, e.name)];
    var objectTables', linkTables' := objectTables + [objects], linkTables + [links];
    forall k | 0 <= k < |done'|
      ensures && objectFiles'[k] == ObjectFilePath(output, done'[k].name)
              && linkFiles'[k] == LinkFilePath(output, done'[k].name)
              && ObjectRows(HeaderColumns, done'[k].document) == Ok(objectTables'[k])
              && LinkRows(done'[k].document) == Ok(linkTables'[k])
    {
      if k < |done| {
        assert done'[k] == done[k] && objectFiles'[k] == objectFiles[k] && linkFiles'[k] == linkFiles[k];
        assert objectTables'[k] == objectTables[k] && linkTables'[k] == linkTables[k];
      } else {
        assert done'[k] == e && objectTables'[k] == objects && linkTables'[k] == links;
      }
    }
  }

  // ---------------------------------------------------------------------
  // Emptying the output directory

  /** One level of `os.walk(output)`: the files and the subdirectories directly under it. */
  datatype Level = Level(files: seq<string>, dirs: seq<string>)

  /**
   * The cleanup loop of main.py as written: the subdirectory loop sits
   * inside the file loop, so every file removes every subdirectory again,
   * and `shutil.rmtree` of a directory already removed raises.
   */
  method ClearAsWritten(level: Level) returns (removedFiles: set<string>, removedDirs: set<string>, failed: bool)
    requires Distinct(level.dirs)
    ensures failed <==> |level.files| >= 2 && |level.dirs| >= 1
    ensures failed ==> removedFiles == {level.files[0], level.files[1]} && removedDirs == set d | d in level.dirs
    ensures !failed ==> removedFiles == (set f | f in level.files)
    ensures !failed ==> removedDirs == if |level.files| == 0 then {} else set d | d in level.dirs
  {
    removedFiles, removedDirs, failed := {}, {}, false;
    var i := 0;
    while i < |level.files|
      invariant 0 <= i <= |level.files|
      invariant removedFiles == set k | 0 <= k < i :: level.files[k]
      invariant removedDirs == if i == 0 then {} else set d | d in level.dirs
      invariant i >= 2 ==> |level.dirs| == 0
    {
      removedFiles := removedFiles + {level.files[i]};
      var j := 0;
      while j < |level.dirs|
        invariant 0 <= j <= |level.dirs|
        invariant removedDirs == if i == 0 then (set k | 0 <= k < j :: level.dirs[k]) else set d | d in level.dirs
        invariant i >= 1 ==> j == 0
      {
        if level.dirs[j] in removedDirs {
          assert i == 1 && removedFiles == {level.files[0], level.files[1]};
          failed := true;
          return;
        }
        removedDirs := removedDirs + {level.dirs[j]};
        j := j + 1;
      }
      assert i == 0 ==> removedDirs == set d | d in level.dirs;
      i := i + 1;
    }
    assert removedFiles == set f | f in level.files;
  }

  /**
   * The cleanup as the force branch of `convert_objects` writes it: remove
   * every file, then every subdirectory. The directory ends up empty.
   */
  method Clear(level: Level) returns (removedFiles: set<string>, removedDirs: set<string>)
    requires Distinct(level.dirs)
    ensures removedFiles == set f | f in level.files
    ensures removedDirs == set d | d in level.dirs
  {
    removedFiles, removedDirs := {}, {};
    var i := 0;
    while i < |level.files|
      invariant 0 <= i <= |level.files|
      invariant removedFiles == set k | 0 <= k < i :: level.files[k]
    {
      removedFiles := removedFiles + {level.files[i]};
      i := i + 1;
    }
    var j := 0;
    while j < |level.dirs|
      invariant 0 <= j <= |level.dirs|
      invariant removedDirs == set k | 0 <= k < j :: level.dirs[k]
    {
      removedDirs := removedDirs + {level.dirs[j]};
      j := j + 1;
    }
    assert removedFiles == set f | f in level.files;
    assert removedDirs == set d | d in level.dirs;
  }

  /** Two files and one subdirectory already make the cleanup as written raise. */
  method ClearAsWrittenFailsOnSubdirectory() returns (failed: bool)
    ensures failed
  {
    var removedFiles, removedDirs;
    removedFiles, removedDirs, failed := ClearAsWritten(Level(["a.csv", "b.csv"], ["d"]));
  }

  // ---------------------------------------------------------------------
  // The whole walk of the cleanup as written

  /** A directory: its files, and its subdirectories with their names. */
  datatype Tree = Tree(files: seq<string>, dirs: seq<SubTree>)
  datatype SubTree = SubTree(name: string, tree: Tree)

  function DirNames(dirs: seq<SubTree>): seq<string>
  {
    seq(|dirs|, k requires 0 <= k < |dirs| => dirs[k].name)
  }

  /** What `os.walk` yields for the directory itself. */
  function TopLevel(t: Tree): Level
  {
    Level(t.files, DirNames(t.dirs))
  }

  /** In every directory of the tree the subdirectory names are distinct, as in a file system. */
  predicate DistinctTree(t: Tree)
    decreases t
  {
    && Distinct(DirNames(t.dirs))
    && forall k :: 0 <= k < |t.dirs| ==> DistinctTree(t.dirs[k].tree)
  }

  /**
   * Where the cleanup as written raises: in a directory with two files and
   * a subdirectory, or below a directory without files, since such a
   * directory keeps its subdirectories and the walk goes on into them.
   */
  predicate CleanupFails(t: Tree)
    decreases t
  {
    || (|t.files| >= 2 && |t.dirs| >= 1)
    || (|t.files| == 0 && exists k :: 0 <= k < |t.dirs| && CleanupFails(t.dirs[k].tree))
  }

  /**
   * The top-down `os.walk` of the cleanup as written. A directory with a
   * file loses every subdirectory on that file's pass, and the walk skips
   * the directories that are gone; a directory without files keeps its
   * subdirectories, and the walk visits each in turn.
   */
  method WalkAsWritten(t: Tree) returns (failed: bool)
    requires DistinctTree(t)
    ensures failed <==> CleanupFails(t)
    decreases t
  {
    var removedFiles, removedDirs;
    removedFiles, removedDirs, failed := ClearAsWritten(TopLevel(t));
    if failed || |t.files| > 0 {
      return;
    }
    var k := 0;
    while k < |t.dirs|
      invariant 0 <= k <= |t.dirs|
      invariant !failed
      invariant forall m :: 0 <= m < k ==> !CleanupFails(t.dirs[m].tree)
    {
      failed := WalkAsWritten(t.dirs[k].tree);
      if failed {
        return;
      }
      k := k + 1;
    }
  }

  /**
   * With no file at the top, a subdirectory holding two files and a
   * subdirectory of its own makes the walk raise one level down.
   */
  method WalkAsWrittenFailsBelow() returns (failed: bool)
    ensures failed
  {
    var inner := Tree(["a.csv", "b.csv"], [SubTree("e", Tree([], []))]);
    var top := Tree([], [SubTree("d", inner)]);
    assert DirNames(inner.dirs) == ["e"] && DirNames(top.dirs) == ["d"];
    assert DistinctTree(inner.dirs[0].tree);
    failed := WalkAsWritten(top);
    assert CleanupFails(top.dirs[0].tree);
  }

  // ---------------------------------------------------------------------
  // `execute` as written

  datatype PyError = FileNotFoundError | TypeError | UnboundLocalError
  datatype Ending = Returned | Raised(error: PyError)

  lemma {:induction false} SpecEntriesAppend(a: seq<DirEntry>, b: seq<DirEntry>)
    ensures SpecEntries(a + b) == SpecEntries(a) + SpecEntries(b)
    decreases |b|
  {
    if b == [] {
      assert a + b == a;
    } else {
      var front, last := b[..|b| - 1], b[|b| - 1];
      assert (a + b)[..|a + b| - 1] == a + front && (a + b)[|a + b| - 1] == last;
      SpecEntriesAppend(a, front);
    }
  }

  /** The first spec file is the first listed entry that is one. */
  lemma FirstSpecEntry(entries: seq<DirEntry>, i: nat)
    requires i < |entries| && SpecEntries(entries[..i]) == [] && IsSpecFile(entries[i])
    ensures SpecEntries(entries) != [] && SpecEntries(entries)[0] == entries[i]
  {
    EntriesSnoc(entries, i);
    assert entries == entries[..i + 1] + entries[i + 1..];
    SpecEntriesAppend(entries[..i + 1], entries[i + 1..]);
  }

  /**
   * `execute` as written, up to the exception that ends it. The cleanup
   * walk runs first; then, in the input loop, `fix()` writes the processed
   * copy of the first spec file before the parser is built with four
   * arguments for a two-parameter constructor (main.py:40), which raises.
   * With no spec file the merges find no tables, and main.py:112 reads
   * `parser`, a local never assigned. Returns the ending and the processed
   * copies written, path and text.
   */
  method ExecuteAsWritten(outputExists: bool, input: string, output: string, tree: Tree, entries: seq<DirEntry>)
    returns (ending: Ending, written: seq<(string, string)>)
    requires DistinctTree(tree)
    ensures !outputExists ==> ending == Returned && written == []
    ensures outputExists && CleanupFails(tree) ==> ending == Raised(FileNotFoundError) && written == []
    ensures outputExists && !CleanupFails(tree) && SpecEntries(entries) != [] ==>
              && ending == Raised(TypeError)
              && written == [(ProcessedPath(output, PathJoin(input, SpecEntries(entries)[0].name)),
                              FixText(SpecEntries(entries)[0].text))]
    ensures outputExists && !CleanupFails(tree) && SpecEntries(entries) == [] ==>
              ending == Raised(UnboundLocalError) && written == []
  {
    written := [];
    if !outputExists {
      return Returned, written;
    }
    var failed := WalkAsWritten(tree);
    if failed {
      return Raised(FileNotFoundError), written;
    }
    var i := 0;
    while i < |entries|
      invariant 0 <= i <= |entries|
      invariant SpecEntries(entries[..i]) == []
    {
      var e := entries[i];
      EntriesSnoc(entries, i);
      if e.isFile && EndsWith(e.name, ".json") {
        var processor := new Preprocessor(PathJoin(input, e.name), output);
        var fixedText, processedPath := processor.Fix(e.text);
        written := written + [(processedPath, fixedText)];
        FirstSpecEntry(entries, i);
        return Raised(TypeError), written;
      }
      i := i + 1;
    }
    assert entries[..i] == entries;
    ending := Raised(UnboundLocalError);
  }

  /** As written, `execute` on an existing output directory never finishes normally. */
  method AsWrittenNeverFinishes(input: string, output: string, tree: Tree, entries: seq<DirEntry>) returns (ending: Ending)
    requires DistinctTree(tree)
    ensures ending.Raised?
  {
    var written;
    ending, written := ExecuteAsWritten(true, input, output, tree, entries);
  }

  // ---------------------------------------------------------------------
  // The driver

  /**
   * `execute`, with the parser built from the processed document and the
   * output directory emptied by `Clear`. Returns whether it ran, the
   * processed copies (path and text), the renamed tables and their rows.
   */
  method Execute(outputExists: bool, input: string, output: string, tree: Tree, entries: seq<DirEntry>)
    returns (ran: bool, processed: seq<(string, string)>, objectFiles: seq<string>, linkFiles: seq<string>,
             objectTables: seq<seq<Row>>, linkTables: seq<seq<Link>>)
    requires DistinctTree(tree)
    ensures ran == outputExists
    ensures !ran ==> processed == [] && objectFiles == [] && linkFiles == [] && objectTables == [] && linkTables == []
    ensures ran ==> ProcessedFor(processed, input, output, SpecEntries(entries))
    ensures ran ==> TablesFor(output, objectFiles, linkFiles, objectTables, linkTables, Converted(entries))
  {
    processed, objectFiles, linkFiles, objectTables, linkTables := [], [], [], [], [];
    if !outputExists {
      return false, processed, objectFiles, linkFiles, objectTables, linkTables;
    }
    ran := true;
    var level := TopLevel(tree);
    var removedFiles, removedDirs := Clear(level);
    var objectsCsvPresent := ObjectsTable in (set f | f in level.files) - removedFiles;
    var linksCsvPresent := LinksTable in (set f | f in level.files) - removedFiles;
    var i := 0;
    while i < |entries|
      invariant 0 <= i <= |entries|
      invariant !objectsCsvPresent && !linksCsvPresent
      invariant ProcessedFor(processed, input, output, SpecEntries(entries[..i]))
      invariant TablesFor(output, objectFiles, linkFiles, objectTables, linkTables, Converted(entries[..i]))
    {
      var e := entries[i];
      EntriesSnoc(entries, i);
      if e.isFile && EndsWith(e.name, ".json") {
        var processor := new Preprocessor(PathJoin(input, e.name), output);
        var fixedText, processedPath := processor.Fix(e.text);
        ProcessedForSnoc(processed, input, output, SpecEntries(entries[..i]), e);
        processed := processed + [(processedPath, fixedText)];
        var parser := new OpenAPIParser(e.document);
        var objects := parser.ConvertObjects(objectsCsvPresent);
        if objects.Ok? {
          objectsCsvPresent := true;
          ObjectsConvertThenLinksConvert(HeaderColumns, e.document);
          var links := parser.ConvertLinks(linksCsvPresent);
          match links {
            case Err(_) =>
              assert false;
            case Ok(linkRows) =>
              linksCsvPresent := true;
              // both tables are renamed after the spec file
              objectsCsvPresent, linksCsvPresent := false, false;
              TablesForSnoc(output, objectFiles, linkFiles, objectTables, linkTables, Converted(entries[..i]),
                            e, objects.value, linkRows);
              objectFiles := objectFiles + [ObjectFilePath(output, e.name)];
              linkFiles := linkFiles + [LinkFilePath(output, e.name)];
              objectTables := objectTables + [objects.value];
              linkTables := linkTables + [linkRows];
          }
        }
      }
      i := i + 1;
    }
    assert entries[..i] == entries;
  }

  // ---------------------------------------------------------------------
  // Merging the renamed tables

  /** The lines of the files, one file after the other. */
  function Flatten(files: seq<seq<string>>): seq<string>
    decreases |files|
  {
    if files == [] then [] else Flatten(files[..|files| - 1]) + files[|files| - 1]
  }

  /** The lines that do not start with the header, in order. */
  function DropHeaders(lines: seq<string>, header: string): seq<string>
    decreases |lines|
  {
    if lines == [] then []
    else
      var front, last := lines[..|lines| - 1], lines[|lines| - 1];
      DropHeaders(front, header) + (if StartsWith(last, header) then [] else [last])
  }

  /** Exactly the lines that do not start with the header are kept. */
  lemma {:induction false} DropHeadersKeeps(lines: seq<string>, header: string)
    ensures forall l :: l in DropHeaders(lines, header) <==> l in lines && !StartsWith(l, header)
    decreases |lines|
  {
    if lines != [] {
      var front, last := lines[..|lines| - 1], lines[|lines| - 1];
      assert lines == front + [last];
      DropHeadersKeeps(front, header);
    }
  }

  /** The merged table: the first line is the header; later lines starting with it are skipped. */
  function MergeLines(lines: seq<string>): seq<string>
  {
    if lines == [] then [] else [lines[0]] + DropHeaders(lines[1..], lines[0])
  }

  lemma MergeLinesSnoc(lines: seq<string>, x: string)
    ensures MergeLines(lines + [x]) ==
              if lines == [] then [x]
              else MergeLines(lines) + (if StartsWith(x, lines[0]) then [] else [x])
  {
    if lines != [] {
      var all := lines + [x];
      assert all[0] == lines[0];
      assert all[1..] == lines[1..] + [x];
      assert (lines[1..] + [x])[..|lines[1..] + [x]| - 1] == lines[1..];
    }
  }

  /**
   * The merge loop over the renamed tables: the first line read becomes the
   * header and is written; every later line is written unless it starts
   * with the header.
   */
  method MergeFiles(files: seq<seq<string>>) returns (merged: seq<string>)
    ensures merged == MergeLines(Flatten(files))
  {
    merged := [];
    var header := "";
    var headerSet := false;
    var i := 0;
    while i < |files|
      invariant 0 <= i <= |files|
      invariant MergedSoFar(Flatten(files[..i]), merged, header, headerSet)
    {
      merged, header, headerSet := MergeFile(Flatten(files[..i]), files[i], merged, header, headerSet);
      assert files[..i + 1][..i] == files[..i] && files[..i + 1][i] == files[i];
      i := i + 1;
    }
    assert files[..i] == files;
  }

  /**
   * One pass of the merge loop: the lines of one table, appended to what
   * the lines read so far have produced.
   */
  method MergeFile(read: seq<string>, file: seq<string>, merged0: seq<string>, header0: string, headerSet0: bool)
    returns (merged: seq<string>, header: string, headerSet: bool)
    requires MergedSoFar(read, merged0, header0, headerSet0)
    ensures MergedSoFar(read + file, merged, header, headerSet)
  {
    merged, header, headerSet := merged0, header0, headerSet0;
    ghost var seen := read;
    var j := 0;
    PrefixSnoc(read, file, 0);
    while j < |file|
      invariant 0 <= j <= |file|
      invariant seen == read + file[..j]
      invariant MergedSoFar(seen, merged, header, headerSet)
    {
      var line := file[j];
      MergeStep(seen, line, merged, header, headerSet);
      if !headerSet {
        header := line;
        headerSet := true;
        merged := merged + [line];
      } else if !StartsWith(line, header) {
        merged := merged + [line];
      }
      PrefixSnoc(read, file, j);
      seen := seen + [line];
      j := j + 1;
    }
    assert file[..j] == file;
  }

  /** The lines read so far grow by the next line of the file. */
  lemma PrefixSnoc(read: seq<string>, file: seq<string>, j: nat)
    requires j <= |file|
    ensures read + file[..0] == read
    ensures j < |file| ==> read + file[..j + 1] == (read + file[..j]) + [file[j]]
  {
    assert file[..0] == [];
    if j < |file| {
      assert file[..j + 1] == file[..j] + [file[j]];
    }
  }

  /** The merge loop's state after reading some lines: what it wrote and the header it holds. */
  predicate MergedSoFar(seen: seq<string>, merged: seq<string>, header: string, headerSet: bool)
  {
    && (headerSet <==> seen != [])
    && (headerSet ==> header == seen[0])
    && merged == MergeLines(seen)
  }

  /** Reading one more line keeps the merge loop's state. */
  lemma MergeStep(seen: seq<string>, line: string, merged: seq<string>, header: string, headerSet: bool)
    requires MergedSoFar(seen, merged, header, headerSet)
    ensures MergedSoFar(seen + [line],
                        if !headerSet || !StartsWith(line, header) then merged + [line] else merged,
                        if headerSet then header else line,
                        true)
  {
    MergeLinesSnoc(seen, line);
    if headerSet {
      assert (seen + [line])[0] == seen[0];
    }
  }

  /**
   * The merged table starts with the first line read, no later line starts
   * with it, and every later line that does not start with it is kept.
   */
  lemma MergedHeaderOnce(lines: seq<string>)
    ensures MergeLines(lines) == [] <==> lines == []
    ensures lines != [] ==> MergeLines(lines)[0] == lines[0]
    ensures lines != [] ==> forall k :: 1 <= k < |MergeLines(lines)| ==> !StartsWith(MergeLines(lines)[k], lines[0])
    ensures lines != [] ==> forall l :: l in lines[1..] && !StartsWith(l, lines[0]) ==> l in MergeLines(lines)
  {
    if lines != [] {
      var m := MergeLines(lines);
      DropHeadersKeeps(lines[1..], lines[0]);
      forall k | 1 <= k < |m| ensures !StartsWith(m[k], lines[0]) {
        assert m[k] == DropHeaders(lines[1..], lines[0])[k - 1];
        assert m[k] in DropHeaders(lines[1..], lines[0]);
      }
    }
  }

  /** Lines none of which starts with the header are all kept. */
  lemma {:induction false} DropNothing(lines: seq<string>, header: string)
    requires forall l :: l in lines ==> !StartsWith(l, header)
    ensures DropHeaders(lines, header) == lines
    decreases |lines|
  {
    if lines != [] {
      var front, last := lines[..|lines| - 1], lines[|lines| - 1];
      assert lines == front + [last];
      assert forall l :: l in front ==> l in lines;
      DropNothing(front, header);
      assert last in lines;
      assert DropHeaders(lines, header) == DropHeaders(front, header) + [last];
    }
  }

  /** Merging a merged table changes nothing. */
  lemma MergeIdempotent(lines: seq<string>)
    ensures MergeLines(MergeLines(lines)) == MergeLines(lines)
  {
    if lines != [] {
      var m := MergeLines(lines);
      MergedHeaderOnce(lines);
      assert m[1..] == DropHeaders(lines[1..], lines[0]);
      DropNothing(m[1..], m[0]);
    }
  }
}
