/**
 * The text fix applied to an API-description file before it is parsed
 * (parser/preprocessing.py): a `null` description becomes the empty
 * string, and the result is written next to the outputs as
 * `processed_<file name>`.
 */
module Preprocessing {
  import opened Text

  const NullSpaced: string := "\"description\": null"
  const NullTight: string := "\"description\":null"
  const EmptyDescription: string := "\"description\": \"\""

  /** Both replacements, the spaced spelling first. */
  function FixText(text: string): string
  {
    ReplaceAll(ReplaceAll(text, NullSpaced, EmptyDescription), NullTight, EmptyDescription)
  }

  /** `os.path.basename`: what follows the last `/`. */
  function Basename(path: string): string
    decreases |path|
  {
    if path == [] || path[|path| - 1] == '/' then []
    else Basename(path[..|path| - 1]) + [path[|path| - 1]]
  }

  /** The base name is a `/`-free suffix of the path that is the whole path or follows a `/`. */
  lemma {:induction false} BasenameShape(path: string)
    ensures |Basename(path)| <= |path| && path[|path| - |Basename(path)|..] == Basename(path)
    ensures '/' !in Basename(path)
    ensures |Basename(path)| < |path| ==> path[|path| - |Basename(path)| - 1] == '/'
    decreases |path|
  {
    if path != [] && path[|path| - 1] != '/' {
      var front, last := path[..|path| - 1], path[|path| - 1];
      BasenameShape(front);
      var b := Basename(front);
      assert Basename(path) == b + [last];
      assert path == front + [last];
      assert path[|path| - |b| - 1..] == front[|front| - |b|..] + [last];
      assert '/' !in b + [last];
      if |b| + 1 < |path| {
        assert path[|path| - |b| - 2] == front[|front| - |b| - 1];
      }
    }
  }

  /** The path of the processed copy in the processing directory. */
  function ProcessedPath(dir: string, filePath: string): string
  {
    dir + "/processed_" + Basename(filePath)
  }

  /** The base name is the only `/`-free suffix that starts the path or follows a `/`. */
  lemma {:induction false} BasenameOf(prefix: string, name: string)
    requires '/' !in name
    requires prefix == [] || prefix[|prefix| - 1] == '/'
    ensures Basename(prefix + name) == name
    decreases |name|
  {
    var p := prefix + name;
    if name == [] {
      assert p == prefix;
    } else {
      var last := name[|name| - 1];
      var front := name[..|name| - 1];
      assert last != '/';
      assert p[|p| - 1] == last;
      assert p[..|p| - 1] == prefix + front;
      BasenameOf(prefix, front);
      assert Basename(p) == Basename(prefix + front) + [last];
      assert front + [last] == name;
    }
  }

  /** The processed copy keeps the file's base name behind `processed_`, inside the processing directory. */
  lemma ProcessedName(dir: string, filePath: string)
    ensures Basename(ProcessedPath(dir, filePath)) == "processed_" + Basename(filePath)
    ensures StartsWith(ProcessedPath(dir, filePath), dir + "/")
  {
    var prefix := dir + "/";
    var base := Basename(filePath);
    BasenameShape(filePath);
    var name := "processed_" + base;
    assert '/' !in "processed_";
    assert '/' !in name by {
      assert forall k :: 0 <= k < |name| ==> name[k] == if k < 10 then "processed_"[k] else base[k - 10];
    }
    assert prefix[|prefix| - 1] == '/';
    assert ProcessedPath(dir, filePath) == prefix + name;
    BasenameOf(prefix, name);
    assert (prefix + name)[..|prefix|] == prefix;
  }

  /** Each spaced null trades 19 characters for 17, each tight null 18 for 17. */
  lemma FixLength(text: string)
    ensures var spaced := ReplaceAll(text, NullSpaced, EmptyDescription);
      |FixText(text)| == |text| - 2 * CountMatches(text, NullSpaced) - CountMatches(spaced, NullTight)
  {
    var spaced := ReplaceAll(text, NullSpaced, EmptyDescription);
    var c1, c2 := CountMatches(text, NullSpaced), CountMatches(spaced, NullTight);
    assert |NullSpaced| == 19 && |NullTight| == 18 && |EmptyDescription| == 17;
    ReplaceLength(text, NullSpaced, EmptyDescription);
    assert |spaced| + c1 * 19 == |text| + c1 * 17;
    ReplaceLength(spaced, NullTight, EmptyDescription);
    assert |FixText(text)| + c2 * 18 == |spaced| + c2 * 17;
  }

  /** The fix changes the text exactly when it holds a null description in either spelling. */
  lemma FixUnchangedIff(text: string)
    ensures FixText(text) == text <==> !Contains(text, NullSpaced) && !Contains(text, NullTight)
  {
    var spaced := ReplaceAll(text, NullSpaced, EmptyDescription);
    FixLength(text);
    CountPositiveIffContains(text, NullSpaced);
    if !Contains(text, NullSpaced) {
      ReplaceWithoutMatch(text, NullSpaced, EmptyDescription);
      CountPositiveIffContains(text, NullTight);
      if !Contains(text, NullTight) {
        ReplaceWithoutMatch(text, NullTight, EmptyDescription);
      }
    }
  }

  /** A null description in an object becomes the empty string, in either spelling. */
  lemma FixExample()
    ensures FixText("{" + NullSpaced + "}") == "{" + EmptyDescription + "}"
    ensures FixText("{" + NullTight + "}") == "{" + EmptyDescription + "}"
  {
    FixedObjectStaysFixed();
    SpacedNullReplaced();
    TightNullReplaced();
  }

  /** The object with an empty description holds no tight null. */
  lemma FixedObjectStaysFixed()
    ensures ReplaceAll("{" + EmptyDescription + "}", NullTight, EmptyDescription) == "{" + EmptyDescription + "}"
  {
    var fixed := "{" + EmptyDescription + "}";
    // the fixed object differs from a tight null at index 14 of its tail
    assert fixed[1..] == EmptyDescription + "}" && fixed[1..][14] == ' ' && NullTight[14] == 'n';
    assert ReplaceAll(fixed[2..], NullTight, EmptyDescription) == fixed[2..];
  }

  lemma SpacedNullReplaced()
    ensures ReplaceAll("{" + NullSpaced + "}", NullSpaced, EmptyDescription) == "{" + EmptyDescription + "}"
  {
    var spaced := "{" + NullSpaced + "}";
    assert spaced[1..] == NullSpaced + "}" && spaced[1..][|NullSpaced|..] == "}";
    assert ReplaceAll(spaced[1..], NullSpaced, EmptyDescription) == EmptyDescription + "}";
  }

  lemma TightNullReplaced()
    ensures ReplaceAll("{" + NullTight + "}", NullSpaced, EmptyDescription) == "{" + NullTight + "}"
    ensures ReplaceAll("{" + NullTight + "}", NullTight, EmptyDescription) == "{" + EmptyDescription + "}"
  {
    var tight := "{" + NullTight + "}";
    assert tight[1..] == NullTight + "}" && tight[1..][14] == 'n' && NullSpaced[14] == ' ';
    assert ReplaceAll(tight[2..], NullSpaced, EmptyDescription) == tight[2..];
    assert tight[1..][|NullTight|..] == "}";
    assert ReplaceAll(tight[1..], NullTight, EmptyDescription) == EmptyDescription + "}";
  }

  /** parser/preprocessing.py: the file to fix and the directory for its processed copy. */
  class Preprocessor {
    const filePath: string
    const processingDir: string

    constructor (filePath: string, processingDir: string)
      ensures this.filePath == filePath && this.processingDir == processingDir
    {
      this.filePath := filePath;
      this.processingDir := processingDir;
    }

    /**
     * `fix()`, given the file's text: the text written to the processed
     * copy, and the copy's path (which `fix` returns).
     */
    method Fix(content: string) returns (processed: string, processedPath: string)
      ensures processed == FixText(content)
      ensures !Contains(content, NullSpaced) && !Contains(content, NullTight) ==> processed == content
      ensures processedPath == ProcessedPath(processingDir, filePath)
      ensures Basename(processedPath) == "processed_" + Basename(filePath)
    {
      var d := ReplaceAll(content, NullSpaced, EmptyDescription);
      d := ReplaceAll(d, NullTight, EmptyDescription);
      processed := d;
      processedPath := processingDir + "/processed_" + Basename(filePath);
      FixUnchangedIff(content);
      ProcessedName(processingDir, filePath);
    }
  }
}
