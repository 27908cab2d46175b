/** The conversion of Siril's space-separated `.dat` exports to comma-separated files: the
    names in the export directory that end in `.dat` are collected, with the directory in
    front, into a module-level list; then every file on that list loses its header row and is
    written back under its own name plus `.csv`. Files reach the model already split into rows
    of fields. */
module DatSeparation {
  import opened Wrappers

  const ExportDirectory: string := "lightcurves/auto_aperture/"
  const DatSuffix: string := ".dat"
  const CsvSuffix: string := ".csv"

  predicate EndsWith(s: string, suffix: string)
  {
    |suffix| <= |s| && s[|s| - |suffix|..] == suffix
  }

  /** The paths the directory listing contributes, in listing order. */
  function DatPaths(listing: seq<string>): (paths: seq<string>)
    ensures |paths| <= |listing|
  {
    if listing == [] then []
    else
      var name := listing[|listing| - 1];
      DatPaths(listing[..|listing| - 1]) + (if EndsWith(name, DatSuffix) then [ExportDirectory + name] else [])
  }

  /** Where `change_delimiter` writes a converted file. */
  function OutputPath(path: string): (out: string)
    ensures |out| == |path| + |CsvSuffix| && out[..|path|] == path && EndsWith(out, CsvSuffix)
  {
    path + CsvSuffix
  }

  /** How `change_delimiter` fails: the file does not exist, or `read_csv` finds no rows in it. */
  datatype ConvertError = MissingFile(path: string) | EmptyFile(path: string)

  /** `file_df.drop(index=0, axis=0)` on a table that `read_csv` produced. */
  function DropHeader(table: seq<seq<string>>): (r: Result<seq<seq<string>>, ()>)
    ensures r.Ok? <==> table != []
    ensures r.Ok? ==> [table[0]] + r.value == table
  {
    if table == [] then Err(()) else Ok(table[1..])
  }

  /** One pass of `main`'s loop: the output path and the rows written there. */
  function Convert(path: string, files: map<string, seq<seq<string>>>): Result<(string, seq<seq<string>>), ConvertError>
  {
    if path !in files then Err(MissingFile(path))
    else match DropHeader(files[path])
      case Err(_) => Err(EmptyFile(path))
      case Ok(rows) => Ok((OutputPath(path), rows))
  }

  /** `main`'s loop over the whole list, until the first file that raises. */
  function ConvertAll(paths: seq<string>, files: map<string, seq<seq<string>>>): (r: Result<seq<(string, seq<seq<string>>)>, ConvertError>)
    ensures r.Ok? ==> |r.value| == |paths|
  {
    if paths == [] then Ok([])
    else match ConvertAll(paths[..|paths| - 1], files)
      case Err(e) => Err(e)
      case Ok(done) =>
        match Convert(paths[|paths| - 1], files)
        case Err(e) => Err(e)
        case Ok(written) => Ok(done + [written])
  }

  /** The script's module state. */
  class TargetFiles {
    /** `TARGET_FILES`, empty when the module is loaded and never cleared. */
    var targetFiles: seq<string>

    constructor()
      ensures targetFiles == []
    {
      targetFiles := [];
    }

    /** `get_target_files`: append the `.dat` names of the listing, with the directory in front,
        after whatever the list already holds. */
    method GetTargetFiles(listing: seq<string>)
      modifies this
      ensures targetFiles == old(targetFiles) + DatPaths(listing)
    {
      var i := 0;
      while i < |listing|
        invariant 0 <= i <= |listing|
        invariant targetFiles == old(targetFiles) + DatPaths(listing[..i])
      {
        var file := listing[i];
        assert listing[..i + 1][..i] == listing[..i];
        if |DatSuffix| <= |file| && file[|file| - |DatSuffix|..] == DatSuffix {
          targetFiles := targetFiles + [ExportDirectory + file];
        }
        i := i + 1;
      }
      assert listing[..i] == listing;
    }

    /** `main`: collect the targets, then convert every file on the list, including those an
        earlier call put there. */
    method RunScript(listing: seq<string>, files: map<string, seq<seq<string>>>)
      returns (r: Result<seq<(string, seq<seq<string>>)>, ConvertError>)
      modifies this
      ensures targetFiles == old(targetFiles) + DatPaths(listing)
      ensures r == ConvertAll(targetFiles, files)
    {
      GetTargetFiles(listing);
      r := ConvertEach(targetFiles, files);
    }
  }

  /** The loop of `main` over a list of paths. */
  method ConvertEach(paths: seq<string>, files: map<string, seq<seq<string>>>)
    returns (r: Result<seq<(string, seq<seq<string>>)>, ConvertError>)
    ensures r == ConvertAll(paths, files)
  {
    var written: seq<(string, seq<seq<string>>)> := [];
    var i := 0;
    while i < |paths|
      invariant 0 <= i <= |paths|
      invariant ConvertAll(paths[..i], files) == Ok(written)
    {
      assert paths[..i + 1][..i] == paths[..i];
      var file := paths[i];
      if file !in files {
        ConvertErrorPersists(paths, files, i + 1);
        return Err(MissingFile(file));
      }
      var table := files[file];
      if table == [] {
        ConvertErrorPersists(paths, files, i + 1);
        return Err(EmptyFile(file));
      }
      written := written + [(file + CsvSuffix, table[1..])];
      i := i + 1;
    }
    assert paths[..i] == paths;
    return Ok(written);
  }

  // ---------------------------------------------------------------------------------------
  // Properties

  /** Once a file has raised, the later files are never converted. */
  lemma {:induction false} ConvertErrorPersists(paths: seq<string>, files: map<string, seq<seq<string>>>, k: nat)
    requires k <= |paths| && ConvertAll(paths[..k], files).Err?
    ensures ConvertAll(paths, files) == ConvertAll(paths[..k], files)
    decreases |paths| - k
  {
    if k < |paths| {
      assert paths[..k + 1][..k] == paths[..k];
      ConvertErrorPersists(paths, files, k + 1);
    } else {
      assert paths[..k] == paths;
    }
  }

  /** Two listings one after the other contribute what each contributes, in that order. */
  lemma {:induction false} DatPathsConcat(a: seq<string>, b: seq<string>)
    ensures DatPaths(a + b) == DatPaths(a) + DatPaths(b)
    decreases |b|
  {
    if b == [] {
      assert a + b == a;
    } else {
      var b' := b[..|b| - 1];
      assert (a + b)[..|a + b| - 1] == a + b';
      assert (a + b)[|a + b| - 1] == b[|b| - 1];
      DatPathsConcat(a, b');
    }
  }

  /** A path is collected exactly when it is the directory followed by a listed name that ends
      in `.dat`. */
  lemma {:induction false} DatPathsMembers(listing: seq<string>, path: string)
    ensures path in DatPaths(listing) <==>
      exists i :: 0 <= i < |listing| && EndsWith(listing[i], DatSuffix) && path == ExportDirectory + listing[i]
  {
    if listing != [] {
      var init := listing[..|listing| - 1];
      DatPathsMembers(init, path);
      forall i | 0 <= i < |init|
        ensures init[i] == listing[i]
      {
      }
    }
  }

  /** Every collected path is the directory, a name, and `.dat`; there are never more paths than
      listed names. */
  lemma {:induction false} DatPathsShape(listing: seq<string>)
    ensures |DatPaths(listing)| <= |listing|
    ensures forall p :: p in DatPaths(listing) ==>
      |p| >= |ExportDirectory| + |DatSuffix| && p[..|ExportDirectory|] == ExportDirectory && EndsWith(p, DatSuffix)
  {
    DatPathsLength(listing);
    forall p | p in DatPaths(listing)
      ensures |p| >= |ExportDirectory| + |DatSuffix| && p[..|ExportDirectory|] == ExportDirectory && EndsWith(p, DatSuffix)
    {
      DatPathsMembers(listing, p);
      var i :| 0 <= i < |listing| && EndsWith(listing[i], DatSuffix) && p == ExportDirectory + listing[i];
      TargetPathShape(listing[i]);
    }
  }

  lemma {:induction false} DatPathsLength(listing: seq<string>)
    ensures |DatPaths(listing)| <= |listing|
  {
    if listing != [] {
      DatPathsLength(listing[..|listing| - 1]);
    }
  }

  lemma TargetPathShape(name: string)
    requires EndsWith(name, DatSuffix)
    ensures var p := ExportDirectory + name;
      |p| >= |ExportDirectory| + |DatSuffix| && p[..|ExportDirectory|] == ExportDirectory && EndsWith(p, DatSuffix)
  {
    var p := ExportDirectory + name;
    assert p[..|ExportDirectory|] == ExportDirectory;
    assert p[|p| - |DatSuffix|..] == name[|name| - |DatSuffix|..];
  }

  /** The list is never cleared, so a second call with the same listing collects every path
      again: each path appears twice more often than one call leaves it. */
  lemma RepeatedCallDuplicates(before: seq<string>, listing: seq<string>, path: string)
    requires path in DatPaths(listing)
    ensures multiset(before + DatPaths(listing) + DatPaths(listing))[path] ==
      multiset(before + DatPaths(listing))[path] + multiset(DatPaths(listing))[path]
    ensures multiset(before + DatPaths(listing) + DatPaths(listing))[path] >= multiset(before)[path] + 2
  {
  }

  /** Output paths keep the input name whole: distinct inputs never share an output, and a
      collected `.dat` file is written to a name ending in `.dat.csv`. */
  lemma OutputPathInjective(p: string, q: string)
    ensures OutputPath(p) == OutputPath(q) <==> p == q
    ensures EndsWith(p, DatSuffix) ==> EndsWith(OutputPath(p), DatSuffix + CsvSuffix)
  {
    if OutputPath(p) == OutputPath(q) {
      assert p == OutputPath(p)[..|p|];
      assert q == OutputPath(q)[..|q|];
    }
    if EndsWith(p, DatSuffix) {
      var o := OutputPath(p);
      assert o[|o| - |DatSuffix + CsvSuffix|..] == p[|p| - |DatSuffix|..] + CsvSuffix;
    }
  }

  /** Dropping the header removes exactly the first row and keeps the others in order. */
  lemma DropHeaderKeepsRest(table: seq<seq<string>>)
    ensures DropHeader(table).Ok? <==> table != []
    ensures DropHeader(table).Ok? ==> [table[0]] + DropHeader(table).value == table
  {
  }

  /** A run that converts everything writes one file per target, in list order: the target's
      path plus `.csv`, holding the target's rows after the first. */
  lemma {:induction false} ConvertAllOk(paths: seq<string>, files: map<string, seq<seq<string>>>)
    ensures ConvertAll(paths, files).Ok? <==> forall i :: 0 <= i < |paths| ==> paths[i] in files && files[paths[i]] != []
    ensures ConvertAll(paths, files).Ok? ==>
      var out := ConvertAll(paths, files).value;
      |out| == |paths| &&
      forall i :: 0 <= i < |paths| ==> out[i] == (OutputPath(paths[i]), files[paths[i]][1..])
  {
    if paths != [] {
      var init := paths[..|paths| - 1];
      ConvertAllOk(init, files);
      forall i | 0 <= i < |init|
        ensures init[i] == paths[i]
      {
      }
    }
  }
}
