/** The organizer's own methods, working step by step on the file system
    as the program does, each proved to do what the functions of Organizer
    say a run does. */
module Program {
  import opened Wrappers
  import opened Text
  import opened Paths
  import opened Arguments
  import opened Config
  import opened Classifier
  import opened Collision
  import opened Disk
  import opened Organizer

  /** Try "name (1)ext", "name (2)ext", ... in the directory of `filePath`
      and return the first that does not exist. */
  method GetUniqueFilePath(fs: FileSystem, filePath: string) returns (newFilePath: string)
    ensures newFilePath == UniquePath(fs.files.Keys, filePath)
  {
    var directory := DirectoryName(filePath);
    var fileName := FileNameWithoutExtension(filePath);
    var extension := Extension(filePath);
    ghost var taken := fs.files.Keys;
    var count := 1;
    var found := true;
    newFilePath := filePath;
    // do { ... } while (found): the body runs at least once
    while found
      invariant count >= 1
      invariant found ==> Tried(filePath, count) <= taken
      invariant !found ==> && count >= 2 && Tried(filePath, count - 1) <= taken
                            && newFilePath == Candidate(filePath, count - 1) && newFilePath !in taken
      decreases |taken - Tried(filePath, count)|, if found then 1 else 0
    {
      newFilePath := Combine(directory, fileName + " (" + NatToString(count) + ")" + extension);
      assert newFilePath == Candidate(filePath, count);
      TryingShrinks(taken, filePath, count);
      count := count + 1;
      found := fs.FileExists(newFilePath);
    }
    UniqueIndexIsLeast(taken, filePath, count - 1);
  }

  /** Read the configuration file and store each accepted line's category,
      a later line for the same key replacing the earlier list; None when
      the file cannot be read. */
  method LoadCategories(fs: FileSystem, configFile: string) returns (fileTypes: Option<Table>)
    ensures fileTypes == TableFor(fs.Snapshot(), Some(configFile))
  {
    var read := fs.ReadAllLines(configFile);
    if read.None? {
      return None;
    }
    var lines := read.value;
    var t: Table := [];
    for i := 0 to |lines|
      invariant t == ParseConfig(lines[..i])
    {
      ParseConfigNext(lines, i);
      var parsed := ParseLine(lines[i]);
      if parsed.Some? {
        t := Put(t, parsed.value);
      }
    }
    assert lines[..|lines|] == lines;
    fileTypes := Some(t);
  }

  /** The configured categories when a configuration path was given,
      otherwise the default ones. */
  method ChooseTable(fs: FileSystem, configFile: Option<string>) returns (fileTypes: Option<Table>)
    ensures fileTypes == TableFor(fs.Snapshot(), configFile)
  {
    if configFile.Some? {
      fileTypes := LoadCategories(fs, configFile.value);
    } else {
      fileTypes := Some(DefaultTable);
    }
  }

  /** Create one folder per category key under the destination. */
  method PrepareDestination(fs: FileSystem, destDir: string, fileTypes: Table)
    modifies fs
    ensures fs.Snapshot() == old(fs.Snapshot()).(dirs := PrepareDirs(old(fs.dirs), destDir, Names(fileTypes)))
  {
    for i := 0 to |fileTypes|
      invariant fs.Snapshot() == old(fs.Snapshot()).(dirs := PrepareDirs(old(fs.dirs), destDir, Names(fileTypes)[..i]))
    {
      assert Names(fileTypes)[..i + 1][..i] == Names(fileTypes)[..i];
      fs.CreateDirectory(Combine(destDir, fileTypes[i].name));
    }
    assert Names(fileTypes)[..|fileTypes|] == Names(fileTypes);
  }

  /** Move the file to `destPath`; when that is taken, delete it first
      under --overwrite (unless it is the file itself) or move to the first
      free suffixed name. An error ends the attempt with Failed. */
  method MoveInto(fs: FileSystem, filePath: string, destPath: string, overwrite: bool) returns (outcome: Outcome)
    modifies fs
    ensures (fs.Snapshot(), outcome) == Place(old(fs.Snapshot()), filePath, destPath, overwrite)
  {
    var target := destPath;
    var kind := Plain;
    var found := fs.FileExists(destPath);
    if found {
      if overwrite {
        if destPath == filePath {
          return Kept(destPath);
        }
        var deleted := fs.Delete(destPath);
        if !deleted {
          return Failed;
        }
        kind := Overwrote;
      } else {
        target := GetUniqueFilePath(fs, destPath);
        kind := Renamed;
      }
    }
    var moved := fs.Move(filePath, target);
    outcome := if moved then Moved(target, kind) else Failed;
  }

  /** Handle one listed file: the first category whose list holds its
      lower-cased extension decides the folder, "Others" (created on
      demand) when none does; a dry run only reports the destination. */
  method OrganizeFile(fs: FileSystem, pl: Plan, filePath: string) returns (outcome: Outcome)
    modifies fs
    ensures (fs.Snapshot(), outcome) == Step(old(fs.Snapshot()), pl, filePath)
  {
    var fileExtension := LookupExtension(filePath);
    var fileMoved := false;
    outcome := Failed;
    var i := 0;
    while i < |pl.table|
      invariant 0 <= i <= |pl.table|
      invariant forall j :: 0 <= j < i ==> fileExtension !in pl.table[j].extensions
      invariant !fileMoved && fs.Snapshot() == old(fs.Snapshot())
    {
      var folder := pl.table[i];
      if fileExtension in folder.extensions {
        assert FirstMatch(pl.table, fileExtension) == i;
        var destPath := Combine(Combine(pl.destDir, folder.name), FileName(filePath));
        if pl.dryRun {
          outcome := Logged(destPath);
        } else {
          outcome := MoveInto(fs, filePath, destPath, pl.overwrite);
        }
        fileMoved := true;
        break;
      }
      i := i + 1;
    }
    if !fileMoved {
      assert FirstMatch(pl.table, fileExtension) == |pl.table|;
      var otherFolder := Combine(pl.destDir, Others);
      fs.CreateDirectory(otherFolder);
      var destPath := Combine(otherFolder, FileName(filePath));
      if pl.dryRun {
        outcome := Logged(destPath);
      } else {
        outcome := MoveInto(fs, filePath, destPath, pl.overwrite);
      }
    }
  }

  /** The loop over the listed files: each is handled in turn, an error
      with one does not stop the others, and each one is counted. */
  method OrganizeAll(fs: FileSystem, pl: Plan, listing: seq<string>) returns (outcomes: seq<Outcome>, processedFiles: nat)
    modifies fs
    ensures (fs.Snapshot(), outcomes) == Batch(old(fs.Snapshot()), pl, listing)
    ensures processedFiles == |outcomes|
  {
    outcomes := [];
    processedFiles := 0;
    for i := 0 to |listing|
      invariant processedFiles == |outcomes|
      invariant (fs.Snapshot(), outcomes) == Batch(old(fs.Snapshot()), pl, listing[..i])
    {
      assert listing[..i + 1][..i] == listing[..i];
      var outcome := OrganizeFile(fs, pl, listing[i]);
      outcomes := outcomes + [outcome];
      processedFiles := processedFiles + 1;
    }
    assert listing[..|listing|] == listing;
  }

  /** The whole program: check the arguments and both directories, pick the
      categories, create their folders, then handle every file of the
      source directory in turn, counting each one whatever became of it. */
  method Organize(fs: FileSystem, args: seq<string>) returns (report: Report)
    modifies fs
    ensures report.Finished? ==> ParseArgs(args).Some? && IsListing(old(fs.files), ParseArgs(args).value.source, report.listing)
    ensures (fs.Snapshot(), report) == Run(old(fs.Snapshot()), args, if report.Finished? then report.listing else [])
  {
    if |args| < 2 {
      return Usage;
    }
    var sourceDir := args[0];
    var destDir := args[1];
    var dryRun := DryRunFlag in args;
    var overwrite := OverwriteFlag in args;
    var configFile := ConfigPath(args);

    var sourceExists := fs.DirectoryExists(sourceDir);
    if !sourceExists {
      return MissingSource;
    }
    var destExists := fs.DirectoryExists(destDir);
    if !destExists {
      return MissingDestination;
    }

    var fileTypes := ChooseTable(fs, configFile);
    if fileTypes.None? {
      return ConfigUnreadable;
    }
    PrepareDestination(fs, destDir, fileTypes.value);

    var listing := fs.GetFiles(sourceDir);
    var pl := Plan(fileTypes.value, destDir, dryRun, overwrite);
    var outcomes, processedFiles := OrganizeAll(fs, pl, listing);
    report := Finished(listing, outcomes, processedFiles);
  }
}
