/** What one run of the organizer does to the file system, as functions of
    the state before it: the per-file step (classify, then log, move,
    overwrite or move to a free name), the batch over the listed files and
    the whole run from the command line on. */
module Organizer {
  import opened Wrappers
  import Text
  import opened Paths
  import opened Arguments
  import opened Config
  import opened Classifier
  import opened Collision
  import opened Disk

  /** The settings every file of a run is handled with. */
  datatype Plan = Plan(table: Table, destDir: string, dryRun: bool, overwrite: bool)

  /** How a moved file reached its place. */
  datatype MoveKind =
    | Plain      // nothing was at the destination
    | Overwrote  // the file at the destination was deleted first
    | Renamed    // the destination was taken: moved to the first free "name (N)ext"

  /** What became of one listed file. */
  datatype Outcome =
    | Logged(dest: string)                 // dry run: the move is only reported
    | Moved(dest: string, kind: MoveKind)
    | Kept(dest: string)                   // already at its destination, left alone
    | Failed                               // an error, caught; the batch goes on

  /** The file's extension is in some category's list. */
  predicate Claimed(pl: Plan, file: string) {
    FirstMatch(pl.table, LookupExtension(file)) < |pl.table|
  }

  /** The folder the file belongs in, under the destination. */
  function FolderPath(pl: Plan, file: string): string {
    Combine(pl.destDir, FolderFor(pl.table, file))
  }

  /** The path the file is meant to end up at: destDir/folder/fileName. */
  function Destination(pl: Plan, file: string): string {
    Combine(FolderPath(pl, file), FileName(file))
  }

  /** `File.Move(src, dst)`, with its outcome. */
  function TryMove(st: State, src: string, dst: string, kind: MoveKind): (State, Outcome) {
    if CanMove(st, src, dst) then (st.(files := Relocate(st.files, src, dst)), Moved(dst, kind))
    else (st, Failed)
  }

  /** The move of one file to `dst` as the program writes it: when `dst` is
      taken, delete it first under --overwrite, otherwise move to the first
      free suffixed name. */
  function PlaceAsWritten(st: State, src: string, dst: string, overwrite: bool): (State, Outcome) {
    if dst in st.files then
      if overwrite then
        if dst in st.locked then (st, Failed)
        else TryMove(st.(files := st.files - {dst}), src, dst, Overwrote)
      else TryMove(st, src, UniquePath(st.files.Keys, dst), Renamed)
    else TryMove(st, src, dst, Plain)
  }

  /** The same move, except that a file already at its destination is left
      alone rather than deleted by the overwrite. */
  function Place(st: State, src: string, dst: string, overwrite: bool): (State, Outcome) {
    if dst in st.files && overwrite && dst == src then (st, Kept(dst))
    else PlaceAsWritten(st, src, dst, overwrite)
  }

  /** The state once the "Others" folder has been created for a file no
      category claims. */
  function WithFolder(st: State, pl: Plan, file: string): State {
    if Claimed(pl, file) then st else st.(dirs := st.dirs + {Combine(pl.destDir, Others)})
  }

  /** One iteration of the loop over the listed files. */
  function Step(st: State, pl: Plan, file: string): (State, Outcome) {
    var st1 := WithFolder(st, pl, file);
    if pl.dryRun then (st1, Logged(Destination(pl, file)))
    else Place(st1, file, Destination(pl, file), pl.overwrite)
  }

  /** The loop over the listing: every file is handled in turn, whatever
      became of the ones before, and gets exactly one outcome. */
  function Batch(st: State, pl: Plan, files: seq<string>): (State, seq<Outcome>) {
    if files == [] then (st, [])
    else
      var before := Batch(st, pl, files[..|files| - 1]);
      var last := Step(before.0, pl, files[|files| - 1]);
      (last.0, before.1 + [last.1])
  }

  /** The directories after creating one folder per table key. */
  function PrepareDirs(dirs: set<string>, destDir: string, names: seq<string>): set<string> {
    if names == [] then dirs
    else PrepareDirs(dirs, destDir, names[..|names| - 1]) + {Combine(destDir, names[|names| - 1])}
  }

  /** The category table: the defaults without a configuration path, the
      parsed file with one, nothing when that file cannot be read. */
  function TableFor(st: State, config: Option<string>): Option<Table> {
    match config
    case None => Some(DefaultTable)
    case Some(p) => if p in st.files && p !in st.locked then Some(ParseConfig(st.files[p])) else None
  }

  /** How a run ends. */
  datatype Report =
    | Usage
    | MissingSource
    | MissingDestination
    | ConfigUnreadable
    | Finished(listing: seq<string>, outcomes: seq<Outcome>, processed: nat)

  /** A whole run, given the listing `Directory.GetFiles` returns. */
  function Run(st: State, args: seq<string>, listing: seq<string>): (State, Report) {
    match ParseArgs(args)
    case None => (st, Usage)
    case Some(o) =>
      if o.source !in st.dirs then (st, MissingSource)
      else if o.destination !in st.dirs then (st, MissingDestination)
      else match TableFor(st, o.config)
        case None => (st, ConfigUnreadable)
        case Some(t) =>
          var prepared := st.(dirs := PrepareDirs(st.dirs, o.destination, Names(t)));
          var done := Batch(prepared, Plan(t, o.destination, o.dryRun, o.overwrite), listing);
          (done.0, Finished(listing, done.1, |done.1|))
  }

  // ---------------------------------------------------------------------
  // The per-file step

  /** The folder path of a file is its destination's directory. */
  lemma DestinationParts(pl: Plan, file: string)
    requires pl.destDir != "" && FileName(file) != ""
    ensures DirectoryName(Destination(pl, file)) == FolderPath(pl, file)
    ensures FileName(Destination(pl, file)) == FileName(file)
    ensures Extension(Destination(pl, file)) == Extension(file)
  {
    CombineParts(FolderPath(pl, file), FileName(file));
  }

  /** Every key names a folder directly inside the destination: no
      separator (so not rooted either) and not the parent "..". */
  predicate PlainKeys(t: Table) {
    forall c :: c in t ==> Separator !in c.name && c.name != ".."
  }

  /** The built-in keys are plain folder names. */
  lemma DefaultKeysPlain()
    ensures PlainKeys(DefaultTable)
  {
    forall c | c in DefaultTable
      ensures Separator !in c.name && c.name != ".."
    {
      assert c in [DocumentsFolder, ImagesFolder, SpreadsheetsFolder, PresentationsFolder,
                   AudioFolder, VideosFolder, ArchivesFolder];
    }
  }

  /** Every destination lies inside the destination directory: below it,
      or the directory itself only for a path with no file name. */
  lemma DestinationUnderDestDir(pl: Plan, file: string)
    requires pl.destDir != "" && PlainKeys(pl.table)
    ensures FileName(file) != "" ==> pl.destDir + [Separator] <= Destination(pl, file)
    ensures Destination(pl, file) == pl.destDir || pl.destDir + [Separator] <= Destination(pl, file)
  {
  }

  /** A dry run logs the destination and moves and deletes nothing; only
      the "Others" folder may be created. */
  lemma StepDryRun(st: State, pl: Plan, file: string)
    requires pl.dryRun
    ensures Step(st, pl, file).1 == Logged(Destination(pl, file))
    ensures Step(st, pl, file).0.files == st.files && Step(st, pl, file).0.locked == st.locked
    ensures Step(st, pl, file).0.dirs == st.dirs + (if Claimed(pl, file) then {} else {Combine(pl.destDir, Others)})
  {
  }

  /** A move touches no file but its source. */
  lemma TryMoveSpares(st: State, src: string, dst: string, kind: MoveKind, p: string)
    requires p in st.files && p != src
    ensures p in TryMove(st, src, dst, kind).0.files && TryMove(st, src, dst, kind).0.files[p] == st.files[p]
  {
  }

  /** A placement removes no file other than the one placed and, under
      --overwrite, the file that was at its destination. */
  lemma PlaceSpares(st: State, src: string, dst: string, overwrite: bool, p: string)
    requires p in st.files && p != src && (!overwrite || p != dst)
    ensures p in Place(st, src, dst, overwrite).0.files && Place(st, src, dst, overwrite).0.files[p] == st.files[p]
  {
    if dst in st.files && overwrite && dst != src && dst !in st.locked {
      TryMoveSpares(st.(files := st.files - {dst}), src, dst, Overwrote, p);
    } else if dst in st.files && !overwrite {
      TryMoveSpares(st, src, UniquePath(st.files.Keys, dst), Renamed, p);
    } else if dst !in st.files {
      TryMoveSpares(st, src, dst, Plain, p);
    }
  }

  /** A step removes no file other than the one handled and, under
      --overwrite, the file that was at its destination. */
  lemma StepSparesOtherFiles(st: State, pl: Plan, file: string, p: string)
    requires p in st.files && p != file
    requires pl.dryRun || !pl.overwrite || p != Destination(pl, file)
    ensures p in Step(st, pl, file).0.files && Step(st, pl, file).0.files[p] == st.files[p]
  {
    if !pl.dryRun {
      var st1 := WithFolder(st, pl, file);
      PlaceSpares(st1, file, Destination(pl, file), pl.overwrite, p);
    }
  }

  /** A successful placement: the source is gone and its contents are at
      the returned path, which is `dst` unless `dst` was taken without
      --overwrite, then the first free suffixed name. */
  lemma PlaceMoved(st: State, src: string, dst: string, overwrite: bool)
    requires Place(st, src, dst, overwrite).1.Moved?
    ensures var after, o := Place(st, src, dst, overwrite).0, Place(st, src, dst, overwrite).1;
            && src in st.files && src !in after.files
            && o.dest in after.files && after.files[o.dest] == st.files[src]
            && (o.kind == Renamed <==> dst in st.files && !overwrite)
            && (o.kind == Renamed ==> o.dest == UniquePath(st.files.Keys, dst))
            && (o.kind != Renamed ==> o.dest == dst)
  {
  }

  /** A moved file has left its source path, its contents are at the
      returned path, and that path is in the file's category folder with
      the file's extension: the destination itself unless it was taken
      without --overwrite, then the first free suffixed name. */
  lemma StepMovedFile(st: State, pl: Plan, file: string)
    requires pl.destDir != "" && FileName(file) != ""
    requires Step(st, pl, file).1.Moved?
    ensures var after, o := Step(st, pl, file).0, Step(st, pl, file).1;
            && file in st.files && file !in after.files
            && o.dest in after.files && after.files[o.dest] == st.files[file]
            && DirectoryName(o.dest) == FolderPath(pl, file)
            && Extension(o.dest) == Extension(file)
            && (o.kind == Renamed <==> Destination(pl, file) in st.files && !pl.overwrite)
            && (o.kind == Renamed ==> o.dest == UniquePath(st.files.Keys, Destination(pl, file)))
            && (o.kind != Renamed ==> o.dest == Destination(pl, file))
  {
    var st1 := WithFolder(st, pl, file);
    var dst := Destination(pl, file);
    PlaceMoved(st1, file, dst, pl.overwrite);
    DestinationParts(pl, file);
    var o := Step(st, pl, file).1;
    if o.kind == Renamed {
      var u := UniquePath(st.files.Keys, dst);
      assert DirectoryName(u) == DirectoryName(dst) && Extension(u) == Extension(dst);
    }
  }

  /** Where a placement moves the file: `dst`, or the first free suffixed
      name when `dst` holds a file and --overwrite is off. */
  function Target(st: State, dst: string, overwrite: bool): string {
    if dst in st.files && !overwrite then UniquePath(st.files.Keys, dst) else dst
  }

  /** The step can go through: the file is there and, unless it is already
      at its destination under --overwrite, it may be touched, its folder
      exists, an existing destination to overwrite may be deleted, and no
      directory sits where the file is moved to. */
  predicate Ready(st: State, pl: Plan, file: string) {
    var dst := Destination(pl, file);
    var dirs := WithFolder(st, pl, file).dirs;
    && file in st.files
    && ((pl.overwrite && dst == file)
        || (&& file !in st.locked
            && FolderPath(pl, file) in dirs
            && (pl.overwrite && dst in st.files ==> dst !in st.locked)
            && Target(st, dst, pl.overwrite) !in dirs))
  }

  /** Outside a dry run a step fails exactly when it is not Ready. */
  lemma StepFailsExactlyWhen(st: State, pl: Plan, file: string)
    requires pl.destDir != "" && FileName(file) != ""
    ensures Step(st, pl, file).1.Failed? <==> !pl.dryRun && !Ready(st, pl, file)
  {
    DestinationParts(pl, file);
  }

  /** A directory where the file should land makes the move fail; the
      file stays where it was. */
  lemma DirectoryInTheWay(st: State, pl: Plan, file: string)
    requires !pl.dryRun && pl.destDir != "" && FileName(file) != ""
    requires Destination(pl, file) in st.dirs && Destination(pl, file) !in st.files
    ensures Step(st, pl, file) == (WithFolder(st, pl, file), Failed)
  {
    DestinationParts(pl, file);
  }

  // ---------------------------------------------------------------------
  // The overwrite of a file by itself

  /** "a.jpg" in a folder named "Images" is an image. */
  lemma ImageFolderExample()
    ensures FileName("dest/Images/a.jpg") == "a.jpg"
    ensures FolderFor(DefaultTable, "dest/Images/a.jpg") == "Images"
  {
    assert "dest/Images/a.jpg" == Combine("dest/Images", "a.jpg");
    CombineParts("dest/Images", "a.jpg");
    LastIndexOfIs("a.jpg", '.', 1);
    assert Text.Lower(".jpg") == ".jpg";
    DefaultTableDisjoint();
    ChosenByMembership(DefaultTable, ImagesFolder, "dest/Images/a.jpg");
  }

  /** The destination, spelled out from the folder and the file name. */
  lemma DestinationIs(pl: Plan, file: string, folder: string, name: string)
    requires FolderFor(pl.table, file) == folder && FileName(file) == name
    ensures Destination(pl, file) == Combine(Combine(pl.destDir, folder), name)
  {
  }

  /** The source directory may be a category folder of the destination:
      then a file's destination is its own path. */
  lemma OwnDestinationExample(pl: Plan)
    requires pl.table == DefaultTable && pl.destDir == "dest"
    ensures Destination(pl, "dest/Images/a.jpg") == "dest/Images/a.jpg"
  {
    ImageFolderExample();
    DestinationIs(pl, "dest/Images/a.jpg", "Images", "a.jpg");
    ImagePathSpelled();
  }

  lemma ImagePathSpelled()
    ensures Combine(Combine("dest", "Images"), "a.jpg") == "dest/Images/a.jpg"
  {
    assert Combine("dest", "Images") == "dest/Images";
  }

  /** As written, overwriting a file with itself deletes it and then fails
      to move it: the file is gone. */
  lemma OverwriteOwnPathLosesFile()
    ensures var st := State(map["dest/Images/a.jpg" := ["x"]], {"dest", "dest/Images"}, {});
            PlaceAsWritten(st, "dest/Images/a.jpg", "dest/Images/a.jpg", true) == (st.(files := map[]), Failed)
  {
    var st := State(map["dest/Images/a.jpg" := ["x"]], {"dest", "dest/Images"}, {});
    assert st.files - {"dest/Images/a.jpg"} == map[];
  }

  /** A move either moves the file, contents and all, or leaves it. */
  lemma TryMoveKeepsContents(st: State, src: string, dst: string, kind: MoveKind)
    requires src in st.files
    ensures var after, o := TryMove(st, src, dst, kind).0, TryMove(st, src, dst, kind).1;
            || (after == st && o == Failed)
            || (o == Moved(dst, kind) && dst in after.files && after.files[dst] == st.files[src])
  {
  }

  /** The corrected move never loses a file: its contents stay at its path
      or are at the path it was moved to. */
  lemma PlaceKeepsContents(st: State, src: string, dst: string, overwrite: bool)
    requires src in st.files
    ensures var after, o := Place(st, src, dst, overwrite).0, Place(st, src, dst, overwrite).1;
            || (src in after.files && after.files[src] == st.files[src])
            || (o.Moved? && o.dest in after.files && after.files[o.dest] == st.files[src])
  {
    if dst in st.files {
      if overwrite {
        if dst != src && dst !in st.locked {
          TryMoveKeepsContents(st.(files := st.files - {dst}), src, dst, Overwrote);
        }
      } else {
        TryMoveKeepsContents(st, src, UniquePath(st.files.Keys, dst), Renamed);
      }
    } else {
      TryMoveKeepsContents(st, src, dst, Plain);
    }
  }

  // ---------------------------------------------------------------------
  // The batch

  /** Every listed file gets exactly one outcome, failures included. */
  lemma {:induction false} BatchCountsEveryFile(st: State, pl: Plan, files: seq<string>)
    ensures |Batch(st, pl, files).1| == |files|
  {
    if files != [] {
      BatchCountsEveryFile(st, pl, files[..|files| - 1]);
    }
  }

  /** The k-th outcome is the one the k-th file's step produced. */
  lemma {:induction false} BatchOutcomeOf(st: State, pl: Plan, files: seq<string>, k: nat)
    requires k < |files|
    ensures |Batch(st, pl, files).1| == |files|
    ensures Batch(st, pl, files).1[k] == Step(Batch(st, pl, files[..k]).0, pl, files[k]).1
  {
    BatchCountsEveryFile(st, pl, files);
    var init := files[..|files| - 1];
    var before := Batch(st, pl, init);
    BatchCountsEveryFile(st, pl, init);
    assert Batch(st, pl, files).1 == before.1 + [Step(before.0, pl, files[|files| - 1]).1];
    if k < |files| - 1 {
      BatchOutcomeOf(st, pl, init, k);
      assert init[..k] == files[..k];
      assert Batch(st, pl, files).1[k] == before.1[k];
    } else {
      assert files[..k] == init;
    }
  }

  /** A dry run moves and deletes no file. */
  lemma {:induction false} BatchDryRunMovesNothing(st: State, pl: Plan, files: seq<string>)
    requires pl.dryRun
    ensures Batch(st, pl, files).0.files == st.files && Batch(st, pl, files).0.locked == st.locked
  {
    if files != [] {
      BatchDryRunMovesNothing(st, pl, files[..|files| - 1]);
    }
  }

  /** A file outside the destination directory that is not listed keeps
      its place and contents. */
  lemma {:induction false} BatchConfined(st: State, pl: Plan, files: seq<string>, p: string)
    requires pl.destDir != "" && PlainKeys(pl.table)
    requires p != pl.destDir && !(pl.destDir + [Separator] <= p)
    requires p in st.files && p !in files
    ensures p in Batch(st, pl, files).0.files && Batch(st, pl, files).0.files[p] == st.files[p]
  {
    if files != [] {
      var init := files[..|files| - 1];
      assert p !in init;
      BatchConfined(st, pl, init, p);
      var file := files[|files| - 1];
      DestinationUnderDestDir(pl, file);
      StepSparesOtherFiles(Batch(st, pl, init).0, pl, file, p);
    }
  }

  // ---------------------------------------------------------------------
  // Preparing the destination and the whole run

  /** Preparing adds one folder per key under the destination. */
  lemma {:induction false} PrepareDirsAdds(dirs: set<string>, destDir: string, names: seq<string>)
    ensures PrepareDirs(dirs, destDir, names) == dirs + set n | n in names :: Combine(destDir, n)
  {
    if names != [] {
      var init := names[..|names| - 1];
      PrepareDirsAdds(dirs, destDir, init);
      assert names == init + [names[|names| - 1]];
    }
  }

  /** Preparing an already prepared destination changes nothing. */
  lemma PrepareIdempotent(dirs: set<string>, destDir: string, names: seq<string>)
    ensures PrepareDirs(PrepareDirs(dirs, destDir, names), destDir, names) == PrepareDirs(dirs, destDir, names)
  {
    PrepareDirsAdds(dirs, destDir, names);
    PrepareDirsAdds(PrepareDirs(dirs, destDir, names), destDir, names);
  }

  /** With fewer than two arguments nothing is touched. */
  lemma RunNeedsTwoArguments(st: State, args: seq<string>, listing: seq<string>)
    requires |args| < 2
    ensures Run(st, args, listing) == (st, Usage)
  {
  }

  /** Without a usable configuration path the defaults are used. */
  lemma DefaultsWithoutConfig(st: State, args: seq<string>)
    requires |args| >= 2
    requires ConfigFlag !in args || (args[|args| - 1] == ConfigFlag && ConfigFlag !in args[..|args| - 1])
    ensures TableFor(st, ParseArgs(args).value.config) == Some(DefaultTable)
  {
    if ConfigFlag !in args {
      ConfigPathWithoutFlag(args);
    } else {
      DanglingConfigFlag(args);
    }
  }

  /** A run that stops early (usage, missing directory, unreadable
      configuration) changes nothing. */
  lemma FatalErrorsChangeNothing(st: State, args: seq<string>, listing: seq<string>)
    requires !Run(st, args, listing).1.Finished?
    ensures Run(st, args, listing).0 == st
  {
  }

  /** A dry run moves and deletes no file. */
  lemma RunDryRunMovesNothing(st: State, args: seq<string>, listing: seq<string>)
    requires DryRunFlag in args
    ensures Run(st, args, listing).0.files == st.files
  {
    match ParseArgs(args)
    case None =>
    case Some(o) =>
      if o.source in st.dirs && o.destination in st.dirs && TableFor(st, o.config).Some? {
        var t := TableFor(st, o.config).value;
        var prepared := st.(dirs := PrepareDirs(st.dirs, o.destination, Names(t)));
        BatchDryRunMovesNothing(prepared, Plan(t, o.destination, o.dryRun, o.overwrite), listing);
      }
  }

  /** A finished run counts every listed file and has one outcome for each. */
  lemma RunCountsEveryFile(st: State, args: seq<string>, listing: seq<string>)
    requires Run(st, args, listing).1.Finished?
    ensures Run(st, args, listing).1.processed == |listing| == |Run(st, args, listing).1.outcomes|
  {
    var o := ParseArgs(args).value;
    var t := TableFor(st, o.config).value;
    var prepared := st.(dirs := PrepareDirs(st.dirs, o.destination, Names(t)));
    BatchCountsEveryFile(prepared, Plan(t, o.destination, o.dryRun, o.overwrite), listing);
  }
}
