# FileOrganizer, modelled in Dafny

FileOrganizer is a command-line tool. It sorts the files of a source directory into category folders under a destination directory. The category is chosen by the file's extension, either from a built-in table or from a `Folder: .ext1, .ext2` configuration file. Files nothing claims go to `Others`. A destination that is already taken is either overwritten (`--overwrite`) or avoided by moving to the first free `name (N).ext`. `--dry-run` moves no file and reports where each would go. An error with one file is caught, and the next file is handled.

This project models `Program.cs`: the argument handling, the configuration parser, the default table, the classifier, `GetUniqueFilePath`, the per-file move decision and the loop over the listed files. The file system is a `Disk.State` value: files with their lines, directories, and the paths the operating system refuses to touch. `Disk.FileSystem` is the same state as a mutable object, with one method per .NET call the program makes.

Modules:
- `Text`: trimming, ASCII lower-casing, splitting, decimal numerals.
- `Paths`: `Path.Combine`, `GetDirectoryName`, `GetFileName`, `GetExtension`, `GetFileNameWithoutExtension`.
- `Arguments`: positional directories, the flags, the configuration path.
- `Config`: the line parser, the dictionary store, the built-in table.
- `Classifier`: the first category whose list holds the extension.
- `Collision`: the names `GetUniqueFilePath` tries and the one it returns.
- `Disk`: the abstract file system.
- `Organizer`: what a step, a batch and a whole run do, as functions of the state before them, with their lemmas.
- `Program`: the program's own loops, each proved equal to the `Organizer` function it implements.

Points of the parser and the run that are easy to miss:
- Configured extensions are stored as written after trimming and lower-casing. No '.' is added, and empty entries are kept (Program.cs:47).
- A configuration line is split on every ':' and kept only when there are exactly two parts. A line with two or more colons is skipped (Program.cs:43-44).
- A dry run still creates every category folder, and the Others folder for an unclassified file, before deciding whether to move (Program.cs:72-75, 121-122).
- The move step follows the corrected placement described under Findings: a file that is already at its destination under `--overwrite` is left alone. Every step, batch and run function, and the methods proved equal to them, use this placement. The placement as written is modelled beside it.

## Model

| member | source | states |
|---|---|---|
| Text.Trim | Program.cs:46-47 | the result has no white space at either end and is the input with only white space cut from both ends |
| Text.Lower | Program.cs:47 | same length, no upper-case letter left, each character equal to the input's up to case, white space kept where it was |
| Text.Split | Program.cs:43 | one part more than there are separators, no part holds the separator, and joining the parts gives back the input |
| Text.SplitJoin | Program.cs:43 | splitting a join of separator-free parts gives back the parts |
| Text.NatToStringRoundTrip | Program.cs:176 | the decimal numeral of the counter reads back as the counter |
| Text.NatToStringInjective | Program.cs:176 | two counters with the same numeral are equal |
| Paths.Combine | Program.cs:91 | no contract of its own (`Path.Combine` with an empty part skipped, otherwise one separator between the parts); CombineParts and CombineExtends state it |
| Paths.DirectoryName | Program.cs:168 | no contract of its own (the text before the last separator); CombineParts and PlainNameParts state it |
| Paths.FileName | Program.cs:91 | the file name holds no separator and is no longer than the path |
| Paths.Extension | Program.cs:84 | empty exactly when the file name has no '.', otherwise it starts at the name's last '.' and holds no other '.' |
| Paths.FileNameWithoutExtension | Program.cs:169 | the stem followed by the extension is the file name |
| Paths.CombineParts | Program.cs:91 | combining a directory with a plain name gives a path whose directory and file name are those two |
| Paths.CombineExtends | Program.cs:74 | a combined path starts with its non-empty first part |
| Arguments.SkipUntil | Program.cs:20 | the rest is a suffix of the arguments that is empty or starts with the flag, and the flag does not occur before it |
| Arguments.ConfigPath | Program.cs:20 | a configuration path, when there is one, is not empty |
| Arguments.ParseArgs | Program.cs:10-20 | there is nothing to run exactly when fewer than two arguments are given; otherwise the first two are the source and destination, `--dry-run` and `--overwrite` are on exactly when they occur anywhere among the arguments, and the configuration path is the one `ConfigPath` describes |
| Arguments.ConfigPathAfterFirstFlag | Program.cs:20 | the path is the token right after the first `--config`, and absent when that flag is last or followed by an empty token |
| Arguments.ConfigPathWithoutFlag | Program.cs:20 | without `--config` there is no configuration path |
| Arguments.DanglingConfigFlag | Program.cs:20 | a trailing `--config` means no configuration path |
| Config.Put | Program.cs:48 | storing under a key sets that key's list, keeps every other key's list, and keeps key order, adding a new key at the end |
| Config.PutKeepsUniqueNames | Program.cs:48 | storing never duplicates a key |
| Config.NormalizeExtensions | Program.cs:47 | one entry per comma-separated piece, empty pieces included; entry k is the k-th piece trimmed and lower-cased, with no '.' added, so it has no white space at its ends and no upper-case letter |
| Config.ParseLine | Program.cs:43-47 | a line is accepted exactly when it has one ':'; then the key is the trimmed text before it and the list comes from the text after it |
| Config.ParseConfig | Program.cs:40-50 | the table built from the lines never holds a key twice |
| Config.MalformedLineSkipped | Program.cs:44 | a line without exactly one ':' changes nothing |
| Config.LookupIsLastDefinition | Program.cs:41-48 | a key maps to the list of the last accepted line that names it |
| Config.LookupUndefined | Program.cs:41-48 | a key no accepted line names is absent |
| Config.ConfigKeyOrder | Program.cs:48 | the keys are in the order of their first accepted line |
| Config.MalformedLineExample | Program.cs:43-48 | the lines "Docs:.pdf" and "notes" give the single rule Docs -> [".pdf"] |
| Config.DefaultTableDisjoint | Program.cs:60-69 | no extension of the built-in table is listed under two folders, and no folder appears twice |
| Classifier.LookupExtension | Program.cs:84 | no contract of its own (the lower-cased extension of the file name); FolderFor, PhotoExample and ExtensionlessToOthers state its use |
| Classifier.FirstMatch | Program.cs:87-89 | the index of the first category whose list holds the extension, or the table's length when none does |
| Classifier.FolderFor | Program.cs:84-91 | the folder is the name of the first category whose list holds the lower-cased extension; it is "Others" when no category lists it, and otherwise it is a listing category's name |
| Classifier.ChosenByMembership | Program.cs:87-91 | in a table without overlaps, a category listing the extension is the one chosen |
| Classifier.OrderIrrelevantWhenDisjoint | Program.cs:87-91 | in a table without overlaps, reordering the categories does not change the folder |
| Classifier.DefaultOrderIrrelevant | Program.cs:60-69 | with the built-in table the folder does not depend on enumeration order |
| Classifier.ExtensionlessToOthers | Program.cs:119-123 | with the built-in table a file without an extension goes to "Others" |
| Classifier.ReportExample | Program.cs:62 | "in/report.pdf" goes to Documents |
| Classifier.PhotoExample | Program.cs:63 | "in/photo.JPG" goes to Images, because the extension is lower-cased first |
| Classifier.NoteExample | Program.cs:119-123 | "in/note" goes to Others |
| Collision.SuffixedName | Program.cs:176 | no contract of its own (the name "stem (N)ext"); CandidateParts and CandidateExtension state it |
| Collision.Candidate | Program.cs:176 | no contract of its own (the N-th path the loop tries); CandidateParts, CandidateExtension, CandidateIsNew and CandidateInjective state it |
| Collision.CandidateParts | Program.cs:168-176 | a candidate is in the same directory, named "stem (N)ext" |
| Collision.CandidateExtension | Program.cs:170-176 | a candidate has the original extension |
| Collision.CandidateIsNew | Program.cs:176 | a candidate is longer than the original path, so it is never the same path |
| Collision.CandidateInjective | Program.cs:176 | different counters give different candidates |
| Collision.TriedMembers | Program.cs:174-177 | the N-th candidate has been tried before the n-th exactly when 1 <= N < n |
| Collision.LeastFreeFrom | Program.cs:174-177 | from a counter whose predecessors are all taken, the first counter whose candidate is free |
| Collision.UniqueIndex | Program.cs:171-177 | the counter is at least 1, its candidate is free, and every smaller positive counter's candidate is taken |
| Collision.UniqueIndexIsLeast | Program.cs:171-177 | a free counter whose predecessors are all taken is that counter |
| Collision.UniquePath | Program.cs:166-180 | the returned path is "stem (N)ext" for the least N >= 1 whose candidate is free, so it is free, differs from the input, and has the input's directory and extension |
| Collision.SecondCollisionExample | Program.cs:166-180 | with "a.txt" and "a (1).txt" taken, "dest/Documents/a.txt" becomes "dest/Documents/a (2).txt" |
| Disk.CanMove | Program.cs:111 | no contract of its own (when `File.Move` succeeds); Disk.FileSystem.Move and StepFailsExactlyWhen state it |
| Disk.Relocate | Program.cs:111 | after a move the destination holds the source's contents, the source is gone, and every other file is unchanged |
| Disk.FileSystem.FileExists | Program.cs:99 | true exactly when a file is at the path |
| Disk.FileSystem.DirectoryExists | Program.cs:22-32 | true exactly when the directory exists |
| Disk.FileSystem.CreateDirectory | Program.cs:74 | adds the directory and changes nothing else |
| Disk.FileSystem.Delete | Program.cs:103 | removes the file unless the path may not be touched, in which case it fails and changes nothing |
| Disk.FileSystem.Move | Program.cs:111 | moves exactly when the source is there and may be touched, neither a file nor a directory is at the destination, and the destination's directory exists; otherwise fails and changes nothing |
| Disk.FileSystem.ReadAllLines | Program.cs:40 | the file's lines, or nothing when it is missing or may not be read |
| Disk.FileSystem.GetFiles | Program.cs:80 | lists each file directly inside the directory exactly once, and nothing else |
| Organizer.PlaceAsWritten | Program.cs:99-111 | no contract of its own (the placement exactly as the code does it); OverwriteOwnPathLosesFile states its failure on the file's own path |
| Organizer.Place | Program.cs:99-111 | no contract of its own (the corrected placement); PlaceSpares, PlaceMoved, PlaceKeepsContents and Program.MoveInto state it |
| Organizer.Step | Program.cs:84-145 | no contract of its own (one file's step on the state before it); StepDryRun, StepSparesOtherFiles, StepMovedFile, StepFailsExactlyWhen, DirectoryInTheWay and Program.OrganizeFile state it |
| Organizer.DestinationParts | Program.cs:91 | the destination lies in the category folder under the destination directory, with the file's name and extension |
| Organizer.DestinationUnderDestDir | Program.cs:91 | when every key is a plain folder name (no separator, not ".."), every destination of a path with a file name starts with the destination directory followed by a separator, so it lies inside that directory; a path without a file name can at most land on the destination directory itself |
| Organizer.DefaultKeysPlain | Program.cs:60-69 | every built-in key is a plain folder name, so the confinement lemmas apply to the defaults |
| Organizer.StepDryRun | Program.cs:93-96 | a dry-run step only reports the destination: no file is moved or deleted, and only the Others folder may be created |
| Organizer.PlaceSpares | Program.cs:99-111 | a placement removes no file except the one placed and, under --overwrite, the one at its destination |
| Organizer.StepSparesOtherFiles | Program.cs:84-145 | a step leaves every other file where it was, with its contents, except a destination it overwrites |
| Organizer.PlaceMoved | Program.cs:99-111 | a successful placement removes the source and puts its contents at `dst`, or at the unique path when `dst` was taken without --overwrite |
| Organizer.StepMovedFile | Program.cs:84-145 | a moved file's contents end up in its category folder under its own extension, at the planned destination unless that was taken without --overwrite, then at the unique path; the source path is empty |
| Organizer.Ready | Program.cs:82-150 | no contract of its own (the conditions under which a step succeeds); StepFailsExactlyWhen states that a step outside a dry run fails exactly when it does not hold |
| Organizer.StepFailsExactlyWhen | Program.cs:82-150 | outside a dry run a file's step fails exactly when the file is missing or may not be touched, its category folder is missing, a destination to overwrite may not be deleted, or a directory sits where the file would land (the destination, or the unique path when the destination is taken without --overwrite) |
| Organizer.DirectoryInTheWay | Program.cs:99-111 | a directory at the destination makes the step fail, and the file stays where it was |
| Organizer.OwnDestinationExample | Program.cs:91 | when the source directory is a category folder of the destination, a file's destination can be its own path |
| Organizer.OverwriteOwnPathLosesFile | Program.cs:99-111 | as written, overwriting a file with itself deletes it and then fails to move it |
| Organizer.PlaceKeepsContents | Program.cs:99-111 | the corrected placement never loses a file: its contents stay at its path or are at the path it was moved to |
| Organizer.Batch | Program.cs:80-154 | no contract of its own (the steps folded over the listing); BatchCountsEveryFile, BatchOutcomeOf, BatchDryRunMovesNothing, BatchConfined and Program.OrganizeAll state it |
| Organizer.BatchCountsEveryFile | Program.cs:80-154 | every listed file gets exactly one outcome, whatever became of the others |
| Organizer.BatchOutcomeOf | Program.cs:80-154 | the k-th outcome is the step of the k-th file on the state the first k files left |
| Organizer.BatchDryRunMovesNothing | Program.cs:93-96 | a dry run over any listing moves and deletes no file |
| Organizer.BatchConfined | Program.cs:80-154 | when every key is a plain folder name, a file that is not listed and is neither the destination directory nor inside it (its path does not start with the destination directory and a separator, so `out.log` counts as outside `out`) keeps its place and contents |
| Organizer.PrepareDirs | Program.cs:72-75 | no contract of its own (one folder per key); PrepareDirsAdds, PrepareIdempotent and Program.PrepareDestination state it |
| Organizer.TableFor | Program.cs:34-70 | no contract of its own (the configured table, or the defaults); DefaultsWithoutConfig, FatalErrorsChangeNothing and Program.ChooseTable state it |
| Organizer.Run | Program.cs:8-164 | no contract of its own (the whole program on a state, arguments and listing); RunNeedsTwoArguments, DefaultsWithoutConfig, FatalErrorsChangeNothing, RunDryRunMovesNothing, RunCountsEveryFile and Program.Organize state it |
| Organizer.PrepareDirsAdds | Program.cs:72-75 | preparing adds exactly one folder per key under the destination |
| Organizer.PrepareIdempotent | Program.cs:72-75 | preparing an already prepared destination changes nothing |
| Organizer.RunNeedsTwoArguments | Program.cs:10-14 | with fewer than two arguments the state is unchanged and the usage is reported |
| Organizer.DefaultsWithoutConfig | Program.cs:36-69 | without `--config`, or with a trailing one, the built-in table is used |
| Organizer.FatalErrorsChangeNothing | Program.cs:10-56 | a run that stops at usage, a missing directory or an unreadable configuration changes nothing |
| Organizer.RunDryRunMovesNothing | Program.cs:156-158 | a run with `--dry-run` moves and deletes no file |
| Organizer.RunCountsEveryFile | Program.cs:77-153 | a finished run reports one outcome per listed file, so its count of processed files equals the number of listed files |
| Program.GetUniqueFilePath | Program.cs:166-180 | the do-while loop returns the path that `Collision.UniquePath` describes: the first free "stem (N)ext" with N >= 1 |
| Program.LoadCategories | Program.cs:38-56 | the line loop builds exactly the table the configuration's lines define, or nothing when the file cannot be read |
| Program.ChooseTable | Program.cs:34-70 | the configured table when a path was given, otherwise the built-in one |
| Program.PrepareDestination | Program.cs:72-75 | the directories afterwards are the old ones plus one folder per key |
| Program.MoveInto | Program.cs:99-111 | the new state and outcome are those of the corrected placement |
| Program.OrganizeFile | Program.cs:84-145 | the category loop with its early exit, or the Others branch, produces the state and outcome of one step |
| Program.OrganizeAll | Program.cs:80-154 | the loop over the listing produces the state and outcomes of the batch, and its counter, incremented once per file, equals the number of outcomes |
| Program.Organize | Program.cs:8-164 | the listing is the source directory's files, and the final state and report, counter included, are those the whole run defines |

## Left out

- Console output is not modelled: the usage and error messages, the dry-run lines, the progress line and the closing message. `Organizer.Report` and the per-file `Outcome` record which message a run ends with.
- Exception kinds and messages are not modelled. A failing .NET call is modelled by the `locked` set of paths the system refuses, or by the conditions `File.Move` checks. Every failure inside the per-file body becomes the `Failed` outcome.
- Disk.FileSystem.CreateDirectory: adds only the named directory, where `Directory.CreateDirectory` also creates every missing parent. The destination directory is checked to exist (Program.cs:28-32), so with plain folder keys the only parent already exists; a configured key holding '/' (for example `Docs/Old`) would have .NET create `dest/Docs` too, and the model does not add it.
- `Directory.CreateDirectory` is taken always to succeed. The model does not cover it failing, for example because a file already has that name.
- The gap between `File.Exists` and `File.Move` is not modelled, because no other process changes the file system during a run.
- `Directory.GetFiles` is called twice, once for the total and once for the loop. The model uses one listing for both, so the total is its length.
- Paths use one separator, '/'. `Path.Combine` does not treat a rooted second part or a first part that already ends in a separator specially. No path is normalised.
- Paths.Extension: a name ending in '.' has the extension "." here, where .NET returns an empty extension.
- `ToLower` is ASCII-only and `Trim` trims ASCII white space, not the culture-sensitive or full Unicode forms.
- The `Dictionary` keeps its keys in insertion order here, and replacing a key's list keeps that key's position. .NET does not promise this order, so the model assumes it.
- File contents are represented by their lines, because the program reads contents only through `File.ReadAllLines`.
- Program.GetUniqueFilePath: the counter is an unbounded natural, so the 32-bit `int` overflow after 2^31 taken names is not modelled.
- Program.MoveInto: follows the corrected placement, not the code as written; the difference is the row under Findings.
- Organizer.Place: the corrected placement. As written, a file whose `--overwrite` destination is its own path is deleted and the move then fails (Organizer.PlaceAsWritten).
- Organizer.Ready: the success condition of the corrected step. As written, an `--overwrite` step onto the file's own path always fails.
- Organizer.Step: uses the corrected placement, so overwriting a file with itself keeps it instead of losing it.
- Organizer.Batch: uses the corrected placement through Organizer.Step.
- Organizer.Run: uses the corrected placement through Organizer.Batch.
- Organizer.StepFailsExactlyWhen: describes the corrected step, where overwriting a file with itself never fails. As written, that step always fails.
- Program.OrganizeFile: is proved equal to the corrected Organizer.Step.
- Program.OrganizeAll: is proved equal to the corrected Organizer.Batch.
- Program.Organize: is proved equal to the corrected Organizer.Run.
- Organizer.BatchConfined: applies only when every key is a plain folder name. A configured key that is rooted (for example `/tmp`) or is `..` makes `Path.Combine` lead outside the destination, and the model's `Combine` does not capture that.
- Organizer.DestinationUnderDestDir: applies only when every key is a plain folder name, for the same reason.

## Findings

| source | as written | input that shows it | evidently intended | confidence | as-written member | corrected member |
|---|---|---|---|---|---|---|
| Program.cs:99-111 | With `--overwrite`, a file whose destination path is its own path is deleted by `File.Delete`. `File.Move` then fails because the file is gone. The error is caught, and the file is lost. | source directory `dest/Images`, destination `dest`, `--overwrite`, file `dest/Images/a.jpg` | a file already at its destination is left where it is | not executed; the deletion and the failing move follow directly from the two calls | Organizer.OverwriteOwnPathLosesFile | Organizer.PlaceKeepsContents |
