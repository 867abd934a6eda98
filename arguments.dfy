/** Command-line interpretation: positional directories, the two flags and
    the optional configuration path. */
module Arguments {
  import opened Wrappers

  const DryRunFlag := "--dry-run"
  const OverwriteFlag := "--overwrite"
  const ConfigFlag := "--config"

  datatype Options = Options(
    source: string,
    destination: string,
    dryRun: bool,
    overwrite: bool,
    config: Option<string>)

  /** `SkipWhile(arg => arg != flag)`: the suffix of `args` that starts at
      the first `flag`, or empty when there is none. */
  function SkipUntil(args: seq<string>, flag: string): (rest: seq<string>)
    ensures |rest| <= |args| && rest == args[|args| - |rest|..]
    ensures rest == [] || rest[0] == flag
    ensures flag !in args[..|args| - |rest|]
  {
    if args == [] || args[0] == flag then args
    else
      var rest := SkipUntil(args[1..], flag);
      assert args[..|args| - |rest|] == [args[0]] + args[1..][..|args| - 1 - |rest|];
      rest
  }

  /** The configuration path: the token after the first "--config", taken as
      absent when there is none or when it is empty. */
  function ConfigPath(args: seq<string>): (r: Option<string>)
    ensures r.Some? ==> r.value != ""
  {
    var rest := SkipUntil(args, ConfigFlag);
    if |rest| >= 2 && rest[1] != "" then Some(rest[1]) else None
  }

  /** With fewer than two arguments there is nothing to run; otherwise the
      first two are the directories and the flags are looked for anywhere
      in the list. */
  function ParseArgs(args: seq<string>): (r: Option<Options>)
    ensures r.None? <==> |args| < 2
    ensures r.Some? ==> r.value.source == args[0] && r.value.destination == args[1]
    ensures r.Some? ==> r.value.dryRun == (DryRunFlag in args) && r.value.overwrite == (OverwriteFlag in args)
    ensures r.Some? ==> r.value.config == ConfigPath(args)
  {
    if |args| < 2 then None
    else Some(Options(args[0], args[1], DryRunFlag in args, OverwriteFlag in args, ConfigPath(args)))
  }

  /** The configuration path is the token right after the first "--config",
      unless that flag is last or is followed by an empty token. */
  lemma ConfigPathAfterFirstFlag(args: seq<string>, i: nat)
    requires i < |args| && args[i] == ConfigFlag && ConfigFlag !in args[..i]
    ensures ConfigPath(args) == if i + 1 < |args| && args[i + 1] != "" then Some(args[i + 1]) else None
  {
    var rest := SkipUntil(args, ConfigFlag);
    var s := |args| - |rest|;
    assert rest == args[i..];
  }

  /** Without a "--config" token there is no configuration path. */
  lemma ConfigPathWithoutFlag(args: seq<string>)
    requires ConfigFlag !in args
    ensures ConfigPath(args) == None
  {
  }

  /** A trailing "--config" is tolerated and means the defaults are used. */
  lemma DanglingConfigFlag(args: seq<string>)
    requires |args| >= 1 && args[|args| - 1] == ConfigFlag && ConfigFlag !in args[..|args| - 1]
    ensures ConfigPath(args) == None
  {
    ConfigPathAfterFirstFlag(args, |args| - 1);
  }
}
