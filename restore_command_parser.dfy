/** `RestoreCommandParser`: the option lists of `dotnet restore`, and of the commands that
    restore implicitly before they run (build, pack, run, ...). */
module RestoreCommandParser {
  import opened Forwarding
  import opened Descriptors
  import opened CommandLine
  import L = LocalizableStrings
  import C = CommonLocalizableStrings

  /** The positional `<PROJECT | SOLUTION>` argument: any number of project or solution paths. */
  function SlnOrProjectArgument(): (a: Argument)
    ensures a.arity == ZeroOrMore && a.name != "" && a.description != ""
  {
    Argument(C.SolutionOrProjectArgumentName, C.SolutionOrProjectArgumentDescription, ZeroOrMore)
  }

  /** Help text that is shown only when help is shown. */
  function HelpText(showHelp: bool, text: string): (t: string)
  {
    if showHelp then text else ""
  }

  /** The aliases of an option that has a short form only when short options are wanted. */
  function WithShort(useShortOptions: bool, short: string, long: string): (aliases: seq<string>)
  {
    if useShortOptions then [short, long] else [long]
  }

  // The options declared in the implicit set, in declaration order.

  function SourceOption(showHelp: bool, useShortOptions: bool): (d: Descriptor)
  {
    Declared(WithShort(useShortOptions, "-s", "--source"), Texts, OneOrMore, !showHelp,
             HelpText(showHelp, L.CmdSourceOptionDescription), Joined("RestoreSources"))
  }

  function PackagesOption(showHelp: bool): (d: Descriptor)
  {
    Declared(["--packages"], Text, LibraryDefault, !showHelp,
             HelpText(showHelp, L.CmdPackagesOptionDescription), Single("RestorePackagesPath", true))
  }

  const CurrentRuntimeOption: Descriptor := Common(CurrentRuntime(L.CmdCurrentRuntimeOptionDescription))

  function DisableParallelOption(showHelp: bool): (d: Descriptor)
  {
    Declared(["--disable-parallel"], Flag, LibraryDefault, !showHelp,
             HelpText(showHelp, L.CmdDisableParallelOptionDescription),
             Const("-property:RestoreDisableParallel=true"))
  }

  function ConfigFileOption(showHelp: bool): (d: Descriptor)
  {
    Declared(["--configfile"], Text, LibraryDefault, !showHelp,
             HelpText(showHelp, L.CmdConfigFileOptionDescription), Single("RestoreConfigFile", true))
  }

  function NoCacheOption(showHelp: bool): (d: Descriptor)
  {
    Declared(["--no-cache"], Flag, LibraryDefault, !showHelp,
             HelpText(showHelp, L.CmdNoCacheOptionDescription), Const("-property:RestoreNoCache=true"))
  }

  function IgnoreFailedSourcesOption(showHelp: bool): (d: Descriptor)
  {
    Declared(["--ignore-failed-sources"], Flag, LibraryDefault, !showHelp,
             HelpText(showHelp, L.CmdIgnoreFailedSourcesOptionDescription),
             Const("-property:RestoreIgnoreFailedSources=true"))
  }

  /** Hidden without help, but its description is never blanked. */
  function ForceOption(showHelp: bool, useShortOptions: bool): (d: Descriptor)
  {
    Declared(WithShort(useShortOptions, "-f", "--force"), Flag, LibraryDefault, !showHelp,
             L.CmdForceRestoreOptionDescription, Const("-property:RestoreForce=true"))
  }

  const PropertiesOption: Descriptor := Common(Properties)

  /** Hidden without help, but its description is never blanked. */
  function RuntimeOption(showHelp: bool, useShortOptions: bool): (d: Descriptor)
  {
    Declared(WithShort(useShortOptions, "-r", "--runtime"), Texts, OneOrMore, !showHelp,
             L.CmdRuntimeOptionDescription, Joined("RuntimeIdentifiers"))
  }

  /** Hidden without help, but its description is never blanked. */
  function NoDependenciesOption(showHelp: bool): (d: Descriptor)
  {
    Declared(["--no-dependencies"], Flag, LibraryDefault, !showHelp,
             L.CmdNoDependenciesOptionDescription, Const("-property:RestoreRecursive=false"))
  }

  /** The nine options every implicit set starts with. */
  function Baseline(showHelp: bool, useShortOptions: bool): (options: seq<Descriptor>)
  {
    [ SourceOption(showHelp, useShortOptions),
      PackagesOption(showHelp),
      CurrentRuntimeOption,
      DisableParallelOption(showHelp),
      ConfigFileOption(showHelp),
      NoCacheOption(showHelp),
      IgnoreFailedSourcesOption(showHelp),
      ForceOption(showHelp, useShortOptions),
      PropertiesOption ]
  }

  /** The implicit restore options as a value: the baseline, then `--runtime` if asked for,
      then `--no-dependencies` if asked for. */
  function ImplicitSet(showHelp: bool, useShortOptions: bool, includeRuntimeOption: bool,
                       includeNoDependenciesOption: bool): (options: seq<Descriptor>)
    ensures |options| == 9 + (if includeRuntimeOption then 1 else 0) + (if includeNoDependenciesOption then 1 else 0)
  {
    Baseline(showHelp, useShortOptions)
    + (if includeRuntimeOption then [RuntimeOption(showHelp, useShortOptions)] else [])
    + (if includeNoDependenciesOption then [NoDependenciesOption(showHelp)] else [])
  }

  /** `ImplicitRestoreOptions`: start from the baseline array and append the conditional
      options to it one `if` at a time. */
  method ImplicitRestoreOptions(showHelp: bool, useShortOptions: bool, includeRuntimeOption: bool,
                                includeNoDependenciesOption: bool)
    returns (options: seq<Descriptor>)
    ensures options == ImplicitSet(showHelp, useShortOptions, includeRuntimeOption, includeNoDependenciesOption)
  {
    options := Baseline(showHelp, useShortOptions);
    if includeRuntimeOption {
      options := options + [RuntimeOption(showHelp, useShortOptions)];
    }
    if includeNoDependenciesOption {
      options := options + [NoDependenciesOption(showHelp)];
    }
  }

  /** The options only `dotnet restore` itself has, after its implicit set. Always visible. */
  const FullOnlyOptions: seq<Descriptor> :=
    [ Common(Verbosity),
      Common(InteractiveMsBuildForward),
      Declared(["--use-lock-file"], Flag, LibraryDefault, false, L.CmdUseLockFileOptionDescription,
               Const("-property:RestorePackagesWithLockFile=true")),
      Declared(["--locked-mode"], Flag, LibraryDefault, false, L.CmdLockedModeOptionDescription,
               Const("-property:RestoreLockedMode=true")),
      Declared(["--lock-file-path"], Text, LibraryDefault, false, L.CmdLockFilePathOptionDescription,
               Single("NuGetLockFilePath", false)),
      Declared(["--force-evaluate"], Flag, LibraryDefault, false, L.CmdReevaluateOptionDescription,
               Const("-property:RestoreForceEvaluate=true")) ]

  /** `FullRestoreOptions`: the implicit set with every flag on, followed by the full-only options. */
  function FullRestoreOptions(): (options: seq<Descriptor>)
    ensures |options| == 17
    ensures options[..11] == ImplicitSet(true, true, true, true)
  {
    ImplicitSet(true, true, true, true) + FullOnlyOptions
  }

  /** `GetCommand`: the `restore` command with its positional argument and the full option set. */
  method GetCommand() returns (command: Command)
    ensures fresh(command)
    ensures command.name == "restore" && command.description == L.AppFullName
    ensures command.arguments == [SlnOrProjectArgument()]
    ensures command.options == FullRestoreOptions()
  {
    command := new Command("restore", L.AppFullName);
    command.AddArgument(SlnOrProjectArgument());
    var full := FullRestoreOptions();
    for i := 0 to |full|
      invariant command.arguments == [SlnOrProjectArgument()]
      invariant command.options == full[..i]
    {
      command.AddOption(full[i]);
    }
  }

  /** `AddImplicitRestoreOptions`: another command takes on the implicit restore options,
      after the options it already has. */
  method AddImplicitRestoreOptions(command: Command, showHelp: bool := false, useShortOptions: bool := false,
                                   includeRuntimeOption: bool := true, includeNoDependenciesOption: bool := true)
    modifies command
    ensures command.options
         == old(command.options) + ImplicitSet(showHelp, useShortOptions, includeRuntimeOption, includeNoDependenciesOption)
    ensures command.arguments == old(command.arguments)
  {
    var implicitOptions := ImplicitRestoreOptions(showHelp, useShortOptions, includeRuntimeOption, includeNoDependenciesOption);
    for i := 0 to |implicitOptions|
      invariant command.options == old(command.options) + implicitOptions[..i]
      invariant command.arguments == old(command.arguments)
    {
      command.AddOption(implicitOptions[i]);
    }
  }
}
