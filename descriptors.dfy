/** Localized resources. Their translated text is outside this model: each resource is stood
    for by its (non-empty) resource name. */
module LocalizableStrings {
  const CmdSourceOptionDescription := "CmdSourceOptionDescription"
  const CmdPackagesOptionDescription := "CmdPackagesOptionDescription"
  const CmdCurrentRuntimeOptionDescription := "CmdCurrentRuntimeOptionDescription"
  const CmdDisableParallelOptionDescription := "CmdDisableParallelOptionDescription"
  const CmdConfigFileOptionDescription := "CmdConfigFileOptionDescription"
  const CmdNoCacheOptionDescription := "CmdNoCacheOptionDescription"
  const CmdIgnoreFailedSourcesOptionDescription := "CmdIgnoreFailedSourcesOptionDescription"
  const CmdForceRestoreOptionDescription := "CmdForceRestoreOptionDescription"
  const CmdRuntimeOptionDescription := "CmdRuntimeOptionDescription"
  const CmdNoDependenciesOptionDescription := "CmdNoDependenciesOptionDescription"
  const CmdUseLockFileOptionDescription := "CmdUseLockFileOptionDescription"
  const CmdLockedModeOptionDescription := "CmdLockedModeOptionDescription"
  const CmdLockFilePathOptionDescription := "CmdLockFilePathOptionDescription"
  const CmdReevaluateOptionDescription := "CmdReevaluateOptionDescription"
  const AppFullName := "AppFullName"
}

/** The resources shared by all `dotnet` commands, stood for by their resource names like
    the restore command's own. */
module CommonLocalizableStrings {
  const SolutionOrProjectArgumentName := "SolutionOrProjectArgumentName"
  const SolutionOrProjectArgumentDescription := "SolutionOrProjectArgumentDescription"
}

/** The shape of a command-line option or argument as the restore parser declares it. */
module Descriptors {
  import opened Forwarding

  /** How many values an argument takes: set explicitly to one or more (sources, runtimes) or
      zero or more (the positional projects), or left at the parsing library's default for the
      option's value type. */
  datatype Arity = LibraryDefault | ZeroOrMore | OneOrMore

  /** The C# value type of an option: `Option<bool>`, `Option<string>`, `Option<IEnumerable<string>>`. */
  datatype ValueKind = Flag | Text | Texts

  /** Options whose construction lives in `CommonOptions`, a file outside this model: only
      their position in an option list is known here. `CurrentRuntime` records the
      description the restore parser hands to it. */
  datatype CommonOption =
    | CurrentRuntime(description: string)
    | Properties
    | Verbosity
    | InteractiveMsBuildForward

  /** One entry of an option list: an option declared in the restore parser, with its
      aliases (short form first), value kind, arity, visibility, help text and forwarding
      rule; or a shared option built elsewhere. */
  datatype Descriptor =
    | Declared(aliases: seq<string>, kind: ValueKind, arity: Arity, hidden: bool,
               description: string, forward: Rule)
    | Common(which: CommonOption)

  /** What identifies an entry of an option list: the canonical (last, long) alias of a
      declared option, or which shared option it is. */
  datatype Key = Long(alias: string) | Shared(which: CommonOption)

  function KeyOf(d: Descriptor): (k: Key)
  {
    match d
    case Declared(aliases, _, _, _, _, _) => Long(if aliases == [] then "" else aliases[|aliases| - 1])
    case Common(which) => Shared(which)
  }

  /** The identities of an option list, position by position. */
  function Keys(options: seq<Descriptor>): (keys: seq<Key>)
  {
    seq(|options|, i requires 0 <= i < |options| => KeyOf(options[i]))
  }

  /** The declared option at index `i` answers to `alias`. */
  predicate HasAliasAt(options: seq<Descriptor>, i: int, alias: string)
  {
    0 <= i < |options| && options[i].Declared? && alias in options[i].aliases
  }

  /** Some declared option of the list answers to `alias`. */
  predicate HasAlias(options: seq<Descriptor>, alias: string)
  {
    exists i :: 0 <= i < |options| && HasAliasAt(options, i, alias)
  }

  /** A positional argument: its display name, help text and arity. */
  datatype Argument = Argument(name: string, description: string, arity: Arity)
}
