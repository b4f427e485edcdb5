# Restore option composition of the .NET CLI

This project models how `dotnet restore` and the commands that restore implicitly (build,
pack, run, ...) compose their restore options, in `RestoreCommandParser`:

- `ImplicitRestoreOptions(showHelp, useShortOptions, includeRuntimeOption, includeNoDependenciesOption)`
  builds the ordered list of restore options. There are nine baseline options. `--runtime` and
  `--no-dependencies` are appended under two `if`s. The flags decide aliases, visibility and help text.
- `FullRestoreOptions()` is that list with every flag on, followed by six options that only
  `restore` itself has.
- `GetCommand()` builds the `restore` command: its positional project/solution argument, then the full
  option list, added one option at a time.
- `AddImplicitRestoreOptions(command, ...)` appends the implicit list to another command.

Each option built in the file carries a forwarding template that turns its bound value into the
one `-property:Name=value` token passed to MSBuild. Multi-valued options (`--source`,
`--runtime`) join their values with the percent-encoded semicolon `%3B`.

Files:

- `forwarding.dfy` (module `Forwarding`): the forwarding templates (`Rule`, `Render`), `Join`,
  `Split` (which undoes `Join` for values free of `%3B`), and the round-trip lemmas.
- `descriptors.dfy` (modules `LocalizableStrings`, `CommonLocalizableStrings`, `Descriptors`): the option descriptor,
  arity, value kinds, the shared `CommonOptions` entries and the positional argument.
- `command.dfy` (module `CommandLine`): the `Command` class whose argument and option lists are
  appended to.
- `restore_command_parser.dfy` (module `RestoreCommandParser`): the option builders,
  `ImplicitSet` (the implicit list as a value), the `ImplicitRestoreOptions` method,
  `FullRestoreOptions`, `GetCommand` and `AddImplicitRestoreOptions`.
- `restore_properties.dfy` (module `RestoreProperties`): what the lists look like for every
  combination of the four flags.

## Notes on the code

- After verbosity and interactive, the full set adds four options: `--use-lock-file`,
  `--locked-mode`, `--lock-file-path` and `--force-evaluate`.
- The shared current-runtime option is third in the baseline.
- The descriptions of `--force`, `--runtime` and `--no-dependencies` are never blanked, even
  when those options are hidden. So visibility and an empty description do not always agree.
- The forwarding of a single-value option has no error path for several values.

## Model

| member | source | states |
|---|---|---|
| RestoreCommandParser.SlnOrProjectArgument | src/Cli/dotnet/commands/dotnet-restore/RestoreCommandParser.cs:14-18 | the positional project/solution argument takes zero or more values and has a non-empty name and description |
| RestoreCommandParser.ImplicitSet | src/Cli/dotnet/commands/dotnet-restore/RestoreCommandParser.cs:69-147 | the implicit list has 9 options plus one for each of `--runtime` and `--no-dependencies` that is included; order, aliases, visibility, help text, arity and forwarding are the lemmas of `RestoreProperties` about it |
| RestoreCommandParser.FullRestoreOptions | src/Cli/dotnet/commands/dotnet-restore/RestoreCommandParser.cs:20-43 | the full set has 17 options and starts with the implicit list built with every flag on |
| RestoreCommandParser.ImplicitRestoreOptions | src/Cli/dotnet/commands/dotnet-restore/RestoreCommandParser.cs:67-148 | growing the baseline under the two `if`s yields exactly the implicit list `ImplicitSet` for those flags |
| RestoreCommandParser.GetCommand | src/Cli/dotnet/commands/dotnet-restore/RestoreCommandParser.cs:45-57 | a fresh command named `restore` whose only argument is the zero-or-more project/solution argument and whose options are the full set in order |
| RestoreCommandParser.AddImplicitRestoreOptions | src/Cli/dotnet/commands/dotnet-restore/RestoreCommandParser.cs:59-65 | the command's options become its old options followed by the implicit list for the given flags (defaults: hidden, long aliases, runtime and no-dependencies included); its arguments are unchanged |
| CommandLine.Command.constructor | src/Cli/dotnet/commands/dotnet-restore/RestoreCommandParser.cs:47 | a command with the given name and description and nothing attached |
| CommandLine.Command.AddArgument | src/Cli/dotnet/commands/dotnet-restore/RestoreCommandParser.cs:49 | the argument is appended; options unchanged |
| CommandLine.Command.AddOption | src/Cli/dotnet/commands/dotnet-restore/RestoreCommandParser.cs:53 | the option is appended; arguments unchanged |
| RestoreProperties.ImplicitLayout | src/Cli/dotnet/commands/dotnet-restore/RestoreCommandParser.cs:69-147 | the implicit list is the nine baseline options in their fixed order, then `--runtime` exactly when included, then `--no-dependencies` exactly when included; its length is 9 + [runtime] + [no-dependencies] |
| RestoreProperties.ConditionalPresence | src/Cli/dotnet/commands/dotnet-restore/RestoreCommandParser.cs:120-145 | some declared option answers to `--runtime` iff the runtime option is included, to `-r` iff it is included with short options, to `--no-dependencies` iff that option is included: an excluded option is absent, not hidden |
| RestoreProperties.ImplicitAliases | src/Cli/dotnet/commands/dotnet-restore/RestoreCommandParser.cs:71-124 | every declared option has its long alias, preceded by its short form `-s`, `-f` or `-r` exactly when short options are asked for; the other options never have a short form |
| RestoreProperties.ImplicitVisibility | src/Cli/dotnet/commands/dotnet-restore/RestoreCommandParser.cs:75-142 | every declared option of the implicit list is hidden exactly when help is not shown |
| RestoreProperties.ImplicitDescriptions | src/Cli/dotnet/commands/dotnet-restore/RestoreCommandParser.cs:72-140 | a declared option's help text is empty iff help is not shown and it is one of source, packages, disable-parallel, configfile, no-cache, ignore-failed-sources; force, runtime and no-dependencies always keep theirs |
| RestoreProperties.ImplicitForwarding | src/Cli/dotnet/commands/dotnet-restore/RestoreCommandParser.cs:69-147 | for every combination of the four flags, each declared option of the implicit list forwards what an independent table gives for its long alias: flags their fixed `-property:...=true` token (`RestoreRecursive=false` for `--no-dependencies`); `--source` and `--runtime` a `%3B`-joined value; `--packages` and `--configfile` a full-path-resolved value; flag options are exactly the `bool` options |
| RestoreProperties.ImplicitArity | src/Cli/dotnet/commands/dotnet-restore/RestoreCommandParser.cs:74-127 | for every combination of the four flags, `--source` and `--runtime` take one or more values and every other declared option keeps the parsing library's default arity |
| RestoreProperties.FlagTokensRendered | src/Cli/dotnet/commands/dotnet-restore/RestoreCommandParser.cs:86-143 | for every combination of the four flags, each flag option's template in the implicit list renders exactly its table token |
| RestoreProperties.ValueTokensRendered | src/Cli/dotnet/commands/dotnet-restore/RestoreCommandParser.cs:78-98 | for every combination of the four flags, a single-value option of the implicit list renders `-property:` + its tabled property + `=` + the value, resolved by `GetFullPath` for `--packages` and `--configfile` |
| RestoreProperties.FullForwarding | src/Cli/dotnet/commands/dotnet-restore/RestoreCommandParser.cs:20-143 | each declared option of the full set forwards what the same table gives (the implicit part by `ImplicitForwarding`, plus `--use-lock-file`, `--locked-mode`, `--force-evaluate` as fixed tokens and `--lock-file-path` as the value as is) and has the arity `ImplicitArity` describes |
| RestoreProperties.FullLayout | src/Cli/dotnet/commands/dotnet-restore/RestoreCommandParser.cs:20-43 | the full set has 17 options: the implicit list with every flag on, then verbosity, interactive, `--use-lock-file`, `--locked-mode`, `--lock-file-path`, `--force-evaluate`; the four full-only declared options are visible and described |
| RestoreProperties.FullAliases | src/Cli/dotnet/commands/dotnet-restore/RestoreCommandParser.cs:20-43 | every declared option of the full set has exactly its long alias, preceded by `-s`, `-f` or `-r` for source, force and runtime; `--use-lock-file`, `--locked-mode`, `--lock-file-path` and `--force-evaluate` have that one alias only |
| RestoreProperties.FullAliasesDistinct | src/Cli/dotnet/commands/dotnet-restore/RestoreCommandParser.cs:20-43 | no two declared options of the full set answer to the same alias |
| RestoreProperties.SourceScenario | src/Cli/dotnet/commands/dotnet-restore/RestoreCommandParser.cs:70-77 | with help and short options the first option is `-s`/`--source`, one-or-more, visible and described, and two sources forward the single token `-property:RestoreSources=https://a%3Bhttps://b` |
| RestoreProperties.MultiValueRoundTrip | src/Cli/dotnet/commands/dotnet-restore/RestoreCommandParser.cs:120-132 | for any flags, every multi-valued option of the implicit list forwards a single joined token whose value part splits back into the bound values (at least one value, none holding `%3B`) |
| RestoreProperties.DefaultImplicitSet | src/Cli/dotnet/commands/dotnet-restore/RestoreCommandParser.cs:59 | with the default flags the list has 11 options, no short alias, and every declared option hidden |
| Forwarding.Render | src/Cli/dotnet/commands/dotnet-restore/RestoreCommandParser.cs:28-143 | a fixed-token rule yields its token; a single-value or joined rule yields `-property:Name=` followed by the value part, which is the value unchanged, the value resolved by `GetFullPath`, or the `%3B` join of the values, as the rule says |
| Forwarding.Join | src/Cli/dotnet/commands/dotnet-restore/RestoreCommandParser.cs:76 | `string.Join("%3B", values)` starts with the first value and is the values' total length plus three characters per gap |
| Forwarding.SplitJoin | src/Cli/dotnet/commands/dotnet-restore/RestoreCommandParser.cs:76 | splitting on `%3B` what `string.Join("%3B", values)` produced gives back the values, for at least one value and no value containing `%3B` |
| Forwarding.JoinedTokenRoundTrip | src/Cli/dotnet/commands/dotnet-restore/RestoreCommandParser.cs:130 | a joined rule's token starts with `-property:Name=` and the rest splits back into the values |
| Forwarding.JoinLosesEmbeddedSep | src/Cli/dotnet/commands/dotnet-restore/RestoreCommandParser.cs:76 | the join does not escape: the single value `a%3Bb` comes back as the two values `a` and `b` |

## Left out

- The parsing library (System.CommandLine) is left out. That covers tokenizing, arity
  enforcement, `AllowSingleArgPerToken` and the runtime suggestions from
  `Suggest.RunTimesFromProjectFile`. Arity is kept only as data on each descriptor. `Command`
  is modelled only as lists that its `AddArgument` and `AddOption` append to.
- `ForwardAs` and `ForwardAsSingle` are defined outside this file. `Forwarding.Render` gives
  the token text a template produces for a value. Whether a token is emitted when the option
  is absent, or when a flag is false, is not modelled.
- `CommonOptions.CurrentRuntimeOption`, `PropertiesOption`, `VerbosityOption` and
  `InteractiveMsBuildForwardOption` are built in a file outside this model. They appear as
  `Common` entries holding their position only. Their aliases, visibility and forwarding are
  unknown, so the alias, visibility and forwarding lemmas speak of declared options only.
- `CommandDirectoryContext.GetFullPath` is a file-system lookup. It is the `fullPath`
  parameter of `Render`.
- Localized strings are each stood for by their resource name, a non-empty string. The
  display names given to option arguments (`CmdSourceOption`, `CmdPackagesOption`, ...) are
  not kept on the descriptors.
- Duplicate-alias detection is not done by this code and is not modelled.
  `FullAliasesDistinct` shows that no two options declared in this file share an alias; the
  aliases of the shared `CommonOptions` entries are unknown.
- The restore command's description `AppFullName` is modelled as a resource name only.
