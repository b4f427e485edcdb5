/** What the restore parser's option lists look like, for every combination of its four flags:
    order, presence, aliases, visibility, help text and forwarded tokens. */
module RestoreProperties {
  import opened Forwarding
  import opened Descriptors
  import opened RestoreCommandParser
  import L = LocalizableStrings

  /** The identities of the baseline, in declaration order. */
  const BaselineKeys: seq<Key> :=
    [ Long("--source"), Long("--packages"), Shared(CurrentRuntime(L.CmdCurrentRuntimeOptionDescription)),
      Long("--disable-parallel"), Long("--configfile"), Long("--no-cache"),
      Long("--ignore-failed-sources"), Long("--force"), Shared(Properties) ]

  /** The identities of the options only the `restore` command itself has, in order. */
  const FullOnlyKeys: seq<Key> :=
    [ Shared(Verbosity), Shared(InteractiveMsBuildForward), Long("--use-lock-file"),
      Long("--locked-mode"), Long("--lock-file-path"), Long("--force-evaluate") ]

  /** The options that have a one-letter short form. */
  const ShortForms: map<string, string> := map["--source" := "-s", "--force" := "-f", "--runtime" := "-r"]

  /** The options whose help text is blanked when help is not shown. */
  const BlankableDescriptions: set<string> :=
    {"--source", "--packages", "--disable-parallel", "--configfile", "--no-cache", "--ignore-failed-sources"}

  /** The MSBuild property assignment each flag option forwards. */
  const FlagTokens: map<string, string> :=
    map[ "--disable-parallel" := "-property:RestoreDisableParallel=true",
         "--no-cache" := "-property:RestoreNoCache=true",
         "--ignore-failed-sources" := "-property:RestoreIgnoreFailedSources=true",
         "--force" := "-property:RestoreForce=true",
         "--no-dependencies" := "-property:RestoreRecursive=false",
         "--use-lock-file" := "-property:RestorePackagesWithLockFile=true",
         "--locked-mode" := "-property:RestoreLockedMode=true",
         "--force-evaluate" := "-property:RestoreForceEvaluate=true" ]

  /** The MSBuild property each value-carrying option assigns, and whether its values are
      joined (several values) and whether the value is resolved to a full path first. */
  const ValueProperties: map<string, (string, bool, bool)> :=
    map[ "--source" := ("RestoreSources", true, false),
         "--packages" := ("RestorePackagesPath", false, true),
         "--configfile" := ("RestoreConfigFile", false, true),
         "--runtime" := ("RuntimeIdentifiers", true, false),
         "--lock-file-path" := ("NuGetLockFilePath", false, false) ]

  function Count(b: bool): (n: nat) { if b then 1 else 0 }

  /** The aliases a declared option with canonical alias `long` should carry. */
  function ExpectedAliases(long: string, useShortOptions: bool): (aliases: seq<string>)
  {
    if useShortOptions && long in ShortForms then [ShortForms[long], long] else [long]
  }

  /** The implicit set is the baseline in its fixed order, then `--runtime` exactly when it is
      asked for, then `--no-dependencies` exactly when it is asked for. */
  lemma ImplicitLayout(showHelp: bool, useShortOptions: bool, includeRuntimeOption: bool,
                       includeNoDependenciesOption: bool)
    ensures var r := ImplicitSet(showHelp, useShortOptions, includeRuntimeOption, includeNoDependenciesOption);
      |r| == 9 + Count(includeRuntimeOption) + Count(includeNoDependenciesOption) &&
      Keys(r) == BaselineKeys
                 + (if includeRuntimeOption then [Long("--runtime")] else [])
                 + (if includeNoDependenciesOption then [Long("--no-dependencies")] else [])
  {
  }

  /** A declared option's canonical alias decides where it sits in the implicit set: the
      aliases of the baseline are none of `--runtime`, `-r`, `--no-dependencies`. */
  lemma BaselineLacksConditional(showHelp: bool, useShortOptions: bool, alias: string)
    requires alias in {"--runtime", "-r", "--no-dependencies"}
    ensures !HasAlias(Baseline(showHelp, useShortOptions), alias)
  {
    var b := Baseline(showHelp, useShortOptions);
    forall i | 0 <= i < |b|
      ensures !HasAliasAt(b, i, alias)
    {
    }
  }

  /** An alias is answered to by a concatenation exactly when it is by one of the parts. */
  lemma HasAliasAppend(a: seq<Descriptor>, b: seq<Descriptor>, alias: string)
    ensures HasAlias(a + b, alias) <==> HasAlias(a, alias) || HasAlias(b, alias)
  {
    if HasAlias(a + b, alias) {
      var i :| 0 <= i < |a + b| && HasAliasAt(a + b, i, alias);
      if i < |a| {
        assert HasAliasAt(a, i, alias);
      } else {
        assert HasAliasAt(b, i - |a|, alias);
      }
    }
    if HasAlias(a, alias) {
      var i :| 0 <= i < |a| && HasAliasAt(a, i, alias);
      assert HasAliasAt(a + b, i, alias);
    }
    if HasAlias(b, alias) {
      var i :| 0 <= i < |b| && HasAliasAt(b, i, alias);
      assert HasAliasAt(a + b, |a| + i, alias);
    }
  }

  /** A conditional option is absent, not merely hidden, when its flag is off: some declared
      option answers to `--runtime` exactly when the runtime option is included, to `-r`
      exactly when it is included with short options, and to `--no-dependencies` exactly when
      that option is included. */
  lemma ConditionalPresence(showHelp: bool, useShortOptions: bool, includeRuntimeOption: bool,
                            includeNoDependenciesOption: bool)
    ensures var r := ImplicitSet(showHelp, useShortOptions, includeRuntimeOption, includeNoDependenciesOption);
      (HasAlias(r, "--runtime") <==> includeRuntimeOption) &&
      (HasAlias(r, "-r") <==> includeRuntimeOption && useShortOptions) &&
      (HasAlias(r, "--no-dependencies") <==> includeNoDependenciesOption)
  {
    var b := Baseline(showHelp, useShortOptions);
    var rt := if includeRuntimeOption then [RuntimeOption(showHelp, useShortOptions)] else [];
    var nd := if includeNoDependenciesOption then [NoDependenciesOption(showHelp)] else [];
    forall alias | alias in {"--runtime", "-r", "--no-dependencies"}
      ensures HasAlias(b + rt + nd, alias) <==> HasAlias(rt, alias) || HasAlias(nd, alias)
    {
      BaselineLacksConditional(showHelp, useShortOptions, alias);
      HasAliasAppend(b, rt, alias);
      HasAliasAppend(b + rt, nd, alias);
    }
    assert HasAlias(rt, "--runtime") <==> includeRuntimeOption by {
      if includeRuntimeOption { assert HasAliasAt(rt, 0, "--runtime"); }
    }
    assert HasAlias(rt, "-r") <==> includeRuntimeOption && useShortOptions by {
      if includeRuntimeOption && useShortOptions { assert HasAliasAt(rt, 0, "-r"); }
    }
    assert HasAlias(nd, "--no-dependencies") <==> includeNoDependenciesOption by {
      if includeNoDependenciesOption { assert HasAliasAt(nd, 0, "--no-dependencies"); }
    }
    assert !HasAlias(rt, "--no-dependencies");
    assert !HasAlias(nd, "--runtime") && !HasAlias(nd, "-r");
  }

  /** A declared option carries its canonical long alias, preceded by its short form exactly
      when short options are asked for and it has one. */
  predicate AliasesAsExpected(d: Descriptor, useShortOptions: bool)
  {
    d.Declared? ==> d.aliases == ExpectedAliases(KeyOf(d).alias, useShortOptions)
  }

  /** Every option declared in the implicit set carries its canonical long alias, preceded by
      its short form (`-s`, `-f`, `-r`) exactly when short options are asked for. */
  lemma ImplicitAliases(showHelp: bool, useShortOptions: bool, includeRuntimeOption: bool,
                        includeNoDependenciesOption: bool)
    ensures forall d :: d in ImplicitSet(showHelp, useShortOptions, includeRuntimeOption, includeNoDependenciesOption)
              ==> AliasesAsExpected(d, useShortOptions)
  {
    var h, s := showHelp, useShortOptions;
    assert AliasesAsExpected(SourceOption(h, s), s);
    assert AliasesAsExpected(PackagesOption(h), s);
    assert AliasesAsExpected(DisableParallelOption(h), s);
    assert AliasesAsExpected(ConfigFileOption(h), s);
    assert AliasesAsExpected(NoCacheOption(h), s);
    assert AliasesAsExpected(IgnoreFailedSourcesOption(h), s);
    assert AliasesAsExpected(ForceOption(h, s), s);
    assert AliasesAsExpected(RuntimeOption(h, s), s);
    assert AliasesAsExpected(NoDependenciesOption(h), s);
  }

  /** Every option declared in the implicit set is hidden exactly when help is not shown. */
  lemma ImplicitVisibility(showHelp: bool, useShortOptions: bool, includeRuntimeOption: bool,
                           includeNoDependenciesOption: bool)
    ensures forall d :: (d in ImplicitSet(showHelp, useShortOptions, includeRuntimeOption, includeNoDependenciesOption)
                         && d.Declared?) ==> d.hidden == !showHelp
  {
  }

  /** Help text is empty exactly when help is not shown, for the six blankable options. */
  predicate DescriptionAsExpected(d: Descriptor, showHelp: bool)
  {
    d.Declared? ==> (d.description == "" <==> !showHelp && KeyOf(d).alias in BlankableDescriptions)
  }

  /** The six blankable options lose their help text exactly when help is not shown. */
  lemma BlankableDescriptionsFollowHelp(h: bool, s: bool)
    ensures DescriptionAsExpected(SourceOption(h, s), h) && DescriptionAsExpected(PackagesOption(h), h)
    ensures DescriptionAsExpected(DisableParallelOption(h), h) && DescriptionAsExpected(ConfigFileOption(h), h)
    ensures DescriptionAsExpected(NoCacheOption(h), h) && DescriptionAsExpected(IgnoreFailedSourcesOption(h), h)
  {
    assert DescriptionAsExpected(SourceOption(h, s), h);
    assert DescriptionAsExpected(PackagesOption(h), h);
    assert DescriptionAsExpected(DisableParallelOption(h), h);
    assert DescriptionAsExpected(ConfigFileOption(h), h);
    assert DescriptionAsExpected(NoCacheOption(h), h);
  }

  /** Force, runtime and no-dependencies keep their help text whether or not help is shown. */
  lemma KeptDescriptionsNeverBlank(h: bool, s: bool)
    ensures DescriptionAsExpected(ForceOption(h, s), h) && DescriptionAsExpected(RuntimeOption(h, s), h)
    ensures DescriptionAsExpected(NoDependenciesOption(h), h)
  {
    assert DescriptionAsExpected(ForceOption(h, s), h);
    assert DescriptionAsExpected(RuntimeOption(h, s), h);
  }

  /** Help text is empty exactly when help is not shown, for the six blankable options; the
      force, runtime and no-dependencies options keep theirs even when hidden. */
  lemma ImplicitDescriptions(showHelp: bool, useShortOptions: bool, includeRuntimeOption: bool,
                             includeNoDependenciesOption: bool)
    ensures forall d :: d in ImplicitSet(showHelp, useShortOptions, includeRuntimeOption, includeNoDependenciesOption)
              ==> DescriptionAsExpected(d, showHelp)
  {
    BlankableDescriptionsFollowHelp(showHelp, useShortOptions);
    KeptDescriptionsNeverBlank(showHelp, useShortOptions);
  }

  /** A declared option forwards what the tables say: a flag its fixed property assignment, a
      value option its property from the value, joined with "%3B" (several values) or resolved
      to a full path. */
  predicate ForwardsAsTabled(d: Descriptor)
  {
    d.Declared? ==>
      var long := KeyOf(d).alias;
      (d.kind == Flag <==> long in FlagTokens) &&
      (d.kind == Flag ==> d.forward == Const(FlagTokens[long])) &&
      (d.kind != Flag ==>
         long in ValueProperties &&
         d.forward == (if ValueProperties[long].1 then Joined(ValueProperties[long].0)
                       else Single(ValueProperties[long].0, ValueProperties[long].2)) &&
         (d.kind == Texts <==> ValueProperties[long].1))
  }

  /** A declared option takes one or more values exactly when it is `--source` or `--runtime`;
      every other declared option keeps the parsing library's default arity. */
  predicate ArityAsExpected(d: Descriptor)
  {
    d.Declared? ==>
      d.arity == (if KeyOf(d).alias in {"--source", "--runtime"} then OneOrMore else LibraryDefault)
  }

  /** The four value options of the implicit set forward what the tables say. */
  lemma ValueOptionsForward(h: bool, s: bool)
    ensures ForwardsAsTabled(SourceOption(h, s)) && ForwardsAsTabled(PackagesOption(h))
    ensures ForwardsAsTabled(ConfigFileOption(h)) && ForwardsAsTabled(RuntimeOption(h, s))
  {
    assert ForwardsAsTabled(SourceOption(h, s));
    assert ForwardsAsTabled(PackagesOption(h));
    assert ForwardsAsTabled(ConfigFileOption(h));
  }

  /** The five flag options of the implicit set forward what the tables say. */
  lemma FlagOptionsForward(h: bool, s: bool)
    ensures ForwardsAsTabled(DisableParallelOption(h)) && ForwardsAsTabled(NoCacheOption(h))
    ensures ForwardsAsTabled(IgnoreFailedSourcesOption(h)) && ForwardsAsTabled(ForceOption(h, s))
    ensures ForwardsAsTabled(NoDependenciesOption(h))
  {
    assert ForwardsAsTabled(DisableParallelOption(h));
    assert ForwardsAsTabled(NoCacheOption(h));
    assert ForwardsAsTabled(IgnoreFailedSourcesOption(h));
    assert ForwardsAsTabled(ForceOption(h, s));
  }

  /** For every combination of the four flags, each declared option of the implicit set
      forwards what the tables say. */
  lemma ImplicitForwarding(showHelp: bool, useShortOptions: bool, includeRuntimeOption: bool,
                          includeNoDependenciesOption: bool)
    ensures forall d :: d in ImplicitSet(showHelp, useShortOptions, includeRuntimeOption, includeNoDependenciesOption)
              ==> ForwardsAsTabled(d)
  {
    ValueOptionsForward(showHelp, useShortOptions);
    FlagOptionsForward(showHelp, useShortOptions);
  }

  /** For every combination of the four flags, `--source` and `--runtime` take one or more
      values and every other declared option of the implicit set keeps the library default. */
  lemma ImplicitArity(showHelp: bool, useShortOptions: bool, includeRuntimeOption: bool,
                     includeNoDependenciesOption: bool)
    ensures forall d :: d in ImplicitSet(showHelp, useShortOptions, includeRuntimeOption, includeNoDependenciesOption)
              ==> ArityAsExpected(d)
  {
    var h, s := showHelp, useShortOptions;
    assert ArityAsExpected(SourceOption(h, s));
    assert ArityAsExpected(PackagesOption(h));
    assert ArityAsExpected(DisableParallelOption(h));
    assert ArityAsExpected(ConfigFileOption(h));
    assert ArityAsExpected(NoCacheOption(h));
    assert ArityAsExpected(IgnoreFailedSourcesOption(h));
    assert ArityAsExpected(ForceOption(h, s));
    assert ArityAsExpected(RuntimeOption(h, s));
    assert ArityAsExpected(NoDependenciesOption(h));
  }

  /** Each declared option of the full set forwards what the tables say and has the arity
      `ArityAsExpected` gives it. */
  lemma FullForwarding()
    ensures forall d :: d in FullRestoreOptions() ==> ForwardsAsTabled(d) && ArityAsExpected(d)
  {
    ImplicitForwarding(true, true, true, true);
    ImplicitArity(true, true, true, true);
    forall d | d in FullOnlyOptions
      ensures ForwardsAsTabled(d) && ArityAsExpected(d)
    {
    }
  }

  /** A flag option's template renders its table token, for every flag combination. */
  lemma FlagTokensRendered(showHelp: bool, useShortOptions: bool, includeRuntimeOption: bool,
                           includeNoDependenciesOption: bool, fullPath: string -> string)
    ensures forall d :: (d in ImplicitSet(showHelp, useShortOptions, includeRuntimeOption, includeNoDependenciesOption)
                         && d.Declared? && d.kind == Flag) ==>
                KeyOf(d).alias in FlagTokens && Render(d.forward, Bool(true), fullPath) == FlagTokens[KeyOf(d).alias]
  {
    ImplicitForwarding(showHelp, useShortOptions, includeRuntimeOption, includeNoDependenciesOption);
  }

  /** A single-value option of the implicit set forwards `-property:Name=` followed by its value,
      resolved to a full path first for `--packages` and `--configfile`, for every flag combination. */
  lemma ValueTokensRendered(showHelp: bool, useShortOptions: bool, includeRuntimeOption: bool,
                            includeNoDependenciesOption: bool, v: string, fullPath: string -> string)
    ensures forall d :: (d in ImplicitSet(showHelp, useShortOptions, includeRuntimeOption, includeNoDependenciesOption)
                         && d.Declared? && d.kind == Text) ==>
                KeyOf(d).alias in ValueProperties &&
                Render(d.forward, Str(v), fullPath)
                  == "-property:" + ValueProperties[KeyOf(d).alias].0 + "="
                     + (if ValueProperties[KeyOf(d).alias].2 then fullPath(v) else v)
  {
    ImplicitForwarding(showHelp, useShortOptions, includeRuntimeOption, includeNoDependenciesOption);
  }

  /** The full set is the implicit set with every flag on, followed by verbosity, interactive,
      `--use-lock-file`, `--locked-mode`, `--lock-file-path` and `--force-evaluate`: 17 options.
      The four full-only options declared here are visible and described. */
  lemma FullLayout()
    ensures var r := FullRestoreOptions();
      |r| == 17 &&
      r[..11] == ImplicitSet(true, true, true, true) &&
      Keys(r) == BaselineKeys + [Long("--runtime"), Long("--no-dependencies")] + FullOnlyKeys &&
      forall i :: 11 <= i < 17 && r[i].Declared? ==> !r[i].hidden && r[i].description != ""
  {
  }

  /** Every declared option of the full set carries exactly the aliases `ExpectedAliases` gives
      with short options on: the implicit part as `ImplicitAliases` says, and each of the four
      full-only declared options its one long alias. */
  lemma FullAliases()
    ensures forall d :: d in FullRestoreOptions() ==> AliasesAsExpected(d, true)
  {
    ImplicitAliases(true, true, true, true);
    forall d | d in FullOnlyOptions
      ensures AliasesAsExpected(d, true)
    {
    }
  }

  /** No two declared options of the full set answer to the same alias, so the `restore`
      command is never given a duplicate. */
  lemma FullAliasesDistinct()
    ensures var r := FullRestoreOptions();
      forall i, j, alias :: HasAliasAt(r, i, alias) && HasAliasAt(r, j, alias) ==> i == j
  {
    var r := FullRestoreOptions();
    forall i, j, alias | HasAliasAt(r, i, alias) && HasAliasAt(r, j, alias)
      ensures i == j
    {
      assert alias in r[i].aliases && alias in r[j].aliases;
    }
  }

  /** The token the sources template builds for two sources. */
  lemma TwoSourcesToken(fullPath: string -> string)
    ensures Render(Joined("RestoreSources"), Strs(["https://a", "https://b"]), fullPath)
              == "-property:RestoreSources=https://a%3Bhttps://b"
  {
    var vs := ["https://a", "https://b"];
    assert vs[1..] == ["https://b"];
    assert Join(vs) == "https://a" + Sep + "https://b";
    var joined := "https://a%3Bhttps://b";
    assert "https://a" + Sep + "https://b" == joined;
    var prefix := "-property:RestoreSources=";
    assert PropertyPrefix("RestoreSources") == prefix;
    assert prefix + joined == "-property:RestoreSources=https://a%3Bhttps://b";
  }

  /** With help shown and short options, the first option answers to `-s` and `--source`, takes
      one or more values, is visible and described; binding two sources forwards one token. */
  lemma SourceScenario(fullPath: string -> string)
    ensures var d := ImplicitSet(true, true, true, true)[0];
      d.Declared? && d.aliases == ["-s", "--source"] && d.arity == OneOrMore && !d.hidden &&
      d.description != "" &&
      Render(d.forward, Strs(["https://a", "https://b"]), fullPath)
        == "-property:RestoreSources=https://a%3Bhttps://b"
  {
    var d := ImplicitSet(true, true, true, true)[0];
    assert d == SourceOption(true, true);
    TwoSourcesToken(fullPath);
  }

  /** The sources and runtimes a command forwards come back from the single token it builds,
      provided there is at least one and none holds "%3B". */
  lemma MultiValueRoundTrip(showHelp: bool, useShortOptions: bool, includeRuntimeOption: bool,
                            includeNoDependenciesOption: bool, i: int, values: seq<string>,
                            fullPath: string -> string)
    requires 0 <= i < |ImplicitSet(showHelp, useShortOptions, includeRuntimeOption, includeNoDependenciesOption)|
    requires |values| >= 1
    requires forall k :: 0 <= k < |values| ==> !ContainsSep(values[k])
    ensures var d := ImplicitSet(showHelp, useShortOptions, includeRuntimeOption, includeNoDependenciesOption)[i];
      d.Declared? && d.kind == Texts ==>
        d.forward.Joined? &&
        var token := Render(d.forward, Strs(values), fullPath);
        token[..|PropertyPrefix(d.forward.name)|] == PropertyPrefix(d.forward.name) &&
        Split(token[|PropertyPrefix(d.forward.name)|..]) == values
  {
    var d := ImplicitSet(showHelp, useShortOptions, includeRuntimeOption, includeNoDependenciesOption)[i];
    if d.Declared? && d.kind == Texts {
      assert d.forward.Joined?;
      JoinedTokenRoundTrip(d.forward.name, values, fullPath);
    }
  }

  /** The defaults other commands get: hidden, long aliases only, runtime and no-dependencies
      included. */
  lemma DefaultImplicitSet()
    ensures var r := ImplicitSet(false, false, true, true);
      |r| == 11 && !HasAlias(r, "-s") && !HasAlias(r, "-f") && !HasAlias(r, "-r") &&
      forall i :: 0 <= i < |r| && r[i].Declared? ==> r[i].hidden
  {
  }
}
