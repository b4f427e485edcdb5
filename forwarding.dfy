/** Forwarding templates: how a value bound to a restore option becomes the single
    `-property:Name=value` token handed to MSBuild. Multi-valued options join their
    values with the percent-encoded semicolon "%3B". `Split` cuts a string at each
    "%3B"; the lemmas below say when it inverts `Join`. */
module Forwarding {

  /** The reserved delimiter placed between the values of a multi-valued option. */
  const Sep: string := "%3B"

  /** A value bound by the parser, by the C# type of its option:
      `Option<bool>`, `Option<string>`, `Option<IEnumerable<string>>`. */
  datatype Value = Bool(b: bool) | Str(s: string) | Strs(ss: seq<string>)

  /** The forwarding rule attached to an option declared in the restore parser.
      - `Const(token)`: `.ForwardAs(token)`, a fixed token;
      - `Single(name, resolvesPath)`: `.ForwardAsSingle(o => $"-property:{name}={o}")`, where the
        value first goes through `CommandDirectoryContext.GetFullPath` when `resolvesPath`;
      - `Joined(name)`: `.ForwardAsSingle(o => $"-property:{name}={string.Join("%3B", o)}")`. */
  datatype Rule = Const(token: string) | Single(name: string, resolvesPath: bool) | Joined(name: string)

  /** The fixed head of every property assignment for `name`. */
  function PropertyPrefix(name: string): (p: string)
    ensures |p| == |"-property:"| + |name| + 1
    ensures p[..|"-property:"|] == "-property:" && p[|p| - 1] == '='
  {
    "-property:" + name + "="
  }

  /** The value shape a rule's template is written for (the C# type of its lambda's argument). */
  predicate Fits(rule: Rule, v: Value)
  {
    match rule
    case Const(_) => true
    case Single(_, _) => v.Str?
    case Joined(_) => v.Strs?
  }

  /** The token a rule's template produces for a bound value. `fullPath` stands for
      `CommandDirectoryContext.GetFullPath`, a file-system lookup outside this model. For a
      `Const` rule this is the template's token, not a claim that a false or absent flag
      emits it. */
  function Render(rule: Rule, v: Value, fullPath: string -> string): (token: string)
    requires Fits(rule, v)
    ensures rule.Const? ==> token == rule.token
    ensures !rule.Const? ==>
      |PropertyPrefix(rule.name)| <= |token| && token[..|PropertyPrefix(rule.name)|] == PropertyPrefix(rule.name)
    ensures rule.Single? && !rule.resolvesPath ==> token[|PropertyPrefix(rule.name)|..] == v.s
    ensures rule.Single? && rule.resolvesPath ==> token[|PropertyPrefix(rule.name)|..] == fullPath(v.s)
    ensures rule.Joined? ==> token[|PropertyPrefix(rule.name)|..] == Join(v.ss)
  {
    match rule
    case Const(t) => t
    case Single(name, resolvesPath) => PropertyPrefix(name) + (if resolvesPath then fullPath(v.s) else v.s)
    case Joined(name) => PropertyPrefix(name) + Join(v.ss)
  }

  function TotalLength(values: seq<string>): (n: nat)
  {
    if values == [] then 0 else |values[0]| + TotalLength(values[1..])
  }

  /** `string.Join("%3B", values)`: the values in order, one delimiter between each two, so
      the result starts with the first value and is three characters longer per gap. */
  function Join(values: seq<string>): (joined: string)
    ensures |values| >= 1 ==> |joined| == TotalLength(values) + 3 * (|values| - 1)
    ensures |values| >= 1 ==> joined[..|values[0]|] == values[0]
  {
    if |values| == 0 then ""
    else if |values| == 1 then values[0]
    else values[0] + Sep + Join(values[1..])
  }

  /** The delimiter starts at position `p` of `s`. */
  predicate SepAt(s: string, p: int)
  {
    0 <= p && p + 3 <= |s| && s[p] == '%' && s[p + 1] == '3' && s[p + 2] == 'B'
  }

  /** `s` contains the delimiter somewhere. */
  predicate ContainsSep(s: string)
  {
    exists p :: 0 <= p < |s| && SepAt(s, p)
  }

  /** `s.Split("%3B")`: cut `s` at every occurrence of the delimiter, scanning left to right.
      Like .NET's split, it always yields at least one piece (`Split("") == [""]`). */
  function Split(s: string): (pieces: seq<string>)
    ensures |pieces| >= 1
    decreases |s|
  {
    if s == [] then [""]
    else if SepAt(s, 0) then [""] + Split(s[3..])
    else
      var rest := Split(s[1..]);
      [[s[0]] + rest[0]] + rest[1..]
  }

  /** Splitting text that does not start with the delimiter before position `|v|`
      glues `v` onto the first piece of the remainder. */
  lemma {:induction false} SplitGlues(v: string, t: string)
    requires forall p :: 0 <= p < |v| ==> !SepAt(v + t, p)
    ensures Split(v + t) == [v + Split(t)[0]] + Split(t)[1..]
  {
    if v == [] {
      assert v + t == t;
      assert v + Split(t)[0] == Split(t)[0];
      assert Split(t) == [Split(t)[0]] + Split(t)[1..];
    } else {
      var s := v + t;
      assert !SepAt(s, 0);
      assert s[1..] == v[1..] + t;
      forall p | 0 <= p < |v[1..]|
        ensures !SepAt(v[1..] + t, p)
      {
        assert !SepAt(s, p + 1);
      }
      SplitGlues(v[1..], t);
      assert [v[0]] + (v[1..] + Split(t)[0]) == v + Split(t)[0];
    }
  }

  /** Inside `v + Sep + rest`, no delimiter can start before `|v|` unless `v` holds one:
      "%3B" has no proper prefix that is also a suffix, so an occurrence cannot straddle. */
  lemma NoSepBeforeSeparator(v: string, rest: string)
    requires !ContainsSep(v)
    ensures forall p :: 0 <= p < |v| ==> !SepAt(v + Sep + rest, p)
  {
    var s := v + Sep + rest;
    forall p | 0 <= p < |v|
      ensures !SepAt(s, p)
    {
      if p + 3 <= |v| {
        assert !SepAt(v, p);
        assert s[p] == v[p] && s[p + 1] == v[p + 1] && s[p + 2] == v[p + 2];
      } else if p + 2 == |v| {
        assert s[p + 2] == '%';
      } else {
        assert s[p + 1] == '%';
      }
    }
  }

  /** A value free of the delimiter is one piece. */
  lemma SplitSingle(v: string)
    requires !ContainsSep(v)
    ensures Split(v) == [v]
  {
    forall p | 0 <= p < |v|
      ensures !SepAt(v + "", p)
    {
      assert v + "" == v;
      if SepAt(v, p) { assert false; }
    }
    SplitGlues(v, "");
    assert v + "" == v;
  }

  /** Round trip: splitting what `Join` produced gives back the values, provided there is at
      least one value and none of them contains the delimiter itself (the join does not
      escape it). */
  lemma {:induction false} SplitJoin(values: seq<string>)
    requires |values| >= 1
    requires forall i :: 0 <= i < |values| ==> !ContainsSep(values[i])
    ensures Split(Join(values)) == values
  {
    if |values| == 1 {
      SplitSingle(values[0]);
    } else {
      var v, rest := values[0], Join(values[1..]);
      assert Join(values) == v + (Sep + rest);
      assert v + Sep + rest == v + (Sep + rest);
      NoSepBeforeSeparator(v, rest);
      SplitGlues(v, Sep + rest);
      assert SepAt(Sep + rest, 0);
      assert (Sep + rest)[3..] == rest;
      assert Split(Sep + rest) == [""] + Split(rest);
      SplitJoin(values[1..]);
      assert Split(Join(values)) == [v + ""] + values[1..];
      assert v + "" == v;
      assert values == [v] + values[1..];
    }
  }

  /** The delimiter guard is needed: a value that holds "%3B" comes back as two pieces. */
  lemma JoinLosesEmbeddedSep()
    ensures Split(Join(["a%3Bb"])) == ["a", "b"]
  {
    var s := "a%3Bb";
    assert Join(["a%3Bb"]) == s;
    assert s[1..] == "%3Bb" && s[1..][3..] == "b";
    assert "b"[1..] == [];
    assert Split("b") == [['b'] + ""] + [];
    assert ['b'] + "" == "b";
    assert Split("b") == ["b"];
    var t := "%3Bb";
    assert t != [] && SepAt(t, 0) && t[3..] == "b";
    assert Split(t) == [""] + ["b"];
    assert s != [] && !SepAt(s, 0) && s[0] == 'a' && s[1..] == t;
    assert Split(s) == [['a'] + ""] + ["b"];
    assert ['a'] + "" == "a";
  }

  /** A multi-valued option forwards one token; its text after the property prefix splits back
      into the bound values. */
  lemma JoinedTokenRoundTrip(name: string, values: seq<string>, fullPath: string -> string)
    requires |values| >= 1
    requires forall i :: 0 <= i < |values| ==> !ContainsSep(values[i])
    ensures var token := Render(Joined(name), Strs(values), fullPath);
      token[..|PropertyPrefix(name)|] == PropertyPrefix(name) &&
      Split(token[|PropertyPrefix(name)|..]) == values
  {
    var token := Render(Joined(name), Strs(values), fullPath);
    assert token[|PropertyPrefix(name)|..] == Join(values);
    SplitJoin(values);
  }
}
