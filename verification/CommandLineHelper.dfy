/**
 Merging programmatic feature switches into the command line.
 */
module CommandLineHelper {
  import opened Wrappers
  import opened FeatureCsv

  // ------------------------------------------------------------ the specification, on values

  datatype Features = Features(enabled: set<string>, disabled: set<string>)

  /** The values of --enable-features and --disable-features; an absent switch has the empty value. */
  datatype Switches = Switches(enable: string, disable: string)

  /** One call of AppendFeatures. */
  datatype Call = Call(enabled: set<string>, disabled: set<string>)

  /** What a new helper finds on the command line: a feature that is both is disabled. */
  function Read(sw: Switches): Features {
    Features(ParseCsv(sw.enable) - ParseCsv(sw.disable), ParseCsv(sw.disable))
  }

  function Merge(f: Features, c: Call): Features {
    var disabled := f.disabled + (c.disabled - f.enabled);
    Features(f.enabled + (c.enabled - disabled), disabled)
  }

  function MergeAll(f: Features, calls: seq<Call>): Features
    decreases |calls|
  {
    if calls == [] then f else MergeAll(Merge(f, calls[0]), calls[1..])
  }

  /** The value lists exactly these names, in some order. */
  ghost predicate Spells(value: string, names: set<string>) {
    exists order: seq<string> :: Elements(order) == names && |order| == |names| && value == Join(order)
  }

  lemma {:induction false} SpelledSnoc(order: seq<string>, names: set<string>, name: string)
    requires Elements(order) == names && |order| == |names| && name !in names
    ensures var order' := order + [name];
            && Elements(order') == names + {name} && |order'| == |names + {name}|
            && Join(order') == if order == [] then name else Join(order) + "," + name
  {
    ElementsSnoc(order, name);
    assert (order + [name])[..|order|] == order;
  }

  /** An empty set is not written: its switch stays as it was. */
  ghost predicate Written(sw: Switches, f: Features, sw': Switches) {
    && (if f.enabled == {} then sw'.enable == sw.enable else Spells(sw'.enable, f.enabled))
    && (if f.disabled == {} then sw'.disable == sw.disable else Spells(sw'.disable, f.disabled))
  }

  ghost predicate AllWellFormed(f: Features) {
    forall name :: name in f.enabled || name in f.disabled ==> WellFormed(name)
  }

  /** The command line reads back as these sets, exactly as long as their names can be read back at all. */
  ghost predicate ReadsBack(sw: Switches, f: Features) {
    Read(sw) == f <==> AllWellFormed(f)
  }

  lemma SpelledReadsBack(value: string, names: set<string>)
    requires Spells(value, names)
    ensures ParseCsv(value) == names <==> forall name :: name in names ==> WellFormed(name)
  {
    var order: seq<string> :| Elements(order) == names && |order| == |names| && value == Join(order);
    CsvRoundTrip(order);
    assert forall i :: 0 <= i < |order| ==> order[i] in Elements(order);
  }

  lemma ReadNamesAreWellFormed(sw: Switches)
    ensures AllWellFormed(Read(sw))
  {
    ParsedNamesAreWellFormed(sw.enable);
    ParsedNamesAreWellFormed(sw.disable);
  }

  lemma WrittenReadsBack(sw: Switches, f: Features, g: Features, sw': Switches)
    requires Read(sw) == f && f.enabled <= g.enabled && f.disabled <= g.disabled && g.enabled !! g.disabled
    requires AllWellFormed(g) && Written(sw, g, sw')
    ensures Read(sw') == g
  {
    if g.enabled != {} {
      SpelledReadsBack(sw'.enable, g.enabled);
    }
    if g.disabled != {} {
      SpelledReadsBack(sw'.disable, g.disabled);
    }
    assert Read(sw').disabled == g.disabled;
    assert Read(sw').enabled == g.enabled;
  }

  /** A new helper built on the command line that AppendFeatures leaves finds exactly the same features,
      however the sets were iterated and whether or not a switch was left alone, if and only if all
      names are well-formed. */
  lemma AppendedFeaturesReadBack(sw: Switches, f: Features, c: Call, sw': Switches)
    requires ReadsBack(sw, f) && f.enabled !! f.disabled && Written(sw, Merge(f, c), sw')
    ensures ReadsBack(sw', Merge(f, c))
  {
    ReadNamesAreWellFormed(sw');
    if AllWellFormed(Merge(f, c)) {
      assert AllWellFormed(f);
      WrittenReadsBack(sw, f, Merge(f, c), sw');
    }
  }

  /** What the first mention of a feature says: the command line comes first, then the calls in order,
      and within one call being disabled comes first. */
  function FirstMention(f: Features, calls: seq<Call>, name: string): Option<bool> {
    if name in f.disabled then Some(false)
    else if name in f.enabled then Some(true)
    else if calls == [] then None
    else if name in calls[0].disabled then Some(false)
    else if name in calls[0].enabled then Some(true)
    else FirstMention(f, calls[1..], name)
  }

  /** Over any sequence of calls, every feature ends up as its first mention says, so nothing given on
      the command line is ever overridden and the two sets stay disjoint. */
  lemma {:induction false} FirstMentionWins(f: Features, calls: seq<Call>, name: string)
    requires f.enabled !! f.disabled
    ensures var g := MergeAll(f, calls);
            && (name in g.enabled <==> FirstMention(f, calls, name) == Some(true))
            && (name in g.disabled <==> FirstMention(f, calls, name) == Some(false))
            && g.enabled !! g.disabled
    decreases |calls|
  {
    if calls != [] {
      var g := Merge(f, calls[0]);
      FirstMentionWins(g, calls[1..], name);
      MentionedAtOnce(f, calls, name);
    }
  }

  lemma {:induction false} UnmentionedLater(f: Features, g: Features, calls: seq<Call>, name: string)
    requires name in f.disabled <==> name in g.disabled
    requires name in f.enabled <==> name in g.enabled
    ensures FirstMention(f, calls, name) == FirstMention(g, calls, name)
    decreases |calls|
  {
    if calls != [] {
      UnmentionedLater(f, g, calls[1..], name);
    }
  }

  lemma {:induction false} MentionedAtOnce(f: Features, calls: seq<Call>, name: string)
    requires f.enabled !! f.disabled && calls != []
    ensures FirstMention(f, calls, name) == FirstMention(Merge(f, calls[0]), calls[1..], name)
  {
    var g := Merge(f, calls[0]);
    if name !in f.enabled && name !in f.disabled && name !in calls[0].enabled && name !in calls[0].disabled {
      UnmentionedLater(f, g, calls[1..], name);
    }
  }

  lemma {:induction false} MergeAllSnoc(f: Features, calls: seq<Call>, c: Call)
    ensures MergeAll(f, calls + [c]) == Merge(MergeAll(f, calls), c)
    decreases |calls|
  {
    if calls == [] {
      assert [c][1..] == [];
    } else {
      assert (calls + [c])[1..] == calls[1..] + [c];
      MergeAllSnoc(Merge(f, calls[0]), calls[1..], c);
    }
  }

  lemma {:induction false} MergeOneMore(f: Features, calls: seq<Call>, i: nat)
    requires i < |calls|
    ensures MergeAll(f, calls[..i + 1]) == Merge(MergeAll(f, calls[..i]), calls[i])
  {
    assert calls[..i + 1] == calls[..i] + [calls[i]];
    MergeAllSnoc(f, calls[..i], calls[i]);
  }

  /** What the two switch values and the calls after them make of a feature: named in the value of the
      disabling switch it is off; otherwise named in the value of the enabling one it is on; otherwise the
      first call that names it decides. */
  function Outcome(enable: string, disable: string, calls: seq<Call>, name: string): Option<bool> {
    if name in ParseCsv(disable) then Some(false)
    else if name in ParseCsv(enable) then Some(true)
    else FirstMention(Features({}, {}), calls, name)
  }

  /** The sets of a helper are what the texts on the command line and the calls say. */
  ghost predicate AsTold(f: Features, enable: string, disable: string, calls: seq<Call>) {
    forall name ::
      && (name in f.enabled <==> Outcome(enable, disable, calls, name) == Some(true))
      && (name in f.disabled <==> Outcome(enable, disable, calls, name) == Some(false))
  }

  lemma {:induction false} TextsDecide(sw: Switches, calls: seq<Call>)
    ensures AsTold(MergeAll(Read(sw), calls), sw.enable, sw.disable, calls)
  {
    var f := Read(sw);
    forall name
      ensures name in MergeAll(f, calls).enabled <==> Outcome(sw.enable, sw.disable, calls, name) == Some(true)
      ensures name in MergeAll(f, calls).disabled <==> Outcome(sw.enable, sw.disable, calls, name) == Some(false)
    {
      FirstMentionWins(f, calls, name);
      if name !in f.enabled && name !in f.disabled {
        UnmentionedLater(f, Features({}, {}), calls, name);
      }
    }
  }

  lemma RepeatedCallChangesNothing(f: Features, c: Call)
    ensures Merge(Merge(f, c), c) == Merge(f, c)
  {
  }

  // ------------------------------------------------------------ the helper

  const EnableFeatures := "enable-features"
  const DisableFeatures := "disable-features"

  /** Switches with values; appending a switch again hides its earlier value. */
  class CommandLine {
    var switches: map<string, string>

    constructor (switches: map<string, string>)
      ensures this.switches == switches
    {
      this.switches := switches;
    }

    function View(): Switches
      reads this
    {
      Switches(Value(EnableFeatures), Value(DisableFeatures))
    }

    function Value(key: string): string
      reads this
    {
      if key in switches then switches[key] else ""
    }

    method AppendSwitchAscii(key: string, value: string)
      modifies this
      ensures switches == old(switches)[key := value]
    {
      switches := switches[key := value];
    }
  }

  class BraveCommandLineHelper {
    const commandLine: CommandLine
    var enabledFeatures: set<string>
    var disabledFeatures: set<string>

    function View(): Features
      reads this
    {
      Features(enabledFeatures, disabledFeatures)
    }

    ghost predicate Valid()
      reads this, commandLine
    {
      enabledFeatures !! disabledFeatures && ReadsBack(commandLine.View(), View())
    }

    constructor (commandLine: CommandLine)
      ensures this.commandLine == commandLine
      ensures View() == Read(commandLine.View()) && Valid()
      ensures disabledFeatures == ParseCsv(commandLine.Value("disable-features"))
      ensures enabledFeatures == ParseCsv(commandLine.Value("enable-features")) - disabledFeatures
    {
      this.commandLine := commandLine;
      enabledFeatures, disabledFeatures := {}, {};
      new;
      Parse();
    }

    method Parse()
      requires enabledFeatures == {} && disabledFeatures == {}
      modifies this
      ensures View() == Read(commandLine.View()) && Valid()
      ensures disabledFeatures == ParseCsv(commandLine.Value("disable-features"))
      ensures enabledFeatures == ParseCsv(commandLine.Value("enable-features")) - disabledFeatures
    {
      var enabled := ParseCsvInto(commandLine.Value(EnableFeatures), enabledFeatures);
      enabledFeatures := enabled;
      var disabled := ParseCsvInto(commandLine.Value(DisableFeatures), disabledFeatures);
      disabledFeatures := disabled;
      ParsedNamesAreWellFormed(commandLine.Value(EnableFeatures));
      ParsedNamesAreWellFormed(commandLine.Value(DisableFeatures));
      var rest := enabledFeatures;
      while rest != {}
        invariant rest <= enabledFeatures
        invariant disabledFeatures == ParseCsv(commandLine.Value(DisableFeatures))
        invariant forall name :: name in enabledFeatures <==>
                    name in ParseCsv(commandLine.Value(EnableFeatures)) && (name in rest || name !in disabledFeatures)
        decreases rest
      {
        var name :| name in rest;
        rest := rest - {name};
        if name in disabledFeatures {
          enabledFeatures := enabledFeatures - {name};
        }
      }
      assert View() == Read(commandLine.View());
    }

    method ParseCsvInto(value: string, dest: set<string>) returns (names: set<string>)
      ensures names == dest + ParseCsv(value)
    {
      names := dest;
      if value == "" {
        return;
      }
      var pieces := Pieces(value);
      var i := 0;
      while i < |pieces|
        invariant 0 <= i <= |pieces|
        invariant names == dest + NonEmptyTrimmed(pieces[..i])
      {
        var name := Trim(pieces[i]);
        NonEmptyTrimmedSnoc(pieces[..i], pieces[i]);
        assert pieces[..i + 1] == pieces[..i] + [pieces[i]];
        if name != [] {
          names := names + {name};
        }
        i := i + 1;
      }
      assert pieces[..i] == pieces;
    }

    method AppendFeatures(enabled: set<string>, disabled: set<string>)
      requires Valid()
      modifies this, commandLine
      ensures View() == Merge(old(View()), Call(enabled, disabled))
      ensures Written(old(commandLine.View()), View(), commandLine.View())
      ensures Valid()
    {
      ghost var before, sw := View(), commandLine.View();
      AddDisabled(disabled);
      AddEnabled(enabled);
      if enabledFeatures != {} {
        AppendCsv(EnableFeatures, enabledFeatures);
      }
      if disabledFeatures != {} {
        AppendCsv(DisableFeatures, disabledFeatures);
      }
      AppendedFeaturesReadBack(sw, before, Call(enabled, disabled), commandLine.View());
    }

    /** Adds the features to disable that are not enabled already. */
    method AddDisabled(disabled: set<string>)
      modifies this
      ensures enabledFeatures == old(enabledFeatures)
      ensures disabledFeatures == old(disabledFeatures) + (disabled - enabledFeatures)
    {
      var rest := disabled;
      while rest != {}
        invariant rest <= disabled && enabledFeatures == old(enabledFeatures)
        invariant disabledFeatures == old(disabledFeatures) + (disabled - rest - enabledFeatures)
        decreases rest
      {
        var name :| name in rest;
        rest := rest - {name};
        if name !in enabledFeatures {
          disabledFeatures := disabledFeatures + {name};
        }
      }
    }

    /** Adds the features to enable that are not disabled by now. */
    method AddEnabled(enabled: set<string>)
      modifies this
      ensures disabledFeatures == old(disabledFeatures)
      ensures enabledFeatures == old(enabledFeatures) + (enabled - disabledFeatures)
    {
      var rest := enabled;
      while rest != {}
        invariant rest <= enabled && disabledFeatures == old(disabledFeatures)
        invariant enabledFeatures == old(enabledFeatures) + (enabled - rest - disabledFeatures)
        decreases rest
      {
        var name :| name in rest;
        rest := rest - {name};
        if name !in disabledFeatures {
          enabledFeatures := enabledFeatures + {name};
        }
      }
    }

    /** Writes the names in the order the set happens to be iterated in. */
    method AppendCsv(key: string, values: set<string>)
      requires values != {}
      modifies commandLine
      ensures Spells(commandLine.Value(key), values)
      ensures commandLine.switches == old(commandLine.switches)[key := commandLine.Value(key)]
    {
      var rest, text := values, "";
      ghost var order: seq<string>, done: set<string> := [], {};
      while rest != {}
        invariant done !! rest && done + rest == values && commandLine.switches == old(commandLine.switches)
        invariant Elements(order) == done && |order| == |done| && text == Join(order)
        invariant order == [] <==> rest == values
        decreases rest
      {
        var name :| name in rest;
        SpelledSnoc(order, done, name);
        text := if rest == values then name else text + "," + name;
        rest := rest - {name};
        order, done := order + [name], done + {name};
      }
      commandLine.AppendSwitchAscii(key, text);
      assert done == values;
    }
  }

  /** A helper made on a command line, and any calls after that: a feature is off when the value of
      --disable-features names it, otherwise on when the value of --enable-features does, and otherwise as the
      first call says that names it. */
  method HelperAfterCalls(commandLine: CommandLine, calls: seq<Call>) returns (h: BraveCommandLineHelper)
    modifies commandLine
    ensures fresh(h) && h.commandLine == commandLine && h.Valid()
    ensures AsTold(h.View(), old(commandLine.Value("enable-features")),
                   old(commandLine.Value("disable-features")), calls)
  {
    ghost var sw := commandLine.View();
    h := new BraveCommandLineHelper(commandLine);
    var i := 0;
    while i < |calls|
      invariant 0 <= i <= |calls| && fresh(h) && h.commandLine == commandLine && h.Valid()
      invariant h.View() == MergeAll(Read(sw), calls[..i])
    {
      MergeOneMore(Read(sw), calls, i);
      h.AppendFeatures(calls[i].enabled, calls[i].disabled);
      i := i + 1;
    }
    assert calls[..i] == calls;
    TextsDecide(sw, calls);
  }
}
