/**
 * What the configuration files mean, entry by entry and file by file, with the names they use: the sections
 * that `NWebConfigHelper` folds, said without its loops.
 */
module WebConfigMeaning {
  import opened Options
  import opened Decimal
  import opened WebConfig

  // ----- numbers -----

  predicate Blank(s: string) {
    forall i :: 0 <= i < |s| ==> s[i] == ' ' || '\t' <= s[i] <= '\r'
  }

  lemma {:induction false} LeadingDigitsOf(d: string, rest: string)
    requires AllDigits(d) && (rest == "" || !IsDigit(rest[0]))
    ensures LeadingDigits(d + rest) == d
  {
    if d == "" {
      assert d + rest == rest;
    } else {
      LeadingDigitsOf(d[1..], rest);
      assert (d + rest)[1..] == d[1..] + rest;
      assert d == [d[0]] + d[1..];
    }
  }

  lemma UnsignedReads(n: nat, rest: string)
    requires rest == "" || !IsDigit(rest[0])
    ensures Atoi(NatToString(n) + rest) == n && Atoi("-" + (NatToString(n) + rest)) == 0 - n
  {
    var d := NatToString(n);
    LeadingDigitsOf(d, rest);
    ParsePrinted(n);
    assert (d + rest)[0] == d[0] && IsDigit(d[0]);
    assert ("-" + (d + rest))[1..] == d + rest;
  }

  lemma {:induction false} BlankIsSkipped(before: string, text: string)
    requires Blank(before)
    ensures Atoi(before + text) == Atoi(text)
  {
    if before == "" {
      assert before + text == text;
    } else {
      BlankIsSkipped(before[1..], text);
      assert (before + text)[1..] == before[1..] + text;
    }
  }

  // MAIN: a printed number is read back, behind any white space and before anything that is not a digit.
  lemma AtoiReadsPrinted(before: string, n: int, rest: string)
    requires Blank(before) && (rest == "" || !IsDigit(rest[0]))
    ensures Atoi(before + (IntToString(n) + rest)) == n
  {
    BlankIsSkipped(before, IntToString(n) + rest);
    UnsignedReads(if n < 0 then -n else n, rest);
    if n < 0 {
      assert IntToString(n) + rest == "-" + (NatToString(-n) + rest);
    }
  }

  // A plus sign may stand before the digits; a text with anything else there counts as 0.
  lemma AtoiOtherwise(before: string, n: nat, rest: string)
    requires Blank(before) && (rest == "" || !IsDigit(rest[0]))
    ensures Atoi(before + ("+" + (NatToString(n) + rest))) == n
    ensures (rest == "" || !(Blank(rest[..1]) || rest[0] == '-' || rest[0] == '+')) ==> Atoi(before + rest) == 0
  {
    BlankIsSkipped(before, "+" + (NatToString(n) + rest));
    BlankIsSkipped(before, rest);
    LeadingDigitsOf(NatToString(n), rest);
    ParsePrinted(n);
    assert ("+" + (NatToString(n) + rest))[1..] == NatToString(n) + rest;
    LeadingDigitsOf("", rest);
    assert "" + rest == rest;
  }

  // ----- the frame rate section -----

  predicate SetsWithContent(c: Node, setting: string) {
    Sets(c, setting) && c.content.Some?
  }

  predicate ThrottleName(setting: string) {
    setting == "throttle_strategy" || setting == "throttle_timeout" || setting == "throttle_ratio"
  }

  // Any name but the special ones is that of a list of frame rates.
  predicate RatesName(setting: string) {
    setting != "dynamic_apps" && setting != "ltpo_strategy" && !ThrottleName(setting)
  }

  // What one entry says.
  ghost predicate EntrySays(c: Node, d: LtpoDelta) {
    && d.strategy == (if SetsWithContent(c, "ltpo_strategy") then Some(Atoi(c.content.value)) else None)
    && (forall name :: name in d.ints <==> ThrottleName(name) && SetsWithContent(c, name))
    && (forall name :: name in d.ints ==> c.content.Some? && d.ints[name] == Atoi(c.content.value))
    && (forall name :: name in d.config <==> RatesName(name) && Sets(c, name))
    && (forall name :: name in d.config ==> d.config[name] == RatesOf(c.children, |c.children|))
    && (forall app :: app in d.apps <==> Sets(c, "dynamic_apps") && NamedBelow(c, app))
  }

  ghost predicate NamedBelow(c: Node, app: string) {
    exists j :: 0 <= j < |c.children| && Sets(c.children[j], app)
  }

  lemma EntryMeans(c: Node)
    ensures EntrySays(c, LtpoEntry(c))
  {
    forall app ensures app in LtpoEntry(c).apps <==> Sets(c, "dynamic_apps") && NamedBelow(c, app) {
      AppsAreNamed(c.children, |c.children|, app);
    }
  }

  // The entries' effects, one after the other.
  function MergeAll(ds: seq<LtpoDelta>, n: nat): LtpoDelta
    requires n <= |ds|
  {
    if n == 0 then NoLtpo else Merge(MergeAll(ds, n - 1), ds[n - 1])
  }

  lemma EntryEffects(cs: seq<Node>, n: nat) returns (ds: seq<LtpoDelta>)
    requires n <= |cs|
    ensures |ds| == |cs| && forall i :: 0 <= i < |cs| ==> EntrySays(cs[i], ds[i])
    ensures MergeAll(ds, n) == LtpoOf(cs, n)
  {
    ds := seq(|cs|, i requires 0 <= i < |cs| => LtpoEntry(cs[i]));
    forall i | 0 <= i < |cs| ensures EntrySays(cs[i], ds[i]) {
      EntryMeans(cs[i]);
    }
    MergedEntries(cs, ds, n);
  }

  lemma {:induction false} MergedEntries(cs: seq<Node>, ds: seq<LtpoDelta>, n: nat)
    requires n <= |cs| == |ds| && forall i :: 0 <= i < |cs| ==> ds[i] == LtpoEntry(cs[i])
    ensures MergeAll(ds, n) == LtpoOf(cs, n)
  {
    if n > 0 {
      MergedEntries(cs, ds, n - 1);
    }
  }

  lemma {:induction false} LastMergedStrategy(ds: seq<LtpoDelta>, n: nat, i: nat)
    requires i < n <= |ds| && ds[i].strategy.Some? && forall j :: i < j < n ==> ds[j].strategy.None?
    ensures MergeAll(ds, n).strategy == ds[i].strategy
  {
    if i < n - 1 {
      LastMergedStrategy(ds, n - 1, i);
    }
  }

  lemma {:induction false} NoMergedStrategy(ds: seq<LtpoDelta>, n: nat)
    requires n <= |ds| && forall j :: 0 <= j < n ==> ds[j].strategy.None?
    ensures MergeAll(ds, n).strategy == None
  {
    if n > 0 {
      NoMergedStrategy(ds, n - 1);
    }
  }

  lemma {:induction false} LastMergedInt(ds: seq<LtpoDelta>, n: nat, i: nat, name: string)
    requires i < n <= |ds| && name in ds[i].ints && forall j :: i < j < n ==> name !in ds[j].ints
    ensures name in MergeAll(ds, n).ints && MergeAll(ds, n).ints[name] == ds[i].ints[name]
  {
    if i < n - 1 {
      LastMergedInt(ds, n - 1, i, name);
    }
  }

  lemma {:induction false} LastMergedRates(ds: seq<LtpoDelta>, n: nat, i: nat, name: string)
    requires i < n <= |ds| && name in ds[i].config && forall j :: i < j < n ==> name !in ds[j].config
    ensures name in MergeAll(ds, n).config && MergeAll(ds, n).config[name] == ds[i].config[name]
  {
    if i < n - 1 {
      LastMergedRates(ds, n - 1, i, name);
    }
  }

  lemma {:induction false} MergedInts(ds: seq<LtpoDelta>, n: nat, name: string)
    requires n <= |ds|
    ensures name in MergeAll(ds, n).ints <==> exists i :: 0 <= i < n && name in ds[i].ints
  {
    if n > 0 {
      MergedInts(ds, n - 1, name);
    }
  }

  lemma {:induction false} MergedRates(ds: seq<LtpoDelta>, n: nat, name: string)
    requires n <= |ds|
    ensures name in MergeAll(ds, n).config <==> exists i :: 0 <= i < n && name in ds[i].config
  {
    if n > 0 {
      MergedRates(ds, n - 1, name);
    }
  }

  lemma {:induction false} MergedApps(ds: seq<LtpoDelta>, n: nat, app: string)
    requires n <= |ds|
    ensures app in MergeAll(ds, n).apps <==> exists i :: 0 <= i < n && app in ds[i].apps
  {
    if n > 0 {
      MergedApps(ds, n - 1, app);
    }
  }

  // MAIN: the last strategy entry with content decides the strategy, and without one it stays.
  lemma LastStrategyDecides(cs: seq<Node>, n: nat, i: nat)
    requires i < n <= |cs| && SetsWithContent(cs[i], "ltpo_strategy")
    requires forall j :: i < j < n ==> !SetsWithContent(cs[j], "ltpo_strategy")
    ensures LtpoOf(cs, n).strategy == Some(Atoi(cs[i].content.value))
  {
    var ds := EntryEffects(cs, n);
    LastMergedStrategy(ds, n, i);
  }

  lemma NoStrategyDecidesNothing(cs: seq<Node>, n: nat)
    requires n <= |cs| && forall j :: 0 <= j < n ==> !SetsWithContent(cs[j], "ltpo_strategy")
    ensures LtpoOf(cs, n).strategy == None
  {
    var ds := EntryEffects(cs, n);
    NoMergedStrategy(ds, n);
  }

  // MAIN: the last entry of a throttle name with content decides its value.
  lemma LastThrottleDecides(cs: seq<Node>, n: nat, i: nat, name: string)
    requires i < n <= |cs| && ThrottleName(name) && SetsWithContent(cs[i], name)
    requires forall j :: i < j < n ==> !SetsWithContent(cs[j], name)
    ensures name in LtpoOf(cs, n).ints && LtpoOf(cs, n).ints[name] == Atoi(cs[i].content.value)
  {
    var ds := EntryEffects(cs, n);
    LastMergedInt(ds, n, i, name);
  }

  lemma ThrottlesAreNamed(cs: seq<Node>, n: nat, name: string)
    requires n <= |cs|
    ensures name in LtpoOf(cs, n).ints <==>
            ThrottleName(name) && exists i :: 0 <= i < n && SetsWithContent(cs[i], name)
  {
    var ds := EntryEffects(cs, n);
    MergedInts(ds, n, name);
  }

  // MAIN: the last entry with any other name holds the frame rates of that name.
  lemma LastRatesDecide(cs: seq<Node>, n: nat, i: nat, name: string)
    requires i < n <= |cs| && RatesName(name) && Sets(cs[i], name)
    requires forall j :: i < j < n ==> !Sets(cs[j], name)
    ensures name in LtpoOf(cs, n).config
    ensures LtpoOf(cs, n).config[name] == RatesOf(cs[i].children, |cs[i].children|)
  {
    var ds := EntryEffects(cs, n);
    LastMergedRates(ds, n, i, name);
  }

  lemma RatesAreNamed(cs: seq<Node>, n: nat, name: string)
    requires n <= |cs|
    ensures name in LtpoOf(cs, n).config <==> RatesName(name) && exists i :: 0 <= i < n && Sets(cs[i], name)
  {
    var ds := EntryEffects(cs, n);
    MergedRates(ds, n, name);
  }

  // MAIN: an application is allowed exactly when some list of applications names it.
  lemma AllowedAppsAreNamed(cs: seq<Node>, n: nat, app: string)
    requires n <= |cs|
    ensures app in LtpoOf(cs, n).apps <==>
            exists i :: 0 <= i < n && Sets(cs[i], "dynamic_apps") && NamedBelow(cs[i], app)
  {
    var ds := EntryEffects(cs, n);
    MergedApps(ds, n, app);
  }

  // A frame rate is kept exactly when it is positive and its range, if it has an upper end, is not empty; a
  // missing number counts as 0.
  lemma RateKeptExactly(c: Node)
    ensures RateOf(c).min == if "min" in c.attributes then Atoi(c.attributes["min"]) else 0
    ensures RateOf(c).max == if "max" in c.attributes then Atoi(c.attributes["max"]) else 0
    ensures RateOf(c).preferred == if "preferred_fps" in c.attributes then Atoi(c.attributes["preferred_fps"]) else 0
    ensures Rated(c) <==> !Skipped(c) && RateOf(c).preferred > 0 && (RateOf(c).max < 0 || RateOf(c).min < RateOf(c).max)
  {
  }

  // ----- frame rates and the switch across files -----

  predicate LeavesOpen(d: LtpoDelta) {
    d.config == map[] && (d.strategy == None || d.strategy == Some(0))
  }

  // MAIN: the first file with frame rates or a strategy other than 0 decides the frame rates and the strategy,
  // whatever later files say.
  lemma FirstCloserDecides(l: Ltpo, es: seq<Effect>, k: nat, n: nat)
    requires l.config == map[] && l.strategy == 0
    requires k < n <= |es| && !LeavesOpen(es[k].ltpo) && forall i :: 0 <= i < k ==> LeavesOpen(es[i].ltpo)
    ensures LtpoAfter(l, es, n).config == es[k].ltpo.config
    ensures LtpoAfter(l, es, n).strategy == match es[k].ltpo.strategy case None => 0 case Some(v) => v
  {
    QuietFilesAddUp(l, es, k);
    ClosedStays(l, es, k + 1, n);
  }

  lemma NoCloserLeavesOpen(l: Ltpo, es: seq<Effect>, n: nat)
    requires l.config == map[] && l.strategy == 0
    requires n <= |es| && forall i :: 0 <= i < n ==> LeavesOpen(es[i].ltpo)
    ensures LtpoAfter(l, es, n).config == map[] && LtpoAfter(l, es, n).strategy == 0
  {
    QuietFilesAddUp(l, es, n);
  }

  // MAIN: the dvsync switch is on exactly when it was, or some file switches it on.
  lemma {:induction false} DvsyncOnExactly(b: bool, es: seq<Effect>, n: nat)
    requires n <= |es|
    ensures DvsyncAfter(b, es, n) <==> b || exists i :: 0 <= i < n && es[i].dvsync == Some(true)
  {
    if n > 0 {
      DvsyncOnExactly(b, es, n - 1);
    }
  }

  // ----- the other sections -----

  predicate IsFirstSetting(cs: seq<Node>, setting: string, k: int) {
    0 <= k < |cs| && Sets(cs[k], setting) && forall j :: 0 <= j < k ==> !Sets(cs[j], setting)
  }

  // The first strategy setting decides, and one without content decides nothing.
  lemma FirstUrlStrategyDecides(cs: seq<Node>, k: nat)
    requires IsFirstSetting(cs, "load_url_strategy", k)
    ensures cs[k].content.Some? ==> LoadUrlOf(cs) == Some(Atoi(cs[k].content.value))
    ensures cs[k].content.None? ==> LoadUrlOf(cs) == None
  {
    assert SettingAt(cs, "load_url_strategy", 0) == k;
  }

  lemma FirstRenderModeDecides(cs: seq<Node>, k: nat)
    requires IsFirstSetting(cs, "render_process_mode", k)
    ensures cs[k].content == Some("single") ==> RenderModeOf(cs) == Some(0)
    ensures cs[k].content == Some("multiple") ==> RenderModeOf(cs) == Some(1)
    ensures cs[k].content.Some? && cs[k].content.value != "single" && cs[k].content.value != "multiple" ==>
              RenderModeOf(cs) == Some(2)
    ensures cs[k].content.None? ==> RenderModeOf(cs) == None
  {
    assert SettingAt(cs, "render_process_mode", 0) == k;
  }

  lemma NoSettingDecidesNothing(cs: seq<Node>)
    ensures (forall j :: 0 <= j < |cs| ==> !Sets(cs[j], "load_url_strategy")) ==> LoadUrlOf(cs) == None
    ensures (forall j :: 0 <= j < |cs| ==> !Sets(cs[j], "render_process_mode")) ==> RenderModeOf(cs) == None
  {
  }

  // Native messaging is enabled by a last grandchild that is the setting and says so, and by nothing else.
  lemma LastGrandchildEnables(cs: seq<Node>, i: nat)
    requires i < |cs| && Decides(cs[i]) && forall j :: i < j < |cs| ==> !Decides(cs[j])
    ensures var last := cs[i].children[|cs[i].children| - 1];
            NativeOf(cs, |cs|)
            == Some(last.name == Some("nativeMessagingSetting") && !last.isComment && last.content == Some("true"))
  {
    LastGrandchildDecides(cs, |cs|, i);
  }

  predicate NamesApplication(c: Node, bundleName: string) {
    && c.name.Some? && !c.isComment
    && "bundle_name" in c.attributes && "enable_window_orientation" in c.attributes
    && (c.attributes["bundle_name"] == bundleName || c.attributes["bundle_name"] == "*")
  }

  // The first entry for the application or for all of them decides about window orientation.
  lemma FirstOrientationDecides(cs: seq<Node>, bundleName: string, k: nat)
    requires k < |cs| && NamesApplication(cs[k], bundleName)
    requires forall j :: 0 <= j < k ==> !NamesApplication(cs[j], bundleName)
    ensures var orientation := cs[k].attributes["enable_window_orientation"];
            OrientationArgs(cs, bundleName)
            == if bundleName != "" && orientation == "true" then ["--enable-blink-features=OrientationEvent"]
               else if bundleName != "" && orientation == "false" then ["--disable-blink-features=OrientationEvent"]
               else []
  {
    assert forall j :: 0 <= j < |cs| ==> (Applies(cs[j], bundleName) <==> NamesApplication(cs[j], bundleName));
    assert ApplicableAt(cs, bundleName, 0) == k;
  }

  lemma NoOrientationGivesNothing(cs: seq<Node>, bundleName: string)
    requires forall j :: 0 <= j < |cs| ==> !NamesApplication(cs[j], bundleName)
    ensures OrientationArgs(cs, bundleName) == []
  {
    assert forall j :: 0 <= j < |cs| ==> (Applies(cs[j], bundleName) <==> NamesApplication(cs[j], bundleName));
  }

  // An entry gives an argument exactly when the table has a non-empty one for its name and content.
  lemma EntryGivesExactly(table: ArgTable, section: string, c: Node, arg: string)
    ensures EntryArg(table, section, c) == [arg] <==>
            && c.name.Some? && !c.isComment && c.content.Some?
            && arg != "" && table(section + "/" + c.name.value, c.content.value) == Some(arg)
  {
  }

  // ----- the sections of a file -----

  // MAIN: each part of what a file does comes from the first section with its name.
  lemma SectionsAreFirstNamed(cs: seq<Node>, e: Effect, k: nat)
    requires Says(cs, e) && k < |cs|
    ensures IsFirstNamed(cs, "property_animation_dynamic_settings", k) ==>
              e.ltpo == LtpoOf(cs[k].children, |cs[k].children|)
    ensures IsFirstNamed(cs, "dvsync_config", k) ==> e.dvsync == DvsyncOf(cs[k].children, |cs[k].children|)
    ensures IsFirstNamed(cs, "load_url_config", k) ==> e.loadUrl == LoadUrlOf(cs[k].children)
    ensures IsFirstNamed(cs, "render_process_mode", k) ==> e.renderMode == RenderModeOf(cs[k].children)
    ensures IsFirstNamed(cs, "webNativeMessagingExtensionConfig", k) ==>
              e.native == NativeOf(cs[k].children, |cs[k].children|)
  {
    FirstNamedIsChild(cs, "property_animation_dynamic_settings", k);
    FirstNamedIsChild(cs, "dvsync_config", k);
    FirstNamedIsChild(cs, "load_url_config", k);
    FirstNamedIsChild(cs, "render_process_mode", k);
    FirstNamedIsChild(cs, "webNativeMessagingExtensionConfig", k);
  }

  lemma FirstNamedIsChild(cs: seq<Node>, name: string, k: nat)
    requires k < |cs|
    ensures IsFirstNamed(cs, name, k) ==> Child(cs, name) == Some(cs[k])
  {
    if IsFirstNamed(cs, name, k) {
      assert ChildAt(cs, name, 0) == k;
    }
  }

  lemma NotNamedIsNoChild(cs: seq<Node>, name: string)
    requires forall j :: 0 <= j < |cs| ==> !Named(cs[j], name)
    ensures Child(cs, name) == None
  {
  }

  // What the base section says about a performance entry wins over what the performance section says.
  lemma BaseSectionWins(cs: seq<Node>, e: Effect, base: nat, key: string)
    requires Says(cs, e) && base < |cs| && IsFirstNamed(cs, "baseWebConfig", base)
    requires key in PerfOf(cs[base].children, |cs[base].children|)
    ensures key in e.perf && e.perf[key] == PerfOf(cs[base].children, |cs[base].children|)[key]
  {
    FirstNamedIsChild(cs, "baseWebConfig", base);
  }

  lemma PerformanceSectionOtherwise(cs: seq<Node>, e: Effect, perf: nat, key: string)
    requires Says(cs, e) && perf < |cs| && IsFirstNamed(cs, "performanceConfig", perf)
    requires key in PerfOf(cs[perf].children, |cs[perf].children|)
    requires forall base :: IsFirstNamed(cs, "baseWebConfig", base) ==>
               key !in PerfOf(cs[base].children, |cs[base].children|)
    ensures key in e.perf && e.perf[key] == PerfOf(cs[perf].children, |cs[perf].children|)[key]
  {
    FirstNamedIsChild(cs, "performanceConfig", perf);
    var base := ChildAt(cs, "baseWebConfig", 0);
    assert base < |cs| ==> IsFirstNamed(cs, "baseWebConfig", base);
  }

  // The arguments to add are those of the first initConfig section, or of the root without one, and then that
  // for window orientation; those to delete are of the first section for them.
  lemma ArgSections(app: Application, root: Node, k: nat)
    requires root.name == Some("WEB") && k < |root.children|
    ensures var cs, args := root.children, FileArgsOf(app, Some(root));
            && args.add == InitSection(app.configMap, root) + OrientationSection(cs, app.bundleName)
            && (IsFirstNamed(cs, "initConfig", k) ==>
                  InitSection(app.configMap, root) == ArgsOf(app.configMap, cs[k].children, |cs[k].children|))
            && ((forall j :: 0 <= j < |cs| ==> !Named(cs[j], "initConfig")) ==>
                  InitSection(app.configMap, root) == ArgsOf(app.configMap, cs, |cs|))
            && (IsFirstNamed(cs, "window_orientation_config", k) ==>
                  OrientationSection(cs, app.bundleName) == OrientationArgs(cs[k].children, app.bundleName))
            && (IsFirstNamed(cs, "deleteArgsConfig", k) ==>
                  args.delete == ArgsOf(app.configMap, cs[k].children, |cs[k].children|))
  {
    FirstNamedIsChild(root.children, "initConfig", k);
    FirstNamedIsChild(root.children, "window_orientation_config", k);
    FirstNamedIsChild(root.children, "deleteArgsConfig", k);
  }

  // A parse adds exactly the arguments to add of its files, and deletes exactly those to delete.
  lemma {:induction false} AllArgsAreOfFiles(cs: seq<Content>, n: nat, arg: string)
    requires n <= |cs|
    ensures arg in AllArgs(cs, n).add <==> exists i :: 0 <= i < n && arg in cs[i].args.add
    ensures arg in AllArgs(cs, n).delete <==> exists i :: 0 <= i < n && arg in cs[i].args.delete
  {
    if n > 0 {
      AllArgsAreOfFiles(cs, n - 1, arg);
    }
  }

  // The first path is passed over, and a path that is too long stands for the default file.
  lemma PathsOfList(first: CfgPath, doc: Option<Node>, default_: Option<Node>, rest: seq<CfgPath>)
    ensures DocsOf(Some([first, TooLong, Path(doc), EndOfList] + rest), default_) == [default_, doc]
    ensures DocsOf(None, default_) == [default_]
  {
    var ps := [first, TooLong, Path(doc), EndOfList] + rest;
    assert ps[1] == TooLong && ps[2] == Path(doc) && ps[3] == EndOfList;
    assert EndAt(ps, 1) == 3;
  }
}
