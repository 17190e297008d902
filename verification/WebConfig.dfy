/**
 * `NWebConfigHelper`: the web configuration files, already parsed into trees, are folded one after
 * the other into maps and flags, and the whole list is parsed again several times per process.
 */
module WebConfig {
  import opened Options
  import opened Decimal
  import opened Sequences

  // ----- XML trees -----

  datatype Node = Node(
    name: Option<string>,
    isComment: bool,
    attributes: map<string, string>,
    content: Option<string>,
    children: seq<Node>)

  // Nodes that every loop passes over.
  predicate Skipped(n: Node) { n.name.None? || n.isComment }

  function Attribute(n: Node, key: string): Option<string> {
    if key in n.attributes then Some(n.attributes[key]) else None
  }

  // atoi: optional white space and sign, then the longest run of digits.
  function Atoi(s: string): int {
    if s == "" then 0
    else if s[0] == ' ' || '\t' <= s[0] <= '\r' then Atoi(s[1..])
    else if s[0] == '-' then 0 - (ParseNat(LeadingDigits(s[1..])) as int)
    else if s[0] == '+' then ParseNat(LeadingDigits(s[1..]))
    else ParseNat(LeadingDigits(s))
  }

  function LeadingDigits(s: string): (d: string)
    ensures AllDigits(d)
  {
    if s == "" || !IsDigit(s[0]) then "" else [s[0]] + LeadingDigits(s[1..])
  }

  // ----- the helper's state -----

  datatype FrameRate = FrameRate(min: int, max: int, preferred: int)

  datatype Ltpo = Ltpo(config: map<string, seq<FrameRate>>, apps: set<string>, ints: map<string, int>, strategy: int)

  datatype Helper = Helper(
    perf: map<string, string>,
    ltpo: Ltpo,
    loadUrlStrategy: int,
    renderProcessMode: int,
    dvsync: bool,
    nativeMessaging: bool,
    parsed: bool)

  const SINGLE_MODE := 0
  const MULTIPLE_MODE := 1
  const DEFAULT_MODE := 2

  const Initial := Helper(map[], Ltpo(map[], {}, map[], 0), 0, DEFAULT_MODE, false, false, false)

  // ----- what a section of a file says -----

  function Override<T>(o: Option<T>, old_: T): T {
    match o case None => old_ case Some(v) => v
  }

  function Later<T>(first: Option<T>, second: Option<T>): Option<T> {
    if second.Some? then second else first
  }

  predicate Named(c: Node, name: string) {
    !Skipped(c) && c.name.value == name
  }

  // The first position from `i` of a child with this name, or |cs|.
  function ChildAt(cs: seq<Node>, name: string, i: nat): (k: nat)
    requires i <= |cs|
    ensures i <= k <= |cs|
    ensures k < |cs| ==> Named(cs[k], name)
    ensures forall j :: i <= j < k ==> !Named(cs[j], name)
    decreases |cs| - i
  {
    if i == |cs| || Named(cs[i], name) then i else ChildAt(cs, name, i + 1)
  }

  ghost predicate IsFirstNamed(cs: seq<Node>, name: string, k: int) {
    0 <= k < |cs| && Named(cs[k], name) && forall j :: 0 <= j < k ==> !Named(cs[j], name)
  }

  function Child(cs: seq<Node>, name: string): Option<Node> {
    var k := ChildAt(cs, name, 0);
    if k == |cs| then None else Some(cs[k])
  }

  // Performance section: "section/entry" to its content, the last one winning.
  function PerfOf(cs: seq<Node>, n: nat): map<string, string>
    requires n <= |cs|
  {
    if n == 0 then map[]
    else PerfOf(cs, n - 1) + (if Skipped(cs[n - 1]) then map[]
                              else PerfEntries(cs[n - 1].name.value, cs[n - 1].children, |cs[n - 1].children|))
  }

  function PerfEntries(section: string, cs: seq<Node>, n: nat): map<string, string>
    requires n <= |cs|
  {
    if n == 0 then map[]
    else
      var c := cs[n - 1];
      PerfEntries(section, cs, n - 1)
      + (if Skipped(c) || c.content.None? then map[] else map[section + "/" + c.name.value := c.content.value])
  }

  // Frame rate section.
  datatype LtpoDelta = LtpoDelta(config: map<string, seq<FrameRate>>, apps: set<string>, ints: map<string, int>,
                                 strategy: Option<int>)

  const NoLtpo := LtpoDelta(map[], {}, map[], None)

  function ApplyLtpo(l: Ltpo, d: LtpoDelta): Ltpo {
    Ltpo(l.config + d.config, l.apps + d.apps, l.ints + d.ints, Override(d.strategy, l.strategy))
  }

  function Merge(d: LtpoDelta, e: LtpoDelta): LtpoDelta {
    LtpoDelta(d.config + e.config, d.apps + e.apps, d.ints + e.ints, Later(d.strategy, e.strategy))
  }

  function LtpoOf(cs: seq<Node>, n: nat): LtpoDelta
    requires n <= |cs|
  {
    if n == 0 then NoLtpo else Merge(LtpoOf(cs, n - 1), LtpoEntry(cs[n - 1]))
  }

  predicate IsThrottle(setting: string) {
    setting == "throttle_strategy" || setting == "throttle_timeout" || setting == "throttle_ratio"
  }

  function LtpoEntry(c: Node): LtpoDelta {
    var setting := Attribute(c, "name");
    if Skipped(c) || setting.None? then NoLtpo
    else if setting.value == "dynamic_apps" then NoLtpo.(apps := AppsOf(c.children, |c.children|))
    else if setting.value == "ltpo_strategy" then
      NoLtpo.(strategy := match c.content case None => None case Some(s) => Some(Atoi(s)))
    else if IsThrottle(setting.value) then
      if c.content.None? then NoLtpo else NoLtpo.(ints := map[setting.value := Atoi(c.content.value)])
    else NoLtpo.(config := map[setting.value := RatesOf(c.children, |c.children|)])
  }

  function AppsOf(cs: seq<Node>, n: nat): set<string>
    requires n <= |cs|
  {
    if n == 0 then {}
    else
      var c := cs[n - 1];
      AppsOf(cs, n - 1) + (if Skipped(c) || Attribute(c, "name").None? then {} else {Attribute(c, "name").value})
  }

  function IntAttribute(c: Node, key: string): int {
    match Attribute(c, key) case None => 0 case Some(s) => Atoi(s)
  }

  function RateOf(c: Node): FrameRate {
    FrameRate(IntAttribute(c, "min"), IntAttribute(c, "max"), IntAttribute(c, "preferred_fps"))
  }

  predicate RateInvalid(r: FrameRate) {
    (r.max >= 0 && r.min >= r.max) || r.preferred <= 0
  }

  function RatesOf(cs: seq<Node>, n: nat): seq<FrameRate>
    requires n <= |cs|
  {
    if n == 0 then []
    else
      var c := cs[n - 1];
      RatesOf(cs, n - 1) + (if Skipped(c) || RateInvalid(RateOf(c)) then [] else [RateOf(c)])
  }

  // The switch of the dvsync section: the last one with content.
  function DvsyncOf(cs: seq<Node>, n: nat): Option<bool>
    requires n <= |cs|
  {
    if n == 0 then None
    else
      var c := cs[n - 1];
      if !Skipped(c) && Attribute(c, "name") == Some("dvsync_switch") && c.content.Some?
      then Some(Atoi(c.content.value) == 1) else DvsyncOf(cs, n - 1)
  }

  predicate Sets(c: Node, setting: string) {
    !Skipped(c) && Attribute(c, "name") == Some(setting)
  }

  // The first position from `i` of a child whose name attribute is `setting`, or |cs|.
  function SettingAt(cs: seq<Node>, setting: string, i: nat): (k: nat)
    requires i <= |cs|
    ensures i <= k <= |cs|
    ensures k < |cs| ==> Sets(cs[k], setting)
    ensures forall j :: i <= j < k ==> !Sets(cs[j], setting)
    decreases |cs| - i
  {
    if i == |cs| || Sets(cs[i], setting) then i else SettingAt(cs, setting, i + 1)
  }

  function Setting(cs: seq<Node>, setting: string): Option<Node> {
    var k := SettingAt(cs, setting, 0);
    if k == |cs| then None else Some(cs[k])
  }

  function LoadUrlOf(cs: seq<Node>): Option<int> {
    match Setting(cs, "load_url_strategy")
    case None => None
    case Some(c) => match c.content case None => None case Some(s) => Some(Atoi(s))
  }

  function ModeNamed(content: string): int {
    if content == "single" then SINGLE_MODE
    else if content == "multiple" then MULTIPLE_MODE
    else DEFAULT_MODE
  }

  function RenderModeOf(cs: seq<Node>): Option<int> {
    match Setting(cs, "render_process_mode")
    case None => None
    case Some(c) => match c.content case None => None case Some(s) => Some(ModeNamed(s))
  }

  // Native messaging: the last grandchild decides, and anything but the setting with "true" disables.
  function NativeOf(cs: seq<Node>, n: nat): Option<bool>
    requires n <= |cs|
  {
    if n == 0 then None
    else
      var c := cs[n - 1];
      if Skipped(c) || c.children == [] then NativeOf(cs, n - 1)
      else Some(NativeEnabled(c.children[|c.children| - 1]))
  }

  predicate NativeEnabled(c: Node) {
    !Skipped(c) && c.name.value == "nativeMessagingSetting" && c.content == Some("true")
  }

  // ----- what the sections mean, entry by entry -----

  lemma {:induction false} AppsAreNamed(cs: seq<Node>, n: nat, app: string)
    requires n <= |cs|
    ensures app in AppsOf(cs, n) <==> exists i :: 0 <= i < n && Sets(cs[i], app)
  {
    if n > 0 {
      AppsAreNamed(cs, n - 1, app);
    }
  }

  predicate Switches(c: Node) {
    Sets(c, "dvsync_switch") && c.content.Some?
  }

  lemma {:induction false} LastSwitchDecides(cs: seq<Node>, n: nat, i: nat)
    requires i < n <= |cs| && Switches(cs[i]) && forall j :: i < j < n ==> !Switches(cs[j])
    ensures DvsyncOf(cs, n) == Some(Atoi(cs[i].content.value) == 1)
  {
    if i < n - 1 {
      LastSwitchDecides(cs, n - 1, i);
    }
  }

  lemma {:induction false} NoSwitchDecidesNothing(cs: seq<Node>, n: nat)
    requires n <= |cs| && forall j :: 0 <= j < n ==> !Switches(cs[j])
    ensures DvsyncOf(cs, n) == None
  {
    if n > 0 {
      NoSwitchDecidesNothing(cs, n - 1);
    }
  }

  predicate Decides(c: Node) { !Skipped(c) && c.children != [] }

  lemma {:induction false} LastGrandchildDecides(cs: seq<Node>, n: nat, i: nat)
    requires i < n <= |cs| && Decides(cs[i]) && forall j :: i < j < n ==> !Decides(cs[j])
    ensures NativeOf(cs, n) == Some(NativeEnabled(cs[i].children[|cs[i].children| - 1]))
  {
    if i < n - 1 {
      LastGrandchildDecides(cs, n - 1, i);
    }
  }

  // How many of the first n nodes are kept.
  function Count(cs: seq<Node>, keep: Node -> bool, n: nat): nat
    requires n <= |cs|
  {
    if n == 0 then 0 else Count(cs, keep, n - 1) + if keep(cs[n - 1]) then 1 else 0
  }

  predicate Rated(c: Node) { !Skipped(c) && !RateInvalid(RateOf(c)) }

  lemma {:induction false} RatesCounted(cs: seq<Node>, n: nat)
    requires n <= |cs|
    ensures |RatesOf(cs, n)| == Count(cs, Rated, n)
  {
    if n > 0 {
      RatesCounted(cs, n - 1);
    }
  }

  // Each valid rate stands at the position that counts the valid ones before it.
  lemma {:induction false} RatesInOrder(cs: seq<Node>, n: nat, i: nat, at: nat)
    requires i < n <= |cs| && Rated(cs[i]) && at == Count(cs, Rated, i)
    ensures at < |RatesOf(cs, n)| && RatesOf(cs, n)[at] == RateOf(cs[i])
  {
    if i < n - 1 {
      RatesInOrder(cs, n - 1, i, at);
    } else {
      RatesCounted(cs, i);
    }
  }

  // A performance entry, its key and its content.
  predicate PerfAt(cs: seq<Node>, i: nat, j: nat) {
    && i < |cs| && !Skipped(cs[i])
    && j < |cs[i].children| && !Skipped(cs[i].children[j]) && cs[i].children[j].content.Some?
  }

  function KeyAt(cs: seq<Node>, i: nat, j: nat): string
    requires PerfAt(cs, i, j)
  {
    cs[i].name.value + "/" + cs[i].children[j].name.value
  }

  predicate HasKey(cs: seq<Node>, i: nat, j: nat, key: string) {
    PerfAt(cs, i, j) && KeyAt(cs, i, j) == key
  }

  // In document order the last entry with a key decides its value.
  lemma {:induction false} LastPerfEntryWins(cs: seq<Node>, n: nat, i: nat, j: nat, key: string)
    requires i < n <= |cs| && HasKey(cs, i, j, key)
    requires forall l :: j < l < |cs[i].children| ==> !HasKey(cs, i, l, key)
    requires forall k, l :: i < k < n && 0 <= l < |cs[k].children| ==> !HasKey(cs, k, l, key)
    ensures key in PerfOf(cs, n) && PerfOf(cs, n)[key] == cs[i].children[j].content.value
  {
    if i == n - 1 {
      LastInSectionWins(cs, i, |cs[i].children|, j, key);
    } else {
      LastPerfEntryWins(cs, n - 1, i, j, key);
      if !Skipped(cs[n - 1]) {
        SectionKeys(cs, n - 1, |cs[n - 1].children|, key);
      }
    }
  }

  lemma {:induction false} LastInSectionWins(cs: seq<Node>, i: nat, m: nat, j: nat, key: string)
    requires i < |cs| && j < m <= |cs[i].children| && HasKey(cs, i, j, key)
    requires forall l :: j < l < m ==> !HasKey(cs, i, l, key)
    ensures key in PerfEntries(cs[i].name.value, cs[i].children, m)
    ensures PerfEntries(cs[i].name.value, cs[i].children, m)[key] == cs[i].children[j].content.value
  {
    if j < m - 1 {
      LastInSectionWins(cs, i, m - 1, j, key);
      assert !HasKey(cs, i, m - 1, key);
    }
  }

  lemma {:induction false} SectionKeys(cs: seq<Node>, i: nat, m: nat, key: string)
    requires i < |cs| && !Skipped(cs[i]) && m <= |cs[i].children|
    ensures key in PerfEntries(cs[i].name.value, cs[i].children, m) <==> exists l :: 0 <= l < m && HasKey(cs, i, l, key)
  {
    if m > 0 {
      SectionKeys(cs, i, m - 1, key);
      assert HasKey(cs, i, m - 1, key) <==> PerfAt(cs, i, m - 1) && KeyAt(cs, i, m - 1) == key;
    }
  }

  lemma {:induction false} PerfKeysAreEntries(cs: seq<Node>, n: nat, key: string)
    requires n <= |cs|
    ensures key in PerfOf(cs, n) <==> exists i, j :: 0 <= i < n && 0 <= j < |cs[i].children| && HasKey(cs, i, j, key)
  {
    if n > 0 {
      PerfKeysAreEntries(cs, n - 1, key);
      if !Skipped(cs[n - 1]) {
        SectionKeys(cs, n - 1, |cs[n - 1].children|, key);
      }
    }
  }

  // ----- what a file does -----

  datatype Effect = Effect(
    perf: map<string, string>,
    ltpo: LtpoDelta,
    dvsync: Option<bool>,
    loadUrl: Option<int>,
    renderMode: Option<int>,
    native: Option<bool>)

  const NoEffect := Effect(map[], NoLtpo, None, None, None, None)

  predicate IsWeb(doc: Option<Node>) {
    doc.Some? && doc.value.name == Some("WEB")
  }

  function EffectOf(doc: Option<Node>): Effect {
    if !IsWeb(doc) then NoEffect
    else
      var cs := doc.value.children;
      Effect(PerfSection(cs, PERFORMANCE_CONFIG) + PerfSection(cs, BASE_WEB_CONFIG),
             LtpoSection(cs), DvsyncSection(cs), LoadUrlSection(cs), RenderModeSection(cs), NativeSection(cs))
  }

  const INIT_CONFIG := "initConfig"
  const DELETE_CONFIG := "deleteArgsConfig"
  const PERFORMANCE_CONFIG := "performanceConfig"
  const BASE_WEB_CONFIG := "baseWebConfig"
  const WEB_ANIMATION_DYNAMIC_SETTING_CONFIG := "property_animation_dynamic_settings"
  const WEB_DVSYNC_CONFIG := "dvsync_config"
  const WEB_LOAD_URL_CONFIG := "load_url_config"
  const WEB_RENDER_PROCESS_MODE := "render_process_mode"
  const WEB_NATIVE_MESSAGING_EXTENSION_CONFIG := "webNativeMessagingExtensionConfig"

  // The sections below a root say e.
  predicate Says(cs: seq<Node>, e: Effect) {
    && e.perf == PerfSection(cs, PERFORMANCE_CONFIG) + PerfSection(cs, BASE_WEB_CONFIG)
    && e.ltpo == LtpoSection(cs) && e.dvsync == DvsyncSection(cs) && e.loadUrl == LoadUrlSection(cs)
    && e.renderMode == RenderModeSection(cs) && e.native == NativeSection(cs)
  }

  function PerfSection(cs: seq<Node>, name: string): map<string, string> {
    match Child(cs, name) case None => map[] case Some(c) => PerfOf(c.children, |c.children|)
  }

  function LtpoSection(cs: seq<Node>): LtpoDelta {
    match Child(cs, WEB_ANIMATION_DYNAMIC_SETTING_CONFIG)
    case None => NoLtpo case Some(c) => LtpoOf(c.children, |c.children|)
  }

  function DvsyncSection(cs: seq<Node>): Option<bool> {
    match Child(cs, WEB_DVSYNC_CONFIG) case None => None case Some(c) => DvsyncOf(c.children, |c.children|)
  }

  function LoadUrlSection(cs: seq<Node>): Option<int> {
    match Child(cs, WEB_LOAD_URL_CONFIG) case None => None case Some(c) => LoadUrlOf(c.children)
  }

  function RenderModeSection(cs: seq<Node>): Option<int> {
    match Child(cs, WEB_RENDER_PROCESS_MODE) case None => None case Some(c) => RenderModeOf(c.children)
  }

  function NativeSection(cs: seq<Node>): Option<bool> {
    match Child(cs, WEB_NATIVE_MESSAGING_EXTENSION_CONFIG)
    case None => None case Some(c) => NativeOf(c.children, |c.children|)
  }

  // Frame rate settings are closed once a file left a configuration or a strategy.
  predicate Closed(l: Ltpo) {
    l.config != map[] || l.strategy != 0
  }

  function FoldLtpo(l: Ltpo, d: LtpoDelta): Ltpo {
    if Closed(l) then l else ApplyLtpo(l, d)
  }

  function FoldDvsync(b: bool, d: Option<bool>): bool {
    if b then b else Override(d, b)
  }

  function Apply(h: Helper, e: Effect): Helper {
    Helper(h.perf + e.perf,
           FoldLtpo(h.ltpo, e.ltpo),
           Override(e.loadUrl, h.loadUrlStrategy),
           Override(e.renderMode, h.renderProcessMode),
           FoldDvsync(h.dvsync, e.dvsync),
           Override(e.native, h.nativeMessaging),
           h.parsed)
  }

  // Apply, section by section.
  function AfterPerf(h: Helper, e: Effect): Helper { h.(perf := h.perf + e.perf) }

  function AfterGated(h: Helper, e: Effect): Helper {
    h.(ltpo := FoldLtpo(h.ltpo, e.ltpo), dvsync := FoldDvsync(h.dvsync, e.dvsync))
  }

  function AfterUrlAndMode(h: Helper, e: Effect): Helper {
    h.(loadUrlStrategy := Override(e.loadUrl, h.loadUrlStrategy),
       renderProcessMode := Override(e.renderMode, h.renderProcessMode))
  }

  function AfterNative(h: Helper, e: Effect): Helper {
    h.(nativeMessaging := Override(e.native, h.nativeMessaging))
  }

  lemma SectionsApply(h: Helper, e: Effect)
    ensures AfterNative(AfterUrlAndMode(AfterGated(AfterPerf(h, e), e), e), e) == Apply(h, e)
  {
  }

  function ParsedFiles(h: Helper, es: seq<Effect>, n: nat): Helper
    requires n <= |es|
  {
    if n == 0 then h else Apply(ParsedFiles(h, es, n - 1), es[n - 1])
  }

  // ParseConfig on a list of files.
  function Parsed(h: Helper, es: seq<Effect>): Helper {
    ParsedFiles(h, es, |es|).(parsed := true)
  }

  // ----- parsing again -----

  // What the ungated part of a list of files amounts to.
  function PerfTotal(es: seq<Effect>, n: nat): map<string, string>
    requires n <= |es|
  {
    if n == 0 then map[] else PerfTotal(es, n - 1) + es[n - 1].perf
  }

  function LoadUrls(es: seq<Effect>, n: nat): Option<int>
    requires n <= |es|
  {
    if n == 0 then None else Later(LoadUrls(es, n - 1), es[n - 1].loadUrl)
  }

  function RenderModes(es: seq<Effect>, n: nat): Option<int>
    requires n <= |es|
  {
    if n == 0 then None else Later(RenderModes(es, n - 1), es[n - 1].renderMode)
  }

  function Natives(es: seq<Effect>, n: nat): Option<bool>
    requires n <= |es|
  {
    if n == 0 then None else Later(Natives(es, n - 1), es[n - 1].native)
  }

  lemma MergeAssociative<K, V>(a: map<K, V>, b: map<K, V>, c: map<K, V>)
    ensures (a + b) + c == a + (b + c)
  {
  }

  // The last file that says anything wins, entry by entry.
  lemma {:induction false} LastWins(h: Helper, es: seq<Effect>, n: nat)
    requires n <= |es|
    ensures var r := ParsedFiles(h, es, n);
            && r.perf == h.perf + PerfTotal(es, n)
            && r.loadUrlStrategy == Override(LoadUrls(es, n), h.loadUrlStrategy)
            && r.renderProcessMode == Override(RenderModes(es, n), h.renderProcessMode)
            && r.nativeMessaging == Override(Natives(es, n), h.nativeMessaging)
            && r.parsed == h.parsed
  {
    if n == 0 {
      assert h.perf + map[] == h.perf;
    } else {
      LastWins(h, es, n - 1);
      MergeAssociative(h.perf, PerfTotal(es, n - 1), es[n - 1].perf);
    }
  }

  function LtpoAfter(l: Ltpo, es: seq<Effect>, n: nat): Ltpo
    requires n <= |es|
  {
    if n == 0 then l else FoldLtpo(LtpoAfter(l, es, n - 1), es[n - 1].ltpo)
  }

  function DvsyncAfter(b: bool, es: seq<Effect>, n: nat): bool
    requires n <= |es|
  {
    if n == 0 then b else FoldDvsync(DvsyncAfter(b, es, n - 1), es[n - 1].dvsync)
  }

  lemma {:induction false} GatedParts(h: Helper, es: seq<Effect>, n: nat)
    requires n <= |es|
    ensures ParsedFiles(h, es, n).ltpo == LtpoAfter(h.ltpo, es, n)
    ensures ParsedFiles(h, es, n).dvsync == DvsyncAfter(h.dvsync, es, n)
  {
    if n > 0 {
      GatedParts(h, es, n - 1);
    }
  }

  // MAIN: once a file has left a frame rate configuration or strategy, no later file and no later
  // parse changes any frame rate field.
  lemma {:induction false} ClosedStays(l: Ltpo, es: seq<Effect>, k: nat, n: nat)
    requires k <= n <= |es| && Closed(LtpoAfter(l, es, k))
    ensures LtpoAfter(l, es, n) == LtpoAfter(l, es, k)
  {
    if k < n {
      ClosedStays(l, es, k, n - 1);
    }
  }

  // A file that leaves the gate open wrote no configuration and no strategy but 0.
  predicate Quiet(d: LtpoDelta) {
    d.config == map[] && (d.strategy.None? || d.strategy.value == 0)
  }

  lemma {:induction false} OpenMeansQuiet(l: Ltpo, es: seq<Effect>, n: nat)
    requires n <= |es| && !Closed(LtpoAfter(l, es, n))
    ensures !Closed(l) && forall i :: 0 <= i < n ==> Quiet(es[i].ltpo)
  {
    if n > 0 {
      var before := LtpoAfter(l, es, n - 1);
      var d := es[n - 1].ltpo;
      assert !Closed(before);
      OpenMeansQuiet(l, es, n - 1);
      assert before.config + d.config == map[];
      forall k ensures k !in d.config {
        assert k !in before.config + d.config;
      }
      assert d.config.Keys == {};
    }
  }

  function QuietApps(es: seq<Effect>, n: nat): set<string>
    requires n <= |es|
  {
    if n == 0 then {} else QuietApps(es, n - 1) + es[n - 1].ltpo.apps
  }

  function QuietInts(es: seq<Effect>, n: nat): map<string, int>
    requires n <= |es|
  {
    if n == 0 then map[] else QuietInts(es, n - 1) + es[n - 1].ltpo.ints
  }

  lemma {:induction false} QuietFilesAddUp(l: Ltpo, es: seq<Effect>, n: nat)
    requires n <= |es| && !Closed(l) && forall i :: 0 <= i < n ==> Quiet(es[i].ltpo)
    ensures LtpoAfter(l, es, n) == Ltpo(map[], l.apps + QuietApps(es, n), l.ints + QuietInts(es, n), 0)
  {
    if n == 0 {
      assert l.ints + map[] == l.ints;
    } else {
      QuietFilesAddUp(l, es, n - 1);
      var d := es[n - 1].ltpo;
      QuietStep(LtpoAfter(l, es, n - 1), d);
      MergeAssociative(l.ints, QuietInts(es, n - 1), d.ints);
      assert (l.apps + QuietApps(es, n - 1)) + d.apps == l.apps + QuietApps(es, n);
    }
  }

  lemma QuietStep(l: Ltpo, d: LtpoDelta)
    requires !Closed(l) && Quiet(d)
    ensures FoldLtpo(l, d) == Ltpo(map[], l.apps + d.apps, l.ints + d.ints, 0)
  {
  }

  lemma LtpoIdempotent(l: Ltpo, es: seq<Effect>)
    ensures var once := LtpoAfter(l, es, |es|); LtpoAfter(once, es, |es|) == once
  {
    var once := LtpoAfter(l, es, |es|);
    if Closed(once) {
      ClosedStays(once, es, 0, |es|);
    } else {
      OpenMeansQuiet(l, es, |es|);
      QuietFilesAddUp(l, es, |es|);
      QuietFilesAddUp(once, es, |es|);
      var apps, ints := QuietApps(es, |es|), QuietInts(es, |es|);
      assert (l.apps + apps) + apps == l.apps + apps;
      assert (l.ints + ints) + ints == l.ints + ints;
    }
  }

  lemma {:induction false} DvsyncTrueStays(es: seq<Effect>, n: nat)
    requires n <= |es|
    ensures DvsyncAfter(true, es, n)
  {
    if n > 0 {
      DvsyncTrueStays(es, n - 1);
    }
  }

  lemma DvsyncIdempotent(b: bool, es: seq<Effect>)
    ensures var once := DvsyncAfter(b, es, |es|); DvsyncAfter(once, es, |es|) == once
  {
    DvsyncTrueStays(es, |es|);
  }

  // MAIN: parsing the same list of files again changes no field of the helper, from any state.
  lemma ParsingIsIdempotent(h: Helper, es: seq<Effect>)
    ensures Parsed(Parsed(h, es), es) == Parsed(h, es)
  {
    var once := Parsed(h, es);
    LastWins(h, es, |es|);
    LastWins(once, es, |es|);
    GatedParts(h, es, |es|);
    GatedParts(once, es, |es|);
    LtpoIdempotent(h.ltpo, es);
    DvsyncIdempotent(h.dvsync, es);
    var t := PerfTotal(es, |es|);
    assert (h.perf + t) + t == h.perf + t;
  }

  // ----- the argument lists -----

  // The table from "section/entry" and content to an argument: None when the entry is not in the
  // table, and an empty argument is not added. Everything below holds for any table.
  type ArgTable = (string, string) -> Option<string>

  // The arguments of a section's entries, in document order.
  function ArgsOf(table: ArgTable, cs: seq<Node>, n: nat): seq<string>
    requires n <= |cs|
  {
    if n == 0 then []
    else ArgsOf(table, cs, n - 1) + (if Skipped(cs[n - 1]) then []
                              else EntryArgs(table, cs[n - 1].name.value, cs[n - 1].children, |cs[n - 1].children|))
  }

  function EntryArgs(table: ArgTable, section: string, cs: seq<Node>, n: nat): seq<string>
    requires n <= |cs|
  {
    if n == 0 then []
    else EntryArgs(table, section, cs, n - 1) + EntryArg(table, section, cs[n - 1])
  }

  function EntryArg(table: ArgTable, section: string, c: Node): seq<string> {
    if Skipped(c) || c.content.None? then []
    else
      match table(section + "/" + c.name.value, c.content.value)
      case None => []
      case Some(arg) => if arg == "" then [] else [arg]
  }

  // An entry that gives an argument.
  predicate Gives(table: ArgTable, section: string, c: Node) {
    EntryArg(table, section, c) != []
  }

  function Giver(table: ArgTable, section: string): Node -> bool {
    c => Gives(table, section, c)
  }

  lemma {:induction false} EntryArgsCounted(table: ArgTable, section: string, cs: seq<Node>, n: nat)
    requires n <= |cs|
    ensures |EntryArgs(table, section, cs, n)| == Count(cs, Giver(table, section), n)
  {
    if n > 0 {
      EntryArgsCounted(table, section, cs, n - 1);
    }
  }

  // Each argument of a section stands at the position that counts the giving entries before it.
  lemma {:induction false} EntryArgsInOrder(table: ArgTable, section: string, cs: seq<Node>, n: nat, j: nat, at: nat)
    requires j < n <= |cs| && Gives(table, section, cs[j]) && at == Count(cs, Giver(table, section), j)
    ensures at < |EntryArgs(table, section, cs, n)|
    ensures EntryArg(table, section, cs[j]) == [EntryArgs(table, section, cs, n)[at]]
  {
    if j < n - 1 {
      EntryArgsInOrder(table, section, cs, n - 1, j, at);
    } else {
      EntryArgsCounted(table, section, cs, j);
    }
  }

  // How many entries of the first n sections give an argument.
  function GivingBefore(table: ArgTable, cs: seq<Node>, n: nat): nat
    requires n <= |cs|
  {
    if n == 0 then 0
    else
      var c := cs[n - 1];
      GivingBefore(table, cs, n - 1)
      + if Skipped(c) then 0 else Count(c.children, Giver(table, c.name.value), |c.children|)
  }

  lemma {:induction false} ArgsCounted(table: ArgTable, cs: seq<Node>, n: nat)
    requires n <= |cs|
    ensures |ArgsOf(table, cs, n)| == GivingBefore(table, cs, n)
  {
    if n > 0 {
      ArgsCounted(table, cs, n - 1);
      if !Skipped(cs[n - 1]) {
        EntryArgsCounted(table, cs[n - 1].name.value, cs[n - 1].children, |cs[n - 1].children|);
      }
    }
  }

  // All arguments stand in document order: that of entry j of section i behind those of the giving entries
  // before it in this section (`here`) and in the sections before.
  lemma ArgsInOrder(table: ArgTable, cs: seq<Node>, n: nat, i: nat, j: nat, here: nat, arg: string)
    requires i < n <= |cs| && !Skipped(cs[i]) && j < |cs[i].children|
    requires EntryArg(table, cs[i].name.value, cs[i].children[j]) == [arg]
    requires here == Count(cs[i].children, Giver(table, cs[i].name.value), j)
    ensures StandsAt(ArgsOf(table, cs, n), GivingBefore(table, cs, i) + here, arg)
  {
    EntryArgsInOrder(table, cs[i].name.value, cs[i].children, |cs[i].children|, j, here);
    ArgsCounted(table, cs, i);
    var more := ArgsStep(table, cs, i + 1);
    StandsBehind(ArgsOf(table, cs, i), more, here, arg);
    StillStands(table, cs, i + 1, n, GivingBefore(table, cs, i) + here, arg);
  }

  predicate StandsAt(args: seq<string>, at: nat, arg: string) {
    at < |args| && args[at] == arg
  }

  lemma StandsBehind(before: seq<string>, more: seq<string>, here: nat, arg: string)
    requires StandsAt(more, here, arg)
    ensures StandsAt(before + more, |before| + here, arg)
  {
  }

  lemma {:induction false} StillStands(table: ArgTable, cs: seq<Node>, m: nat, n: nat, at: nat, arg: string)
    requires m <= n <= |cs| && StandsAt(ArgsOf(table, cs, m), at, arg)
    ensures StandsAt(ArgsOf(table, cs, n), at, arg)
  {
    if m < n {
      StillStands(table, cs, m, n - 1, at, arg);
      var more := ArgsStep(table, cs, n);
    }
  }

  lemma ArgsStep(table: ArgTable, cs: seq<Node>, n: nat) returns (more: seq<string>)
    requires 0 < n <= |cs|
    ensures ArgsOf(table, cs, n) == ArgsOf(table, cs, n - 1) + more
    ensures !Skipped(cs[n - 1]) ==>
              more == EntryArgs(table, cs[n - 1].name.value, cs[n - 1].children, |cs[n - 1].children|)
  {
    var c := cs[n - 1];
    more := if Skipped(c) then [] else EntryArgs(table, c.name.value, c.children, |c.children|);
  }

  const WEB_WINDOW_ORIENTATION_CONFIG := "window_orientation_config"
  const WEB_ALL_BUNDLE_NAME := "*"

  // The application: its argument table and its bundle name, empty if it cannot be found out.
  datatype Application = Application(configMap: ArgTable, bundleName: string)

  // An entry with both attributes that names the application or all of them.
  predicate Applies(c: Node, bundleName: string) {
    && !Skipped(c)
    && Attribute(c, "bundle_name").Some? && Attribute(c, "enable_window_orientation").Some?
    && (Attribute(c, "bundle_name").value == bundleName || Attribute(c, "bundle_name").value == WEB_ALL_BUNDLE_NAME)
  }

  // The first position from `i` of such an entry, or |cs|.
  function ApplicableAt(cs: seq<Node>, bundleName: string, i: nat): (k: nat)
    requires i <= |cs|
    ensures i <= k <= |cs|
    ensures k < |cs| ==> Applies(cs[k], bundleName)
    ensures forall j :: i <= j < k ==> !Applies(cs[j], bundleName)
    decreases |cs| - i
  {
    if i == |cs| || Applies(cs[i], bundleName) then i else ApplicableAt(cs, bundleName, i + 1)
  }

  // The argument for window orientation: the first applicable entry decides.
  function OrientationArgs(cs: seq<Node>, bundleName: string): seq<string> {
    var k := ApplicableAt(cs, bundleName, 0);
    if bundleName == "" || k == |cs| then []
    else
      match cs[k].attributes["enable_window_orientation"]
      case "true" => ["--enable-blink-features=OrientationEvent"]
      case "false" => ["--disable-blink-features=OrientationEvent"]
      case _ => []
  }

  function OrientationSection(cs: seq<Node>, bundleName: string): seq<string> {
    match Child(cs, WEB_WINDOW_ORIENTATION_CONFIG)
    case None => [] case Some(c) => OrientationArgs(c.children, bundleName)
  }

  datatype FileArgs = FileArgs(add: seq<string>, delete: seq<string>)

  // Without an initConfig section the root's own children are read.
  function InitSection(table: ArgTable, root: Node): seq<string> {
    var init := match Child(root.children, INIT_CONFIG) case None => root case Some(c) => c;
    ArgsOf(table, init.children, |init.children|)
  }

  function DeleteSection(table: ArgTable, cs: seq<Node>): seq<string> {
    match Child(cs, DELETE_CONFIG) case None => [] case Some(c) => ArgsOf(table, c.children, |c.children|)
  }

  function FileArgsOf(app: Application, doc: Option<Node>): FileArgs {
    if !IsWeb(doc) then FileArgs([], [])
    else
      var cs := doc.value.children;
      FileArgs(InitSection(app.configMap, doc.value) + OrientationSection(cs, app.bundleName),
               DeleteSection(app.configMap, cs))
  }

  // What a file does to the helper and to the argument lists.
  datatype Content = Content(effect: Effect, args: FileArgs)

  function ContentOf(app: Application, doc: Option<Node>): Content {
    Content(EffectOf(doc), FileArgsOf(app, doc))
  }

  function Contents(app: Application, docs: seq<Option<Node>>): seq<Content> {
    seq(|docs|, i requires 0 <= i < |docs| => ContentOf(app, docs[i]))
  }

  function Effects(cs: seq<Content>): seq<Effect> {
    seq(|cs|, i requires 0 <= i < |cs| => cs[i].effect)
  }

  function AllArgs(cs: seq<Content>, n: nat): FileArgs
    requires n <= |cs|
  {
    if n == 0 then FileArgs([], [])
    else
      var before := AllArgs(cs, n - 1);
      FileArgs(before.add + cs[n - 1].args.add, before.delete + cs[n - 1].args.delete)
  }

  // ----- the files of a parse -----

  // The helper and the two argument lists.
  datatype World = World(helper: Helper, add: seq<string>, delete: seq<string>)

  function AfterFile(w: World, c: Content): World {
    World(Apply(w.helper, c.effect), w.add + c.args.add, w.delete + c.args.delete)
  }

  function AfterFiles(w: World, cs: seq<Content>, n: nat): World
    requires n <= |cs|
  {
    if n == 0 then w else AfterFile(AfterFiles(w, cs, n - 1), cs[n - 1])
  }

  // MAIN: a parse appends the same arguments whatever the helper holds, and changes the helper in the
  // same way whatever the argument lists hold.
  lemma FilesFoldSeparately(w: World, cs: seq<Content>)
    ensures var r := AfterFiles(w, cs, |cs|);
            && r.helper == ParsedFiles(w.helper, Effects(cs), |cs|)
            && r.add == w.add + AllArgs(cs, |cs|).add
            && r.delete == w.delete + AllArgs(cs, |cs|).delete
  {
    HelperFolds(w, cs, Effects(cs), |cs|);
    ArgsFold(w, cs, |cs|);
  }

  lemma {:induction false} HelperFolds(w: World, cs: seq<Content>, es: seq<Effect>, n: nat)
    requires n <= |cs| == |es| && forall i :: 0 <= i < |cs| ==> es[i] == cs[i].effect
    ensures AfterFiles(w, cs, n).helper == ParsedFiles(w.helper, es, n)
  {
    if n > 0 {
      HelperFolds(w, cs, es, n - 1);
    }
  }

  lemma {:induction false} ArgsFold(w: World, cs: seq<Content>, n: nat)
    requires n <= |cs|
    ensures AfterFiles(w, cs, n).add == w.add + AllArgs(cs, n).add
    ensures AfterFiles(w, cs, n).delete == w.delete + AllArgs(cs, n).delete
  {
    if n > 0 {
      ArgsFold(w, cs, n - 1);
      Associative(w.add, AllArgs(cs, n - 1).add, cs[n - 1].args.add);
      Associative(w.delete, AllArgs(cs, n - 1).delete, cs[n - 1].args.delete);
    }
  }

  predicate Empty(args: FileArgs) {
    args.add == [] && args.delete == []
  }

  lemma {:induction false} AllArgsEmptyExactly(cs: seq<Content>, n: nat)
    requires n <= |cs|
    ensures Empty(AllArgs(cs, n)) <==> forall i :: 0 <= i < n ==> Empty(cs[i].args)
  {
    if n > 0 {
      AllArgsEmptyExactly(cs, n - 1);
      BothEmpty(AllArgs(cs, n - 1), cs[n - 1].args, AllArgs(cs, n));
    }
  }

  lemma BothEmpty(a: FileArgs, b: FileArgs, both: FileArgs)
    requires both == FileArgs(a.add + b.add, a.delete + b.delete)
    ensures Empty(both) <==> Empty(a) && Empty(b)
  {
    assert |both.add| == |a.add| + |b.add| && |both.delete| == |a.delete| + |b.delete|;
  }

  // MAIN: a second parse into the same argument lists leaves both as they are exactly when no file of
  // the list has an argument.
  lemma SecondParseKeepsArgsExactly(w: World, cs: seq<Content>)
    ensures var once := AfterFiles(w, cs, |cs|);
            var twice := AfterFiles(once, cs, |cs|);
            twice.add == once.add && twice.delete == once.delete
            <==> forall i :: 0 <= i < |cs| ==> Empty(cs[i].args)
  {
    var once := AfterFiles(w, cs, |cs|);
    FilesFoldSeparately(once, cs);
    AllArgsEmptyExactly(cs, |cs|);
    AppendsNothing(once.add, AllArgs(cs, |cs|).add);
    AppendsNothing(once.delete, AllArgs(cs, |cs|).delete);
  }

  lemma AppendsNothing(a: seq<string>, b: seq<string>)
    ensures a + b == a <==> b == []
  {
    assert |a + b| == |a| + |b|;
  }

  // A file that limits the number of render processes to four ...
  const LIMIT_ENTRY := Node(Some("renderProcessCount"), false, map[], Some("4"), [])
  const LIMIT_SECTION := Node(Some("renderConfig"), false, map[], None, [LIMIT_ENTRY])
  const LIMIT_FILE := Node(Some("WEB"), false, map[], None, [LIMIT_SECTION])

  // ... as the source's table does ...
  predicate KnowsLimit(table: ArgTable) {
    table("renderConfig/renderProcessCount", "4") == Some("--renderer-process-limit=4")
  }

  // ... gets its argument added once more by a second parse.
  lemma SecondParseDoubles(app: Application, w: World)
    requires KnowsLimit(app.configMap)
    ensures var cs := [ContentOf(app, Some(LIMIT_FILE))];
            AfterFiles(AfterFiles(w, cs, 1), cs, 1).add
            == w.add + ["--renderer-process-limit=4"] + ["--renderer-process-limit=4"]
  {
    var c := ContentOf(app, Some(LIMIT_FILE));
    LimitArgs(app);
    OneFile(w, c);
    OneFile(AfterFile(w, c), c);
  }

  lemma {:induction false} ParsedFilesKeepFlag(w: World, cs: seq<Content>, n: nat)
    requires n <= |cs|
    ensures AfterFiles(w, cs, n).helper.parsed == w.helper.parsed
  {
    if n > 0 {
      ParsedFilesKeepFlag(w, cs, n - 1);
    }
  }

  lemma OneFile(w: World, c: Content)
    ensures AfterFiles(w, [c], 1) == AfterFile(w, c)
  {
    assert AfterFiles(w, [c], 0) == w;
  }

  lemma LimitArgs(app: Application)
    requires KnowsLimit(app.configMap)
    ensures FileArgsOf(app, Some(LIMIT_FILE)).add == ["--renderer-process-limit=4"]
  {
    LimitInit(app.configMap);
    assert ChildAt([LIMIT_SECTION], WEB_WINDOW_ORIENTATION_CONFIG, 0) == 1;
  }

  lemma LimitInit(table: ArgTable)
    requires KnowsLimit(table)
    ensures InitSection(table, LIMIT_FILE) == ["--renderer-process-limit=4"]
  {
    var cs := [LIMIT_SECTION];
    assert ChildAt(cs, INIT_CONFIG, 0) == 1;
    LimitEntry(table);
    assert ArgsOf(table, cs, 0) == [];
  }

  lemma LimitEntry(table: ArgTable)
    requires KnowsLimit(table)
    ensures EntryArgs(table, "renderConfig", [LIMIT_ENTRY], 1) == ["--renderer-process-limit=4"]
  {
    assert "renderConfig" + "/" + "renderProcessCount" == "renderConfig/renderProcessCount";
    assert EntryArgs(table, "renderConfig", [LIMIT_ENTRY], 0) == [];
  }

  // An entry of the configuration directory list.
  datatype CfgPath = EndOfList | TooLong | Path(doc: Option<Node>)

  // The first position from `i` that ends the list.
  function EndAt(ps: seq<CfgPath>, i: nat): (e: nat)
    ensures i <= e && (e <= |ps| || e == i)
    ensures e < |ps| ==> ps[e] == EndOfList
    ensures forall j :: i <= j < e ==> ps[j] != EndOfList
    decreases |ps| - i
  {
    if i >= |ps| || ps[i] == EndOfList then i else EndAt(ps, i + 1)
  }

  // A path that is too long stands for the default file.
  function DocAt(ps: seq<CfgPath>, default_: Option<Node>, i: nat): Option<Node>
    requires i < |ps|
  {
    if ps[i].Path? then ps[i].doc else default_
  }

  // The files parsed. Position 0 of the list is the system directory and is ignored; without a list the
  // default file is parsed.
  function DocsOf(paths: Option<seq<CfgPath>>, default_: Option<Node>): seq<Option<Node>> {
    match paths
    case None => [default_]
    case Some(ps) =>
      var n := EndAt(ps, 1) - 1;
      seq(n, k requires 0 <= k < n => DocAt(ps, default_, k + 1))
  }

  // `cs` says what the files of the list do.
  ghost predicate Describes(cs: seq<Content>, app: Application, ps: seq<CfgPath>, default_: Option<Node>) {
    && |cs| == EndAt(ps, 1) - 1
    && forall i {:trigger DocAt(ps, default_, i)} ::
         1 <= i < EndAt(ps, 1) ==> cs[i - 1] == ContentOf(app, DocAt(ps, default_, i))
  }

  lemma ContentsDescribe(app: Application, ps: seq<CfgPath>, default_: Option<Node>)
    ensures Describes(Contents(app, DocsOf(Some(ps), default_)), app, ps, default_)
  {
  }

  class InitArgs {
    var argsToAdd: seq<string>
    var argsToDelete: seq<string>

    constructor ()
      ensures argsToAdd == [] && argsToDelete == []
    {
      argsToAdd, argsToDelete := [], [];
    }
  }

  class NWebConfigHelper {
    const configMap: ArgTable
    const bundleName: string
    var perfConfig: map<string, string>
    var ltpoConfig: map<string, seq<FrameRate>>
    var ltpoAllowedApps: set<string>
    var ltpoIntConfig: map<string, int>
    var ltpoStrategy: int
    var loadUrlStrategy: int
    var renderProcessMode: int
    var dvsyncSwitch: bool
    var nativeMessagingEnabled: bool
    var isConfigParsed: bool

    function App(): Application {
      Application(configMap, bundleName)
    }

    function LtpoState(): Ltpo
      reads this
    {
      Ltpo(ltpoConfig, ltpoAllowedApps, ltpoIntConfig, ltpoStrategy)
    }

    function State(): Helper
      reads this
    {
      Helper(perfConfig, LtpoState(), loadUrlStrategy, renderProcessMode, dvsyncSwitch, nativeMessagingEnabled,
             isConfigParsed)
    }

    constructor (configMap: ArgTable, bundleName: string)
      ensures State() == Initial && App() == Application(configMap, bundleName)
    {
      this.configMap, this.bundleName := configMap, bundleName;
      perfConfig, ltpoConfig, ltpoAllowedApps, ltpoIntConfig := map[], map[], {}, map[];
      ltpoStrategy, loadUrlStrategy, renderProcessMode := 0, 0, DEFAULT_MODE;
      dvsyncSwitch, nativeMessagingEnabled, isConfigParsed := false, false, false;
    }

    method GetChildrenNode(node: Node, name: string) returns (child: Option<Node>)
      ensures child == Child(node.children, name)
      // the first child with this name, if there is one
      ensures child.None? ==> forall j :: 0 <= j < |node.children| ==> !Named(node.children[j], name)
      ensures child.Some? ==> exists k :: IsFirstNamed(node.children, name, k) && node.children[k] == child.value
    {
      for i := 0 to |node.children|
        invariant i <= ChildAt(node.children, name, 0)
      {
        var c := node.children[i];
        if Skipped(c) {
          continue;
        }
        if c.name.value == name {
          assert IsFirstNamed(node.children, name, i);
          return Some(c);
        }
      }
      return None;
    }

    // The loops that ReadConfig and ParseDeleteConfig share: the arguments found, in order.
    method CollectArgs(root: Node) returns (args: seq<string>)
      ensures args == ArgsOf(configMap, root.children, |root.children|)
    {
      args := [];
      for i := 0 to |root.children|
        invariant args == ArgsOf(configMap, root.children, i)
      {
        var cur := root.children[i];
        if Skipped(cur) {
          continue;
        }
        var more := CollectEntryArgs(cur.name.value, cur);
        args := args + more;
      }
    }

    method CollectEntryArgs(section: string, cur: Node) returns (args: seq<string>)
      ensures args == EntryArgs(configMap, section, cur.children, |cur.children|)
    {
      args := [];
      for j := 0 to |cur.children|
        invariant args == EntryArgs(configMap, section, cur.children, j)
      {
        var child := cur.children[j];
        if Skipped(child) {
          continue;
        }
        if child.content.None? {
          continue;
        }
        var arg := configMap(section + "/" + child.name.value, child.content.value);
        if arg.None? {
          continue;
        }
        if arg.value != "" {
          args := args + [arg.value];
        }
      }
    }

    method ReadConfig(root: Node, initArgs: InitArgs)
      modifies initArgs`argsToAdd
      ensures initArgs.argsToAdd == old(initArgs.argsToAdd) + ArgsOf(configMap, root.children, |root.children|)
    {
      var args := CollectArgs(root);
      initArgs.argsToAdd := initArgs.argsToAdd + args;
    }

    method ParseDeleteConfig(root: Node, initArgs: InitArgs)
      modifies initArgs`argsToDelete
      ensures initArgs.argsToDelete == old(initArgs.argsToDelete) + ArgsOf(configMap, root.children, |root.children|)
    {
      var args := CollectArgs(root);
      initArgs.argsToDelete := initArgs.argsToDelete + args;
    }

    method ParsePerfConfig(node: Node)
      modifies this`perfConfig
      ensures perfConfig == old(perfConfig) + PerfOf(node.children, |node.children|)
    {
      for i := 0 to |node.children|
        invariant perfConfig == old(perfConfig) + PerfOf(node.children, i)
      {
        var cur := node.children[i];
        if Skipped(cur) {
          PerfSkip(old(perfConfig), node.children, i);
          continue;
        }
        PerfStep(old(perfConfig), node.children, i);
        ParsePerfEntries(cur.name.value, cur);
      }
    }

    // The inner loop of ParsePerfConfig.
    method ParsePerfEntries(section: string, cur: Node)
      modifies this`perfConfig
      ensures perfConfig == old(perfConfig) + PerfEntries(section, cur.children, |cur.children|)
    {
      ghost var start: map<string, string>, d: map<string, string> := perfConfig, map[];
      for j := 0 to |cur.children|
        invariant d == PerfEntries(section, cur.children, j) && perfConfig == start + d
      {
        assert d + map[] == d;
        var child := cur.children[j];
        if Skipped(child) {
          continue;
        }
        if child.content.None? {
          continue;
        }
        var key := section + "/" + child.name.value;
        InsertOrAssign(start, d, key, child.content.value);
        d := d + map[key := child.content.value];
        perfConfig := perfConfig[key := child.content.value];
      }
    }

    method ParseNWebLTPOApp(node: Node)
      modifies this`ltpoAllowedApps
      ensures ltpoAllowedApps == old(ltpoAllowedApps) + AppsOf(node.children, |node.children|)
    {
      for i := 0 to |node.children|
        invariant ltpoAllowedApps == old(ltpoAllowedApps) + AppsOf(node.children, i)
      {
        var c := node.children[i];
        if Skipped(c) {
          continue;
        }
        var bundleName := Attribute(c, "name");
        if bundleName.None? {
          continue;
        }
        ltpoAllowedApps := ltpoAllowedApps + {bundleName.value};
      }
    }

    method ParseNWebLTPOConfig(node: Node)
      modifies this`ltpoConfig, this`ltpoAllowedApps, this`ltpoIntConfig, this`ltpoStrategy
      ensures LtpoState() == ApplyLtpo(old(LtpoState()), LtpoOf(node.children, |node.children|))
    {
      ghost var start, d := LtpoState(), NoLtpo;
      NothingToApply(start);
      for i := 0 to |node.children|
        invariant d == LtpoOf(node.children, i) && LtpoState() == ApplyLtpo(start, d)
      {
        ParseNWebLTPOEntry(node.children[i]);
        ApplyTwice(start, d, LtpoEntry(node.children[i]));
        d := Merge(d, LtpoEntry(node.children[i]));
      }
    }

    // The body of the loop of ParseNWebLTPOConfig.
    method ParseNWebLTPOEntry(cur: Node)
      modifies this`ltpoConfig, this`ltpoAllowedApps, this`ltpoIntConfig, this`ltpoStrategy
      ensures LtpoState() == ApplyLtpo(old(LtpoState()), LtpoEntry(cur))
    {
      NothingToApply(LtpoState());
      if Skipped(cur) {
        return;
      }
      var name := Attribute(cur, "name");
      if name.None? {
        return;
      }
      var settingName := name.value;
      if settingName == "dynamic_apps" {
        ParseNWebLTPOApp(cur);
        return;
      }
      if settingName == "ltpo_strategy" {
        if cur.content.Some? {
          ltpoStrategy := Atoi(cur.content.value);
        }
        return;
      }
      if settingName == "throttle_strategy" || settingName == "throttle_timeout" || settingName == "throttle_ratio" {
        if cur.content.Some? {
          ltpoIntConfig := ltpoIntConfig[settingName := Atoi(cur.content.value)];
          assert ltpoIntConfig == old(ltpoIntConfig) + map[settingName := Atoi(cur.content.value)];
        }
        return;
      }
      var frameRateSetting := ParseFrameRates(cur);
      ltpoConfig := ltpoConfig[settingName := frameRateSetting];
      assert ltpoConfig == old(ltpoConfig) + map[settingName := frameRateSetting];
    }

    // The inner loop of ParseNWebLTPOConfig.
    method ParseFrameRates(cur: Node) returns (frameRateSetting: seq<FrameRate>)
      ensures frameRateSetting == RatesOf(cur.children, |cur.children|)
    {
      frameRateSetting := [];
      for j := 0 to |cur.children|
        invariant frameRateSetting == RatesOf(cur.children, j)
      {
        var c := cur.children[j];
        if Skipped(c) {
          continue;
        }
        var setting := RateOf(c);
        if (setting.max >= 0 && setting.min >= setting.max) || setting.preferred <= 0 {
          continue;
        }
        frameRateSetting := frameRateSetting + [setting];
      }
    }

    method ParseNWebDvsync(node: Node)
      modifies this`dvsyncSwitch
      ensures dvsyncSwitch == Override(DvsyncOf(node.children, |node.children|), old(dvsyncSwitch))
    {
      for i := 0 to |node.children|
        invariant dvsyncSwitch == Override(DvsyncOf(node.children, i), old(dvsyncSwitch))
      {
        var cur := node.children[i];
        if Skipped(cur) {
          continue;
        }
        var name := Attribute(cur, "name");
        if name.None? {
          continue;
        }
        if name.value == "dvsync_switch" {
          if cur.content.Some? {
            dvsyncSwitch := Atoi(cur.content.value) == 1;
          }
          continue;
        }
      }
    }

    method ParseNWebLoadUrlStrategy(node: Node)
      modifies this`loadUrlStrategy
      ensures loadUrlStrategy == Override(LoadUrlOf(node.children), old(loadUrlStrategy))
    {
      for i := 0 to |node.children|
        invariant i <= SettingAt(node.children, "load_url_strategy", 0)
        invariant loadUrlStrategy == old(loadUrlStrategy)
      {
        var cur := node.children[i];
        if Skipped(cur) {
          continue;
        }
        var name := Attribute(cur, "name");
        if name.None? {
          continue;
        }
        if name.value == "load_url_strategy" {
          if cur.content.None? {
            return;
          }
          loadUrlStrategy := Atoi(cur.content.value);
          return;
        }
      }
    }

    method ParseRenderProcessMode(node: Node)
      modifies this`renderProcessMode
      ensures renderProcessMode == Override(RenderModeOf(node.children), old(renderProcessMode))
    {
      for i := 0 to |node.children|
        invariant i <= SettingAt(node.children, "render_process_mode", 0)
        invariant renderProcessMode == old(renderProcessMode)
      {
        var cur := node.children[i];
        if Skipped(cur) {
          continue;
        }
        var name := Attribute(cur, "name");
        if name.None? {
          continue;
        }
        if name.value == "render_process_mode" {
          if cur.content.None? {
            return;
          }
          var content := cur.content.value;
          if content == "single" {
            renderProcessMode := SINGLE_MODE;
          } else if content == "multiple" {
            renderProcessMode := MULTIPLE_MODE;
          } else if content == "default" {
            renderProcessMode := DEFAULT_MODE;
          } else {
            renderProcessMode := DEFAULT_MODE;
          }
          return;
        }
      }
    }

    method ParseNativeMessagingConfig(node: Node)
      modifies this`nativeMessagingEnabled
      ensures nativeMessagingEnabled == Override(NativeOf(node.children, |node.children|), old(nativeMessagingEnabled))
    {
      for i := 0 to |node.children|
        invariant nativeMessagingEnabled == Override(NativeOf(node.children, i), old(nativeMessagingEnabled))
      {
        var cur := node.children[i];
        if Skipped(cur) {
          continue;
        }
        ghost var before := nativeMessagingEnabled;
        for j := 0 to |cur.children|
          invariant nativeMessagingEnabled == if j == 0 then before else NativeEnabled(cur.children[j - 1])
        {
          if NativeEnabled(cur.children[j]) {
            nativeMessagingEnabled := true;
          } else {
            nativeMessagingEnabled := false;
          }
        }
      }
    }

    // The sections of a file, each looked up and parsed if present; `e` and `args` are what they say.
    method ParsePerfSections(root: Node, ghost e: Effect)
      requires Says(root.children, e)
      modifies this`perfConfig
      ensures State() == AfterPerf(old(State()), e)
    {
      MergeAssociative(perfConfig, PerfSection(root.children, PERFORMANCE_CONFIG),
                       PerfSection(root.children, BASE_WEB_CONFIG));
      ParsePerfSection(root, PERFORMANCE_CONFIG);
      ParsePerfSection(root, BASE_WEB_CONFIG);
    }

    method ParsePerfSection(root: Node, name: string)
      modifies this`perfConfig
      ensures perfConfig == old(perfConfig) + PerfSection(root.children, name)
    {
      var perfNode := GetChildrenNode(root, name);
      if perfNode.Some? {
        ParsePerfConfig(perfNode.value);
      }
    }

    method ParseGatedSections(root: Node, ghost e: Effect)
      requires Says(root.children, e)
      modifies this`ltpoConfig, this`ltpoAllowedApps, this`ltpoIntConfig, this`ltpoStrategy, this`dvsyncSwitch
      ensures State() == AfterGated(old(State()), e)
    {
      ParseLtpoSection(root);
      ParseDvsyncSection(root);
    }

    method ParseLtpoSection(root: Node)
      modifies this`ltpoConfig, this`ltpoAllowedApps, this`ltpoIntConfig, this`ltpoStrategy
      ensures LtpoState() == FoldLtpo(old(LtpoState()), LtpoSection(root.children))
    {
      NothingToApply(LtpoState());
      if ltpoConfig == map[] && ltpoStrategy == 0 {
        var ltpoNode := GetChildrenNode(root, WEB_ANIMATION_DYNAMIC_SETTING_CONFIG);
        if ltpoNode.Some? {
          ParseNWebLTPOConfig(ltpoNode.value);
        }
      }
    }

    method ParseDvsyncSection(root: Node)
      modifies this`dvsyncSwitch
      ensures dvsyncSwitch == FoldDvsync(old(dvsyncSwitch), DvsyncSection(root.children))
    {
      if !dvsyncSwitch {
        var dvsyncNode := GetChildrenNode(root, WEB_DVSYNC_CONFIG);
        if dvsyncNode.Some? {
          ParseNWebDvsync(dvsyncNode.value);
        }
      }
    }

    method ParseUrlAndModeSections(root: Node, ghost e: Effect)
      requires Says(root.children, e)
      modifies this`loadUrlStrategy, this`renderProcessMode
      ensures State() == AfterUrlAndMode(old(State()), e)
    {
      var loadUrlNode := GetChildrenNode(root, WEB_LOAD_URL_CONFIG);
      if loadUrlNode.Some? {
        ParseNWebLoadUrlStrategy(loadUrlNode.value);
      }
      var modeNode := GetChildrenNode(root, WEB_RENDER_PROCESS_MODE);
      if modeNode.Some? {
        ParseRenderProcessMode(modeNode.value);
      }
    }

    method ParseNativeSection(root: Node, ghost e: Effect)
      requires Says(root.children, e)
      modifies this`nativeMessagingEnabled
      ensures State() == AfterNative(old(State()), e)
    {
      var nativeNode := GetChildrenNode(root, WEB_NATIVE_MESSAGING_EXTENSION_CONFIG);
      if nativeNode.Some? {
        ParseNativeMessagingConfig(nativeNode.value);
      }
    }

    method ParseWindowOrientationConfig(node: Node, initArgs: InitArgs)
      modifies initArgs`argsToAdd
      ensures initArgs.argsToAdd == old(initArgs.argsToAdd) + OrientationArgs(node.children, bundleName)
    {
      for i := 0 to |node.children|
        invariant i <= ApplicableAt(node.children, bundleName, 0)
        invariant initArgs.argsToAdd == old(initArgs.argsToAdd)
      {
        var cur := node.children[i];
        if Skipped(cur) {
          continue;
        }
        var name, orientation := Attribute(cur, "bundle_name"), Attribute(cur, "enable_window_orientation");
        if name.None? || orientation.None? {
          continue;
        }
        if bundleName == "" {
          return;
        }
        if name.value == bundleName || name.value == WEB_ALL_BUNDLE_NAME {
          if orientation.value == "true" {
            initArgs.argsToAdd := initArgs.argsToAdd + ["--enable-blink-features=OrientationEvent"];
          } else if orientation.value == "false" {
            initArgs.argsToAdd := initArgs.argsToAdd + ["--disable-blink-features=OrientationEvent"];
          }
          return;
        }
      }
    }

    // The sections that write the argument lists at the beginning of a file.
    method ParseArgs(root: Node, initArgs: InitArgs)
      modifies initArgs
      ensures initArgs.argsToAdd == old(initArgs.argsToAdd) + InitSection(configMap, root)
      ensures initArgs.argsToDelete == old(initArgs.argsToDelete) + DeleteSection(configMap, root.children)
    {
      var initNode := GetChildrenNode(root, INIT_CONFIG);
      if initNode.Some? {
        ReadConfig(initNode.value, initArgs);
      } else {
        ReadConfig(root, initArgs);
      }
      var deleteNode := GetChildrenNode(root, DELETE_CONFIG);
      if deleteNode.Some? {
        ParseDeleteConfig(deleteNode.value, initArgs);
      }
    }

    method ParseOrientationSection(root: Node, initArgs: InitArgs)
      modifies initArgs`argsToAdd
      ensures initArgs.argsToAdd == old(initArgs.argsToAdd) + OrientationSection(root.children, bundleName)
    {
      var orientationNode := GetChildrenNode(root, WEB_WINDOW_ORIENTATION_CONFIG);
      if orientationNode.Some? {
        ParseWindowOrientationConfig(orientationNode.value, initArgs);
      }
    }

    function Whole(initArgs: InitArgs): World
      reads this, initArgs
    {
      World(State(), initArgs.argsToAdd, initArgs.argsToDelete)
    }

    method ParseWebConfigXml(doc: Option<Node>, initArgs: InitArgs)
      modifies this, initArgs
      ensures Whole(initArgs) == AfterFile(old(Whole(initArgs)), ContentOf(App(), doc))
    {
      if doc.None? || doc.value.name != Some("WEB") {
        NoEffectToApply(State());
        return;
      }
      EffectOfWeb(doc.value);
      ParseRoot(doc.value, initArgs, EffectOf(doc));
      Associative(old(initArgs.argsToAdd), InitSection(configMap, doc.value),
                  OrientationSection(doc.value.children, bundleName));
    }

    // The part of ParseWebConfigXml behind the check of the root element.
    method ParseRoot(root: Node, initArgs: InitArgs, ghost e: Effect)
      requires Says(root.children, e)
      modifies this, initArgs
      ensures State() == Apply(old(State()), e)
      ensures initArgs.argsToAdd == (old(initArgs.argsToAdd) + InitSection(configMap, root))
                                    + OrientationSection(root.children, bundleName)
      ensures initArgs.argsToDelete == old(initArgs.argsToDelete) + DeleteSection(configMap, root.children)
    {
      SectionsApply(State(), e);
      ParseArgs(root, initArgs);
      ParsePerfSections(root, e);
      ParseGatedSections(root, e);
      ParseUrlAndModeSections(root, e);
      ParseOrientationSection(root, initArgs);
      ParseNativeSection(root, e);
    }

    method ParseConfig(paths: Option<seq<CfgPath>>, default_: Option<Node>, initArgs: InitArgs)
      modifies this, initArgs
      ensures var cs := Contents(App(), DocsOf(paths, default_));
              && State() == Parsed(old(State()), Effects(cs))
              && initArgs.argsToAdd == old(initArgs.argsToAdd) + AllArgs(cs, |cs|).add
              && initArgs.argsToDelete == old(initArgs.argsToDelete) + AllArgs(cs, |cs|).delete
    {
      ghost var cs := Contents(App(), DocsOf(paths, default_));
      FilesFoldSeparately(Whole(initArgs), cs);
      ParseList(paths, default_, initArgs, cs);
      isConfigParsed := true;
    }

    // Everything but the flag.
    method ParseList(paths: Option<seq<CfgPath>>, default_: Option<Node>, initArgs: InitArgs, ghost cs: seq<Content>)
      requires cs == Contents(App(), DocsOf(paths, default_))
      modifies this, initArgs
      ensures Whole(initArgs) == AfterFiles(old(Whole(initArgs)), cs, |cs|) && isConfigParsed == old(isConfigParsed)
    {
      ghost var w := Whole(initArgs);
      if paths.None? {
        ParseWebConfigXml(default_, initArgs);
        assert cs == [ContentOf(App(), default_)];
        OneFile(w, ContentOf(App(), default_));
      } else {
        ContentsDescribe(App(), paths.value, default_);
        ParseFiles(paths.value, default_, initArgs, cs);
      }
      ParsedFilesKeepFlag(w, cs, |cs|);
    }

    // The loop of ParseConfig over the list of paths.
    method ParseFiles(ps: seq<CfgPath>, default_: Option<Node>, initArgs: InitArgs, ghost cs: seq<Content>)
      requires Describes(cs, App(), ps, default_)
      modifies this, initArgs
      ensures Whole(initArgs) == AfterFiles(old(Whole(initArgs)), cs, |cs|)
    {
      var i := 1;
      while i < |ps|
        invariant 1 <= i <= EndAt(ps, 1)
        invariant Whole(initArgs) == AfterFiles(old(Whole(initArgs)), cs, i - 1)
      {
        if ps[i] == EndOfList {
          break;
        }
        ParsePath(ps, i, default_, initArgs, cs);
        i := i + 1;
      }
    }

    // The body of that loop.
    method ParsePath(ps: seq<CfgPath>, i: nat, default_: Option<Node>, initArgs: InitArgs, ghost cs: seq<Content>)
      requires Describes(cs, App(), ps, default_) && 1 <= i < EndAt(ps, 1)
      modifies this, initArgs
      ensures Whole(initArgs) == AfterFile(old(Whole(initArgs)), cs[i - 1])
    {
      var doc := if ps[i] == TooLong then default_ else ps[i].doc;
      assert doc == DocAt(ps, default_, i);
      ParseWebConfigXml(doc, initArgs);
    }
  }

  lemma EffectOfWeb(root: Node)
    requires root.name == Some("WEB")
    ensures Says(root.children, EffectOf(Some(root)))
  {
  }

  lemma PerfStep(m: map<string, string>, cs: seq<Node>, i: nat)
    requires i < |cs| && !Skipped(cs[i])
    ensures m + PerfOf(cs, i + 1)
         == (m + PerfOf(cs, i)) + PerfEntries(cs[i].name.value, cs[i].children, |cs[i].children|)
  {
    MergeAssociative(m, PerfOf(cs, i), PerfEntries(cs[i].name.value, cs[i].children, |cs[i].children|));
  }

  lemma PerfSkip(m: map<string, string>, cs: seq<Node>, i: nat)
    requires i < |cs| && Skipped(cs[i])
    ensures m + PerfOf(cs, i + 1) == m + PerfOf(cs, i)
  {
    assert PerfOf(cs, i + 1) == PerfOf(cs, i);
  }

  lemma InsertOrAssign(m: map<string, string>, d: map<string, string>, key: string, value: string)
    ensures (m + d)[key := value] == m + (d + map[key := value])
  {
  }

  lemma NothingToApply(l: Ltpo)
    ensures ApplyLtpo(l, NoLtpo) == l
  {
    assert l.config + map[] == l.config && l.ints + map[] == l.ints && l.apps + {} == l.apps;
  }

  lemma NoEffectToApply(h: Helper)
    ensures Apply(h, NoEffect) == h
  {
    NothingToApply(h.ltpo);
    assert h.perf + map[] == h.perf;
  }

  lemma ApplyTwice(l: Ltpo, d: LtpoDelta, e: LtpoDelta)
    ensures ApplyLtpo(ApplyLtpo(l, d), e) == ApplyLtpo(l, Merge(d, e))
  {
    MergeAssociative(l.config, d.config, e.config);
    MergeAssociative(l.ints, d.ints, e.ints);
    assert (l.apps + d.apps) + e.apps == l.apps + (d.apps + e.apps);
  }
}
