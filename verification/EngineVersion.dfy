/**
 * Which web engine version is active: the process-wide variables of arkweb_utils.cpp
 * and the functions that write them.
 */
module EngineVersion {
  import opened Options

  // ArkWebEngineVersion, with its integer values
  const SYSTEM_DEFAULT := 0
  const M114 := 1
  const M132 := 2
  const M144 := 3
  const PLAYGROUND := 99998
  const SYSTEM_EVERGREEN := 99999

  // ArkWebEngineType
  const LEGACY := M132
  const EVERGREEN := M144

  // The g_* variables, and the two integer system parameters (None: not set, or not a number).
  datatype Globals = Globals(
    appVersion: int,
    loaded: bool,
    active: int,
    cloudVersion: int,
    legacyApps: Option<set<string>>,
    enforce: Option<int>,
    default_: Option<int>)

  const Initial := Globals(SYSTEM_DEFAULT, false, SYSTEM_DEFAULT, SYSTEM_DEFAULT, None, None, None)

  // What reading the cloud configuration and probing the legacy package leave behind: a None field
  // was not written.
  datatype CloudUpdate = CloudUpdate(enforce: Option<int>, default_: Option<int>, legacyApps: Option<set<string>>)

  datatype Op =
    | SetVersion(version: int)
    | SetPlayground(version: int)
    | Select(bundleName: string)
    | Preload(update: CloudUpdate)
    | LoadLibrary(success: bool)
    | ParametersChange(enforce: Option<int>, default_: Option<int>) // by another process
    | SetInner(version: int)

  function GetOr(o: Option<int>, default_: int): int {
    match o case None => default_ case Some(v) => v
  }

  function Or<T>(o: Option<T>, old_: Option<T>): Option<T> {
    if o.Some? then o else old_
  }

  predicate IsEngineType(v: int) { v == LEGACY || v == EVERGREEN }

  // ----- the priority order -----

  // What each source of a version proposes, strongest first.
  function Proposals(g: Globals): seq<Option<int>> {
    [ if IsEngineType(GetOr(g.enforce, 0)) then g.enforce else None,
      if g.appVersion == SYSTEM_DEFAULT then None
      else if g.appVersion == SYSTEM_EVERGREEN then Some(EVERGREEN) else Some(g.appVersion),
      if g.cloudVersion == LEGACY then Some(LEGACY) else None,
      if IsEngineType(GetOr(g.default_, EVERGREEN)) then Some(GetOr(g.default_, EVERGREEN)) else None ]
  }

  function FirstProposal(ps: seq<Option<int>>): int {
    if ps == [] then EVERGREEN
    else match ps[0] case Some(v) => v case None => FirstProposal(ps[1..])
  }

  function Chosen(g: Globals): int {
    FirstProposal(Proposals(g))
  }

  lemma FirstOfFour(a: Option<int>, b: Option<int>, c: Option<int>, d: Option<int>)
    ensures FirstProposal([a, b, c, d])
         == if a.Some? then a.value else if b.Some? then b.value
            else if c.Some? then c.value else if d.Some? then d.value else EVERGREEN
  {
    assert [a, b, c, d][1..] == [b, c, d] && [b, c, d][1..] == [c, d] && [c, d][1..] == [d] && [d][1..] == [];
    assert FirstProposal([d]) == if d.Some? then d.value else EVERGREEN;
    assert FirstProposal([c, d]) == if c.Some? then c.value else if d.Some? then d.value else EVERGREEN;
    assert FirstProposal([b, c, d]) == if b.Some? then b.value else FirstProposal([c, d]);
  }

  predicate EnforcesEngine(g: Globals) {
    g.enforce == Some(M132) || g.enforce == Some(M144)
  }

  // What is chosen while no engine is enforced: the application's choice, whatever the others say; without one
  // the legacy engine for an application on the cloud list; otherwise the default, if it names an engine.
  predicate ChosenUnenforced(g: Globals, version: int) {
    if g.appVersion != SYSTEM_DEFAULT then
      version == if g.appVersion == SYSTEM_EVERGREEN then M144 else g.appVersion
    else if g.cloudVersion == M132 then version == M132
    else version == if g.default_ == Some(M132) then M132 else M144
  }

  predicate IsChosen(g: Globals, version: int) {
    if EnforcesEngine(g) then g.enforce == Some(version) else ChosenUnenforced(g, version)
  }

  // MAIN: the priority order, spelled out.
  lemma ChosenExactly(g: Globals)
    ensures IsChosen(g, Chosen(g))
  {
    var ps := Proposals(g);
    FirstOfFour(ps[0], ps[1], ps[2], ps[3]);
    assert ps == [ps[0], ps[1], ps[2], ps[3]];
  }

  method CalculateActiveWebEngineVersion(g: Globals) returns (version: int)
    ensures version == Chosen(g)
    ensures IsChosen(g, version)
  {
    ChosenExactly(g);
    ghost var ps := Proposals(g);
    FirstOfFour(ps[0], ps[1], ps[2], ps[3]);
    assert ps == [ps[0], ps[1], ps[2], ps[3]];
    var webEngineEnforce := GetOr(g.enforce, 0);
    if webEngineEnforce == EVERGREEN || webEngineEnforce == LEGACY {
      return webEngineEnforce;
    }
    if g.appVersion != SYSTEM_DEFAULT {
      if g.appVersion == SYSTEM_EVERGREEN {
        return EVERGREEN;
      }
      return g.appVersion;
    }
    if g.cloudVersion == LEGACY {
      return g.cloudVersion;
    }
    var webEngineDefault := GetOr(g.default_, EVERGREEN);
    if webEngineDefault != LEGACY && webEngineDefault != EVERGREEN {
      return EVERGREEN;
    }
    return webEngineDefault;
  }

  // ----- one operation -----

  predicate Settable(version: int) {
    version == LEGACY || version == EVERGREEN || version == SYSTEM_DEFAULT || version == SYSTEM_EVERGREEN
  }

  // The operation computes the active version anew.
  predicate Recalculates(g: Globals, op: Op) {
    match op
    case SetVersion(v) => !g.loaded && Settable(v)
    case Select(_) => true
    case Preload(_) => true
    case _ => false
  }

  // The operation forces the playground engine.
  predicate EntersPlayground(g: Globals, op: Op) {
    op == SetPlayground(PLAYGROUND) && !g.loaded
  }

  // Everything an operation does to the variables other than the active version.
  function Inputs(g: Globals, op: Op): Globals {
    match op
    case SetVersion(v) => if !g.loaded && Settable(v) then g.(appVersion := v) else g
    case SetPlayground(v) => if !g.loaded && v == PLAYGROUND then g.(appVersion := v) else g
    case Select(bundle) =>
      g.(cloudVersion := if g.legacyApps.Some? && bundle in g.legacyApps.value then LEGACY else g.cloudVersion,
         legacyApps := None)
    case Preload(u) =>
      g.(enforce := Or(u.enforce, g.enforce), default_ := Or(u.default_, g.default_),
         legacyApps := Or(u.legacyApps, g.legacyApps))
    case LoadLibrary(success) => g.(loaded := g.loaded || success)
    case ParametersChange(e, d) => g.(enforce := e, default_ := d)
    case SetInner(_) => g
  }

  function Step(g: Globals, op: Op): Globals {
    var h := Inputs(g, op);
    if Recalculates(g, op) then h.(active := Chosen(h))
    else if EntersPlayground(g, op) then h.(active := PLAYGROUND)
    else if op.SetInner? then h.(active := op.version)
    else h
  }

  // ----- runs -----

  function Run(g: Globals, ops: seq<Op>): Globals {
    if ops == [] then g else Step(Run(g, ops[..|ops| - 1]), ops[|ops| - 1])
  }

  // Where the active version of a run comes from.
  datatype Source = NeverSet | Recalculated(at: Globals) | Playground | SetByHand(version: int)

  function SourceOf(g: Globals, ops: seq<Op>): Source {
    if ops == [] then NeverSet
    else
      var before := Run(g, ops[..|ops| - 1]);
      var op := ops[|ops| - 1];
      if Recalculates(before, op) then Recalculated(Step(before, op))
      else if EntersPlayground(before, op) then Playground
      else if op.SetInner? then SetByHand(op.version)
      else SourceOf(g, ops[..|ops| - 1])
  }

  ghost predicate Inv(g: Globals) {
    && (Settable(g.appVersion) || g.appVersion == PLAYGROUND)
    && (g.cloudVersion == SYSTEM_DEFAULT || g.cloudVersion == LEGACY)
  }

  predicate IsRunnable(version: int) {
    version == M132 || version == M144 || version == PLAYGROUND
  }

  lemma ChosenIsRunnable(g: Globals)
    requires Inv(g)
    ensures IsRunnable(Chosen(g))
  {
    var ps := Proposals(g);
    FirstOfFour(ps[0], ps[1], ps[2], ps[3]);
    assert ps == [ps[0], ps[1], ps[2], ps[3]];
  }

  lemma {:induction false} RunKeepsInv(ops: seq<Op>)
    ensures Inv(Run(Initial, ops))
  {
    if ops != [] {
      RunKeepsInv(ops[..|ops| - 1]);
    }
  }

  // MAIN: in every run the active version is what the priority order chose in the state of the last
  // recalculation, or the playground version or the internal setter's if one of these came later; and
  // without the internal setter it is, once set at all, one of the three engines that exist.
  lemma {:induction false} ActiveFollowsItsSource(ops: seq<Op>)
    ensures var active := Run(Initial, ops).active;
            match SourceOf(Initial, ops)
            case NeverSet => active == SYSTEM_DEFAULT
            case Recalculated(at) => active == Chosen(at) && IsRunnable(active)
            case Playground => active == PLAYGROUND
            case SetByHand(version) => active == version
  {
    if ops != [] {
      var n := |ops| - 1;
      ActiveFollowsItsSource(ops[..n]);
      RunKeepsInv(ops[..n]);
      RunKeepsInv(ops);
      var before := Run(Initial, ops[..n]);
      if Recalculates(before, ops[n]) {
        ChosenIsRunnable(Step(before, ops[n]));
        ChosenIgnoresActive(Inputs(before, ops[n]), Step(before, ops[n]).active);
      }
    }
  }

  lemma ChosenIgnoresActive(g: Globals, v: int)
    ensures Chosen(g.(active := v)) == Chosen(g)
  {
    assert Proposals(g.(active := v)) == Proposals(g);
  }

  predicate IsSetCall(op: Op) { op.SetVersion? || op.SetPlayground? }

  // MAIN: once the library is loaded no run of operations changes the application's choice or unloads,
  // and leaving the set calls out of the run makes no difference.
  lemma {:induction false} LoadedLocksTheChoice(g: Globals, ops: seq<Op>)
    requires g.loaded
    ensures Run(g, ops).loaded && Run(g, ops).appVersion == g.appVersion
    ensures Run(g, ops) == Run(g, WithoutSetCalls(ops))
  {
    if ops != [] {
      var n := |ops| - 1;
      LoadedLocksTheChoice(g, ops[..n]);
      var rest := WithoutSetCalls(ops[..n]);
      if IsSetCall(ops[n]) {
        assert rest + [] == rest;
      } else {
        assert (rest + [ops[n]])[..|rest + [ops[n]]| - 1] == rest;
        assert Run(g, rest + [ops[n]]) == Step(Run(g, rest), ops[n]);
      }
    }
  }

  function WithoutSetCalls(ops: seq<Op>): seq<Op> {
    if ops == [] then []
    else WithoutSetCalls(ops[..|ops| - 1]) + (if IsSetCall(ops[|ops| - 1]) then [] else [ops[|ops| - 1]])
  }

  // MAIN: in every run, an enforced engine is the active one exactly when the active version stems from a
  // recalculation that saw it enforced, or that saw nothing enforced and chose it for another reason, or
  // when the internal setter named it. So a parameter written after the last recalculation decides
  // nothing, and neither do the application, the cloud list or the default once one was seen.
  lemma EnforcedIsActiveExactly(ops: seq<Op>, engine: int)
    requires EnforcesEngine(Run(Initial, ops)) && Run(Initial, ops).enforce == Some(engine)
    ensures Run(Initial, ops).active == engine <==>
            match SourceOf(Initial, ops)
            case NeverSet => false
            case Recalculated(at) =>
              if EnforcesEngine(at) then at.enforce == Some(engine) else ChosenUnenforced(at, engine)
            case Playground => false
            case SetByHand(version) => version == engine
  {
    ActiveFollowsItsSource(ops);
    if SourceOf(Initial, ops).Recalculated? {
      ChosenExactly(SourceOf(Initial, ops).at);
    }
  }

  // Three ways around an enforced engine: setting the parameter after the last recalculation, the
  // internal setter, and the playground.
  lemma EnforcedIsNotActive()
    ensures var enforce := ParametersChange(Some(LEGACY), None);
            && Run(Initial, [Select("a"), enforce]).active == EVERGREEN
            && Run(Initial, [enforce, Select("a"), SetInner(M114)]).active == M114
            && Run(Initial, [enforce, Select("a"), SetPlayground(PLAYGROUND)]).active == PLAYGROUND
  {
    var enforce := ParametersChange(Some(LEGACY), None);
    RunOf(Select("a"), enforce);
    RunOf(enforce, Select("a"));
    RunOfThree(enforce, Select("a"), SetInner(M114));
    RunOfThree(enforce, Select("a"), SetPlayground(PLAYGROUND));
    ChosenExactly(Inputs(Initial, Select("a")));
    ChosenExactly(Inputs(Step(Initial, enforce), Select("a")));
  }

  lemma RunOf(a: Op, b: Op)
    ensures Run(Initial, [a, b]) == Step(Step(Initial, a), b)
  {
    assert [a, b][..1] == [a] && [a][..0] == [];
    assert Run(Initial, [a]) == Step(Initial, a);
  }

  lemma RunOfThree(a: Op, b: Op, c: Op)
    ensures Run(Initial, [a, b, c]) == Step(Step(Step(Initial, a), b), c)
  {
    assert [a, b, c][..2] == [a, b];
    RunOf(a, b);
  }

  // ----- the functions over the process-wide variables -----

  class EngineSelector {
    var g_appEngineVersion: int
    var g_webEngineInitFlag: bool
    var g_activeEngineVersion: int
    var g_cloudEnableAppVersion: int
    var g_legacyApp: Option<set<string>>
    // system parameters web.engine.enforce and web.engine.default
    var enforceParameter: Option<int>
    var defaultParameter: Option<int>

    function State(): Globals
      reads this
    {
      Globals(g_appEngineVersion, g_webEngineInitFlag, g_activeEngineVersion, g_cloudEnableAppVersion,
              g_legacyApp, enforceParameter, defaultParameter)
    }

    constructor ()
      ensures State() == Initial
    {
      g_appEngineVersion := SYSTEM_DEFAULT;
      g_webEngineInitFlag := false;
      g_activeEngineVersion := SYSTEM_DEFAULT;
      g_cloudEnableAppVersion := SYSTEM_DEFAULT;
      g_legacyApp := None;
      enforceParameter, defaultParameter := None, None;
    }

    method SetActiveWebEngineVersion(version: int)
      modifies this
      ensures State() == Step(old(State()), SetVersion(version))
      ensures var known := version == M132 || version == M144
                           || version == SYSTEM_DEFAULT || version == SYSTEM_EVERGREEN;
              if old(g_webEngineInitFlag) || !known then State() == old(State())
              else
                && IsChosen(State(), g_activeEngineVersion)
                && State() == old(State()).(appVersion := version, active := g_activeEngineVersion)
    {
      if g_webEngineInitFlag {
        return;
      }
      if version != LEGACY && version != EVERGREEN && version != SYSTEM_DEFAULT && version != SYSTEM_EVERGREEN {
        return;
      }
      g_appEngineVersion := version;
      ghost var inputs := State();
      assert inputs == Inputs(old(State()), SetVersion(version));
      g_activeEngineVersion := CalculateActiveWebEngineVersion(State());
    }

    method SetActiveWebPlayGround(version: int)
      modifies this
      ensures State() == Step(old(State()), SetPlayground(version))
      ensures if old(g_webEngineInitFlag) || version != PLAYGROUND then State() == old(State())
              else State() == old(State()).(appVersion := PLAYGROUND, active := PLAYGROUND)
    {
      if g_webEngineInitFlag {
        return;
      }
      if version != PLAYGROUND {
        return;
      }
      g_appEngineVersion := version;
      g_activeEngineVersion := version;
    }

    method SelectWebcoreBeforeProcessRun(appBundleName: string)
      modifies this
      ensures State() == Step(old(State()), Select(appBundleName))
      // a listed application is pinned to the legacy engine, any other keeps what it had; the list is used up
      ensures var listed := old(g_legacyApp).Some? && appBundleName in old(g_legacyApp).value;
              && IsChosen(State(), g_activeEngineVersion)
              && State() == old(State()).(cloudVersion := if listed then M132 else old(g_cloudEnableAppVersion),
                                          legacyApps := None, active := g_activeEngineVersion)
    {
      if g_legacyApp.Some? && appBundleName in g_legacyApp.value {
        g_cloudEnableAppVersion := LEGACY;
      }
      g_legacyApp := None;
      g_activeEngineVersion := CalculateActiveWebEngineVersion(State());
    }

    method PreloadArkWebLibForBrowser(update: CloudUpdate)
      modifies this
      ensures State() == Step(old(State()), Preload(update))
      ensures IsChosen(State(), g_activeEngineVersion)
      ensures enforceParameter == if update.enforce.None? then old(enforceParameter) else update.enforce
      ensures defaultParameter == if update.default_.None? then old(defaultParameter) else update.default_
      ensures g_legacyApp == if update.legacyApps.None? then old(g_legacyApp) else update.legacyApps
      ensures g_appEngineVersion == old(g_appEngineVersion) && g_webEngineInitFlag == old(g_webEngineInitFlag)
      ensures g_cloudEnableAppVersion == old(g_cloudEnableAppVersion)
    {
      if update.enforce.Some? {
        enforceParameter := update.enforce;
      }
      if update.default_.Some? {
        defaultParameter := update.default_;
      }
      if update.legacyApps.Some? {
        g_legacyApp := update.legacyApps;
      }
      g_activeEngineVersion := CalculateActiveWebEngineVersion(State());
    }

    method ArkWebBridgeHelperSharedInit(opened_: bool) returns (handle: bool)
      modifies this
      ensures State() == Step(old(State()), LoadLibrary(opened_)) && handle == opened_
      ensures g_webEngineInitFlag == (old(g_webEngineInitFlag) || opened_)
    {
      if opened_ {
        g_webEngineInitFlag := true;
      }
      return opened_;
    }
  }
}
