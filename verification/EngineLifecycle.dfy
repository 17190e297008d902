/**
 * `NWebHelper`: the web engine is loaded once and initialised once, on demand, and whether it is
 * initialised lazily is fixed when it is loaded.
 */
module EngineLifecycle {
  import opened Options
  import opened Sequences

  // What the engine is told.
  datatype EngineCall =
    | RegisterScheme(name: string)
    | LibraryLoaded(lazy: bool)
    | InitializeWebEngine
    | CreateWeb

  // What the surroundings answer during one load: the application's bundle path, the bridge, the
  // engine instance, the scheme registration function with its results, and the start-up arguments.
  datatype Surroundings = Surroundings(
    bundlePath: Option<string>,
    bridgeOk: bool,
    engineFound: bool,
    registerFound: bool,
    schemeOk: string -> bool,
    initArgsOk: bool)

  datatype Helper = Helper(
    engine: bool,
    initFlag: bool,
    initWebEngine: bool,
    lazy: bool,
    bundlePath: string,
    schemes: seq<string>)

  const Fresh := Helper(false, false, false, false, "", [])

  // ----- one operation -----

  datatype Outcome = Outcome(helper: Helper, ok: bool, calls: seq<EngineCall>)

  // How many schemes are handed to the engine: all up to and including the first refused one.
  function SchemesOffered(schemes: seq<string>, ok: string -> bool, i: nat): (n: nat)
    requires i <= |schemes|
    ensures i <= n <= |schemes|
    ensures forall k :: i <= k < n - 1 ==> ok(schemes[k])
    ensures n < |schemes| ==> n > i && !ok(schemes[n - 1])
    decreases |schemes| - i
  {
    if i == |schemes| then i
    else if !ok(schemes[i]) then i + 1
    else SchemesOffered(schemes, ok, i + 1)
  }

  function Registrations(schemes: seq<string>): seq<EngineCall> {
    seq(|schemes|, i requires 0 <= i < |schemes| => RegisterScheme(schemes[i]))
  }

  function RegistrationsOf(h: Helper, s: Surroundings): seq<EngineCall> {
    if s.registerFound then Registrations(h.schemes[..SchemesOffered(h.schemes, s.schemeOk, 0)]) else []
  }

  // The engine, if it was not there and everything it needs is.
  predicate Loads(h: Helper, s: Surroundings) {
    && !h.engine && s.bridgeOk && s.engineFound
    && (h.bundlePath != "" || (s.bundlePath.Some? && s.bundlePath.value != ""))
  }

  function WithBundlePath(h: Helper, s: Surroundings): Helper {
    if !h.engine && h.bundlePath == "" && s.bundlePath.Some? then h.(bundlePath := s.bundlePath.value) else h
  }

  function Loaded(h: Helper, s: Surroundings): Outcome {
    if h.engine then Outcome(h, true, [])
    else if Loads(h, s)
    then Outcome(WithBundlePath(h, s).(engine := true), true, RegistrationsOf(h, s) + [LibraryLoaded(h.lazy)])
    else Outcome(WithBundlePath(h, s), false, [])
  }

  function Initialised(h: Helper, s: Surroundings): Outcome {
    if h.initFlag then Outcome(h, true, [])
    else if !s.initArgsOk then Outcome(h, false, [])
    else Outcome(h.(initFlag := true, initWebEngine := true), true, [InitializeWebEngine])
  }

  datatype Op =
    | LoadWebEngine(run: bool, surroundings: Surroundings)
    | CreateNWeb(created: bool)
    | SetLazyInitializeWebEngine(lazy: bool)
    | SaveScheme(name: string)

  function Do(h: Helper, op: Op): Outcome {
    match op
    case LoadWebEngine(run, s) =>
      var l := Loaded(h, s);
      if l.ok && run then
        var i := Initialised(l.helper, s);
        Outcome(i.helper, i.ok, l.calls + i.calls)
      else l
    case CreateNWeb(created) =>
      if !h.engine then Outcome(h, false, [])
      else Outcome(h.(initWebEngine := h.initWebEngine || created), created, [CreateWeb])
    case SetLazyInitializeWebEngine(lazy) =>
      Outcome(if h.initWebEngine || h.engine then h else h.(lazy := lazy), true, [])
    case SaveScheme(name) => Outcome(h.(schemes := h.schemes + [name]), true, [])
  }

  // ----- runs -----

  datatype Trace = Trace(helper: Helper, calls: seq<EngineCall>)

  function Run(ops: seq<Op>, n: nat): Trace
    requires n <= |ops|
  {
    if n == 0 then Trace(Fresh, [])
    else
      var t := Run(ops, n - 1);
      var o := Do(t.helper, ops[n - 1]);
      Trace(o.helper, t.calls + o.calls)
  }

  function CountLoaded(calls: seq<EngineCall>): nat {
    if calls == [] then 0
    else CountLoaded(calls[..|calls| - 1]) + (if calls[|calls| - 1].LibraryLoaded? then 1 else 0)
  }

  function CountInit(calls: seq<EngineCall>): nat {
    if calls == [] then 0
    else CountInit(calls[..|calls| - 1]) + (if calls[|calls| - 1].InitializeWebEngine? then 1 else 0)
  }

  // Every call of a web or of the initialisation comes after the library was announced.
  ghost predicate LoadedFirst(calls: seq<EngineCall>) {
    forall i :: 0 <= i < |calls| && (calls[i].InitializeWebEngine? || calls[i].CreateWeb?) ==>
      exists j :: 0 <= j < i && calls[j].LibraryLoaded?
  }

  // The value announced is the helper's.
  ghost predicate LazyAnnounced(t: Trace) {
    forall i :: 0 <= i < |t.calls| && t.calls[i].LibraryLoaded? ==> t.calls[i].lazy == t.helper.lazy
  }

  ghost predicate Announced(calls: seq<EngineCall>) {
    exists j :: 0 <= j < |calls| && calls[j].LibraryLoaded?
  }

  ghost predicate Inv(t: Trace) {
    && CountLoaded(t.calls) == (if t.helper.engine then 1 else 0)
    && CountInit(t.calls) == (if t.helper.initFlag then 1 else 0)
    && (t.helper.initFlag ==> t.helper.initWebEngine)
    && (t.helper.initWebEngine ==> t.helper.engine)
    && (Announced(t.calls) <==> t.helper.engine)
    && LoadedFirst(t.calls)
    && LazyAnnounced(t)
  }

  // ----- one more engine call -----

  lemma CountsAfter(calls: seq<EngineCall>, c: EngineCall)
    ensures CountLoaded(calls + [c]) == CountLoaded(calls) + (if c.LibraryLoaded? then 1 else 0)
    ensures CountInit(calls + [c]) == CountInit(calls) + (if c.InitializeWebEngine? then 1 else 0)
  {
    assert (calls + [c])[..|calls + [c]| - 1] == calls;
  }

  lemma AnnouncedAfter(calls: seq<EngineCall>, c: EngineCall)
    ensures Announced(calls + [c]) <==> Announced(calls) || c.LibraryLoaded?
  {
    var all := calls + [c];
    assert all[|calls|] == c;
    if Announced(calls) {
      var j :| 0 <= j < |calls| && calls[j].LibraryLoaded?;
      assert all[j].LibraryLoaded?;
    }
  }

  lemma LoadedFirstAfter(calls: seq<EngineCall>, c: EngineCall)
    requires LoadedFirst(calls) && (c.InitializeWebEngine? || c.CreateWeb? ==> Announced(calls))
    ensures LoadedFirst(calls + [c])
  {
    var all := calls + [c];
    forall i | 0 <= i < |all| && (all[i].InitializeWebEngine? || all[i].CreateWeb?)
      ensures exists j :: 0 <= j < i && all[j].LibraryLoaded?
    {
      if i < |calls| {
        var j :| 0 <= j < i && calls[j].LibraryLoaded?;
        assert all[j].LibraryLoaded?;
      } else {
        var j :| 0 <= j < |calls| && calls[j].LibraryLoaded?;
        assert all[j].LibraryLoaded?;
      }
    }
  }

  lemma LazyAfter(t: Trace, c: EngineCall, h: Helper)
    requires LazyAnnounced(t) && h.lazy == t.helper.lazy && (c.LibraryLoaded? ==> c.lazy == h.lazy)
    ensures LazyAnnounced(Trace(h, t.calls + [c]))
  {
  }

  lemma RegisterKeepsInv(t: Trace, name: string)
    requires Inv(t)
    ensures Inv(Trace(t.helper, t.calls + [RegisterScheme(name)]))
  {
    CountsAfter(t.calls, RegisterScheme(name));
    AnnouncedAfter(t.calls, RegisterScheme(name));
    LoadedFirstAfter(t.calls, RegisterScheme(name));
    LazyAfter(t, RegisterScheme(name), t.helper);
  }

  lemma AnnounceKeepsInv(t: Trace, bundlePath: string)
    requires Inv(t) && !t.helper.engine
    ensures Inv(Trace(t.helper.(bundlePath := bundlePath, engine := true), t.calls + [LibraryLoaded(t.helper.lazy)]))
  {
    var c := LibraryLoaded(t.helper.lazy);
    CountsAfter(t.calls, c);
    AnnouncedAfter(t.calls, c);
    LoadedFirstAfter(t.calls, c);
    LazyAfter(t, c, t.helper.(bundlePath := bundlePath, engine := true));
  }

  lemma InitializeKeepsInv(t: Trace)
    requires Inv(t) && t.helper.engine && !t.helper.initFlag
    ensures Inv(Trace(t.helper.(initFlag := true, initWebEngine := true), t.calls + [InitializeWebEngine]))
  {
    CountsAfter(t.calls, InitializeWebEngine);
    AnnouncedAfter(t.calls, InitializeWebEngine);
    LoadedFirstAfter(t.calls, InitializeWebEngine);
    LazyAfter(t, InitializeWebEngine, t.helper.(initFlag := true, initWebEngine := true));
  }

  lemma CreateWebKeepsInv(t: Trace, created: bool)
    requires Inv(t) && t.helper.engine
    ensures Inv(Trace(t.helper.(initWebEngine := t.helper.initWebEngine || created), t.calls + [CreateWeb]))
  {
    CountsAfter(t.calls, CreateWeb);
    AnnouncedAfter(t.calls, CreateWeb);
    LoadedFirstAfter(t.calls, CreateWeb);
    LazyAfter(t, CreateWeb, t.helper.(initWebEngine := t.helper.initWebEngine || created));
  }

  // No engine call: the lazy flag may change only while there is no engine.
  lemma QuietKeepsInv(t: Trace, bundlePath: string, schemes: seq<string>, lazy: bool)
    requires Inv(t) && (lazy == t.helper.lazy || !t.helper.engine)
    ensures Inv(Trace(t.helper.(bundlePath := bundlePath, schemes := schemes, lazy := lazy), t.calls + []))
  {
    assert t.calls + [] == t.calls;
  }

  // ----- every operation keeps the invariant -----

  lemma {:induction false} RegistrationsKeepInv(t: Trace, more: seq<EngineCall>)
    requires Inv(t) && forall i :: 0 <= i < |more| ==> more[i].RegisterScheme?
    ensures Inv(Trace(t.helper, t.calls + more))
  {
    if more == [] {
      assert t.calls + more == t.calls;
    } else {
      var n := |more| - 1;
      RegistrationsKeepInv(t, more[..n]);
      RegisterKeepsInv(Trace(t.helper, t.calls + more[..n]), more[n].name);
      assert t.calls + more == (t.calls + more[..n]) + [more[n]];
    }
  }

  ghost predicate InvAfter(t: Trace, o: Outcome) {
    Inv(Trace(o.helper, t.calls + o.calls))
  }

  lemma LoadKeepsInv(t: Trace, s: Surroundings)
    requires Inv(t)
    ensures InvAfter(t, Loaded(t.helper, s))
    ensures Loaded(t.helper, s).ok ==> Loaded(t.helper, s).helper.engine
  {
    var h := t.helper;
    if Loads(h, s) {
      var rs := RegistrationsOf(h, s);
      RegistrationsKeepInv(t, rs);
      AnnounceKeepsInv(Trace(h, t.calls + rs), WithBundlePath(h, s).bundlePath);
      Associative(t.calls, rs, [LibraryLoaded(h.lazy)]);
    } else {
      QuietKeepsInv(t, WithBundlePath(h, s).bundlePath, h.schemes, h.lazy);
    }
  }

  lemma InitKeepsInv(t: Trace, s: Surroundings)
    requires Inv(t) && t.helper.engine
    ensures InvAfter(t, Initialised(t.helper, s))
  {
    if t.helper.initFlag || !s.initArgsOk {
      QuietKeepsInv(t, t.helper.bundlePath, t.helper.schemes, t.helper.lazy);
    } else {
      InitializeKeepsInv(t);
    }
  }

  lemma LoadWebEngineKeepsInv(t: Trace, run: bool, s: Surroundings)
    requires Inv(t)
    ensures InvAfter(t, Do(t.helper, LoadWebEngine(run, s)))
  {
    LoadKeepsInv(t, s);
    var l := Loaded(t.helper, s);
    if l.ok && run {
      InitKeepsInv(Trace(l.helper, t.calls + l.calls), s);
      Associative(t.calls, l.calls, Initialised(l.helper, s).calls);
    }
  }

  lemma CreateNWebKeepsInv(t: Trace, created: bool)
    requires Inv(t)
    ensures InvAfter(t, Do(t.helper, CreateNWeb(created)))
  {
    if t.helper.engine {
      CreateWebKeepsInv(t, created);
    } else {
      QuietKeepsInv(t, t.helper.bundlePath, t.helper.schemes, t.helper.lazy);
    }
  }

  lemma StepKeepsInv(t: Trace, op: Op)
    requires Inv(t)
    ensures InvAfter(t, Do(t.helper, op))
  {
    var h := t.helper;
    match op
    case LoadWebEngine(run, s) => LoadWebEngineKeepsInv(t, run, s);
    case CreateNWeb(created) => CreateNWebKeepsInv(t, created);
    case SetLazyInitializeWebEngine(lazy) =>
      QuietKeepsInv(t, h.bundlePath, h.schemes, if h.initWebEngine || h.engine then h.lazy else lazy);
    case SaveScheme(name) => QuietKeepsInv(t, h.bundlePath, h.schemes + [name], h.lazy);
  }

  // MAIN: in every run the engine sees LibraryLoaded at most once, InitializeWebEngine at most once and
  // only afterwards, no web before the library was announced, and the flags tell which happened.
  lemma {:induction false} RunKeepsInv(ops: seq<Op>, n: nat)
    requires n <= |ops|
    ensures Inv(Run(ops, n))
  {
    if n > 0 {
      RunKeepsInv(ops, n - 1);
      StepKeepsInv(Run(ops, n - 1), ops[n - 1]);
    }
  }

  lemma StepFreezesLazy(h: Helper, op: Op)
    requires h.engine
    ensures Do(h, op).helper.engine && Do(h, op).helper.lazy == h.lazy
  {
  }

  // Once the engine is there nothing changes the lazy flag.
  lemma {:induction false} LazyIsFrozen(ops: seq<Op>, k: nat, n: nat)
    requires k <= n <= |ops| && Run(ops, k).helper.engine
    ensures Run(ops, n).helper.engine && Run(ops, n).helper.lazy == Run(ops, k).helper.lazy
  {
    if k < n {
      LazyIsFrozen(ops, k, n - 1);
      StepFreezesLazy(Run(ops, n - 1).helper, ops[n - 1]);
    }
  }

  // MAIN: the lazy value announced at any moment of a run is the flag's value ever after.
  lemma AnnouncedLazyHolds(ops: seq<Op>, k: nat, n: nat, i: nat)
    requires k <= n <= |ops|
    requires i < |Run(ops, k).calls| && Run(ops, k).calls[i].LibraryLoaded?
    ensures Run(ops, k).calls[i].lazy == Run(ops, n).helper.lazy
  {
    RunKeepsInv(ops, k);
    LazyIsFrozen(ops, k, n);
  }

  // ----- which value is announced -----

  // The value of the last set call before position n, false without one.
  ghost predicate LastSet(ops: seq<Op>, n: nat, lazy: bool)
    requires n <= |ops|
  {
    || (!lazy && forall j :: 0 <= j < n ==> !ops[j].SetLazyInitializeWebEngine?)
    || exists i :: SetsLast(ops, n, i, lazy)
  }

  ghost predicate SetsLast(ops: seq<Op>, n: nat, i: int, lazy: bool)
    requires n <= |ops|
  {
    && 0 <= i < n && ops[i] == SetLazyInitializeWebEngine(lazy)
    && forall j :: i < j < n ==> !ops[j].SetLazyInitializeWebEngine?
  }

  lemma {:induction false} FlagIsLastSet(ops: seq<Op>, n: nat)
    requires n <= |ops| && !Run(ops, n).helper.engine
    ensures LastSet(ops, n, Run(ops, n).helper.lazy)
  {
    if n > 0 {
      var before := Run(ops, n - 1).helper;
      RunKeepsInv(ops, n - 1);
      BeforeLoading(before, ops[n - 1]);
      FlagIsLastSet(ops, n - 1);
      NextSet(ops, n - 1, before.lazy);
    }
  }

  lemma NextSet(ops: seq<Op>, n: nat, lazy: bool)
    requires n < |ops| && LastSet(ops, n, lazy)
    ensures LastSet(ops, n + 1, if ops[n].SetLazyInitializeWebEngine? then ops[n].lazy else lazy)
  {
    if ops[n].SetLazyInitializeWebEngine? {
      assert SetsLast(ops, n + 1, n, ops[n].lazy);
    } else if i :| SetsLast(ops, n, i, lazy) {
      assert SetsLast(ops, n + 1, i, lazy);
    }
  }

  lemma BeforeLoading(h: Helper, op: Op)
    requires (h.initWebEngine ==> h.engine) && !Do(h, op).helper.engine
    ensures !h.engine
    ensures Do(h, op).helper.lazy == if op.SetLazyInitializeWebEngine? then op.lazy else h.lazy
  {
  }

  lemma LoadingKeepsLazy(h: Helper, op: Op)
    requires !h.engine && Do(h, op).helper.engine
    ensures op.LoadWebEngine? && Do(h, op).helper.lazy == h.lazy
  {
  }

  // MAIN: in every run the announced value is that of the last set call before the load, which call k is.
  lemma AnnouncedIsLastSet(ops: seq<Op>, k: nat, n: nat, i: nat)
    requires k < n <= |ops| && !Run(ops, k).helper.engine && Run(ops, k + 1).helper.engine
    requires i < |Run(ops, n).calls| && Run(ops, n).calls[i].LibraryLoaded?
    ensures LastSet(ops, k, Run(ops, n).calls[i].lazy)
  {
    FlagIsLastSet(ops, k);
    LoadingKeepsLazy(Run(ops, k).helper, ops[k]);
    LazyIsFrozen(ops, k + 1, n);
    AnnouncedLazyHolds(ops, n, n, i);
  }

  // ----- what each operation does, without its steps -----

  // The saved schemes are offered in order, up to and including the first that is refused.
  lemma RegistrationsInOrder(h: Helper, s: Surroundings)
    ensures var calls := RegistrationsOf(h, s);
            && |calls| <= |h.schemes| && (!s.registerFound ==> calls == [])
            && (forall i :: 0 <= i < |calls| ==> calls[i] == RegisterScheme(h.schemes[i]))
            && (forall i :: 0 <= i < |calls| - 1 ==> s.schemeOk(h.schemes[i]))
            && (s.registerFound && |calls| < |h.schemes| ==> calls != [] && !s.schemeOk(h.schemes[|calls| - 1]))
  {
  }

  // A load succeeds when the engine is there, or a bundle path is known or given and the services agree; then
  // it announces the library once, after the schemes, with the flag as it is.
  lemma LoadDoes(h: Helper, s: Surroundings)
    ensures var o := Loaded(h, s);
            && o.helper.initFlag == h.initFlag && o.helper.initWebEngine == h.initWebEngine
            && o.helper.lazy == h.lazy && o.helper.schemes == h.schemes && o.helper.engine == o.ok
            && (h.engine ==> o == Outcome(h, true, []))
            && (!h.engine ==>
                  && (o.ok <==> (h.bundlePath != "" || (s.bundlePath.Some? && s.bundlePath.value != ""))
                                && s.bridgeOk && s.engineFound)
                  && (o.ok ==> o.calls == RegistrationsOf(h, s) + [LibraryLoaded(h.lazy)])
                  && (!o.ok ==> o.calls == [])
                  && (h.bundlePath != "" || s.bundlePath.None? ==> o.helper.bundlePath == h.bundlePath)
                  && (h.bundlePath == "" && s.bundlePath.Some? ==> o.helper.bundlePath == s.bundlePath.value))
  {
  }

  // The first initialisation with arguments tells the engine; later ones succeed without telling it.
  lemma InitDoes(h: Helper, s: Surroundings)
    ensures var o := Initialised(h, s);
            && o.ok == (h.initFlag || s.initArgsOk)
            && o.helper == h.(initFlag := o.ok, initWebEngine := h.initWebEngine || (!h.initFlag && s.initArgsOk))
            && o.calls == if !h.initFlag && s.initArgsOk then [InitializeWebEngine] else []
  {
  }

  // A load asked to run initialises the engine if the load succeeded, and not otherwise.
  lemma LoadWebEngineDoes(h: Helper, run: bool, s: Surroundings)
    ensures var l, o := Loaded(h, s), Do(h, Op.LoadWebEngine(run, s));
            && (!run || !l.ok ==> o == l)
            && (run && l.ok ==>
                  && o.ok == (h.initFlag || s.initArgsOk) && o.helper.engine && o.helper.initFlag == o.ok
                  && o.calls == l.calls + if !h.initFlag && s.initArgsOk then [InitializeWebEngine] else [])
  {
    LoadDoes(h, s);
    InitDoes(Loaded(h, s).helper, s);
  }

  lemma CreateNWebDoes(h: Helper, created: bool)
    ensures var o := Do(h, Op.CreateNWeb(created));
            && o.ok == (h.engine && created)
            && o.calls == (if h.engine then [CreateWeb] else [])
            && o.helper == h.(initWebEngine := h.initWebEngine || (h.engine && created))
  {
  }

  // ----- the helper -----

  class NWebHelper {
    var nwebEngine: bool
    var initFlag: bool
    var initWebEngine: bool
    var lazyInitializeWebEngine: bool
    var bundlePath: string
    var schemeVector: seq<string>
    var engineCalls: seq<EngineCall> // what the engine has been told

    function State(): Helper
      reads this
    {
      Helper(nwebEngine, initFlag, initWebEngine, lazyInitializeWebEngine, bundlePath, schemeVector)
    }

    constructor ()
      ensures State() == Fresh && engineCalls == []
    {
      nwebEngine, initFlag, initWebEngine, lazyInitializeWebEngine := false, false, false, false;
      bundlePath, schemeVector, engineCalls := "", [], [];
    }

    method RegisterCustomSchemes(s: Surroundings) returns (ok: bool)
      modifies this`engineCalls
      ensures engineCalls == old(engineCalls) + RegistrationsOf(State(), s)
      ensures ok <==> s.registerFound && forall i :: 0 <= i < |schemeVector| ==> s.schemeOk(schemeVector[i])
    {
      if !s.registerFound {
        return false;
      }
      for i := 0 to |schemeVector|
        invariant engineCalls == old(engineCalls) + Registrations(schemeVector[..i])
        invariant forall k :: 0 <= k < i ==> s.schemeOk(schemeVector[k])
        invariant SchemesOffered(schemeVector, s.schemeOk, 0) == SchemesOffered(schemeVector, s.schemeOk, i)
      {
        engineCalls := engineCalls + [RegisterScheme(schemeVector[i])];
        assert Registrations(schemeVector[..i + 1])
            == Registrations(schemeVector[..i]) + [RegisterScheme(schemeVector[i])];
        if !s.schemeOk(schemeVector[i]) {
          return false;
        }
      }
      return true;
    }

    method GetWebEngine(s: Surroundings) returns (ok: bool)
      modifies this
      ensures Outcome(State(), ok, engineCalls)
           == var o := Loaded(old(State()), s); Outcome(o.helper, o.ok, old(engineCalls) + o.calls)
    {
      if nwebEngine {
        return true;
      }
      if bundlePath == "" {
        if s.bundlePath.None? {
          return false;
        }
        bundlePath := s.bundlePath.value;
        if bundlePath == "" {
          return false;
        }
      }
      if !s.bridgeOk {
        return false;
      }
      nwebEngine := s.engineFound;
      if !nwebEngine {
        return false;
      }
      var registered := RegisterCustomSchemes(s);
      engineCalls := engineCalls + [LibraryLoaded(lazyInitializeWebEngine)];
      return true;
    }

    method InitWebEngine(s: Surroundings) returns (ok: bool)
      requires nwebEngine
      modifies this
      ensures Outcome(State(), ok, engineCalls)
           == var o := Initialised(old(State()), s); Outcome(o.helper, o.ok, old(engineCalls) + o.calls)
    {
      if initFlag {
        return true;
      }
      if !s.initArgsOk {
        return false;
      }
      engineCalls := engineCalls + [InitializeWebEngine];
      initFlag := true;
      initWebEngine := true;
      return true;
    }

    method LoadWebEngine(runFlag: bool, s: Surroundings) returns (ok: bool)
      modifies this
      ensures Outcome(State(), ok, engineCalls)
           == var o := Do(old(State()), Op.LoadWebEngine(runFlag, s));
              Outcome(o.helper, o.ok, old(engineCalls) + o.calls)
    {
      var loaded := GetWebEngine(s);
      if !loaded {
        return false;
      }
      if runFlag {
        ok := InitWebEngine(s);
        return ok;
      }
      return true;
    }

    // `created` is whether the engine returns a web.
    method CreateNWeb(created: bool) returns (result: bool)
      modifies this
      ensures Outcome(State(), result, engineCalls)
           == var o := Do(old(State()), Op.CreateNWeb(created)); Outcome(o.helper, o.ok, old(engineCalls) + o.calls)
    {
      if !nwebEngine {
        return false;
      }
      engineCalls := engineCalls + [CreateWeb];
      if created {
        initWebEngine := true;
      }
      return created;
    }

    method SetLazyInitializeWebEngine(lazy: bool)
      modifies this`lazyInitializeWebEngine
      ensures State() == Do(old(State()), Op.SetLazyInitializeWebEngine(lazy)).helper
      ensures lazyInitializeWebEngine == if nwebEngine || initWebEngine then old(lazyInitializeWebEngine) else lazy
    {
      if initWebEngine {
        return;
      }
      if nwebEngine {
        return;
      }
      lazyInitializeWebEngine := lazy;
    }
  }
}
