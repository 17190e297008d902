/**
 * `WebResourceHandler`: notifications for one intercepted request, passed on to the engine until one
 * terminal notification is accepted.
 */
module ResourceHandler {
  import opened Options

  type Handle = nat
  type ErrorInfo = nat

  const OK := 0
  const ARKWEB_ERROR_UNKNOWN := 17100100

  // What the engine is asked; a None handle is a null pointer.
  datatype EngineCall =
    | Receive(handle: Option<Handle>, body: bool, result: int)
    | Finish(handle: Option<Handle>, result: int)
    | Fail(handle: Option<Handle>, info: Option<ErrorInfo>, result: int)
    | CreateInfo(created: ErrorInfo)
    | DestroyInfo(destroyed: ErrorInfo)
    | DestroyHandler(target: Handle)

  predicate IsTerminal(c: EngineCall) { c.Finish? || c.Fail? }

  predicate IsNotification(c: EngineCall) { IsTerminal(c) || c.Receive? }

  predicate Succeeds(c: EngineCall) { IsTerminal(c) && c.result == OK }

  predicate Passes(c: EngineCall, h: Handle) {
    IsNotification(c) && c.handle == Some(h)
  }

  // ----- traces -----

  // A successful terminal call is the last notification; so there is at most one.
  ghost predicate NothingAfterSuccess(calls: seq<EngineCall>) {
    forall i, j :: 0 <= i < j < |calls| && Succeeds(calls[i]) ==> !IsNotification(calls[j])
  }

  // Error infos are created, used by one failure call and destroyed, with nothing in between.
  ghost predicate InfosBalanced(calls: seq<EngineCall>) {
    && (forall i :: 0 <= i < |calls| && calls[i].CreateInfo? ==>
          && i + 2 < |calls|
          && calls[i + 1].Fail? && calls[i + 1].info == Some(calls[i].created)
          && calls[i + 2] == DestroyInfo(calls[i].created))
    && (forall i :: 0 <= i < |calls| && calls[i].DestroyInfo? ==>
          i >= 2 && calls[i - 2] == CreateInfo(calls[i].destroyed))
  }

  // A handler is destroyed at most once and never passed on afterwards.
  ghost predicate DestroyedIsGone(calls: seq<EngineCall>) {
    forall i, j :: 0 <= i < j < |calls| && calls[i].DestroyHandler? ==>
      !Passes(calls[j], calls[i].target) && !calls[j].DestroyHandler?
  }

  // Everything a handler object promises about the calls it has made.
  ghost predicate TraceInv(calls: seq<EngineCall>, isFinished: bool, handler: Option<Handle>) {
    && NothingAfterSuccess(calls)
    && InfosBalanced(calls)
    && DestroyedIsGone(calls)
    && (forall i :: 0 <= i < |calls| && Succeeds(calls[i]) ==> isFinished)
    && (forall i :: 0 <= i < |calls| && calls[i].DestroyHandler? ==> handler.None?)
  }

  lemma NotifyKeepsInv(calls: seq<EngineCall>, handler: Option<Handle>, c: EngineCall)
    requires TraceInv(calls, false, handler)
    requires IsNotification(c) && c.handle == handler
    ensures TraceInv(calls + [c], Succeeds(c), handler)
  {
    var after := calls + [c];
    forall i | 0 <= i < |after| && after[i].CreateInfo?
      ensures i + 2 < |after|
      ensures after[i + 1].Fail? && after[i + 1].info == Some(after[i].created)
      ensures after[i + 2] == DestroyInfo(after[i].created)
    {
      assert calls[i].CreateInfo?;
    }
  }

  lemma FailWithInfoKeepsBalance(
    calls: seq<EngineCall>, handler: Option<Handle>, info: ErrorInfo, result: int)
    requires InfosBalanced(calls)
    ensures InfosBalanced(calls + [CreateInfo(info), Fail(handler, Some(info), result), DestroyInfo(info)])
  {
    var after := calls + [CreateInfo(info), Fail(handler, Some(info), result), DestroyInfo(info)];
    forall i | 0 <= i < |after| && after[i].CreateInfo?
      ensures i + 2 < |after|
      ensures after[i + 1].Fail? && after[i + 1].info == Some(after[i].created)
      ensures after[i + 2] == DestroyInfo(after[i].created)
    {
      assert i < |calls| ==> calls[i].CreateInfo?;
    }
  }

  lemma FailWithInfoKeepsInv(
    calls: seq<EngineCall>, handler: Option<Handle>, info: ErrorInfo, result: int)
    requires TraceInv(calls, false, handler)
    ensures TraceInv(calls + [CreateInfo(info), Fail(handler, Some(info), result), DestroyInfo(info)],
                     result == OK, handler)
  {
    FailWithInfoKeepsBalance(calls, handler, info, result);
  }

  lemma DestroyKeepsInv(calls: seq<EngineCall>, isFinished: bool, target: Handle)
    requires TraceInv(calls, isFinished, Some(target))
    ensures TraceInv(calls + [DestroyHandler(target)], isFinished, None)
  {
    var after := calls + [DestroyHandler(target)];
    forall i | 0 <= i < |after| && after[i].CreateInfo?
      ensures i + 2 < |after|
      ensures after[i + 1].Fail? && after[i + 1].info == Some(after[i].created)
      ensures after[i + 2] == DestroyInfo(after[i].created)
    {
      assert calls[i].CreateInfo?;
    }
  }

  // ----- what the trace invariant means, by counting -----

  function Successes(calls: seq<EngineCall>, n: nat): nat
    requires n <= |calls|
  {
    if n == 0 then 0 else Successes(calls, n - 1) + if Succeeds(calls[n - 1]) then 1 else 0
  }

  function Occurrences(calls: seq<EngineCall>, n: nat, c: EngineCall): nat
    requires n <= |calls|
  {
    if n == 0 then 0 else Occurrences(calls, n - 1, c) + if calls[n - 1] == c then 1 else 0
  }

  lemma {:induction false} NoSuccessBefore(calls: seq<EngineCall>, n: nat)
    requires n <= |calls|
    requires forall i :: 0 <= i < n ==> !Succeeds(calls[i])
    ensures Successes(calls, n) == 0
  {
    if n > 0 {
      NoSuccessBefore(calls, n - 1);
    }
  }

  lemma {:induction false} AtMostOneSuccess(calls: seq<EngineCall>, n: nat)
    requires n <= |calls|
    requires NothingAfterSuccess(calls)
    ensures Successes(calls, n) <= 1
  {
    if n > 0 {
      if Succeeds(calls[n - 1]) {
        NoSuccessBefore(calls, n - 1);
      } else {
        AtMostOneSuccess(calls, n - 1);
      }
    }
  }

  lemma {:induction false} CreatedBeforeDestroyed(calls: seq<EngineCall>, n: nat, info: ErrorInfo)
    requires n + 2 <= |calls|
    requires InfosBalanced(calls)
    ensures Occurrences(calls, n + 2, DestroyInfo(info)) == Occurrences(calls, n, CreateInfo(info))
  {
    if n > 0 {
      CreatedBeforeDestroyed(calls, n - 1, info);
      assert calls[n - 1] == CreateInfo(info) <==> calls[n + 1] == DestroyInfo(info);
    } else {
      assert Occurrences(calls, 1, DestroyInfo(info)) == 0;
    }
  }

  // Every error info is destroyed as often as it is created.
  lemma InfosDestroyedAsCreated(calls: seq<EngineCall>, info: ErrorInfo)
    requires InfosBalanced(calls)
    ensures Occurrences(calls, |calls|, DestroyInfo(info)) == Occurrences(calls, |calls|, CreateInfo(info))
  {
    var n := |calls|;
    if n >= 2 {
      CreatedBeforeDestroyed(calls, n - 2, info);
      assert !calls[n - 1].CreateInfo? && !calls[n - 2].CreateInfo?;
      assert Occurrences(calls, n - 1, CreateInfo(info)) == Occurrences(calls, n - 2, CreateInfo(info));
    } else if n == 1 {
      assert Occurrences(calls, 0, DestroyInfo(info)) == 0 == Occurrences(calls, 0, CreateInfo(info));
    }
  }

  // ----- whole runs -----

  datatype State = State(isFinished: bool, handler: Option<Handle>, calls: seq<EngineCall>)

  datatype Op =
    | Received(body: bool, engine: int)
    | Finished(engine: int)
    | Failed(engine: int)
    | FailedWithInfo(info: Option<ErrorInfo>, engine: int)
    | Destroyed
    | FlagSet

  function Step(s: State, op: Op): State {
    match op
    case Received(body, engine) =>
      if s.isFinished then s else s.(calls := s.calls + [Receive(s.handler, body, engine)])
    case Finished(engine) =>
      if s.isFinished then s
      else s.(calls := s.calls + [Finish(s.handler, engine)], isFinished := engine == OK)
    case Failed(engine) =>
      if s.isFinished then s
      else s.(calls := s.calls + [Fail(s.handler, None, engine)], isFinished := engine == OK)
    case FailedWithInfo(info, engine) =>
      if s.isFinished || info.None? then s
      else s.(calls := s.calls + [CreateInfo(info.value), Fail(s.handler, info, engine), DestroyInfo(info.value)],
              isFinished := engine == OK)
    case Destroyed =>
      if s.handler.None? then s
      else s.(calls := s.calls + [DestroyHandler(s.handler.value)], handler := None)
    case FlagSet => s.(isFinished := true)
  }

  function Run(handler: Option<Handle>, ops: seq<Op>, n: nat): State
    requires n <= |ops|
  {
    if n == 0 then State(false, handler, []) else Step(Run(handler, ops, n - 1), ops[n - 1])
  }

  lemma StepKeepsInv(s: State, op: Op)
    requires TraceInv(s.calls, s.isFinished, s.handler)
    ensures var t := Step(s, op); TraceInv(t.calls, t.isFinished, t.handler)
  {
    match op
    case Received(body, engine) =>
      if !s.isFinished {
        NotifyKeepsInv(s.calls, s.handler, Receive(s.handler, body, engine));
      }
    case Finished(engine) =>
      if !s.isFinished {
        NotifyKeepsInv(s.calls, s.handler, Finish(s.handler, engine));
      }
    case Failed(engine) =>
      if !s.isFinished {
        NotifyKeepsInv(s.calls, s.handler, Fail(s.handler, None, engine));
      }
    case FailedWithInfo(info, engine) =>
      if !s.isFinished && info.Some? {
        FailWithInfoKeepsInv(s.calls, s.handler, info.value, engine);
      }
    case Destroyed =>
      if s.handler.Some? {
        DestroyKeepsInv(s.calls, s.isFinished, s.handler.value);
      }
    case FlagSet =>
  }

  lemma {:induction false} RunKeepsInv(handler: Option<Handle>, ops: seq<Op>, n: nat)
    requires n <= |ops|
    ensures var s := Run(handler, ops, n); TraceInv(s.calls, s.isFinished, s.handler)
  {
    if n > 0 {
      RunKeepsInv(handler, ops, n - 1);
      StepKeepsInv(Run(handler, ops, n - 1), ops[n - 1]);
    }
  }

  // MAIN: in every run at most one terminal call succeeds and no notification follows it, every error
  // info is destroyed as often as it is created, and a destroyed handler is never passed on.
  lemma EveryRun(handler: Option<Handle>, ops: seq<Op>, info: ErrorInfo)
    ensures var calls := Run(handler, ops, |ops|).calls;
            && Successes(calls, |calls|) <= 1
            && NothingAfterSuccess(calls)
            && Occurrences(calls, |calls|, DestroyInfo(info)) == Occurrences(calls, |calls|, CreateInfo(info))
            && DestroyedIsGone(calls)
  {
    var calls := Run(handler, ops, |ops|).calls;
    RunKeepsInv(handler, ops, |ops|);
    AtMostOneSuccess(calls, |calls|);
    InfosDestroyedAsCreated(calls, info);
  }

  class WebResourceHandler {
    var isFinished: bool
    var handler: Option<Handle>
    var calls: seq<EngineCall> // what the engine has been asked

    function Now(): State
      reads this
    {
      State(isFinished, handler, calls)
    }

    ghost predicate Valid()
      reads this
    {
      TraceInv(calls, isFinished, handler)
    }

    constructor (handler: Option<Handle>)
      ensures Valid() && Now() == State(false, handler, [])
    {
      isFinished, this.handler, calls := false, handler, [];
    }

    // DidReceiveResponse and DidReceiveResponseBody; `engine` is the engine's result.
    method DidReceive(body: bool, engine: int) returns (ret: int)
      requires Valid()
      modifies this`calls
      ensures Now() == Step(old(Now()), Received(body, engine))
      ensures calls == old(calls) + if isFinished then [] else [Receive(handler, body, engine)]
      ensures ret == if isFinished then ARKWEB_ERROR_UNKNOWN else engine
      ensures Valid()
    {
      StepKeepsInv(Now(), Received(body, engine));
      if isFinished {
        return ARKWEB_ERROR_UNKNOWN;
      }
      calls := calls + [Receive(handler, body, engine)];
      return engine;
    }

    method DidFinish(engine: int) returns (ret: int)
      requires Valid()
      modifies this`calls, this`isFinished
      ensures Now() == Step(old(Now()), Finished(engine))
      ensures calls == old(calls) + if old(isFinished) then [] else [Finish(handler, engine)]
      ensures isFinished == (old(isFinished) || engine == OK)
      ensures ret == if old(isFinished) then ARKWEB_ERROR_UNKNOWN else engine
      ensures Valid()
    {
      StepKeepsInv(Now(), Finished(engine));
      if isFinished {
        return ARKWEB_ERROR_UNKNOWN;
      }
      calls := calls + [Finish(handler, engine)];
      ret := engine;
      if ret == 0 {
        isFinished := true;
      }
    }

    method DidFailWithError(engine: int) returns (ret: int)
      requires Valid()
      modifies this`calls, this`isFinished
      ensures Now() == Step(old(Now()), Failed(engine))
      ensures calls == old(calls) + if old(isFinished) then [] else [Fail(handler, None, engine)]
      ensures isFinished == (old(isFinished) || engine == OK)
      ensures ret == if old(isFinished) then ARKWEB_ERROR_UNKNOWN else engine
      ensures Valid()
    {
      StepKeepsInv(Now(), Failed(engine));
      if isFinished {
        return ARKWEB_ERROR_UNKNOWN;
      }
      calls := calls + [Fail(handler, None, engine)];
      ret := engine;
      if ret == 0 {
        isFinished := true;
      }
    }

    // `info` is the error info the engine creates, if it does.
    method DidFailWithErrorInfo(info: Option<ErrorInfo>, engine: int) returns (ret: int)
      requires Valid()
      modifies this`calls, this`isFinished
      ensures Now() == Step(old(Now()), FailedWithInfo(info, engine))
      ensures calls == old(calls) + if old(isFinished) || info.None? then []
                                    else [CreateInfo(info.value), Fail(handler, info, engine), DestroyInfo(info.value)]
      ensures isFinished == (old(isFinished) || (info.Some? && engine == OK))
      ensures ret == if old(isFinished) || info.None? then ARKWEB_ERROR_UNKNOWN else engine
      ensures Valid()
    {
      StepKeepsInv(Now(), FailedWithInfo(info, engine));
      if isFinished {
        return ARKWEB_ERROR_UNKNOWN;
      }
      if info.None? {
        return ARKWEB_ERROR_UNKNOWN;
      }
      ghost var before := calls;
      calls := calls + [CreateInfo(info.value)];
      calls := calls + [Fail(handler, info, engine)];
      ret := engine;
      calls := calls + [DestroyInfo(info.value)];
      assert calls == before + [CreateInfo(info.value), Fail(handler, info, engine), DestroyInfo(info.value)];
      if ret == 0 {
        isFinished := true;
      }
    }

    method DestoryArkWebResourceHandler()
      requires Valid()
      modifies this`calls, this`handler
      ensures Now() == Step(old(Now()), Destroyed)
      ensures calls == old(calls) + if old(handler).None? then [] else [DestroyHandler(old(handler).value)]
      ensures Valid() && handler.None?
    {
      StepKeepsInv(Now(), Destroyed);
      if handler.Some? {
        calls := calls + [DestroyHandler(handler.value)];
        handler := None;
      }
    }

    method SetFinishFlag()
      requires Valid()
      modifies this`isFinished
      ensures Now() == Step(old(Now()), FlagSet)
      ensures isFinished && calls == old(calls) && handler == old(handler)
      ensures Valid()
    {
      StepKeepsInv(Now(), FlagSet);
      isFinished := true;
    }
  }
}
