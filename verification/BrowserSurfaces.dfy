/**
 * The maps of `AafwkBrowserHostImpl`, changed under one mutex by concurrent surface queries and
 * destroy requests. A run is any order of the locked sections, hence any interleaving of the requests.
 */
module BrowserSurfaces {
  import opened Options
  import opened Decimal

  type Context = nat
  type RemoteObject = nat

  // A surface from the browser kernel: its producer, leak report and the user data that names its
  // render node, render service handle and context.
  datatype Surface = Surface(producer: Option<RemoteObject>, bufferTypeLeak: string,
                             nodeIdText: string, handleText: string, tokenText: string)

  const UINT64_LIMIT := 0x1_0000_0000_0000_0000

  // std::from_chars over the whole text
  function ParseUint64(text: string): Option<nat> {
    if text != "" && AllDigits(text) && ParseNat(text) < UINT64_LIMIT then Some(ParseNat(text)) else None
  }

  // A surface without a readable node id counts as node 0.
  function NodeIdOf(s: Surface): nat {
    match ParseUint64(s.nodeIdText) case None => 0 case Some(n) => n
  }

  function HandleOf(s: Surface): Option<RemoteObject> {
    match ParseUint64(s.handleText) case Some(h) => (if h != 0 then Some(h) else None) case None => None
  }

  // RSUIContextManager::GetRSUIContext is a parameter.
  function ContextOf(s: Surface, lookup: nat -> Option<Context>): Option<Context> {
    match ParseUint64(s.tokenText) case Some(t) => (if t != 0 then lookup(t) else None) case None => None
  }

  // MAIN: a printed number below 2^64 is read as itself; any larger one, and any text that is no number, counts
  // as missing.
  lemma PrintedIsParsed(n: nat)
    ensures ParseUint64(NatToString(n)) == if n < 0x1_0000_0000_0000_0000 then Some(n) else None
  {
    ParsePrinted(n);
  }

  lemma OnlyDigitsAreParsed(text: string)
    ensures ParseUint64(text).Some? <==> text != "" && AllDigits(text) && ParseNat(text) < UINT64_LIMIT
    ensures ParseUint64(text).Some? ==> ParseUint64(text).value == ParseNat(text)
  {
  }

  // A surface that names its node, handle and context by printed numbers has them; 0 names no handle and no
  // context, but it is a node.
  lemma PrintedUserData(s: Surface, node: nat, handle: nat, token: nat, lookup: nat -> Option<Context>)
    requires node < 0x1_0000_0000_0000_0000 && handle < 0x1_0000_0000_0000_0000 && token < 0x1_0000_0000_0000_0000
    ensures s.nodeIdText == NatToString(node) ==> NodeIdOf(s) == node
    ensures s.handleText == NatToString(handle) ==> HandleOf(s) == if handle == 0 then None else Some(handle)
    ensures s.tokenText == NatToString(token) ==> ContextOf(s, lookup) == if token == 0 then None else lookup(token)
  {
    PrintedIsParsed(node);
    PrintedIsParsed(handle);
    PrintedIsParsed(token);
  }

  lemma MissingUserData(s: Surface, lookup: nat -> Option<Context>)
    ensures ParseUint64(s.nodeIdText).None? ==> NodeIdOf(s) == 0
    ensures ParseUint64(s.handleText).None? ==> HandleOf(s) == None
    ensures ParseUint64(s.tokenText).None? ==> ContextOf(s, lookup) == None
  {
  }

  datatype Maps = Maps(
    cache: map<int, Surface>,
    contexts: map<nat, Option<Context>>,
    nodeIds: map<int, nat>)

  const NoMaps := Maps(map[], map[], map[])

  // The locked sections.
  datatype Section =
    | Query(surfaceId: int, surface: Surface, context: Option<Context>)
    | Destroy(surfaceId: int)
    | TakeLeak(surfaceId: int)
    | FindContext(nodeId: nat)

  function Step(m: Maps, s: Section): Maps {
    match s
    case Query(id, surface, context) =>
      Maps(m.cache[id := surface], m.contexts[NodeIdOf(surface) := context], m.nodeIds[id := NodeIdOf(surface)])
    case Destroy(id) =>
      if id in m.nodeIds then m.(contexts := m.contexts - {m.nodeIds[id]}, nodeIds := m.nodeIds - {id}) else m
    case TakeLeak(id) => m.(cache := m.cache - {id})
    case FindContext(_) => m
  }

  function Run(m: Maps, ss: seq<Section>, n: nat): Maps
    requires n <= |ss|
  {
    if n == 0 then m else Step(Run(m, ss, n - 1), ss[n - 1])
  }

  // ----- the invariant -----

  ghost predicate Injective(ids: map<int, nat>) {
    forall s, t :: s in ids && t in ids && s != t ==> ids[s] != ids[t]
  }

  // The context map's keys are exactly the node ids of the registered surfaces.
  ghost predicate KeysAreNodeIds(m: Maps) {
    && (forall s :: s in m.nodeIds ==> m.nodeIds[s] in m.contexts)
    && (forall n :: n in m.contexts ==> exists s :: s in m.nodeIds && m.nodeIds[s] == n)
  }

  ghost predicate Inv(m: Maps) {
    Injective(m.nodeIds) && KeysAreNodeIds(m)
  }

  // Registered surfaces have distinct node ids and keep them until destroyed.
  ghost predicate Respectful(m: Maps, s: Section) {
    s.Query? ==>
      && (s.surfaceId in m.nodeIds ==> m.nodeIds[s.surfaceId] == NodeIdOf(s.surface))
      && (forall t :: t in m.nodeIds && t != s.surfaceId ==> m.nodeIds[t] != NodeIdOf(s.surface))
  }

  // MAIN: one section keeps the invariant exactly when it is respectful.
  lemma StepKeepsInvExactly(m: Maps, s: Section)
    requires Inv(m)
    ensures Inv(Step(m, s)) <==> Respectful(m, s)
  {
    match s
    case Query(id, surface, context) => QueryKeepsInvExactly(m, s);
    case Destroy(id) => DestroyKeepsInv(m, id);
    case TakeLeak(id) => SameNodeMaps(m, Step(m, s));
    case FindContext(_) =>
  }

  lemma SameNodeMaps(m: Maps, u: Maps)
    requires Inv(m) && u.contexts == m.contexts && u.nodeIds == m.nodeIds
    ensures Inv(u)
  {
  }

  lemma DestroyKeepsInv(m: Maps, id: int)
    requires Inv(m)
    ensures Inv(Step(m, Destroy(id)))
  {
    var u := Step(m, Destroy(id));
    forall n | n in u.contexts ensures exists s :: s in u.nodeIds && u.nodeIds[s] == n {
      var s :| s in m.nodeIds && m.nodeIds[s] == n;
      assert s in u.nodeIds && u.nodeIds[s] == n;
    }
  }

  lemma QueryKeepsInvExactly(m: Maps, s: Section)
    requires Inv(m) && s.Query?
    ensures Inv(Step(m, s)) <==> Respectful(m, s)
  {
    var u := Step(m, s);
    var id, node := s.surfaceId, NodeIdOf(s.surface);
    assert u.nodeIds[id] == node;
    if Respectful(m, s) {
      forall n | n in u.contexts ensures exists t :: t in u.nodeIds && u.nodeIds[t] == n {
        if n == node {
          assert u.nodeIds[id] == n;
        } else {
          var t :| t in m.nodeIds && m.nodeIds[t] == n;
          assert u.nodeIds[t] == n;
        }
      }
    } else if Inv(u) {
      KeptMeansRespectful(m, s, u);
    }
  }

  lemma KeptMeansRespectful(m: Maps, s: Section, u: Maps)
    requires Inv(m) && s.Query? && u == Step(m, s) && Inv(u)
    ensures Respectful(m, s)
  {
    var id, node := s.surfaceId, NodeIdOf(s.surface);
    assert u.nodeIds[id] == node;
    forall t | t in m.nodeIds && t != id ensures m.nodeIds[t] != node {
      assert u.nodeIds[t] == m.nodeIds[t];
    }
    assert id in m.nodeIds ==> m.nodeIds[id] in u.contexts;
  }

  ghost predicate RespectfulRun(m: Maps, ss: seq<Section>, n: nat)
    requires n <= |ss|
  {
    n == 0 || (RespectfulRun(m, ss, n - 1) && Respectful(Run(m, ss, n - 1), ss[n - 1]))
  }

  // MAIN: under any order of locked sections that registers surfaces respectfully.
  lemma {:induction false} RunKeepsInv(ss: seq<Section>, n: nat)
    requires n <= |ss| && RespectfulRun(NoMaps, ss, n)
    ensures Inv(Run(NoMaps, ss, n))
  {
    if n > 0 {
      RunKeepsInv(ss, n - 1);
      StepKeepsInvExactly(Run(NoMaps, ss, n - 1), ss[n - 1]);
    }
  }

  // ----- contexts over any run -----

  // The section writes or removes the node's context.
  predicate Touches(m: Maps, s: Section, node: nat) {
    match s
    case Query(_, surface, _) => NodeIdOf(surface) == node
    case Destroy(id) => id in m.nodeIds && m.nodeIds[id] == node
    case _ => false
  }

  predicate TouchesAt(ss: seq<Section>, i: nat, node: nat)
    requires i < |ss|
  {
    Touches(Run(NoMaps, ss, i), ss[i], node)
  }

  // The last section in [from, n) of a run that touches the node's context.
  function LastTouch(ss: seq<Section>, node: nat, from: nat, n: nat): (k: Option<nat>)
    requires from <= n <= |ss|
    ensures k.Some? ==> from <= k.value < n && TouchesAt(ss, k.value, node)
    ensures forall i :: (if k.Some? then k.value + 1 else from) <= i < n ==> !TouchesAt(ss, i, node)
  {
    if n == from then None
    else if TouchesAt(ss, n - 1, node) then Some(n - 1)
    else LastTouch(ss, node, from, n - 1)
  }

  // Position q registers the surface, and nothing before position n registers it again or destroys it.
  ghost predicate RegisteredAt(ss: seq<Section>, q: nat, n: nat, id: int) {
    && q < n <= |ss| && ss[q].Query? && ss[q].surfaceId == id
    && forall i :: q < i < n ==> ss[i] != Destroy(id) && (ss[i].Query? ==> ss[i].surfaceId != id)
  }

  function ContextFound(m: Maps, node: nat): Option<Context> {
    if node in m.contexts then m.contexts[node] else None
  }

  // MAIN: in any run, whatever the node ids, a surface keeps its node id until destroyed or queried again,
  // and its node still has the context it registered exactly when the last section since then that
  // touched this node, if any, was a query of another surface with an equal context.
  lemma {:induction false} ContextKeptExactly(ss: seq<Section>, q: nat, n: nat, id: int)
    requires RegisteredAt(ss, q, n, id)
    ensures var m, node := Run(NoMaps, ss, n), NodeIdOf(ss[q].surface);
            && id in m.nodeIds && m.nodeIds[id] == node
            && (node in m.contexts && m.contexts[node] == ss[q].context <==>
                match LastTouch(ss, node, q + 1, n)
                case None => true
                case Some(k) => ss[k].Query? && ss[k].context == ss[q].context)
  {
    var node := NodeIdOf(ss[q].surface);
    if n == q + 1 {
      assert LastTouch(ss, node, q + 1, n) == None;
    } else {
      ContextKeptExactly(ss, q, n - 1, id);
      StepTouches(Run(NoMaps, ss, n - 1), ss[n - 1], id, node);
    }
  }

  lemma StepTouches(m: Maps, s: Section, id: int, node: nat)
    requires id in m.nodeIds && m.nodeIds[id] == node && s != Destroy(id) && (s.Query? ==> s.surfaceId != id)
    ensures var u := Step(m, s);
            && id in u.nodeIds && u.nodeIds[id] == node
            && (Touches(m, s, node) && s.Query? ==> node in u.contexts && u.contexts[node] == s.context)
            && (Touches(m, s, node) && s.Destroy? ==> node !in u.contexts)
            && (!Touches(m, s, node) ==>
                  (node in u.contexts <==> node in m.contexts)
                  && (node in m.contexts ==> u.contexts[node] == m.contexts[node]))
  {
  }

  // MAIN: under any order of respectful sections, looking a registered surface's node up gives the context
  // that its own query registered.
  lemma {:induction false} RegisteredContextIsFound(ss: seq<Section>, q: nat, n: nat, id: int)
    requires RegisteredAt(ss, q, n, id) && RespectfulRun(NoMaps, ss, n)
    ensures var m, node := Run(NoMaps, ss, n), NodeIdOf(ss[q].surface);
            && id in m.nodeIds && m.nodeIds[id] == node
            && node in m.contexts && ContextFound(m, node) == ss[q].context
  {
    if n > q + 1 {
      RegisteredContextIsFound(ss, q, n - 1, id);
      RunKeepsInv(ss, n - 1);
      StepTouches(Run(NoMaps, ss, n - 1), ss[n - 1], id, NodeIdOf(ss[q].surface));
    }
  }

  // Destroying a surface takes the context of another registered surface away exactly when the two share
  // their node id.
  lemma DestroyTakesAnotherContextExactly(m: Maps, id: int, other: int)
    requires id in m.nodeIds && other in m.nodeIds && id != other && m.nodeIds[other] in m.contexts
    ensures var u := Step(m, Destroy(id));
            && other in u.nodeIds && u.nodeIds[other] == m.nodeIds[other]
            && (m.nodeIds[other] in u.contexts <==> m.nodeIds[id] != m.nodeIds[other])
            && (m.nodeIds[id] != m.nodeIds[other] ==> u.contexts[m.nodeIds[other]] == m.contexts[m.nodeIds[other]])
  {
    var u := Step(m, Destroy(id));
    assert other in u.nodeIds;
  }

  // Two surfaces without a node id both count as node 0: destroying the first takes the second's context ...
  lemma TwoSurfacesWithoutNode(a: Surface, b: Surface, x: Option<Context>, y: Option<Context>)
    requires a.nodeIdText == "" && b.nodeIdText == ""
    ensures var m := Run(NoMaps, [Query(1, a, x), Query(2, b, y), Destroy(1)], 3);
            2 in m.nodeIds && m.nodeIds[2] !in m.contexts
  {
    var ss := [Query(1, a, x), Query(2, b, y), Destroy(1)];
    assert NodeIdOf(a) == 0 && NodeIdOf(b) == 0;
    var m1 := Step(NoMaps, ss[0]);
    var m2 := Step(m1, ss[1]);
    assert Run(NoMaps, ss, 1) == m1;
    assert Run(NoMaps, ss, 2) == m2;
    assert m2.nodeIds[1] == 0 && m2.nodeIds[2] == 0;
  }

  // ... and already the second's query replaces the first's.
  lemma SecondSurfaceReplacesContext(a: Surface, b: Surface, x: Option<Context>, y: Option<Context>)
    requires a.nodeIdText == "" && b.nodeIdText == ""
    ensures var m := Run(NoMaps, [Query(1, a, x), Query(2, b, y)], 2);
            1 in m.nodeIds && ContextFound(m, m.nodeIds[1]) == y
  {
    var ss := [Query(1, a, x), Query(2, b, y)];
    assert NodeIdOf(a) == 0 && NodeIdOf(b) == 0;
    var m1 := Step(NoMaps, ss[0]);
    assert Run(NoMaps, ss, 1) == m1;
    assert Run(NoMaps, ss, 2) == Step(m1, ss[1]);
  }

  // MAIN: once registered, a surface keeps its node id and its context through any respectful order of
  // other sections, until it is itself destroyed or queried again.
  lemma {:induction false} ContextSurvives(m: Maps, ss: seq<Section>, n: nat, id: int)
    requires n <= |ss| && Registered(m, id) && RespectfulRun(m, ss, n)
    requires forall i :: 0 <= i < n ==> ss[i] != Destroy(id) && (ss[i].Query? ==> ss[i].surfaceId != id)
    ensures Registered(Run(m, ss, n), id) && SameContext(m, Run(m, ss, n), id)
  {
    if n > 0 {
      ContextSurvives(m, ss, n - 1, id);
      ContextSurvivesStep(m, Run(m, ss, n - 1), ss[n - 1], id);
    }
  }

  ghost predicate Registered(m: Maps, id: int) {
    Inv(m) && id in m.nodeIds
  }

  ghost predicate SameContext(m: Maps, u: Maps, id: int)
    requires Registered(m, id) && Registered(u, id)
  {
    u.nodeIds[id] == m.nodeIds[id] && u.contexts[m.nodeIds[id]] == m.contexts[m.nodeIds[id]]
  }

  lemma ContextSurvivesStep(m: Maps, u: Maps, s: Section, id: int)
    requires Registered(m, id) && Registered(u, id) && SameContext(m, u, id)
    requires Respectful(u, s) && s != Destroy(id) && (s.Query? ==> s.surfaceId != id)
    ensures Registered(Step(u, s), id) && SameContext(m, Step(u, s), id)
  {
    StepKeepsInvExactly(u, s);
  }

  // ----- the host -----

  class AafwkBrowserHost {
    var renderSurfaceCache: map<int, Surface>
    var rsUIContextMap: map<nat, Option<Context>>
    var surfaceIdToNodeId: map<int, nat>
    const hasAdapter: bool // browserHostAdapter_ is not null

    function State(): Maps
      reads this
    {
      Maps(renderSurfaceCache, rsUIContextMap, surfaceIdToNodeId)
    }

    constructor (hasAdapter: bool)
      ensures State() == NoMaps && this.hasAdapter == hasAdapter
    {
      renderSurfaceCache, rsUIContextMap, surfaceIdToNodeId := map[], map[], map[];
      this.hasAdapter := hasAdapter;
    }

    // `fetched` is the surface that the kernel gave for the id, if any.
    method QueryRenderSurface(surfaceId: int, fetched: Option<Surface>, lookup: nat -> Option<Context>)
      returns (producer: Option<RemoteObject>, handle: Option<RemoteObject>, nodeId: nat)
      modifies this
      ensures !hasAdapter || fetched.None? ==>
                producer.None? && handle.None? && nodeId == 0 && State() == old(State())
      ensures hasAdapter && fetched.Some? ==>
                var s := fetched.value;
                && State() == Step(old(State()), Query(surfaceId, s, ContextOf(s, lookup)))
                && nodeId == NodeIdOf(s)
                && producer == s.producer
                && handle == (if s.producer.Some? then HandleOf(s) else None)
                && renderSurfaceCache == old(renderSurfaceCache)[surfaceId := s]
                && surfaceIdToNodeId == old(surfaceIdToNodeId)[surfaceId := nodeId]
                && rsUIContextMap == old(rsUIContextMap)[nodeId := ContextOf(s, lookup)]
    {
      nodeId := 0;
      if !hasAdapter {
        return None, None, nodeId;
      }
      if fetched.None? {
        return None, None, nodeId;
      }
      var surface := fetched.value;
      if surface.nodeIdText != "" {
        var parsed := ParseUint64(surface.nodeIdText);
        nodeId := if parsed.Some? then parsed.value else 0;
      }
      renderSurfaceCache := renderSurfaceCache[surfaceId := surface];
      var rsHandle: Option<RemoteObject> := None;
      if surface.handleText != "" {
        var raw := ParseUint64(surface.handleText);
        if raw.Some? && raw.value != 0 {
          rsHandle := raw;
        }
      }
      var rsUIContext: Option<Context> := None;
      if surface.tokenText != "" {
        var token := ParseUint64(surface.tokenText);
        if token.Some? && token.value != 0 {
          rsUIContext := lookup(token.value);
        }
      }
      rsUIContextMap := rsUIContextMap[nodeId := rsUIContext];
      surfaceIdToNodeId := surfaceIdToNodeId[surfaceId := nodeId];
      if surface.producer.None? {
        return None, None, nodeId;
      }
      return surface.producer, rsHandle, nodeId;
    }

    method DestroyRenderSurface(surfaceId: int)
      modifies this
      ensures State() == if hasAdapter then Step(old(State()), Destroy(surfaceId)) else old(State())
      // the surface is unregistered with the context of its node; the cached surface stays
      ensures hasAdapter && surfaceId in old(surfaceIdToNodeId) ==>
                && surfaceIdToNodeId == old(surfaceIdToNodeId) - {surfaceId}
                && rsUIContextMap == old(rsUIContextMap) - {old(surfaceIdToNodeId)[surfaceId]}
                && renderSurfaceCache == old(renderSurfaceCache)
      ensures !hasAdapter || surfaceId !in old(surfaceIdToNodeId) ==> State() == old(State())
    {
      if !hasAdapter {
        return;
      }
      if surfaceId in surfaceIdToNodeId {
        rsUIContextMap := rsUIContextMap - {surfaceIdToNodeId[surfaceId]};
        surfaceIdToNodeId := surfaceIdToNodeId - {surfaceId};
      }
    }

    // A cached surface's report is handed out once.
    method QueryBufferTypeLeak(surfaceId: int) returns (leak: string)
      modifies this
      ensures State() == Step(old(State()), TakeLeak(surfaceId))
      ensures leak == if surfaceId in old(renderSurfaceCache) then old(renderSurfaceCache)[surfaceId].bufferTypeLeak
                      else ""
      ensures renderSurfaceCache == old(renderSurfaceCache) - {surfaceId}
      ensures surfaceIdToNodeId == old(surfaceIdToNodeId) && rsUIContextMap == old(rsUIContextMap)
    {
      if surfaceId in renderSurfaceCache {
        leak := renderSurfaceCache[surfaceId].bufferTypeLeak;
        renderSurfaceCache := renderSurfaceCache - {surfaceId};
        return leak;
      }
      assert renderSurfaceCache - {surfaceId} == renderSurfaceCache;
      return "";
    }

    // The context that UpdateDelegateContainerNode passes on: that of the registered surface with this node
    // id, and none if no registered surface has it.
    method ContextForUpdate(parentNodeId: nat) returns (context: Option<Context>)
      ensures context == ContextFound(State(), parentNodeId)
      ensures Inv(State()) && context.Some? ==>
                exists id :: id in surfaceIdToNodeId && surfaceIdToNodeId[id] == parentNodeId
    {
      context := None;
      if parentNodeId in rsUIContextMap {
        context := rsUIContextMap[parentNodeId];
      }
    }
  }
}
