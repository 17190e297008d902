/**
 * The hand-written IPC layer between render and browser process: `BrowserClient` writes a parcel for
 * each of six messages, `BrowserHost::OnRemoteRequest` reads it and calls the same interface method.
 */
module BrowserIpc {
  import opened Options

  type int32 = n: int | -0x8000_0000 <= n < 0x8000_0000
  type int64 = n: int | -0x8000_0000_0000_0000 <= n < 0x8000_0000_0000_0000
  type uint64 = n: int | 0 <= n < 0x1_0000_0000_0000_0000

  // Remote objects and render nodes are known by identity.
  type RemoteObject = nat
  type RenderNode = nat

  const DESCRIPTOR := "ohos.appexecfwk.Browser"
  const NO_ERROR := 0
  const ERR_INVALID_STATE := 5
  const ERR_UNKNOWN_CODE := 305

  // IBrowser::Message
  const QUERY_RENDER_SURFACE := 1
  const REPORT_THREAD := 2
  const PASS_SURFACE := 3
  const DESTROY_RENDER_SURFACE := 4
  const QUERY_BUFFER_TYPE_LEAK := 5
  const UPDATE_DELEGATE_CONTAINER_NODE := 6

  // A call of an IBrowser method. A surface travels as its producer.
  datatype Call =
    | QueryRenderSurface(surfaceId: int32)
    | ReportThread(status: int32, processId: int32, threadId: int32, role: int32)
    | PassSurface(producer: RemoteObject, id: int64)
    | DestroyRenderSurface(surfaceId: int32)
    | QueryBufferTypeLeak(surfaceId: int32)
    | UpdateDelegateContainerNode(parentNodeId: uint64, node: Option<RenderNode>, isAddNode: bool)

  function CodeOf(c: Call): int {
    match c
    case QueryRenderSurface(_) => QUERY_RENDER_SURFACE
    case ReportThread(_, _, _, _) => REPORT_THREAD
    case PassSurface(_, _) => PASS_SURFACE
    case DestroyRenderSurface(_) => DESTROY_RENDER_SURFACE
    case QueryBufferTypeLeak(_) => QUERY_BUFFER_TYPE_LEAK
    case UpdateDelegateContainerNode(_, _, _) => UPDATE_DELEGATE_CONTAINER_NODE
  }

  // ----- parcels -----

  datatype Cell =
    | Token(descriptor: string)
    | Int32(i: int32)
    | Int64(l: int64)
    | Uint64(u: uint64)
    | Bool(b: bool)
    | Text(s: string)
    | Remote(object_: RemoteObject)
    | Marshalled(node: RenderNode)

  // The cells still to be read. A read of something that is not there yields the type's default and
  // does not move the cursor.
  class Parcel {
    var cells: seq<Cell>
    var pos: nat

    constructor ()
      ensures cells == [] && pos == 0
    {
      cells, pos := [], 0;
    }

    function Next(): Option<Cell>
      reads this
    {
      if pos < |cells| then Some(cells[pos]) else None
    }

    method Write(c: Cell)
      modifies this`cells
      ensures cells == old(cells) + [c]
    {
      cells := cells + [c];
    }

    // WriteRemoteObject refuses a null object.
    method WriteRemoteObject(o: Option<RemoteObject>) returns (ok: bool)
      modifies this`cells
      ensures ok == o.Some?
      ensures cells == old(cells) + (if ok then [Remote(o.value)] else [])
    {
      if o.None? {
        return false;
      }
      cells := cells + [Remote(o.value)];
      return true;
    }

    method ReadInterfaceToken() returns (s: string)
      modifies this`pos
      ensures var n := old(Next()); if n.Some? && n.value.Token? then s == n.value.descriptor && pos == old(pos) + 1
                                    else s == "" && pos == old(pos)
    {
      if pos < |cells| && cells[pos].Token? {
        s, pos := cells[pos].descriptor, pos + 1;
      } else {
        s := "";
      }
    }

    method ReadInt32() returns (i: int32)
      modifies this`pos
      ensures (i, pos) == Int32At(cells, old(pos))
    {
      if pos < |cells| && cells[pos].Int32? {
        i, pos := cells[pos].i, pos + 1;
      } else {
        i := 0;
      }
    }

    method ReadInt64() returns (l: int64)
      modifies this`pos
      ensures (l, pos) == Int64At(cells, old(pos))
    {
      if pos < |cells| && cells[pos].Int64? {
        l, pos := cells[pos].l, pos + 1;
      } else {
        l := 0;
      }
    }

    method ReadUint64() returns (u: Option<uint64>)
      modifies this`pos
      ensures (u, pos) == Uint64At(cells, old(pos))
    {
      u := None;
      if pos < |cells| && cells[pos].Uint64? {
        u, pos := Some(cells[pos].u), pos + 1;
      }
    }

    method ReadBool() returns (b: Option<bool>)
      modifies this`pos
      ensures (b, pos) == BoolAt(cells, old(pos))
    {
      b := None;
      if pos < |cells| && cells[pos].Bool? {
        b, pos := Some(cells[pos].b), pos + 1;
      }
    }

    method ReadString() returns (s: string)
      modifies this`pos
      ensures s == if old(pos) < |cells| && cells[old(pos)].Text? then cells[old(pos)].s else ""
    {
      s := "";
      if pos < |cells| && cells[pos].Text? {
        s, pos := cells[pos].s, pos + 1;
      }
    }

    method ReadRemoteObject() returns (o: Option<RemoteObject>)
      modifies this`pos
      ensures (o, pos) == RemoteAt(cells, old(pos))
    {
      o := None;
      if pos < |cells| && cells[pos].Remote? {
        o, pos := Some(cells[pos].object_), pos + 1;
      }
    }

    // RSSurfaceNode::Unmarshalling
    method Unmarshal() returns (n: Option<RenderNode>)
      modifies this`pos
      ensures (n, pos) == NodeAt(cells, old(pos))
    {
      n := None;
      if pos < |cells| && cells[pos].Marshalled? {
        n, pos := Some(cells[pos].node), pos + 1;
      }
    }
  }

  function Int32At(cells: seq<Cell>, pos: nat): (int32, nat) {
    if pos < |cells| && cells[pos].Int32? then (cells[pos].i, pos + 1) else (0, pos)
  }

  function Int64At(cells: seq<Cell>, pos: nat): (int64, nat) {
    if pos < |cells| && cells[pos].Int64? then (cells[pos].l, pos + 1) else (0, pos)
  }

  function Uint64At(cells: seq<Cell>, pos: nat): (Option<uint64>, nat) {
    if pos < |cells| && cells[pos].Uint64? then (Some(cells[pos].u), pos + 1) else (None, pos)
  }

  function BoolAt(cells: seq<Cell>, pos: nat): (Option<bool>, nat) {
    if pos < |cells| && cells[pos].Bool? then (Some(cells[pos].b), pos + 1) else (None, pos)
  }

  function RemoteAt(cells: seq<Cell>, pos: nat): (Option<RemoteObject>, nat) {
    if pos < |cells| && cells[pos].Remote? then (Some(cells[pos].object_), pos + 1) else (None, pos)
  }

  function NodeAt(cells: seq<Cell>, pos: nat): (Option<RenderNode>, nat) {
    if pos < |cells| && cells[pos].Marshalled? then (Some(cells[pos].node), pos + 1) else (None, pos)
  }

  // ----- what the host makes of a parcel -----

  // The layout of a message.
  function Encoded(c: Call): seq<Cell> {
    [Token(DESCRIPTOR)] +
    match c
    case QueryRenderSurface(id) => [Int32(id)]
    case ReportThread(status, processId, threadId, role) =>
      [Int32(status), Int32(processId), Int32(threadId), Int32(role)]
    case PassSurface(producer, id) => [Remote(producer), Int64(id)]
    case DestroyRenderSurface(id) => [Int32(id)]
    case QueryBufferTypeLeak(id) => [Int32(id)]
    case UpdateDelegateContainerNode(parent, node, add) =>
      [Uint64(parent), Bool(add), Bool(node.Some?)] + (if node.Some? then [Marshalled(node.value)] else [])
  }

  predicate HasToken(cells: seq<Cell>, pos: nat) {
    pos < |cells| && cells[pos] == Token(DESCRIPTOR)
  }

  // The interface call that the host makes for a message of this code whose parcel is read from
  // position `pos`, behind the token; None when it makes none.
  function Decoded(code: int, cells: seq<Cell>, pos: nat): Option<Call> {
    if code == QUERY_RENDER_SURFACE then Some(QueryRenderSurface(Int32At(cells, pos).0))
    else if code == REPORT_THREAD then
      var (status, p1) := Int32At(cells, pos);
      var (processId, p2) := Int32At(cells, p1);
      var (threadId, p3) := Int32At(cells, p2);
      Some(ReportThread(status, processId, threadId, Int32At(cells, p3).0))
    else if code == PASS_SURFACE then
      var (producer, p1) := RemoteAt(cells, pos);
      if producer.None? then None else Some(PassSurface(producer.value, Int64At(cells, p1).0))
    else if code == DESTROY_RENDER_SURFACE then Some(DestroyRenderSurface(Int32At(cells, pos).0))
    else if code == QUERY_BUFFER_TYPE_LEAK then Some(QueryBufferTypeLeak(Int32At(cells, pos).0))
    else if code == UPDATE_DELEGATE_CONTAINER_NODE then
      var (parent, p1) := Uint64At(cells, pos);
      var (add, p2) := BoolAt(cells, p1);
      var (hasNode, p3) := BoolAt(cells, p2);
      if parent.None? || add.None? || hasNode.None? then None
      else if !hasNode.value then Some(UpdateDelegateContainerNode(parent.value, None, add.value))
      else
        var node := NodeAt(cells, p3).0;
        if node.None? then None else Some(UpdateDelegateContainerNode(parent.value, node, add.value))
    else None
  }

  // MAIN: for all six messages and all arguments, decoding what was encoded gives the call back.
  lemma DecodeEncode(c: Call)
    ensures HasToken(Encoded(c), 0) && Decoded(CodeOf(c), Encoded(c), 1) == Some(c)
  {
    var cells := Encoded(c);
    match c
    case QueryRenderSurface(id) => assert cells[1] == Int32(id);
    case ReportThread(status, processId, threadId, role) =>
      assert cells[1] == Int32(status) && cells[2] == Int32(processId) && cells[3] == Int32(threadId)
          && cells[4] == Int32(role);
    case PassSurface(producer, id) => assert cells[1] == Remote(producer) && cells[2] == Int64(id);
    case DestroyRenderSurface(id) => assert cells[1] == Int32(id);
    case QueryBufferTypeLeak(id) => assert cells[1] == Int32(id);
    case UpdateDelegateContainerNode(parent, node, add) =>
      assert cells[1] == Uint64(parent) && cells[2] == Bool(add) && cells[3] == Bool(node.Some?);
      assert node.Some? ==> cells[4] == Marshalled(node.value);
  }

  // No two calls share message code and parcel, so none is taken for another.
  lemma EncodingIsInjective(c: Call, d: Call)
    requires CodeOf(c) == CodeOf(d) && Encoded(c) == Encoded(d)
    ensures c == d
  {
    DecodeEncode(c);
    DecodeEncode(d);
  }

  // ----- the host -----

  // What the browser answers to a surface query.
  datatype Answer = Answer(surface: Option<RemoteObject>, nodeId: uint64, handle: Option<RemoteObject>)

  class BrowserHost {
    // the IBrowser calls made so far, and the browser's answers
    var calls: seq<Call>
    const answer: int32 -> Answer
    const leak: int32 -> string

    constructor (answer: int32 -> Answer, leak: int32 -> string)
      ensures calls == [] && this.answer == answer && this.leak == leak
    {
      calls := [];
      this.answer, this.leak := answer, leak;
    }

    // What the host writes into the reply of a call.
    function ReplyTo(c: Option<Call>): seq<Cell> {
      match c
      case Some(QueryRenderSurface(id)) =>
        var a := answer(id);
        if a.surface.None? then []
        else [Remote(a.surface.value), Uint64(a.nodeId), Bool(a.handle.Some?)]
             + (if a.handle.Some? then [Remote(a.handle.value)] else [])
      case Some(QueryBufferTypeLeak(id)) => [Text(leak(id))]
      case _ => []
    }

    function ResultOf(code: int, c: Option<Call>): int {
      if !(QUERY_RENDER_SURFACE <= code <= UPDATE_DELEGATE_CONTAINER_NODE) then ERR_UNKNOWN_CODE
      else if c.Some? && c.value.QueryRenderSurface? && answer(c.value.surfaceId).surface.None? then ERR_INVALID_STATE
      else NO_ERROR
    }

    // For every parcel: without the interface token nothing happens, otherwise exactly the decoded call is made.
    method OnRemoteRequest(code: int, data: Parcel, reply: Parcel) returns (ret: int)
      requires data != reply
      modifies this`calls, data`pos, reply`cells
      ensures !HasToken(data.cells, old(data.pos)) ==>
                ret == ERR_INVALID_STATE && calls == old(calls) && reply.cells == old(reply.cells)
      ensures HasToken(data.cells, old(data.pos)) ==>
                var c := Decoded(code, data.cells, old(data.pos) + 1);
                && calls == old(calls) + (if c.Some? then [c.value] else [])
                && reply.cells == old(reply.cells) + ReplyTo(c)
                && ret == ResultOf(code, c)
    {
      var remoteDescriptor := data.ReadInterfaceToken();
      if remoteDescriptor != DESCRIPTOR {
        return ERR_INVALID_STATE;
      }
      if code == QUERY_RENDER_SURFACE {
        ret := HandleQueryRenderSurface(data, reply);
      } else if code == REPORT_THREAD {
        ret := HandleReportThread(data);
      } else if code == PASS_SURFACE {
        ret := HandlePassSurface(data);
      } else if code == DESTROY_RENDER_SURFACE {
        ret := HandleDestroyRenderSurface(data);
      } else if code == QUERY_BUFFER_TYPE_LEAK {
        ret := HandleQueryBufferTypeLeak(data, reply);
      } else if code == UPDATE_DELEGATE_CONTAINER_NODE {
        ret := HandleUpdateDelegateContainerNode(data);
      } else {
        ret := ERR_UNKNOWN_CODE;
      }
    }

    method HandleQueryRenderSurface(data: Parcel, reply: Parcel) returns (ret: int)
      requires data != reply
      modifies this`calls, data`pos, reply`cells
      ensures var c := Decoded(QUERY_RENDER_SURFACE, data.cells, old(data.pos));
              && c.Some? && calls == old(calls) + [c.value]
              && reply.cells == old(reply.cells) + ReplyTo(c)
              && ret == ResultOf(QUERY_RENDER_SURFACE, c)
    {
      var surfaceId := data.ReadInt32();
      calls := calls + [QueryRenderSurface(surfaceId)];
      var a := answer(surfaceId);
      var written := reply.WriteRemoteObject(a.surface);
      if !written {
        return ERR_INVALID_STATE;
      }
      reply.Write(Uint64(a.nodeId));
      var hasRSHandle := a.handle.Some?;
      reply.Write(Bool(hasRSHandle));
      if hasRSHandle {
        written := reply.WriteRemoteObject(a.handle);
        if !written {
          return ERR_INVALID_STATE;
        }
      }
      return NO_ERROR;
    }

    method HandleReportThread(data: Parcel) returns (ret: int)
      modifies this`calls, data`pos
      ensures var c := Decoded(REPORT_THREAD, data.cells, old(data.pos));
              c.Some? && calls == old(calls) + [c.value] && ret == NO_ERROR
    {
      var status := data.ReadInt32();
      var processId := data.ReadInt32();
      var threadId := data.ReadInt32();
      var role := data.ReadInt32();
      calls := calls + [ReportThread(status, processId, threadId, role)];
      return NO_ERROR;
    }

    method HandlePassSurface(data: Parcel) returns (ret: int)
      modifies this`calls, data`pos
      ensures var c := Decoded(PASS_SURFACE, data.cells, old(data.pos));
              calls == old(calls) + (if c.Some? then [c.value] else []) && ret == NO_ERROR
    {
      var surfaceObject := data.ReadRemoteObject();
      if surfaceObject.None? {
        return NO_ERROR;
      }
      var surfaceId := data.ReadInt64();
      calls := calls + [PassSurface(surfaceObject.value, surfaceId)];
      return NO_ERROR;
    }

    method HandleDestroyRenderSurface(data: Parcel) returns (ret: int)
      modifies this`calls, data`pos
      ensures var c := Decoded(DESTROY_RENDER_SURFACE, data.cells, old(data.pos));
              c.Some? && calls == old(calls) + [c.value] && ret == NO_ERROR
    {
      var surfaceId := data.ReadInt32();
      calls := calls + [DestroyRenderSurface(surfaceId)];
      return NO_ERROR;
    }

    method HandleQueryBufferTypeLeak(data: Parcel, reply: Parcel) returns (ret: int)
      requires data != reply
      modifies this`calls, data`pos, reply`cells
      ensures var c := Decoded(QUERY_BUFFER_TYPE_LEAK, data.cells, old(data.pos));
              && c.Some? && calls == old(calls) + [c.value]
              && reply.cells == old(reply.cells) + ReplyTo(c)
              && ret == NO_ERROR
    {
      var surfaceId := data.ReadInt32();
      calls := calls + [QueryBufferTypeLeak(surfaceId)];
      reply.Write(Text(leak(surfaceId)));
      return NO_ERROR;
    }

    method HandleUpdateDelegateContainerNode(data: Parcel) returns (ret: int)
      modifies this`calls, data`pos
      ensures var c := Decoded(UPDATE_DELEGATE_CONTAINER_NODE, data.cells, old(data.pos));
              calls == old(calls) + (if c.Some? then [c.value] else []) && ret == NO_ERROR
    {
      var parentNodeId := data.ReadUint64();
      if parentNodeId.None? {
        return NO_ERROR;
      }
      var isAddNode := data.ReadBool();
      if isAddNode.None? {
        return NO_ERROR;
      }
      var hasSurfaceNode := data.ReadBool();
      if hasSurfaceNode.None? {
        return NO_ERROR;
      }
      var surfaceNode: Option<RenderNode> := None;
      if hasSurfaceNode.value {
        surfaceNode := data.Unmarshal();
        if surfaceNode.None? {
          return NO_ERROR;
        }
      }
      calls := calls + [UpdateDelegateContainerNode(parentNodeId.value, surfaceNode, isAddNode.value)];
      return NO_ERROR;
    }
  }

  // ----- the client -----

  class BrowserClient {
    // Remote(): the host at the other end, if there is one
    var remote: BrowserHost?

    constructor (remote: BrowserHost?)
      ensures this.remote == remote
    {
      this.remote := remote;
    }

    // IRemoteObject::SendRequest; a transport failure reaches nobody.
    method SendRequest(host: BrowserHost, code: int, data: Parcel, reply: Parcel, delivered: bool, ghost c: Call)
      returns (ret: int)
      requires data != reply && data.pos == 0 && reply.cells == []
      requires code == CodeOf(c) && data.cells == Encoded(c)
      modifies host`calls, data`pos, reply`cells
      ensures !delivered ==> ret != NO_ERROR && host.calls == old(host.calls) && reply.cells == []
      ensures delivered ==>
                && host.calls == old(host.calls) + [c]
                && reply.cells == host.ReplyTo(Some(c))
                && ret == host.ResultOf(code, Some(c))
    {
      DecodeEncode(c);
      if !delivered {
        return -1;
      }
      ret := host.OnRemoteRequest(code, data, reply);
    }

    method QueryRenderSurface(surfaceId: int32, nodeIdIn: uint64, delivered: bool)
      returns (surface: Option<RemoteObject>, handle: Option<RemoteObject>, nodeId: uint64)
      modifies if remote == null then {} else {remote}
      ensures remote != null ==>
                remote.calls == old(remote.calls) + (if delivered then [Call.QueryRenderSurface(surfaceId)] else [])
      // for a non-null surface the client gets exactly what the browser answered
      ensures remote != null && delivered && remote.answer(surfaceId).surface.Some? ==>
                Answer(surface, nodeId, handle) == remote.answer(surfaceId)
      ensures remote == null || !delivered || remote.answer(surfaceId).surface.None? ==>
                surface.None? && handle.None? && nodeId == nodeIdIn
    {
      nodeId := nodeIdIn;
      var data := new Parcel();
      var reply := new Parcel();
      data.Write(Token(DESCRIPTOR));
      data.Write(Int32(surfaceId));
      if remote == null {
        return None, None, nodeId;
      }
      var ret := SendRequest(remote, QUERY_RENDER_SURFACE, data, reply, delivered, Call.QueryRenderSurface(surfaceId));
      if ret != NO_ERROR {
        return None, None, nodeId;
      }
      surface := reply.ReadRemoteObject();
      var node := reply.ReadUint64();
      if node.None? {
        return surface, None, nodeId;
      }
      nodeId := node.value;
      handle := None;
      var hasRSHandle := reply.ReadBool();
      if hasRSHandle.Some? && hasRSHandle.value {
        handle := reply.ReadRemoteObject();
      }
    }

    method ReportThread(status: int32, processId: int32, threadId: int32, role: int32, delivered: bool)
      modifies if remote == null then {} else {remote}
      ensures remote != null ==>
                remote.calls == old(remote.calls)
                                + (if delivered then [Call.ReportThread(status, processId, threadId, role)] else [])
    {
      var data := new Parcel();
      var reply := new Parcel();
      data.Write(Token(DESCRIPTOR));
      data.Write(Int32(status));
      data.Write(Int32(processId));
      data.Write(Int32(threadId));
      data.Write(Int32(role));
      if remote == null {
        return;
      }
      var ret := SendRequest(remote, REPORT_THREAD, data, reply, delivered,
                             Call.ReportThread(status, processId, threadId, role));
    }

    // `surface` is the producer of the surface, if there is one.
    method PassSurface(surface: Option<RemoteObject>, id: int64, delivered: bool)
      modifies if remote == null then {} else {remote}
      ensures remote != null ==>
                remote.calls == old(remote.calls)
                                + (if delivered && surface.Some? then [Call.PassSurface(surface.value, id)] else [])
    {
      var data := new Parcel();
      var reply := new Parcel();
      data.Write(Token(DESCRIPTOR));
      if surface.None? {
        return;
      }
      var written := data.WriteRemoteObject(surface);
      data.Write(Int64(id));
      if remote == null {
        return;
      }
      var ret := SendRequest(remote, PASS_SURFACE, data, reply, delivered, Call.PassSurface(surface.value, id));
    }

    method DestroyRenderSurface(surfaceId: int32, delivered: bool)
      modifies if remote == null then {} else {remote}
      ensures remote != null ==>
                remote.calls == old(remote.calls) + (if delivered then [Call.DestroyRenderSurface(surfaceId)] else [])
    {
      var data := new Parcel();
      var reply := new Parcel();
      data.Write(Token(DESCRIPTOR));
      data.Write(Int32(surfaceId));
      if remote == null {
        return;
      }
      var ret := SendRequest(remote, DESTROY_RENDER_SURFACE, data, reply, delivered,
                             Call.DestroyRenderSurface(surfaceId));
    }

    method QueryBufferTypeLeak(surfaceId: int32, delivered: bool) returns (bufferTypeLeak: string)
      modifies if remote == null then {} else {remote}
      ensures remote != null ==>
                remote.calls == old(remote.calls) + (if delivered then [Call.QueryBufferTypeLeak(surfaceId)] else [])
      ensures bufferTypeLeak == if remote != null && delivered then remote.leak(surfaceId) else ""
    {
      var data := new Parcel();
      var reply := new Parcel();
      data.Write(Token(DESCRIPTOR));
      data.Write(Int32(surfaceId));
      if remote == null {
        return "";
      }
      var ret := SendRequest(remote, QUERY_BUFFER_TYPE_LEAK, data, reply, delivered,
                             Call.QueryBufferTypeLeak(surfaceId));
      if ret != NO_ERROR {
        return "";
      }
      bufferTypeLeak := reply.ReadString();
    }

    method UpdateDelegateContainerNode(parentNodeId: uint64, node: Option<RenderNode>, isAddNode: bool, delivered: bool)
      modifies if remote == null then {} else {remote}
      ensures remote != null ==>
                remote.calls == old(remote.calls)
                                + (if delivered then [Call.UpdateDelegateContainerNode(parentNodeId, node, isAddNode)]
                                   else [])
    {
      var data := new Parcel();
      var reply := new Parcel();
      data.Write(Token(DESCRIPTOR));
      data.Write(Uint64(parentNodeId));
      data.Write(Bool(isAddNode));
      data.Write(Bool(node.Some?));
      if node.Some? {
        data.Write(Marshalled(node.value));
      }
      if remote == null {
        return;
      }
      var ret := SendRequest(remote, UPDATE_DELEGATE_CONTAINER_NODE, data, reply, delivered,
                             Call.UpdateDelegateContainerNode(parentNodeId, node, isAddNode));
    }
  }
}
