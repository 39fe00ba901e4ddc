/**
 * The agent tunnel as two state machines and two first-in first-out queues: the app's end of one
 * agent connection (its hub entry and the sockets it carries) and the agent's end.
 */
module Tunnel {
  import opened Bytes
  import opened TunnelFrames

  const MAX_STREAMS_PER_AGENT := 64

  // ── The app's end ──────────────────────────────────────────────────────────

  /**
   * A TunnelSocket attached to this connection, for `port` of the agent's host. `written`, `sent` and
   * `received` record its history: the bytes its user wrote, those handed to an open WebSocket, and those
   * pushed to its reader.
   */
  datatype Sock = Sock(
    id: StreamId, port: nat, connecting: bool, remoteEnded: bool, destroyed: bool, finished: bool,
    pending: seq<seq<byte>>, written: seq<byte>, sent: seq<byte>, received: seq<byte>)

  /** `socks` lists every socket ever attached; `streams` maps the ids in use to positions in it. */
  datatype App = App(open: bool, live: bool, next: StreamId, streams: map<StreamId, nat>, socks: seq<Sock>)

  datatype AppOut = AppOut(app: App, frames: seq<Frame>, violation: bool)

  function NextId(id: StreamId): StreamId
  {
    (id + 1) % ID_SPACE
  }

  function IdPlus(id: StreamId, k: nat): StreamId
  {
    (id + k) % ID_SPACE
  }

  lemma NextIsPlus(start: StreamId, k: nat)
    ensures NextId(IdPlus(start, k)) == IdPlus(start, k + 1)
  {
  }

  /** The ids of `k` consecutive allocations are all different until the counter has gone round. */
  lemma {:induction false} WindowSize(used: set<StreamId>, start: StreamId, k: nat)
    requires k <= ID_SPACE
    requires forall j: nat :: j < k ==> IdPlus(start, j) in used
    ensures k <= |used|
  {
    if k > 0 {
      var last := IdPlus(start, k - 1);
      var rest := used - {last};
      forall j: nat | j < k - 1 ensures IdPlus(start, j) in rest {
        assert IdPlus(start, j) in used;
      }
      WindowSize(rest, start, k - 1);
    }
  }

  /** The first id at or after `start` plus `k` that is not in use. */
  function FirstFree(used: set<StreamId>, start: StreamId, k: nat): (id: StreamId)
    requires |used| < ID_SPACE && k <= |used|
    requires forall j: nat :: j < k ==> IdPlus(start, j) in used
    ensures id !in used
    decreases |used| - k
  {
    if IdPlus(start, k) !in used then IdPlus(start, k)
    else
      WindowSize(used, start, k + 1);
      FirstFree(used, start, k + 1)
  }

  /** It is the first one from `start` on: those before it are in use. */
  lemma {:induction false} FreeIsFirst(used: set<StreamId>, start: StreamId, k: nat) returns (m: nat)
    requires |used| < ID_SPACE && k <= |used|
    requires forall j: nat :: j < k ==> IdPlus(start, j) in used
    ensures FirstFree(used, start, k) == IdPlus(start, m)
    ensures forall j: nat :: j < m ==> IdPlus(start, j) in used
    decreases |used| - k
  {
    m := k;
    if IdPlus(start, k) in used {
      WindowSize(used, start, k + 1);
      m := FreeIsFirst(used, start, k + 1);
    }
  }

  function Send(app: App, frames: seq<Frame>): seq<Frame>
  {
    if app.open then frames else []
  }

  function Forget(app: App, h: nat): App
    requires h < |app.socks|
  {
    var id := app.socks[h].id;
    if id in app.streams && app.streams[id] == h then app.(streams := app.streams - {id}) else app
  }

  /** The link's `close`: release the stream and tell the agent, unless it was released already. */
  function LinkClose(app: App, h: nat): AppOut
    requires h < |app.socks|
  {
    var id := app.socks[h].id;
    if id in app.streams && app.streams[id] == h
    then AppOut(Forget(app, h), Send(app, [Close(id)]), false)
    else AppOut(app, [], false)
  }

  function Put(app: App, h: nat, s: Sock): App
    requires h < |app.socks|
  {
    app.(socks := app.socks[h := s])
  }

  /** `startStream`: refused when the agent is not live or already carries its limit. */
  function StartStream(app: App, port: nat): AppOut
    requires |app.streams| < ID_SPACE
  {
    if !app.live || |app.streams| >= MAX_STREAMS_PER_AGENT then AppOut(app, [], false)
    else
      var id := FirstFree(app.streams.Keys, app.next, 0);
      var s := Sock(id, port, true, false, false, false, [], [], [], []);
      AppOut(
        app.(next := NextId(id), streams := app.streams[id := |app.socks|], socks := app.socks + [s]),
        Send(app, [Open(id, port)]), false)
  }

  /** `_write`: kept until the stream opens, sent at once after that. */
  function Write(app: App, h: nat, chunk: seq<byte>): AppOut
    requires h < |app.socks|
  {
    var s := app.socks[h];
    if s.connecting then
      AppOut(Put(app, h, s.(pending := s.pending + [chunk], written := s.written + chunk)), [], false)
    else
      AppOut(
        Put(app, h, s.(written := s.written + chunk, sent := if app.open then s.sent + chunk else s.sent)),
        Send(app, DataFrames(s.id, chunk)), false)
  }

  /** `_final`: CLOSE ends both directions. */
  function Finish(app: App, h: nat): AppOut
    requires h < |app.socks|
  {
    var s := app.socks[h];
    if s.remoteEnded then AppOut(Put(app, h, s.(finished := true)), [], false)
    else LinkClose(Put(app, h, s.(finished := true, remoteEnded := true)), h)
  }

  /** `_destroy` (an error, a timeout or the user). */
  function Destroy(app: App, h: nat): AppOut
    requires h < |app.socks|
  {
    var s := app.socks[h];
    var gone := s.(destroyed := true, pending := []);
    if s.remoteEnded then AppOut(Put(app, h, gone), [], false)
    else LinkClose(Put(app, h, gone.(remoteEnded := true)), h)
  }

  /** `fail`: nothing is sent back. */
  function Fail(app: App, h: nat): App
    requires h < |app.socks|
  {
    var s := app.socks[h];
    Forget(Put(app, h, s.(remoteEnded := true, destroyed := true, pending := [])), h)
  }

  function Concat(chunks: seq<seq<byte>>): seq<byte>
  {
    if chunks == [] then [] else chunks[0] + Concat(chunks[1..])
  }

  function PendingFrames(id: StreamId, chunks: seq<seq<byte>>): seq<Frame>
  {
    if chunks == [] then [] else DataFrames(id, chunks[0]) + PendingFrames(id, chunks[1..])
  }

  lemma {:induction false} PendingAppend(id: StreamId, chunks: seq<seq<byte>>, chunk: seq<byte>)
    ensures Concat(chunks + [chunk]) == Concat(chunks) + chunk
    ensures PendingFrames(id, chunks + [chunk]) == PendingFrames(id, chunks) + DataFrames(id, chunk)
  {
    if chunks == [] {
      assert chunks + [chunk] == [chunk];
    } else {
      assert (chunks + [chunk])[1..] == chunks[1..] + [chunk];
      PendingAppend(id, chunks[1..], chunk);
    }
  }

  /** `opened`: what was written while connecting goes out first. */
  function OpenedBy(app: App, h: nat): AppOut
    requires h < |app.socks|
  {
    var s := app.socks[h];
    if !s.connecting || s.destroyed then AppOut(app, [], false)
    else
      AppOut(
        Put(app, h, s.(connecting := false, pending := [], sent := if app.open then s.sent + Concat(s.pending) else s.sent)),
        Send(app, PendingFrames(s.id, s.pending)), false)
  }

  /** `receive`: dropped once ended; a reader that stopped reading (`full`) has the stream cut off. */
  function Receive(app: App, h: nat, data: seq<byte>, full: bool): AppOut
    requires h < |app.socks|
  {
    var s := app.socks[h];
    if s.destroyed || s.remoteEnded then AppOut(app, [], false)
    else if full then Destroy(app, h)
    else AppOut(Put(app, h, s.(received := s.received + data)), [], false)
  }

  function RemoteClose(app: App, h: nat): App
    requires h < |app.socks|
  {
    var s := app.socks[h];
    if s.remoteEnded then app else Forget(Put(app, h, s.(remoteEnded := true)), h)
  }

  ghost predicate StreamsValid(app: App)
  {
    forall id :: id in app.streams ==> app.streams[id] < |app.socks|
  }

  /** `onMessage` after decoding; a violation closes the WebSocket. */
  function OnMessage(app: App, f: Frame, full: bool): AppOut
    requires StreamsValid(app)
  {
    var known := f.id in app.streams;
    var violated := AppOut(app.(open := false), [], true);
    match f
    case Open(_, _) => violated
    case Opened(id) =>
      if !known then AppOut(app, [], false)
      else if !app.socks[app.streams[id]].connecting then violated
      else OpenedBy(app, app.streams[id])
    case Data(id, data) =>
      if !known then AppOut(app, [], false)
      else if app.socks[app.streams[id]].connecting then violated
      else Receive(app, app.streams[id], data, full)
    case Close(id) => if !known then AppOut(app, [], false) else AppOut(RemoteClose(app, app.streams[id]), [], false)
    case Error(id, _) => if !known then AppOut(app, [], false) else AppOut(Fail(app, app.streams[id]), [], false)
  }

  /** One socket after `failStreams` cleared the map it was in. */
  function Failed(s: Sock): Sock
  {
    s.(remoteEnded := true, destroyed := true, pending := [])
  }

  /** The WebSocket closed (or the connection was replaced or revoked): every stream fails, none can start. */
  function DropApp(app: App): App
  {
    app.(open := false, live := false, streams := map[],
         socks := seq(|app.socks|, h requires 0 <= h < |app.socks| =>
           var s := app.socks[h]; if s.id in app.streams && app.streams[s.id] == h then Failed(s) else s))
  }

  // ── The agent's end ────────────────────────────────────────────────────────

  /** A TCP connection to a local port. `delivered`, `produced` and `sent` record its history. */
  datatype Local = Local(
    id: StreamId, port: nat, connected: bool, done: bool, closed: bool,
    delivered: seq<byte>, produced: seq<byte>, sent: seq<byte>)

  datatype Agent = Agent(open: bool, allowed: set<nat>, maxStreams: nat, streams: map<StreamId, nat>, locals: seq<Local>)

  /** `inUse` marks the answer to an OPEN whose id the agent already has. */
  datatype AgentOut = AgentOut(agent: Agent, frames: seq<Frame>, violation: bool, inUse: bool)

  function Reply(agent: Agent, frames: seq<Frame>): seq<Frame>
  {
    if agent.open then frames else []
  }

  function PutLocal(agent: Agent, k: nat, l: Local): Agent
    requires k < |agent.locals|
  {
    agent.(locals := agent.locals[k := l])
  }

  /** `openStream`. */
  function OpenStream(agent: Agent, id: StreamId, port: nat, why: seq<byte>): AgentOut
  {
    if id in agent.streams then AgentOut(agent, Reply(agent, [Error(id, why)]), false, true)
    else if port !in agent.allowed || |agent.streams| >= agent.maxStreams
    then AgentOut(agent, Reply(agent, [Error(id, why)]), false, false)
    else
      AgentOut(
        agent.(streams := agent.streams[id := |agent.locals|],
               locals := agent.locals + [Local(id, port, false, false, false, [], [], [])]),
        [], false, false)
  }

  ghost predicate LocalsValid(agent: Agent)
  {
    forall id :: id in agent.streams ==> agent.streams[id] < |agent.locals|
  }

  /** `onFrame`; `full` is a local socket that stopped reading, `why` the body of an ERROR reply. */
  function OnFrame(agent: Agent, f: Frame, full: bool, why: seq<byte>): AgentOut
    requires LocalsValid(agent)
  {
    match f
    case Open(id, port) => OpenStream(agent, id, port, why)
    case Data(id, data) =>
      if id !in agent.streams || agent.locals[agent.streams[id]].done then AgentOut(agent, [], false, false)
      else
        var k := agent.streams[id];
        var l := agent.locals[k];
        AgentOut(
          PutLocal(agent, k, l.(delivered := l.delivered + data, done := full)),
          if full then Reply(agent, [Error(id, why)]) else [], false, false)
    case Opened(_) => AgentOut(agent.(open := false), [], true, false)
    case _ =>
      if f.id !in agent.streams then AgentOut(agent, [], false, false)
      else
        var k := agent.streams[f.id];
        AgentOut(
          PutLocal(agent, k, agent.locals[k].(done := true)).(streams := agent.streams - {f.id}),
          [], false, false)
  }

  /** The local `connect` event: reported even when the app has closed the stream meanwhile. */
  function Connected(agent: Agent, k: nat): AgentOut
    requires k < |agent.locals|
  {
    var l := agent.locals[k];
    AgentOut(PutLocal(agent, k, l.(connected := true)), Reply(agent, [Opened(l.id)]), false, false)
  }

  function LocalData(agent: Agent, k: nat, chunk: seq<byte>): AgentOut
    requires k < |agent.locals|
  {
    var l := agent.locals[k];
    var more := l.(produced := l.produced + chunk);
    if l.done then AgentOut(PutLocal(agent, k, more), [], false, false)
    else
      AgentOut(
        PutLocal(agent, k, more.(sent := if agent.open then l.sent + chunk else l.sent)),
        Reply(agent, DataFrames(l.id, chunk)), false, false)
  }

  function LocalError(agent: Agent, k: nat, why: seq<byte>): AgentOut
    requires k < |agent.locals|
  {
    var l := agent.locals[k];
    if l.done then AgentOut(agent, [], false, false)
    else AgentOut(PutLocal(agent, k, l.(done := true)), Reply(agent, [Error(l.id, why)]), false, false)
  }

  function LocalClosed(agent: Agent, k: nat): AgentOut
    requires k < |agent.locals|
  {
    var l := agent.locals[k];
    var rest := if l.id in agent.streams && agent.streams[l.id] == k then agent.streams - {l.id} else agent.streams;
    AgentOut(
      PutLocal(agent, k, l.(closed := true, done := true)).(streams := rest),
      if l.done then [] else Reply(agent, [Close(l.id)]), false, false)
  }

  /** The WebSocket closed: `destroyAll`. */
  function DropAgent(agent: Agent): Agent
  {
    agent.(open := false, streams := map[],
           locals := seq(|agent.locals|, k requires 0 <= k < |agent.locals| =>
             var l := agent.locals[k];
             if l.id in agent.streams && agent.streams[l.id] == k then l.(done := true) else l))
  }

  // ── The two ends and the WebSocket between them ────────────────────────────

  /** `cut`: the network lost the connection, so nothing more is delivered either way. */
  datatype World = World(
    app: App, agent: Agent, toAgent: seq<Frame>, toApp: seq<Frame>, cut: bool, violation: bool, inUse: bool)

  datatype Event =
    | AppStart(port: nat)
    | AppWrite(h: nat, chunk: seq<byte>)
    | AppFinish(h: nat)
    | AppDestroy(h: nat)
    | AppClosing
    | AppDrop
    | AppReads(full: bool)
    | AgentReads(full: bool, why: seq<byte>)
    | AgentConnects(k: nat)
    | AgentHasData(k: nat, chunk: seq<byte>)
    | AgentFails(k: nat, why: seq<byte>)
    | AgentCloses(k: nat)
    | AgentClosing
    | AgentDrop
    | Cut

  /**
   * When an event can happen. Node calls `_write` and `_final` only on a socket neither finished nor
   * destroyed, `_final` only after every write completed, and a socket's data and end come after its
   * `connect` and before its `close`.
   */
  ghost predicate Enabled(w: World, e: Event)
  {
    match e
    case AppStart(port) => ValidPort(port) && |w.app.streams| < ID_SPACE
    case AppWrite(h, _) => h < |w.app.socks| && !w.app.socks[h].destroyed && !w.app.socks[h].finished
    case AppFinish(h) =>
      h < |w.app.socks| && !w.app.socks[h].destroyed && !w.app.socks[h].finished && w.app.socks[h].pending == []
    case AppDestroy(h) => h < |w.app.socks| && !w.app.socks[h].destroyed
    case AppReads(_) => w.toApp != [] && !w.cut && StreamsValid(w.app)
    case AgentReads(_, why) => w.toAgent != [] && !w.cut && LocalsValid(w.agent) && |why| <= MAX_DATA_PAYLOAD
    case AgentConnects(k) => k < |w.agent.locals| && !w.agent.locals[k].connected && !w.agent.locals[k].closed
    case AgentHasData(k, _) => k < |w.agent.locals| && w.agent.locals[k].connected && !w.agent.locals[k].closed
    case AgentFails(k, why) => k < |w.agent.locals| && !w.agent.locals[k].closed && |why| <= MAX_DATA_PAYLOAD
    case AgentCloses(k) => k < |w.agent.locals| && !w.agent.locals[k].closed
    case _ => true
  }

  function FromApp(w: World, o: AppOut): World
  {
    w.(app := o.app, toAgent := w.toAgent + o.frames, violation := w.violation || o.violation)
  }

  function FromAgent(w: World, o: AgentOut): World
  {
    w.(agent := o.agent, toApp := w.toApp + o.frames, violation := w.violation || o.violation, inUse := w.inUse || o.inUse)
  }

  ghost function Next(w: World, e: Event): World
    requires Enabled(w, e)
  {
    match e
    case AppStart(port) => FromApp(w, StartStream(w.app, port))
    case AppWrite(h, chunk) => FromApp(w, Write(w.app, h, chunk))
    case AppFinish(h) => FromApp(w, Finish(w.app, h))
    case AppDestroy(h) => FromApp(w, Destroy(w.app, h))
    case AppClosing => w.(app := w.app.(open := false))
    case AppDrop => w.(app := DropApp(w.app))
    case AppReads(full) => FromApp(w.(toApp := w.toApp[1..]), OnMessage(w.app, w.toApp[0], full))
    case AgentReads(full, why) => FromAgent(w.(toAgent := w.toAgent[1..]), OnFrame(w.agent, w.toAgent[0], full, why))
    case AgentConnects(k) => FromAgent(w, Connected(w.agent, k))
    case AgentHasData(k, chunk) => FromAgent(w, LocalData(w.agent, k, chunk))
    case AgentFails(k, why) => FromAgent(w, LocalError(w.agent, k, why))
    case AgentCloses(k) => FromAgent(w, LocalClosed(w.agent, k))
    case AgentClosing => w.(agent := w.agent.(open := false))
    case AgentDrop => w.(agent := DropAgent(w.agent))
    case Cut => w.(cut := true)
  }

  ghost predicate Initial(w: World)
  {
    && w.app == App(true, true, 1, map[], [])
    && w.agent.open && w.agent.streams == map[] && w.agent.locals == []
    && w.toAgent == [] && w.toApp == [] && !w.cut && !w.violation && !w.inUse
  }

  /** `run` takes `w` to `z` one enabled event at a time. */
  ghost predicate Reaches(w: World, run: seq<Event>, z: World)
    decreases |run|
  {
    if run == [] then z == w else Enabled(w, run[0]) && Reaches(Next(w, run[0]), run[1..], z)
  }
}
