/** Every event of the tunnel keeps the invariant; so every run does. */
module TunnelRuns {
  import opened Bytes
  import opened TunnelFrames
  import opened Tunnel
  import opened TunnelSafety

  // ── Events of the app ──────────────────────────────────────────────────────

  /** While ids last, the next one is free at once. */
  lemma NextIsFree(app: App)
    requires AppOk(app) && |app.socks| < ID_SPACE
    ensures app.next !in app.streams
    ensures FirstFree(app.streams.Keys, app.next, 0) == app.next
    ensures NextId(app.next) == IdPlus(1, |app.socks| + 1)
  {
    var n := |app.socks|;
    NextIsPlus(1, n);
    NothingPlus(app.next);
    HandleIds(n);
    if app.next in app.streams {
      HandleIds(app.streams[app.next]);
    }
    hide IdPlus, HandleOf, NextId;
  }

  lemma NothingPlus(id: StreamId)
    ensures IdPlus(id, 0) == id
  {
  }

  lemma NewApp(app: App, port: nat)
    requires AppOk(app) && |app.socks| < ID_SPACE && |app.streams| < ID_SPACE
    ensures AppOk(StartStream(app, port).app)
  {
    NextIsFree(app);
    var n := |app.socks|;
    forall h | 0 <= h < n ensures app.socks[h].id != app.next {
      HandleIds(h);
      HandleIds(n);
    }
    hide IdPlus, HandleOf, NextId, FirstFree;
  }

  lemma StartBase(w: World, port: nat)
    requires Base(w) && Enabled(w, AppStart(port)) && |w.app.socks| < ID_SPACE
    ensures Base(Next(w, AppStart(port)))
  {
    NewApp(w.app, port);
    NextIsFree(w.app);
    HandleIds(|w.app.socks|);
    assert w.app.next == IdPlus(1, |w.app.socks|);
    hide AppOk, IdPlus, HandleOf, NextId, FirstFree;
  }

  /** The new socket has no frames and no local connection yet. */
  lemma StartHandle(w: World, z: World, n: nat, id: StreamId, port: nat, fs: seq<Frame>)
    requires n < |z.app.socks| && z.app.socks[n] == Sock(id, port, true, false, false, false, [], [], [], [])
    requires z.agent == w.agent && z.toApp == w.toApp && z.toAgent == w.toAgent + fs
    requires fs == [] || fs == [Open(id, port)]
    requires forall i :: 0 <= i < |w.toAgent| ==> w.toAgent[i].id != id
    requires forall i :: 0 <= i < |w.toApp| ==> w.toApp[i].id != id
    requires forall k :: 0 <= k < |w.agent.locals| ==> w.agent.locals[k].id != id
    ensures HandleOk(z, n)
  {
    ProjNone(w.toAgent, id);
    ProjNone(w.toApp, id);
    QueueOnlyAt(w.toAgent, fs, id);
    assert Proj(z.toAgent, id) == fs;
  }

  lemma NewId(w: World)
    requires Inv(w) && |w.app.socks| < ID_SPACE
    ensures forall i :: 0 <= i < |w.toAgent| ==> w.toAgent[i].id != w.app.next
    ensures forall i :: 0 <= i < |w.toApp| ==> w.toApp[i].id != w.app.next
    ensures forall k :: 0 <= k < |w.agent.locals| ==> w.agent.locals[k].id != w.app.next
  {
    HandleIds(|w.app.socks|);
  }

  lemma StartOnlyAt(w: World, z: World, id: StreamId, port: nat, fs: seq<Frame>)
    requires fs == [] || fs == [Open(id, port)]
    requires |z.app.socks| == |w.app.socks| + 1
    requires forall h :: 0 <= h < |w.app.socks| ==> z.app.socks[h] == w.app.socks[h]
    requires z.app.socks[|w.app.socks|].id == id && z.app.open == w.app.open
    requires z.agent == w.agent && z.toApp == w.toApp && z.toAgent == w.toAgent + fs
    ensures OnlyAt(w, z, id)
  {
    QueueOnlyAt(w.toAgent, fs, id);
  }

  lemma NewHandle(app: App)
    requires AppOk(app) && |app.socks| > 0
    ensures forall h :: 0 <= h < |app.socks| && app.socks[h].id == app.socks[|app.socks| - 1].id ==> h == |app.socks| - 1
  {
    forall h | 0 <= h < |app.socks| && app.socks[h].id == app.socks[|app.socks| - 1].id ensures h == |app.socks| - 1 {
      HandleIds(h);
      HandleIds(|app.socks| - 1);
    }
  }

  lemma StartKeeps(w: World, port: nat)
    requires Inv(w) && Enabled(w, AppStart(port)) && |w.app.socks| < ID_SPACE
    ensures Inv(Next(w, AppStart(port)))
  {
    var z := Next(w, AppStart(port));
    StartBase(w, port);
    NextIsFree(w.app);
    var n := |w.app.socks|;
    if |z.app.socks| == n {
      assert z == w by { assert w.toAgent + [] == w.toAgent; }
    } else {
      var id := w.app.next;
      var fs := Send(w.app, [Open(id, port)]);
      NewId(w);
      StartHandle(w, z, n, id, port, fs);
      StartOnlyAt(w, z, id, port, fs);
      NewHandle(z.app);
      OtherStreamsKeep(w, z, id);
    }
  }

  function Popped(q: seq<Frame>, pop: bool): seq<Frame>
    requires pop ==> q != []
  {
    if pop then q[1..] else q
  }

  /** `z` is `w` after a socket that had not ended became `t`, sent `fs` and perhaps consumed a frame. */
  ghost predicate MovedAt(w: World, z: World, h: nat, t: Sock, fs: seq<Frame>, pop: bool)
  {
    && h < |w.app.socks|
    && (pop ==> w.toApp != [] && w.toApp[0].id == w.app.socks[h].id)
    && var s := w.app.socks[h];
    && t.id == s.id && t.port == s.port && t.remoteEnded == s.remoteEnded
    && (forall i :: 0 <= i < |fs| ==> fs[i].Data? && fs[i].id == s.id && |fs[i].data| <= MAX_DATA_PAYLOAD)
    && z == w.(app := w.app.(socks := w.app.socks[h := t]), toAgent := w.toAgent + fs, toApp := Popped(w.toApp, pop))
  }

  lemma MovedBase(w: World, z: World, h: nat, t: Sock, fs: seq<Frame>, pop: bool)
    requires Inv(w) && MovedAt(w, z, h, t, fs, pop)
    ensures Base(z)
  {
    HandleIds(h);
  }

  lemma MovedOnlyAt(w: World, z: World, h: nat, t: Sock, fs: seq<Frame>, pop: bool)
    requires Inv(w) && MovedAt(w, z, h, t, fs, pop)
    ensures OnlyAt(w, z, t.id)
    ensures Proj(z.toAgent, t.id) == Proj(w.toAgent, t.id) + fs
    ensures Proj(z.toApp, t.id) == Popped(Proj(w.toApp, t.id), pop)
    ensures forall g :: 0 <= g < |z.app.socks| && z.app.socks[g].id == t.id ==> g == h
  {
    QueueOnlyAt(w.toAgent, fs, t.id);
    if pop {
    }
    HandleIds(h);
    forall g | 0 <= g < |w.app.socks| && g != h ensures w.app.socks[g].id != t.id {
      HandleIds(g);
    }
  }

  /** How a socket relates to the agent's local connections, given the frames of its stream. */
  ghost predicate Related(t: Sock, agent: Agent, qa: seq<Frame>, qb: seq<Frame>)
  {
    && ((forall k :: 0 <= k < |agent.locals| ==> agent.locals[k].id != t.id) ==> Unlinked(t, qa, qb))
    && (forall k :: 0 <= k < |agent.locals| && agent.locals[k].id == t.id ==>
          Linked(t, agent.locals[k], agent.open, qa, qb))
  }

  lemma RelatedBefore(w: World, h: nat)
    requires Inv(w) && h < |w.app.socks|
    ensures var s := w.app.socks[h];
            Related(s, w.agent, Proj(w.toAgent, s.id), Proj(w.toApp, s.id)) && SockOk(w.app.open, s)
  {
    assert HandleOk(w, h);
  }

  /** Only the socket's own relation to the agent is left to show. */
  lemma MovedKeeps(w: World, z: World, h: nat, t: Sock, fs: seq<Frame>, pop: bool)
    requires Inv(w) && MovedAt(w, z, h, t, fs, pop) && SockOk(w.app.open, t)
    requires pop ==> Proj(w.toApp, t.id) != []
    requires Related(t, w.agent, Proj(w.toAgent, t.id) + fs, Popped(Proj(w.toApp, t.id), pop))
    ensures Inv(z)
  {
    MovedBase(w, z, h, t, fs, pop);
    MovedOnlyAt(w, z, h, t, fs, pop);
    assert HandleOk(w, h);
    assert HandleOk(z, h);
    OtherStreamsKeep(w, z, t.id);
  }

  lemma RelatedSends(s: Sock, t: Sock, agent: Agent, qa: seq<Frame>, qb: seq<Frame>, fs: seq<Frame>)
    requires Related(s, agent, qa, qb)
    requires t.id == s.id && t.connecting == s.connecting && t.remoteEnded == s.remoteEnded && t.received == s.received
    requires t.sent == s.sent + DataOf(fs) && Opens(fs) == 0 && (s.connecting ==> fs == [])
    ensures Related(t, agent, qa + fs, qb)
  {
    if forall k :: 0 <= k < |agent.locals| ==> agent.locals[k].id != s.id {
      assert qa + fs == qa;
    }
    forall k | 0 <= k < |agent.locals| && agent.locals[k].id == s.id
      ensures Linked(t, agent.locals[k], agent.open, qa + fs, qb)
    {
      LinkedSends(s, t, agent.locals[k], agent.open, qa, qb, fs);
    }
  }

  lemma WriteShape(w: World, h: nat, chunk: seq<byte>) returns (t: Sock, fs: seq<Frame>)
    requires Enabled(w, AppWrite(h, chunk)) && SockOk(w.app.open, w.app.socks[h])
    ensures MovedAt(w, Next(w, AppWrite(h, chunk)), h, t, fs, false) && SockOk(w.app.open, t)
    ensures var s := w.app.socks[h];
            && t.connecting == s.connecting && t.received == s.received
            && t.sent == s.sent + DataOf(fs) && Opens(fs) == 0 && (s.connecting ==> fs == [])
  {
    hide DataFrames;
    var s := w.app.socks[h];
    DataFramesCarry(s.id, chunk);
    PendingAppend(s.id, s.pending, chunk);
    t := Write(w.app, h, chunk).app.socks[h];
    fs := Write(w.app, h, chunk).frames;
  }

  lemma WriteKeeps(w: World, h: nat, chunk: seq<byte>)
    requires Inv(w) && Enabled(w, AppWrite(h, chunk))
    ensures Inv(Next(w, AppWrite(h, chunk)))
  {
    var s := w.app.socks[h];
    RelatedBefore(w, h);
    var t, fs := WriteShape(w, h, chunk);
    RelatedSends(s, t, w.agent, Proj(w.toAgent, s.id), Proj(w.toApp, s.id), fs);
    MovedKeeps(w, Next(w, AppWrite(h, chunk)), h, t, fs, false);
  }

  /** `z` is `w` with socket `h` ended as `t`, `fs` sent, and perhaps the frame that ended it consumed. */
  ghost predicate EndedAt(w: World, z: World, h: nat, t: Sock, fs: seq<Frame>, pop: bool)
  {
    && h < |w.app.socks|
    && (pop ==> w.toApp != [] && w.toApp[0].id == w.app.socks[h].id)
    && var s := w.app.socks[h];
    && t.remoteEnded && t.id == s.id && t.port == s.port && t.connecting == s.connecting && t.received == s.received
    && t.sent == s.sent && SockOk(w.app.open, t)
    && (fs == [] || fs == [Close(s.id)])
    && z == w.(app := w.app.(socks := w.app.socks[h := t],
                             streams := if s.remoteEnded then w.app.streams else w.app.streams - {s.id}),
               toAgent := w.toAgent + fs, toApp := Popped(w.toApp, pop))
  }

  lemma EndedBase(w: World, z: World, h: nat, t: Sock, fs: seq<Frame>, pop: bool)
    requires Inv(w) && EndedAt(w, z, h, t, fs, pop)
    ensures Base(z)
  {
    var s := w.app.socks[h];
    HandleIds(h);
    forall g | 0 <= g < |w.app.socks| && g != h ensures w.app.socks[g].id != s.id {
      HandleIds(g);
    }
    assert |z.app.streams| <= MAX_STREAMS_PER_AGENT by {
      if !s.remoteEnded {
        assert z.app.streams.Keys == w.app.streams.Keys - {s.id};
        assert |z.app.streams| == |z.app.streams.Keys|;
        assert |w.app.streams| == |w.app.streams.Keys|;
      }
    }
    assert forall f :: f in fs ==> ToAgentFrame(f) && HandleOf(f.id) < |w.app.socks|;
  }

  lemma EndedOnlyAt(w: World, z: World, h: nat, t: Sock, fs: seq<Frame>, pop: bool)
    requires Inv(w) && EndedAt(w, z, h, t, fs, pop)
    ensures OnlyAt(w, z, t.id)
    ensures Proj(z.toAgent, t.id) == Proj(w.toAgent, t.id) + fs
    ensures Proj(z.toApp, t.id) == Popped(Proj(w.toApp, t.id), pop)
    ensures forall g :: 0 <= g < |z.app.socks| && z.app.socks[g].id == t.id ==> g == h
  {
    QueueOnlyAt(w.toAgent, fs, t.id);
    if pop {
    }
    HandleIds(h);
    forall g | 0 <= g < |w.app.socks| && g != h ensures w.app.socks[g].id != t.id {
      HandleIds(g);
    }
  }

  lemma LinkedEndedAt(s: Sock, t: Sock, l: Local, agentOpen: bool, qa: seq<Frame>, qb: seq<Frame>, fs: seq<Frame>, pop: bool)
    requires Linked(s, l, agentOpen, qa, qb)
    requires t.remoteEnded && t.received == s.received && t.sent == s.sent
    requires fs == [] || fs == [Close(s.id)]
    requires pop ==> qb != []
    requires forall i :: 0 <= i < |qb| ==> !qb[i].Open?
    ensures Linked(t, l, agentOpen, qa + fs, Popped(qb, pop))
  {
    LinkedEnds(s, t, l, agentOpen, qa, qb, fs);
    GoneStaysGone(Popped(qb, pop));
  }

  lemma UnlinkedEndedAt(s: Sock, t: Sock, qa: seq<Frame>, qb: seq<Frame>, fs: seq<Frame>, pop: bool)
    requires Unlinked(s, qa, qb)
    requires t.connecting == s.connecting && t.received == s.received && t.sent == s.sent
    requires fs == [] || fs == [Close(s.id)]
    requires pop ==> qb != []
    ensures Unlinked(t, qa + fs, Popped(qb, pop))
  {
    UnlinkedEnds(s, t, qa, qb, fs);
  }

  lemma EndedHandle(w: World, z: World, h: nat, t: Sock, fs: seq<Frame>, pop: bool)
    requires EndedAt(w, z, h, t, fs, pop) && HandleOk(w, h)
    requires var qa, qb := Proj(w.toAgent, t.id), Proj(w.toApp, t.id);
             && Proj(z.toAgent, t.id) == qa + fs && Proj(z.toApp, t.id) == Popped(qb, pop)
             && (pop ==> qb != []) && forall i :: 0 <= i < |qb| ==> !qb[i].Open?
    ensures HandleOk(z, h)
  {
    hide Linked, Unlinked, Proj;
    var s := w.app.socks[h];
    var qa, qb := Proj(w.toAgent, s.id), Proj(w.toApp, s.id);
    if forall k :: 0 <= k < |w.agent.locals| ==> w.agent.locals[k].id != s.id {
      UnlinkedEndedAt(s, t, qa, qb, fs, pop);
    }
    forall k | 0 <= k < |w.agent.locals| && w.agent.locals[k].id == s.id
      ensures Linked(t, w.agent.locals[k], w.agent.open, Proj(z.toAgent, s.id), Proj(z.toApp, s.id))
    {
      LinkedEndedAt(s, t, w.agent.locals[k], w.agent.open, qa, qb, fs, pop);
    }
  }

  lemma EndKeeps(w: World, z: World, h: nat, t: Sock, fs: seq<Frame>, pop: bool)
    requires Inv(w) && EndedAt(w, z, h, t, fs, pop)
    ensures Inv(z)
  {
    EndedBase(w, z, h, t, fs, pop);
    EndedOnlyAt(w, z, h, t, fs, pop);
    NoOpensForApp(w);
    ProjMembers(w.toApp, t.id);
    assert pop ==> Proj(w.toApp, t.id) != [];
    hide HandleOk, Base, OnlyAt, Proj;
    assert HandleOk(w, h);
    EndedHandle(w, z, h, t, fs, pop);
    OtherStreamsKeep(w, z, t.id);
  }

  lemma FinishKeeps(w: World, h: nat)
    requires Inv(w) && Enabled(w, AppFinish(h))
    ensures Inv(Next(w, AppFinish(h)))
  {
    var z := Next(w, AppFinish(h));
    var s := w.app.socks[h];
    assert HandleOk(w, h);
    EndKeeps(w, z, h, z.app.socks[h], Finish(w.app, h).frames, false);
  }

  lemma DestroyKeeps(w: World, h: nat)
    requires Inv(w) && Enabled(w, AppDestroy(h))
    ensures Inv(Next(w, AppDestroy(h)))
  {
    var z := Next(w, AppDestroy(h));
    assert HandleOk(w, h);
    EndKeeps(w, z, h, z.app.socks[h], Destroy(w.app, h).frames, false);
  }

  lemma AppClosingKeeps(w: World)
    requires Inv(w)
    ensures Inv(Next(w, AppClosing))
  {
    var z := Next(w, AppClosing);
    forall h | 0 <= h < |z.app.socks| ensures HandleOk(z, h) {
      assert HandleOk(w, h);
    }
  }

  lemma DropBase(w: World)
    requires Inv(w)
    ensures Base(Next(w, AppDrop))
  {
    forall h | 0 <= h < |w.app.socks| ensures DropApp(w.app).socks[h].remoteEnded {
    }
  }

  lemma DropHandle(w: World, h: nat)
    requires h < |w.app.socks| && HandleOk(w, h) && |Next(w, AppDrop).app.socks| == |w.app.socks|
    requires forall i :: 0 <= i < |w.toApp| ==> !w.toApp[i].Open?
    requires !w.app.socks[h].remoteEnded ==>
      w.app.socks[h].id in w.app.streams && w.app.streams[w.app.socks[h].id] == h
    ensures HandleOk(Next(w, AppDrop), h)
  {
    hide Linked, Proj;
    var z := Next(w, AppDrop);
    var s, t := w.app.socks[h], z.app.socks[h];
    var qa, qb := Proj(w.toAgent, s.id), Proj(w.toApp, s.id);
    ProjMembers(w.toApp, s.id);
    assert t.remoteEnded;
    forall k | 0 <= k < |w.agent.locals| && w.agent.locals[k].id == s.id
      ensures Linked(t, w.agent.locals[k], w.agent.open, qa, qb)
    {
      LinkedEndedAt(s, t, w.agent.locals[k], w.agent.open, qa, qb, [], false);
      assert qa + [] == qa;
    }
  }

  lemma DropKeeps(w: World)
    requires Inv(w)
    ensures Inv(Next(w, AppDrop))
  {
    DropBase(w);
    hide HandleOk, Base;
    forall h | 0 <= h < |w.app.socks| ensures HandleOk(Next(w, AppDrop), h) {
      assert HandleOk(w, h);
      StillLinked(w, h);
      DropHandle(w, h);
    }
  }

  lemma StillLinked(w: World, h: nat)
    requires Base(w) && h < |w.app.socks|
    ensures forall i :: 0 <= i < |w.toApp| ==> !w.toApp[i].Open?
    ensures !w.app.socks[h].remoteEnded ==>
      w.app.socks[h].id in w.app.streams && w.app.streams[w.app.socks[h].id] == h
  {
  }

  // ── Messages the app reads ─────────────────────────────────────────────────

  /** The socket a frame from the agent is about. */
  lemma SockOf(w: World, f: Frame) returns (h: nat)
    requires Inv(w) && f in w.toApp
    ensures h < |w.app.socks| && w.app.socks[h].id == f.id
    ensures f.id in w.app.streams ==> w.app.streams[f.id] == h && !w.app.socks[h].remoteEnded
    ensures f.id !in w.app.streams ==> w.app.socks[h].remoteEnded
  {
    assert HandleOf(f.id) < |w.app.socks|;
    h := SockOfId(w.app, f.id);
    hide HandleOk, AgentOk, QueuesOk, IdPlus, HandleOf;
  }

  /** What the app does with a frame that ends a stream, or that comes after its end. */
  lemma EndingShape(w: World, full: bool, h: nat)
    requires Enabled(w, AppReads(full)) && h < |w.app.socks| && w.app.socks[h].id == w.toApp[0].id
    requires SockOk(w.app.open, w.app.socks[h]) && !w.toApp[0].Open?
    requires w.toApp[0].id in w.app.streams ==> w.app.streams[w.toApp[0].id] == h && !w.app.socks[h].remoteEnded
    requires w.toApp[0].id !in w.app.streams ==> w.app.socks[h].remoteEnded
    requires w.toApp[0].id !in w.app.streams || w.toApp[0].Close? || w.toApp[0].Error?
          || (w.toApp[0].Data? && full && !w.app.socks[h].connecting)
    ensures var z := Next(w, AppReads(full));
            EndedAt(w, z, h, z.app.socks[h], OnMessage(w.app, w.toApp[0], full).frames, true)
  {
  }

  lemma ReadsEnding(w: World, full: bool, h: nat)
    requires Inv(w) && Enabled(w, AppReads(full)) && h < |w.app.socks| && w.app.socks[h].id == w.toApp[0].id
    requires w.toApp[0].id in w.app.streams ==> w.app.streams[w.toApp[0].id] == h && !w.app.socks[h].remoteEnded
    requires w.toApp[0].id !in w.app.streams ==> w.app.socks[h].remoteEnded
    requires w.toApp[0].id !in w.app.streams || w.toApp[0].Close? || w.toApp[0].Error?
          || (w.toApp[0].Data? && full && !w.app.socks[h].connecting)
    ensures Inv(Next(w, AppReads(full)))
  {
    var z := Next(w, AppReads(full));
    assert HandleOk(w, h);
    assert ToAppFrame(w.toApp[0]);
    EndingShape(w, full, h);
    EndKeeps(w, z, h, z.app.socks[h], OnMessage(w.app, w.toApp[0], full).frames, true);
  }

  /** The first answer of a stream the app waits on is OPENED, and it has a local connection behind it. */
  lemma FirstAnswer(w: World, h: nat)
    requires Inv(w) && w.toApp != [] && h < |w.app.socks| && w.app.socks[h].id == w.toApp[0].id
    requires !w.app.socks[h].remoteEnded
    ensures w.toApp[0].Opened? ==> w.app.socks[h].connecting
    ensures w.toApp[0].Data? ==> !w.app.socks[h].connecting
    ensures w.toApp[0].Opened? || w.toApp[0].Data? ==>
              exists k :: 0 <= k < |w.agent.locals| && w.agent.locals[k].id == w.toApp[0].id
  {
    var f, s := w.toApp[0], w.app.socks[h];
    var qb := Proj(w.toApp, f.id);
    assert HandleOk(w, h);
    assert qb[0] == f;
    if forall k :: 0 <= k < |w.agent.locals| ==> w.agent.locals[k].id != s.id {
      assert Quiet(qb);
    } else {
      var k :| 0 <= k < |w.agent.locals| && w.agent.locals[k].id == s.id;
      if Step(PhaseOf(s), f) == Bad {
        BadStaysBad(qb[1..]);
      }
    }
  }

  lemma {:induction false} BadStaysBad(q: seq<Frame>)
    ensures After(Bad, q) == Bad
  {
    if q != [] {
      BadStaysBad(q[1..]);
    }
  }

  lemma ReadsData(w: World, h: nat)
    requires Inv(w) && Enabled(w, AppReads(false)) && h < |w.app.socks| && w.app.socks[h].id == w.toApp[0].id
    requires w.toApp[0].Data? && w.toApp[0].id in w.app.streams && w.app.streams[w.toApp[0].id] == h
    requires !w.app.socks[h].remoteEnded
    ensures Inv(Next(w, AppReads(false)))
  {
    hide Linked;
    var z := Next(w, AppReads(false));
    var f, s, t := w.toApp[0], w.app.socks[h], z.app.socks[h];
    var qa, qb := Proj(w.toAgent, s.id), Proj(w.toApp, s.id);
    FirstAnswer(w, h);
    assert HandleOk(w, h);
    assert qa + [] == qa;
    forall k | 0 <= k < |w.agent.locals| && w.agent.locals[k].id == s.id
      ensures Linked(t, w.agent.locals[k], w.agent.open, qa, qb[1..])
    {
      LinkedReads(s, t, w.agent.locals[k], w.agent.open, qa, qb);
    }
    MovedKeeps(w, z, h, t, [], true);
  }

  lemma LinkedReads(s: Sock, t: Sock, l: Local, agentOpen: bool, qa: seq<Frame>, qb: seq<Frame>)
    requires Linked(s, l, agentOpen, qa, qb) && qb != [] && qb[0].Data? && PhaseOf(s) == Flowing
    requires t == s.(received := s.received + qb[0].data)
    ensures Linked(t, l, agentOpen, qa, qb[1..])
  {
    assert s.received + (qb[0].data + DataOf(qb[1..])) == (s.received + qb[0].data) + DataOf(qb[1..]);
  }

  lemma LinkedOpens(s: Sock, u: Sock, l: Local, agentOpen: bool, qa: seq<Frame>, qb: seq<Frame>)
    requires Linked(s, l, agentOpen, qa, qb) && qb != [] && qb[0].Opened? && PhaseOf(s) == Waiting
    requires u == s.(connecting := false)
    ensures Linked(u, l, agentOpen, qa, qb[1..])
  {
    assert DataOf(qb) == DataOf(qb[1..]);
  }

  lemma RelatedOpens(s: Sock, t: Sock, agent: Agent, qa: seq<Frame>, qb: seq<Frame>, fs: seq<Frame>)
    requires Related(s, agent, qa, qb) && qb != [] && qb[0].Opened? && PhaseOf(s) == Waiting
    requires exists k :: 0 <= k < |agent.locals| && agent.locals[k].id == s.id
    requires t.id == s.id && !t.connecting && t.remoteEnded == s.remoteEnded && t.received == s.received
    requires t.sent == s.sent + DataOf(fs) && Opens(fs) == 0
    ensures Related(t, agent, qa + fs, qb[1..])
  {
    var u := s.(connecting := false);
    forall k | 0 <= k < |agent.locals| && agent.locals[k].id == s.id
      ensures Linked(u, agent.locals[k], agent.open, qa, qb[1..])
    {
      LinkedOpens(s, u, agent.locals[k], agent.open, qa, qb);
    }
    RelatedSends(u, t, agent, qa, qb[1..], fs);
  }

  /** The step `opened` takes, with what was pending sent. */
  lemma OpenedShape(w: World, full: bool, h: nat) returns (t: Sock, fs: seq<Frame>)
    requires Inv(w) && Enabled(w, AppReads(full)) && h < |w.app.socks| && w.app.socks[h].id == w.toApp[0].id
    requires w.toApp[0].Opened? && w.toApp[0].id in w.app.streams && w.app.streams[w.toApp[0].id] == h
    requires !w.app.socks[h].remoteEnded && w.app.socks[h].connecting
    ensures MovedAt(w, Next(w, AppReads(full)), h, t, fs, true) && SockOk(w.app.open, t)
    ensures var s := w.app.socks[h];
            !t.connecting && t.received == s.received && t.sent == s.sent + DataOf(fs) && Opens(fs) == 0
  {
    hide Inv, Related, Proj, DataOf, Opens, PendingFrames, Concat;
    var s := w.app.socks[h];
    RelatedBefore(w, h);
    PendingFramesCarry(s.id, s.pending);
    NoFrames();
    t := OpenedBy(w.app, h).app.socks[h];
    fs := OpenedBy(w.app, h).frames;
    assert [] + Concat(s.pending) == Concat(s.pending);
  }

  lemma NoFrames()
    ensures DataOf([]) == [] && Opens([]) == 0 && Concat([]) == []
  {
  }

  lemma ReadsOpened(w: World, full: bool, h: nat)
    requires Inv(w) && Enabled(w, AppReads(full)) && h < |w.app.socks| && w.app.socks[h].id == w.toApp[0].id
    requires w.toApp[0].Opened? && w.toApp[0].id in w.app.streams && w.app.streams[w.toApp[0].id] == h
    requires !w.app.socks[h].remoteEnded
    ensures Inv(Next(w, AppReads(full)))
  {
    var s := w.app.socks[h];
    FirstAnswer(w, h);
    RelatedBefore(w, h);
    var t, fs := OpenedShape(w, full, h);
    RelatedOpens(s, t, w.agent, Proj(w.toAgent, s.id), Proj(w.toApp, s.id), fs);
    MovedKeeps(w, Next(w, AppReads(full)), h, t, fs, true);
  }

  lemma ReadsKeep(w: World, full: bool)
    requires Inv(w) && Enabled(w, AppReads(full))
    ensures Inv(Next(w, AppReads(full)))
  {
    var f := w.toApp[0];
    var h := SockOf(w, f);
    assert ToAppFrame(f);
    if f.id !in w.app.streams || f.Close? || f.Error? {
      ReadsEnding(w, full, h);
    } else if f.Opened? {
      ReadsOpened(w, full, h);
    } else {
      FirstAnswer(w, h);
      if full {
        ReadsEnding(w, full, h);
      } else {
        ReadsData(w, h);
      }
    }
  }

  // ── Events of the agent ────────────────────────────────────────────────────

  /** `z` is `w` after the agent changed what concerns stream `id`, answered with `fs`, and perhaps consumed a frame. */
  ghost predicate AnsweredAt(w: World, z: World, id: StreamId, fs: seq<Frame>, pop: bool)
  {
    && HandleOf(id) < |w.app.socks|
    && (pop ==> w.toAgent != [] && w.toAgent[0].id == id)
    && (forall i :: 0 <= i < |fs| ==> fs[i].id == id && ToAppFrame(fs[i]))
    && z == w.(agent := z.agent, toApp := w.toApp + fs, toAgent := Popped(w.toAgent, pop))
    && z.agent.open == w.agent.open
    && |w.agent.locals| <= |z.agent.locals|
    && (forall k :: 0 <= k < |w.agent.locals| ==>
          z.agent.locals[k].id == w.agent.locals[k].id
          && (w.agent.locals[k].id != id ==> z.agent.locals[k] == w.agent.locals[k]))
    && (forall k :: |w.agent.locals| <= k < |z.agent.locals| ==> z.agent.locals[k].id == id)
  }

  /** One local connection was changed, or none. */
  lemma PutIsAnswered(w: World, z: World, k: nat, m: Local, fs: seq<Frame>, pop: bool)
    requires k < |w.agent.locals| && m.id == w.agent.locals[k].id && HandleOf(m.id) < |w.app.socks|
    requires pop ==> w.toAgent != [] && w.toAgent[0].id == m.id
    requires forall i :: 0 <= i < |fs| ==> fs[i].id == m.id && ToAppFrame(fs[i])
    requires z == w.(agent := z.agent, toApp := w.toApp + fs, toAgent := Popped(w.toAgent, pop))
    requires z.agent.open == w.agent.open && z.agent.locals == w.agent.locals[k := m]
    ensures AnsweredAt(w, z, m.id, fs, pop)
  {
  }

  lemma AnsweredOnlyAt(w: World, z: World, id: StreamId, fs: seq<Frame>, pop: bool)
    requires AnsweredAt(w, z, id, fs, pop)
    ensures OnlyAt(w, z, id)
    ensures Proj(z.toApp, id) == Proj(w.toApp, id) + fs
    ensures Proj(z.toAgent, id) == Popped(Proj(w.toAgent, id), pop)
  {
    QueueOnlyAt(w.toApp, fs, id);
    if pop {
    }
  }

  lemma SockOfId(app: App, id: StreamId) returns (h: nat)
    requires AppOk(app) && HandleOf(id) < |app.socks|
    ensures h < |app.socks| && app.socks[h].id == id
    ensures forall g :: 0 <= g < |app.socks| && app.socks[g].id == id ==> g == h
  {
    IdOfHandle(id);
    hide IdPlus, HandleOf;
    h := HandleOf(id);
    assert app.socks[h].id == IdPlus(1, h);
    forall g | 0 <= g < |app.socks| && app.socks[g].id == id ensures g == h {
      HandleIds(g);
    }
  }

  lemma AnsweredBase(w: World, z: World, id: StreamId, fs: seq<Frame>, pop: bool)
    requires Base(w) && AnsweredAt(w, z, id, fs, pop) && AgentOk(z.agent, |w.app.socks|)
    ensures Base(z)
  {
  }

  lemma AnsweredKeeps(w: World, z: World, id: StreamId, fs: seq<Frame>, pop: bool, h: nat)
    requires Inv(w) && AnsweredAt(w, z, id, fs, pop) && AgentOk(z.agent, |w.app.socks|)
    requires h < |w.app.socks| && w.app.socks[h].id == id
    requires pop ==> Proj(w.toAgent, id) != []
    requires Related(w.app.socks[h], z.agent, Popped(Proj(w.toAgent, id), pop), Proj(w.toApp, id) + fs)
    ensures Inv(z)
  {
    hide AgentOk, Proj, Linked;
    AnsweredOnlyAt(w, z, id, fs, pop);
    AnsweredBase(w, z, id, fs, pop);
    var g := SockOfId(w.app, id);
    assert HandleOk(w, h);
    assert HandleOk(z, h);
    OtherStreamsKeep(w, z, id);
  }

  /** The socket behind a local connection. */
  lemma SockOfLocal(w: World, k: nat) returns (h: nat)
    requires Inv(w) && k < |w.agent.locals|
    ensures h < |w.app.socks| && w.app.socks[h].id == w.agent.locals[k].id
    ensures var s := w.app.socks[h];
            Linked(s, w.agent.locals[k], w.agent.open, Proj(w.toAgent, s.id), Proj(w.toApp, s.id))
  {
    h := SockOfId(w.app, w.agent.locals[k].id);
    assert HandleOk(w, h);
  }

  lemma PutLocalOk(agent: Agent, count: nat, k: nat, m: Local)
    requires AgentOk(agent, count) && k < |agent.locals|
    requires LocalOk(agent.open, m) && m.id == agent.locals[k].id && (agent.locals[k].done ==> m.done)
    ensures AgentOk(PutLocal(agent, k, m), count)
  {
  }

  lemma DelistOk(agent: Agent, count: nat, id: StreamId)
    requires AgentOk(agent, count)
    requires id in agent.streams ==> agent.locals[agent.streams[id]].done
    ensures AgentOk(agent.(streams := agent.streams - {id}), count)
  {
  }

  /** One local connection changes and answers. */
  lemma LocalKeeps(w: World, z: World, k: nat, m: Local, fs: seq<Frame>)
    requires Inv(w) && k < |w.agent.locals|
    requires AnsweredAt(w, z, m.id, fs, false) && AgentOk(z.agent, |w.app.socks|)
    requires z.agent.locals == w.agent.locals[k := m]
    requires var l := w.agent.locals[k];
             && m.id == l.id && m.delivered == l.delivered && m.sent == l.sent + DataOf(fs) && (l.done ==> m.done)
    requires forall p :: After(p, fs) == AnswerPhase(p, fs)
    requires forall p :: w.agent.open && p != Bad && Allowed(w.agent.locals[k], p) ==> Allowed(m, AnswerPhase(p, fs)) && AnswerPhase(p, fs) != Bad
    requires !w.agent.open ==> fs == []
    ensures Inv(z)
  {
    hide AnswerPhase;
    var h := SockOfLocal(w, k);
    var s := w.app.socks[h];
    LinkedAnswers(s, w.agent.locals[k], m, w.agent.open, Proj(w.toAgent, s.id), Proj(w.toApp, s.id), fs);
    AnsweredKeeps(w, z, m.id, fs, false, h);
  }

  /** The phases an app can be in once it has read everything a local connection sent so far. */
  ghost predicate Allowed(l: Local, end: Phase)
  {
    end == Gone || (!l.done && end == if l.connected then Flowing else Waiting)
  }

  /** The phase after the answer to one event: a single frame, or data. */
  function AnswerPhase(p: Phase, fs: seq<Frame>): Phase
  {
    if fs == [] then p else Step(p, fs[0])
  }

  lemma ConnectShape(w: World, k: nat)
    requires Enabled(w, AgentConnects(k)) && HandleOf(w.agent.locals[k].id) < |w.app.socks|
    ensures var l, z := w.agent.locals[k], Next(w, AgentConnects(k));
            AnsweredAt(w, z, l.id, Reply(w.agent, [Opened(l.id)]), false) && z.agent == PutLocal(w.agent, k, l.(connected := true))
  {
    var l := w.agent.locals[k];
    hide AnsweredAt;
    PutIsAnswered(w, Next(w, AgentConnects(k)), k, l.(connected := true), Reply(w.agent, [Opened(l.id)]), false);
  }

  lemma LocalFits(w: World, k: nat)
    requires Inv(w) && k < |w.agent.locals|
    ensures AgentOk(w.agent, |w.app.socks|)
    ensures LocalOk(w.agent.open, w.agent.locals[k]) && HandleOf(w.agent.locals[k].id) < |w.app.socks|
  {
  }

  lemma ConnectKeeps(w: World, k: nat)
    requires Inv(w) && Enabled(w, AgentConnects(k))
    ensures Inv(Next(w, AgentConnects(k)))
  {
    hide AnsweredAt, Inv, AgentOk, Next;
    LocalFits(w, k);
    var l := w.agent.locals[k];
    var m := l.(connected := true);
    PutLocalOk(w.agent, |w.app.socks|, k, m);
    ConnectShape(w, k);
    LocalKeeps(w, Next(w, AgentConnects(k)), k, m, Reply(w.agent, [Opened(l.id)]));
  }

  lemma {:induction false} DataPhase(fs: seq<Frame>, p: Phase)
    requires forall i :: 0 <= i < |fs| ==> fs[i].Data?
    ensures After(p, fs) == AnswerPhase(p, fs)
  {
    if |fs| > 1 {
      DataPhase(fs[1..], Step(p, fs[0]));
    }
  }

  lemma LocalDataShape(w: World, k: nat, chunk: seq<byte>) returns (m: Local, fs: seq<Frame>)
    requires Enabled(w, AgentHasData(k, chunk)) && HandleOf(w.agent.locals[k].id) < |w.app.socks|
    requires LocalOk(w.agent.open, w.agent.locals[k])
    ensures var l, z := w.agent.locals[k], Next(w, AgentHasData(k, chunk));
            && AnsweredAt(w, z, l.id, fs, false) && z.agent == PutLocal(w.agent, k, m) && LocalOk(w.agent.open, m)
            && m.id == l.id && m.delivered == l.delivered && m.sent == l.sent + DataOf(fs)
            && m.done == l.done && m.connected == l.connected && m.port == l.port
            && (l.done || !w.agent.open ==> fs == [])
            && forall i :: 0 <= i < |fs| ==> fs[i].Data?
  {
    var l := w.agent.locals[k];
    m := LocalData(w.agent, k, chunk).agent.locals[k];
    fs := LocalData(w.agent, k, chunk).frames;
    DataFramesCarry(l.id, chunk);
  }

  lemma LocalDataKeeps(w: World, k: nat, chunk: seq<byte>)
    requires Inv(w) && Enabled(w, AgentHasData(k, chunk))
    ensures Inv(Next(w, AgentHasData(k, chunk)))
  {
    assert LocalOk(w.agent.open, w.agent.locals[k]);
    var m, fs := LocalDataShape(w, k, chunk);
    forall p ensures After(p, fs) == AnswerPhase(p, fs) {
      DataPhase(fs, p);
    }
    PutLocalOk(w.agent, |w.app.socks|, k, m);
    LocalKeeps(w, Next(w, AgentHasData(k, chunk)), k, m, fs);
  }

  lemma FailShape(w: World, k: nat, why: seq<byte>)
    requires Enabled(w, AgentFails(k, why)) && HandleOf(w.agent.locals[k].id) < |w.app.socks|
    ensures var l, z := w.agent.locals[k], Next(w, AgentFails(k, why));
            && AnsweredAt(w, z, l.id, LocalError(w.agent, k, why).frames, false)
            && z.agent == PutLocal(w.agent, k, l.(done := true))
  {
    var l := w.agent.locals[k];
    if l.done {
      assert w.agent.locals[k := l] == w.agent.locals;
    }
    hide AnsweredAt;
    PutIsAnswered(w, Next(w, AgentFails(k, why)), k, l.(done := true), LocalError(w.agent, k, why).frames, false);
  }

  lemma NoDataInError(fs: seq<Frame>)
    requires fs == [] || (fs[1..] == [] && !fs[0].Data?)
    ensures DataOf(fs) == []
  {
  }

  lemma FailKeeps(w: World, k: nat, why: seq<byte>)
    requires Inv(w) && Enabled(w, AgentFails(k, why))
    ensures Inv(Next(w, AgentFails(k, why)))
  {
    hide AnsweredAt, Inv, AgentOk, Next, DataOf;
    LocalFits(w, k);
    var l := w.agent.locals[k];
    PutLocalOk(w.agent, |w.app.socks|, k, l.(done := true));
    FailShape(w, k, why);
    NoFrames();
    NoDataInError(LocalError(w.agent, k, why).frames);
    LocalKeeps(w, Next(w, AgentFails(k, why)), k, l.(done := true), LocalError(w.agent, k, why).frames);
  }

  lemma ClosedOk(agent: Agent, count: nat, k: nat)
    requires AgentOk(agent, count) && k < |agent.locals|
    ensures AgentOk(LocalClosed(agent, k).agent, count)
  {
    var l := agent.locals[k];
    var m := l.(closed := true, done := true);
    PutLocalOk(agent, count, k, m);
    if l.id in agent.streams && agent.streams[l.id] == k {
      DelistOk(PutLocal(agent, k, m), count, l.id);
    }
  }

  lemma CloseEventShape(w: World, k: nat)
    requires Enabled(w, AgentCloses(k)) && HandleOf(w.agent.locals[k].id) < |w.app.socks|
    ensures AnsweredAt(w, Next(w, AgentCloses(k)), w.agent.locals[k].id, LocalClosed(w.agent, k).frames, false)
    ensures Next(w, AgentCloses(k)).agent == LocalClosed(w.agent, k).agent
  {
  }

  lemma CloseKeeps(w: World, k: nat)
    requires Inv(w) && Enabled(w, AgentCloses(k))
    ensures Inv(Next(w, AgentCloses(k)))
  {
    var l := w.agent.locals[k];
    ClosedOk(w.agent, |w.app.socks|, k);
    CloseEventShape(w, k);
    LocalKeeps(w, Next(w, AgentCloses(k)), k, l.(closed := true, done := true), LocalClosed(w.agent, k).frames);
  }

  lemma AgentClosingKeeps(w: World)
    requires Inv(w)
    ensures Inv(Next(w, AgentClosing))
  {
    var z := Next(w, AgentClosing);
    forall h | 0 <= h < |z.app.socks| ensures HandleOk(z, h) {
      assert HandleOk(w, h);
    }
  }

  lemma DropAgentHandle(w: World, h: nat)
    requires h < |w.app.socks| && HandleOk(w, h)
    ensures HandleOk(Next(w, AgentDrop), h)
  {
    var z := Next(w, AgentDrop);
    var s := w.app.socks[h];
    if forall k :: 0 <= k < |z.agent.locals| ==> z.agent.locals[k].id != s.id {
      forall k | 0 <= k < |w.agent.locals| ensures w.agent.locals[k].id != s.id {
        assert z.agent.locals[k].id == w.agent.locals[k].id;
      }
    }
  }

  lemma AgentDropBase(w: World)
    requires Base(w)
    ensures Base(Next(w, AgentDrop))
  {
    DroppedAgent(w.agent, |w.app.socks|);
    hide AgentOk, AppOk, HandleOf, DropAgent;
  }

  lemma DroppedAgent(agent: Agent, count: nat)
    requires AgentOk(agent, count)
    ensures AgentOk(DropAgent(agent), count)
  {
    hide HandleOf;
  }

  lemma AgentDropKeeps(w: World)
    requires Inv(w)
    ensures Inv(Next(w, AgentDrop))
  {
    hide HandleOk, Base;
    AgentDropBase(w);
    forall h | 0 <= h < |w.app.socks| ensures HandleOk(Next(w, AgentDrop), h) {
      DropAgentHandle(w, h);
    }
  }

  // ── Frames the agent reads ─────────────────────────────────────────────────

  /** What the first frame from the app says about its stream. */
  lemma HeadFromApp(w: World) returns (h: nat)
    requires Inv(w) && w.toAgent != []
    ensures h < |w.app.socks| && w.app.socks[h].id == w.toAgent[0].id
    ensures ToAgentFrame(w.toAgent[0])
    ensures var f, s := w.toAgent[0], w.app.socks[h];
            && Proj(w.toAgent, s.id) == [f] + Proj(w.toAgent[1..], s.id)
            && Related(s, w.agent, Proj(w.toAgent, s.id), Proj(w.toApp, s.id))
            && (f.Close? ==> s.remoteEnded)
  {
    var f := w.toAgent[0];
    assert HandleOf(f.id) < |w.app.socks|;
    h := SockOfId(w.app, f.id);
    assert HandleOk(w, h);
    assert Proj(w.toAgent, f.id)[0] == f;
  }

  lemma AcceptOk(agent: Agent, count: nat, id: StreamId, port: nat)
    requires AgentOk(agent, count) && HandleOf(id) < count
    requires forall k :: 0 <= k < |agent.locals| ==> agent.locals[k].id != id
    ensures AgentOk(agent.(streams := agent.streams[id := |agent.locals|],
                           locals := agent.locals + [Local(id, port, false, false, false, [], [], [])]), count)
  {
  }

  lemma UnlinkedAccepted(s: Sock, l: Local, agentOpen: bool, qa: seq<Frame>, qb: seq<Frame>)
    requires Unlinked(s, qa, qb) && qa != [] && qa[0].Open?
    requires l == Local(s.id, l.port, false, false, false, [], [], [])
    requires forall i :: 0 <= i < |qb| ==> !qb[i].Open?
    ensures Linked(s, l, agentOpen, qa[1..], qb)
  {
    QuietPhase(PhaseOf(s), qb);
    QuietData(qb);
  }

  /** An OPEN still on its way is for an id the agent has never had. */
  lemma OpenIsNew(w: World, h: nat)
    requires Inv(w) && w.toAgent != [] && w.toAgent[0].Open?
    requires h < |w.app.socks| && w.app.socks[h].id == w.toAgent[0].id
    requires Related(w.app.socks[h], w.agent, Proj(w.toAgent, w.toAgent[0].id), Proj(w.toApp, w.toAgent[0].id))
    ensures forall k :: 0 <= k < |w.agent.locals| ==> w.agent.locals[k].id != w.toAgent[0].id
    ensures w.toAgent[0].id !in w.agent.streams
    ensures Unlinked(w.app.socks[h], Proj(w.toAgent, w.toAgent[0].id), Proj(w.toApp, w.toAgent[0].id))
  {
    assert Opens(Proj(w.toAgent, w.toAgent[0].id)) >= 1;
  }

  lemma RefusedIsRelated(s: Sock, agent: Agent, qa: seq<Frame>, qb: seq<Frame>, fs: seq<Frame>)
    requires forall k :: 0 <= k < |agent.locals| ==> agent.locals[k].id != s.id
    requires Unlinked(s, qa, qb) && qa != [] && (fs == [] || (|fs| == 1 && fs[0].Error?))
    ensures Related(s, agent, qa[1..], qb + fs)
  {
  }

  lemma AgentReadsOpen(w: World, full: bool, why: seq<byte>)
    requires Inv(w) && Enabled(w, AgentReads(full, why)) && w.toAgent[0].Open?
    ensures Inv(Next(w, AgentReads(full, why)))
  {
    var f := w.toAgent[0];
    var h := HeadFromApp(w);
    assert HandleOf(f.id) < |w.app.socks| && AgentOk(w.agent, |w.app.socks|);
    hide Inv, AgentOk, Next, Unlinked;
    OpenIsNew(w, h);
    if f.port !in w.agent.allowed || |w.agent.streams| >= w.agent.maxStreams {
      AgentRefuses(w, full, why, h);
    } else {
      AcceptOk(w.agent, |w.app.socks|, f.id, f.port);
      AgentAccepts(w, full, why, h);
    }
  }

  /** An OPEN not answered yet, for an id the agent does not have. */
  ghost predicate OpensNew(w: World, h: nat)
  {
    && h < |w.app.socks| && w.toAgent != [] && w.toAgent[0].Open?
    && var f, s := w.toAgent[0], w.app.socks[h];
    && s.id == f.id && HandleOf(f.id) < |w.app.socks| && f.id !in w.agent.streams
    && Proj(w.toAgent, s.id) == [f] + Proj(w.toAgent[1..], s.id)
    && Unlinked(s, Proj(w.toAgent, s.id), Proj(w.toApp, s.id))
  }

  lemma RefuseShape(w: World, h: nat, full: bool, why: seq<byte>)
    requires OpensNew(w, h) && Enabled(w, AgentReads(full, why)) && LocalsValid(w.agent)
    requires w.toAgent[0].port !in w.agent.allowed || |w.agent.streams| >= w.agent.maxStreams
    ensures var f, z := w.toAgent[0], Next(w, AgentReads(full, why));
            AnsweredAt(w, z, f.id, Reply(w.agent, [Error(f.id, why)]), true) && z.agent == w.agent
  {
  }

  lemma AcceptShape(w: World, h: nat, full: bool, why: seq<byte>)
    requires OpensNew(w, h) && Enabled(w, AgentReads(full, why)) && LocalsValid(w.agent)
    requires w.toAgent[0].port in w.agent.allowed && |w.agent.streams| < w.agent.maxStreams
    ensures var f, z := w.toAgent[0], Next(w, AgentReads(full, why));
            && AnsweredAt(w, z, f.id, [], true) && z.agent == OpenStream(w.agent, f.id, f.port, why).agent
  {
  }

  lemma AgentRefuses(w: World, full: bool, why: seq<byte>, h: nat)
    requires Inv(w) && OpensNew(w, h) && Enabled(w, AgentReads(full, why))
    requires w.toAgent[0].port !in w.agent.allowed || |w.agent.streams| >= w.agent.maxStreams
    requires forall k :: 0 <= k < |w.agent.locals| ==> w.agent.locals[k].id != w.toAgent[0].id
    ensures Inv(Next(w, AgentReads(full, why)))
  {
    var f, s := w.toAgent[0], w.app.socks[h];
    assert AgentOk(w.agent, |w.app.socks|) && LocalsValid(w.agent);
    RefuseShape(w, h, full, why);
    hide Inv, AgentOk, Next, AnsweredAt, Unlinked, Related;
    var fs := Reply(w.agent, [Error(f.id, why)]);
    RefusedIsRelated(s, w.agent, Proj(w.toAgent, s.id), Proj(w.toApp, s.id), fs);
    AnsweredKeeps(w, Next(w, AgentReads(full, why)), f.id, fs, true, h);
  }

  lemma AgentAccepts(w: World, full: bool, why: seq<byte>, h: nat)
    requires Inv(w) && OpensNew(w, h) && Enabled(w, AgentReads(full, why))
    requires w.toAgent[0].port in w.agent.allowed && |w.agent.streams| < w.agent.maxStreams
    requires forall k :: 0 <= k < |w.agent.locals| ==> w.agent.locals[k].id != w.toAgent[0].id
    requires AgentOk(OpenStream(w.agent, w.toAgent[0].id, w.toAgent[0].port, why).agent, |w.app.socks|)
    ensures Inv(Next(w, AgentReads(full, why)))
  {
    var f, s := w.toAgent[0], w.app.socks[h];
    assert LocalsValid(w.agent);
    AcceptShape(w, h, full, why);
    ProjMembers(w.toApp, s.id);
    var z := Next(w, AgentReads(full, why));
    var qa, qb := Proj(w.toAgent, s.id), Proj(w.toApp, s.id);
    hide Inv, AgentOk, Next, AnsweredAt, Unlinked, Linked;
    UnlinkedAccepted(s, z.agent.locals[|w.agent.locals|], w.agent.open, qa, qb);
    assert qb + [] == qb;
    AnsweredKeeps(w, z, s.id, [], true, h);
  }

  lemma OneLess(q: seq<Frame>)
    requires q != []
    ensures DataOf(q) == (if q[0].Data? then q[0].data else []) + DataOf(q[1..])
    ensures Opens(q[1..]) <= Opens(q)
  {
  }

  lemma LinkedConsumes(s: Sock, l: Local, m: Local, agentOpen: bool, qa: seq<Frame>, qb: seq<Frame>)
    requires Linked(s, l, agentOpen, qa, qb) && qa != [] && (l.done || (qa[0].Data? && !m.done))
    requires l.done ==> m == l
    requires !l.done ==> m == l.(delivered := l.delivered + qa[0].data)
    ensures Linked(s, m, agentOpen, qa[1..], qb)
  {
    OneLess(qa);
    hide DataOf, Opens, After, PhaseOf;
    if !l.done {
      assert l.delivered + (qa[0].data + DataOf(qa[1..])) == (l.delivered + qa[0].data) + DataOf(qa[1..]);
    }
  }

  /** The agent stops delivering: what it has is a prefix of what was sent. */
  lemma LinkedStops(s: Sock, l: Local, m: Local, agentOpen: bool, qa: seq<Frame>, qb: seq<Frame>, fs: seq<Frame>)
    requires Linked(s, l, agentOpen, qa, qb) && qa != []
    requires m.done && m.sent == l.sent
    requires m.delivered == l.delivered || (!l.done && qa[0].Data? && m.delivered == l.delivered + qa[0].data)
    requires fs == [] || (fs[1..] == [] && fs[0].Error?)
    requires agentOpen ==> fs != [] || s.remoteEnded || l.done
    requires forall i :: 0 <= i < |qb| ==> !qb[i].Open?
    ensures Linked(s, m, agentOpen, qa[1..], qb + fs)
  {
    if !l.done && qa[0].Data? {
      assert l.delivered + (qa[0].data + DataOf(qa[1..])) == (l.delivered + qa[0].data) + DataOf(qa[1..]);
    }
    if s.remoteEnded {
      GoneStaysGone(qb);
    }
    var n := l.(done := true);
    assert DataOf(fs) == [];
    AfterAppend(PhaseOf(s), qb, fs);
    DataOfAppend(qb, fs);
    assert DataOf(qb) + [] == DataOf(qb);
  }

  lemma AgentReadsIgnored(w: World, full: bool, why: seq<byte>)
    requires Inv(w) && Enabled(w, AgentReads(full, why)) && !w.toAgent[0].Open?
    requires var id := w.toAgent[0].id; id !in w.agent.streams || (w.toAgent[0].Data? && w.agent.locals[w.agent.streams[id]].done)
    ensures Inv(Next(w, AgentReads(full, why)))
  {
    var z := Next(w, AgentReads(full, why));
    var f := w.toAgent[0];
    var h := HeadFromApp(w);
    var s := w.app.socks[h];
    assert AgentOk(w.agent, |w.app.socks|) && HandleOf(f.id) < |w.app.socks|;
    assert forall k :: 0 <= k < |w.agent.locals| && w.agent.locals[k].id == f.id ==> w.agent.locals[k].done;
    IgnoredShape(w, full, why);
    hide Inv, AgentOk, Next, AnsweredAt, Proj, Related;
    IgnoredIsRelated(s, w.agent, Proj(w.toAgent, s.id), Proj(w.toApp, s.id));
    AnsweredKeeps(w, z, f.id, [], true, h);
  }

  lemma IgnoredShape(w: World, full: bool, why: seq<byte>)
    requires Enabled(w, AgentReads(full, why)) && ToAgentFrame(w.toAgent[0]) && !w.toAgent[0].Open?
    requires HandleOf(w.toAgent[0].id) < |w.app.socks|
    requires var id := w.toAgent[0].id; id !in w.agent.streams || (w.toAgent[0].Data? && w.agent.locals[w.agent.streams[id]].done)
    ensures var z := Next(w, AgentReads(full, why)); z.agent == w.agent && AnsweredAt(w, z, w.toAgent[0].id, [], true)
  {
  }

  lemma IgnoredIsRelated(s: Sock, agent: Agent, qa: seq<Frame>, qb: seq<Frame>)
    requires Related(s, agent, qa, qb) && qa != [] && !qa[0].Open?
    requires forall k :: 0 <= k < |agent.locals| && agent.locals[k].id == s.id ==> agent.locals[k].done
    ensures Related(s, agent, qa[1..], qb + [])
  {
    hide Linked;
    assert qb + [] == qb;
    forall k | 0 <= k < |agent.locals| && agent.locals[k].id == s.id
      ensures Linked(s, agent.locals[k], agent.open, qa[1..], qb)
    {
      LinkedConsumes(s, agent.locals[k], agent.locals[k], agent.open, qa, qb);
    }
  }

  /** A local connection takes in, or is ended by, the first frame. */
  lemma AgentReadsAt(w: World, z: World, k: nat, m: Local, fs: seq<Frame>, h: nat)
    requires Inv(w) && w.toAgent != [] && k < |w.agent.locals| && h < |w.app.socks|
    requires m.id == w.agent.locals[k].id == w.app.socks[h].id == w.toAgent[0].id
    requires AnsweredAt(w, z, m.id, fs, true) && AgentOk(z.agent, |w.app.socks|)
    requires z.agent.locals == w.agent.locals[k := m]
    requires Proj(w.toAgent, m.id) != []
    requires Linked(w.app.socks[h], m, w.agent.open, Proj(w.toAgent, m.id)[1..], Proj(w.toApp, m.id) + fs)
    ensures Inv(z)
  {
    assert z.agent.locals[k] == m;
    AnsweredKeeps(w, z, m.id, fs, true, h);
  }

  /** The first frame is for local connection `k`. */
  ghost predicate IsFor(w: World, k: nat)
  {
    && k < |w.agent.locals| && w.toAgent != [] && w.agent.locals[k].id == w.toAgent[0].id
    && w.toAgent[0].id in w.agent.streams && w.agent.streams[w.toAgent[0].id] == k
    && AgentOk(w.agent, |w.app.socks|)
  }

  lemma NoOpensForApp(w: World)
    requires Inv(w)
    ensures forall i :: 0 <= i < |w.toApp| ==> !w.toApp[i].Open?
  {
  }

  lemma StreamIsFor(w: World) returns (k: nat)
    requires Inv(w) && w.toAgent != [] && w.toAgent[0].id in w.agent.streams
    ensures IsFor(w, k)
  {
    k := w.agent.streams[w.toAgent[0].id];
  }

  lemma DataShape(w: World, k: nat, full: bool, why: seq<byte>) returns (m: Local, fs: seq<Frame>)
    requires IsFor(w, k) && Enabled(w, AgentReads(full, why)) && w.toAgent[0].Data? && !w.agent.locals[k].done
    ensures var l, z := w.agent.locals[k], Next(w, AgentReads(full, why));
            && m == l.(delivered := l.delivered + w.toAgent[0].data, done := full)
            && fs == (if full then Reply(w.agent, [Error(l.id, why)]) else [])
            && AnsweredAt(w, z, m.id, fs, true) && AgentOk(z.agent, |w.app.socks|)
            && z.agent.locals == w.agent.locals[k := m]
  {
    var l := w.agent.locals[k];
    m := l.(delivered := l.delivered + w.toAgent[0].data, done := full);
    fs := if full then Reply(w.agent, [Error(l.id, why)]) else [];
    PutLocalOk(w.agent, |w.app.socks|, k, m);
    assert HandleOf(l.id) < |w.app.socks|;
    hide AnsweredAt, AgentOk;
    PutIsAnswered(w, Next(w, AgentReads(full, why)), k, m, fs, true);
  }

  /** A frame of data is delivered, or ends the stream of a local connection that does not read. */
  lemma LinkedTakes(s: Sock, l: Local, m: Local, agentOpen: bool, qa: seq<Frame>, qb: seq<Frame>, fs: seq<Frame>, full: bool)
    requires Linked(s, l, agentOpen, qa, qb) && qa != [] && qa[0].Data? && !l.done
    requires m == l.(delivered := l.delivered + qa[0].data, done := full)
    requires if full && agentOpen then fs != [] && fs[1..] == [] && fs[0].Error? else fs == []
    requires forall i :: 0 <= i < |qb| ==> !qb[i].Open?
    ensures Linked(s, m, agentOpen, qa[1..], qb + fs)
  {
    hide Linked;
    if full {
      LinkedStops(s, l, m, agentOpen, qa, qb, fs);
    } else {
      assert qb + fs == qb;
      LinkedConsumes(s, l, m, agentOpen, qa, qb);
    }
  }

  lemma AgentReadsData(w: World, full: bool, why: seq<byte>)
    requires Inv(w) && Enabled(w, AgentReads(full, why)) && w.toAgent[0].Data?
    requires w.toAgent[0].id in w.agent.streams && !w.agent.locals[w.agent.streams[w.toAgent[0].id]].done
    ensures Inv(Next(w, AgentReads(full, why)))
  {
    hide Inv, AgentOk, AnsweredAt, Next, Linked, Unlinked, Proj, DataOf;
    var k := StreamIsFor(w);
    var h := HeadFromApp(w);
    var l, s := w.agent.locals[k], w.app.socks[h];
    var m, fs := DataShape(w, k, full, why);
    NoOpensForApp(w);
    ProjMembers(w.toApp, s.id);
    LinkedTakes(s, l, m, w.agent.open, Proj(w.toAgent, s.id), Proj(w.toApp, s.id), fs, full);
    AgentReadsAt(w, Next(w, AgentReads(full, why)), k, m, fs, h);
  }

  lemma StopOk(agent: Agent, count: nat, k: nat)
    requires AgentOk(agent, count) && k < |agent.locals|
    ensures var m := agent.locals[k].(done := true);
            AgentOk(PutLocal(agent, k, m).(streams := agent.streams - {m.id}), count) && HandleOf(m.id) < count
  {
    var m := agent.locals[k].(done := true);
    PutLocalOk(agent, count, k, m);
    DelistOk(PutLocal(agent, k, m), count, m.id);
  }

  lemma CloseShape(w: World, k: nat, full: bool, why: seq<byte>) returns (m: Local)
    requires IsFor(w, k) && Enabled(w, AgentReads(full, why)) && w.toAgent[0].Close?
    ensures var z := Next(w, AgentReads(full, why));
            && m == w.agent.locals[k].(done := true)
            && AnsweredAt(w, z, m.id, [], true) && AgentOk(z.agent, |w.app.socks|)
            && z.agent.locals == w.agent.locals[k := m]
  {
    hide AnsweredAt, AgentOk;
    m := w.agent.locals[k].(done := true);
    StopOk(w.agent, |w.app.socks|, k);
    PutIsAnswered(w, Next(w, AgentReads(full, why)), k, m, [], true);
  }

  lemma AgentReadsClose(w: World, full: bool, why: seq<byte>)
    requires Inv(w) && Enabled(w, AgentReads(full, why)) && w.toAgent[0].Close?
    requires w.toAgent[0].id in w.agent.streams
    ensures Inv(Next(w, AgentReads(full, why)))
  {
    hide Inv, AgentOk, AnsweredAt, Next, Linked, Unlinked, Proj, DataOf;
    var k := StreamIsFor(w);
    var h := HeadFromApp(w);
    var l, s := w.agent.locals[k], w.app.socks[h];
    var m := CloseShape(w, k, full, why);
    NoOpensForApp(w);
    ProjMembers(w.toApp, s.id);
    LinkedStops(s, l, m, w.agent.open, Proj(w.toAgent, s.id), Proj(w.toApp, s.id), []);
    AgentReadsAt(w, Next(w, AgentReads(full, why)), k, m, [], h);
  }

  lemma AgentReadsKeep(w: World, full: bool, why: seq<byte>)
    requires Inv(w) && Enabled(w, AgentReads(full, why))
    ensures Inv(Next(w, AgentReads(full, why)))
  {
    var f := w.toAgent[0];
    var h := HeadFromApp(w);
    if f.Open? {
      AgentReadsOpen(w, full, why);
    } else if f.id !in w.agent.streams || (f.Data? && w.agent.locals[w.agent.streams[f.id]].done) {
      AgentReadsIgnored(w, full, why);
    } else if f.Data? {
      AgentReadsData(w, full, why);
    } else {
      AgentReadsClose(w, full, why);
    }
  }

  // ── Whole runs ─────────────────────────────────────────────────────────────

  function Starts(run: seq<Event>): nat
  {
    if run == [] then 0 else (if run[0].AppStart? then 1 else 0) + Starts(run[1..])
  }

  lemma StepKeeps(w: World, e: Event)
    requires Inv(w) && Enabled(w, e)
    requires e.AppStart? ==> |w.app.socks| < ID_SPACE
    ensures Inv(Next(w, e))
  {
    hide Enabled;
    match e
    case AppStart(port) => StartKeeps(w, port);
    case AppWrite(h, chunk) => WriteKeeps(w, h, chunk);
    case AppFinish(h) => FinishKeeps(w, h);
    case AppDestroy(h) => DestroyKeeps(w, h);
    case AppClosing => AppClosingKeeps(w);
    case AppDrop => DropKeeps(w);
    case AppReads(full) => ReadsKeep(w, full);
    case AgentReads(full, why) => AgentReadsKeep(w, full, why);
    case AgentConnects(k) => ConnectKeeps(w, k);
    case AgentHasData(k, chunk) => LocalDataKeeps(w, k, chunk);
    case AgentFails(k, why) => FailKeeps(w, k, why);
    case AgentCloses(k) => CloseKeeps(w, k);
    case AgentClosing => AgentClosingKeeps(w);
    case AgentDrop => AgentDropKeeps(w);
    case Cut =>
      forall h | 0 <= h < |w.app.socks| ensures HandleOk(Next(w, e), h) {
        assert HandleOk(w, h);
      }
  }

  lemma MessageCount(app: App, f: Frame, full: bool)
    requires StreamsValid(app)
    ensures |OnMessage(app, f, full).app.socks| == |app.socks|
  {
  }

  lemma StepCount(w: World, e: Event)
    requires Enabled(w, e)
    ensures |Next(w, e).app.socks| <= |w.app.socks| + (if e.AppStart? then 1 else 0)
  {
    match e
    case AppStart(_) =>
    case AppWrite(_, _) =>
    case AppFinish(_) =>
    case AppDestroy(_) =>
    case AppDrop =>
    case AppReads(full) => MessageCount(w.app, w.toApp[0], full);
    case _ =>
  }

  lemma {:induction false} RunKeeps(w: World, run: seq<Event>, z: World)
    requires Inv(w) && Reaches(w, run, z) && |w.app.socks| + Starts(run) <= ID_SPACE
    ensures Inv(z)
    decreases |run|
  {
    if run != [] {
      StepKeeps(w, run[0]);
      StepCount(w, run[0]);
      RunKeeps(Next(w, run[0]), run[1..], z);
    }
  }

  /** The bytes one end of a stream took are a prefix of those the other end was given to send. */
  ghost predicate InOrder(w: World, h: nat, k: nat)
    requires h < |w.app.socks| && k < |w.agent.locals|
  {
    var s, l := w.app.socks[h], w.agent.locals[k];
    && l.delivered <= s.written
    && s.received <= l.produced
    // Nothing is lost while both ends still carry the stream: what is not there yet is on its way
    && (!l.done && !s.connecting && w.app.open ==> l.delivered + DataOf(Proj(w.toAgent, s.id)) == s.written)
    && (!s.remoteEnded && !l.done && w.agent.open ==> s.received + DataOf(Proj(w.toApp, s.id)) == l.produced)
  }

  /**
   * In every run with at most 2^32 streams opened, however closes, errors, drops and a lost network
   * interleave: neither side ever sees the other break the protocol, no OPEN meets an id in use, every
   * frame in flight is one a decoder accepts, and both directions of every stream arrive in order.
   */
  lemma TunnelIsSafe(w: World, run: seq<Event>, z: World)
    requires Initial(w) && Reaches(w, run, z) && Starts(run) <= ID_SPACE
    ensures !z.violation && !z.inUse
    ensures forall isError: seq<byte> -> bool, i {:trigger Encodable(z.toAgent[i], isError)} ::
              0 <= i < |z.toAgent| ==> Encodable(z.toAgent[i], isError)
    ensures forall isError: seq<byte> -> bool, i {:trigger Encodable(z.toApp[i], isError)} ::
              0 <= i < |z.toApp| && (z.toApp[i].Error? ==> isError(z.toApp[i].body)) ==> Encodable(z.toApp[i], isError)
    ensures forall h, k :: (0 <= h < |z.app.socks| && 0 <= k < |z.agent.locals|
                            && z.app.socks[h].id == z.agent.locals[k].id) ==> InOrder(z, h, k)
  {
    hide Reaches;
    assert Inv(w);
    RunKeeps(w, run, z);
    forall h, k | 0 <= h < |z.app.socks| && 0 <= k < |z.agent.locals| && z.app.socks[h].id == z.agent.locals[k].id
      ensures InOrder(z, h, k)
    {
      assert HandleOk(z, h);
    }
    assert forall i :: 0 <= i < |z.toAgent| ==> ToAgentFrame(z.toAgent[i]);
    assert forall i :: 0 <= i < |z.toApp| ==> ToAppFrame(z.toApp[i]);
  }
}
