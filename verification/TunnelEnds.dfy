/**
 * What the two ends of the tunnel tell each other: every stream goes to the port it was opened for,
 * and each end learns that the other has ended it.
 */
module TunnelEnds {
  import opened Bytes
  import opened TunnelFrames
  import opened Tunnel
  import opened TunnelSafety
  import opened TunnelRuns

  predicate HasClose(q: seq<Frame>)
  {
    exists i :: 0 <= i < |q| && q[i].Close?
  }

  predicate IsEnd(f: Frame)
  {
    f.Close? || f.Error?
  }

  predicate HasEnd(q: seq<Frame>)
  {
    exists i :: 0 <= i < |q| && IsEnd(q[i])
  }

  /** A socket without a local connection: its OPEN is on its way, or was refused and the refusal is. */
  ghost predicate UnlinkedTold(s: Sock, appOpen: bool, agentOpen: bool, qa: seq<Frame>, qb: seq<Frame>)
  {
    && (forall i :: 0 <= i < |qa| && qa[i].Open? ==> i == 0 && qa[i].port == s.port)
    && (appOpen && s.remoteEnded && qa != [] && qa[0].Open? ==> HasClose(qa))
    && (qa != [] && qa[0].Open? ==> qb == [])
    && (appOpen && agentOpen && qb == [] && !(qa != [] && qa[0].Open?) ==> s.remoteEnded)
  }

  /** A socket and its local connection: each end of the stream is known to the other, or on its way there. */
  ghost predicate LinkedTold(s: Sock, l: Local, appOpen: bool, qa: seq<Frame>, qb: seq<Frame>)
  {
    && l.port == s.port
    && (appOpen && s.remoteEnded && !l.done ==> HasClose(qa))
    && (!s.remoteEnded && HasEnd(qb) ==> l.done)
  }

  ghost predicate Alone(agent: Agent, id: StreamId)
  {
    forall k :: 0 <= k < |agent.locals| ==> agent.locals[k].id != id
  }

  ghost predicate Tells(s: Sock, app: App, agent: Agent, qa: seq<Frame>, qb: seq<Frame>)
  {
    && (Alone(agent, s.id) ==> UnlinkedTold(s, app.open, agent.open, qa, qb))
    && (forall k :: 0 <= k < |agent.locals| && agent.locals[k].id == s.id ==>
          LinkedTold(s, agent.locals[k], app.open, qa, qb))
  }

  ghost predicate TellOk(w: World, h: nat)
    requires h < |w.app.socks|
  {
    var s := w.app.socks[h];
    Tells(s, w.app, w.agent, Proj(w.toAgent, s.id), Proj(w.toApp, s.id))
  }

  ghost predicate PortsAllowed(agent: Agent)
  {
    forall k :: 0 <= k < |agent.locals| ==> agent.locals[k].port in agent.allowed
  }

  ghost predicate Told(w: World)
  {
    PortsAllowed(w.agent) && forall h :: 0 <= h < |w.app.socks| ==> TellOk(w, h)
  }

  // ── One stream ─────────────────────────────────────────────────────────────

  lemma OthersTold(w: World, z: World, id: StreamId)
    requires Told(w) && AppOk(w.app) && AppOk(z.app) && OnlyAt(w, z, id) && PortsAllowed(z.agent)
    requires forall h :: 0 <= h < |z.app.socks| && z.app.socks[h].id == id ==> TellOk(z, h)
    ensures Told(z)
  {
    forall h | 0 <= h < |z.app.socks| ensures TellOk(z, h) {
      if z.app.socks[h].id != id {
        assert h < |w.app.socks|;
        assert w.app.socks[h].id == IdPlus(1, h) == z.app.socks[h].id;
        hide AppOk, Proj, UnlinkedTold, LinkedTold;
        assert TellOk(w, h);
        OtherTells(w, z, id, h);
      }
    }
  }

  lemma OtherTells(w: World, z: World, id: StreamId, h: nat)
    requires h < |w.app.socks| && h < |z.app.socks| && TellOk(w, h) && OnlyAt(w, z, id)
    requires w.app.socks[h].id != id
    ensures TellOk(z, h)
  {
    hide Proj, UnlinkedTold, LinkedTold;
    var s := w.app.socks[h];
    if Alone(z.agent, s.id) {
      forall k | 0 <= k < |w.agent.locals| ensures w.agent.locals[k].id != s.id {
        assert z.agent.locals[k].id == w.agent.locals[k].id;
      }
    }
  }

  lemma CloseStays(qa: seq<Frame>, fs: seq<Frame>)
    ensures HasClose(qa) ==> HasClose(qa + fs)
    ensures HasClose(fs) ==> HasClose(qa + fs)
  {
    if HasClose(qa) {
      var i :| 0 <= i < |qa| && qa[i].Close?;
      assert (qa + fs)[i].Close?;
    }
    if HasClose(fs) {
      var i :| 0 <= i < |fs| && fs[i].Close?;
      assert (qa + fs)[|qa| + i].Close?;
    }
  }

  lemma EndIsNew(qb: seq<Frame>, fs: seq<Frame>)
    requires HasEnd(qb + fs)
    ensures HasEnd(qb) || HasEnd(fs)
  {
    var i :| 0 <= i < |qb + fs| && IsEnd((qb + fs)[i]);
    if i < |qb| {
      assert IsEnd(qb[i]);
    } else {
      assert IsEnd(fs[i - |qb|]);
    }
  }

  lemma EndIsLater(qb: seq<Frame>)
    requires qb != []
    ensures HasEnd(qb) <==> IsEnd(qb[0]) || HasEnd(qb[1..])
  {
    if HasEnd(qb) {
      var i :| 0 <= i < |qb| && IsEnd(qb[i]);
      assert i > 0 ==> IsEnd(qb[1..][i - 1]);
    }
    if HasEnd(qb[1..]) {
      var i :| 0 <= i < |qb[1..]| && IsEnd(qb[1..][i]);
      assert IsEnd(qb[i + 1]);
    }
  }

  lemma CloseIsLater(qa: seq<Frame>)
    requires HasClose(qa) && !qa[0].Close?
    ensures HasClose(qa[1..])
  {
    var i :| 0 <= i < |qa| && qa[i].Close?;
    assert qa[1..][i - 1].Close?;
  }

  /** The socket goes on, and perhaps sends data or takes in OPENED or DATA. */
  lemma MovedTells(s: Sock, t: Sock, app: App, agent: Agent, qa: seq<Frame>, qb: seq<Frame>, fs: seq<Frame>, pop: bool)
    requires Tells(s, app, agent, qa, qb)
    requires t.id == s.id && t.port == s.port && t.remoteEnded == s.remoteEnded
    requires forall i :: 0 <= i < |fs| ==> fs[i].Data?
    requires Alone(agent, s.id) ==> fs == [] && !pop
    requires pop ==> qb != []
    ensures Tells(t, app, agent, qa + fs, Popped(qb, pop))
  {
    if Alone(agent, s.id) {
      assert qa + fs == qa;
    }
    CloseStays(qa, fs);
    if pop {
      EndIsLater(qb);
    }
    hide HasClose, HasEnd;
  }

  /** The socket ends: CLOSE goes out, unless it had ended before or the agent said so. */
  lemma EndedTells(s: Sock, t: Sock, app: App, agent: Agent, qa: seq<Frame>, qb: seq<Frame>, fs: seq<Frame>, pop: bool)
    requires Tells(s, app, agent, qa, qb)
    requires t.id == s.id && t.port == s.port && t.remoteEnded && (fs == [] || fs == [Close(s.id)])
    requires pop ==> qb != []
    requires app.open && !s.remoteEnded ==> fs != [] || (pop && IsEnd(qb[0]))
    ensures Tells(t, app, agent, qa + fs, Popped(qb, pop))
  {
    CloseStays(qa, fs);
    if fs != [] {
      assert fs[0].Close?;
    }
    if pop {
      EndIsLater(qb);
    }
    if Alone(agent, s.id) {
      assert qa != [] ==> (qa + fs)[0] == qa[0];
      assert forall i :: |qa| <= i < |qa + fs| ==> !(qa + fs)[i].Open?;
    }
    hide HasEnd;
  }

  // ── Events of the app ──────────────────────────────────────────────────────

  lemma MovedTold(w: World, z: World, h: nat, t: Sock, fs: seq<Frame>, pop: bool)
    requires Inv(w) && Told(w) && MovedAt(w, z, h, t, fs, pop) && AppOk(z.app)
    requires Alone(w.agent, t.id) ==> fs == [] && !pop
    ensures Told(z)
  {
    MovedOnlyAt(w, z, h, t, fs, pop);
    hide Inv, Proj, OnlyAt, AppOk, Tells;
    assert TellOk(w, h);
    var qa, qb := Proj(w.toAgent, t.id), Proj(w.toApp, t.id);
    ProjHead(w.toApp, t.id);
    MovedTells(w.app.socks[h], t, w.app, w.agent, qa, qb, fs, pop);
    TellsOpen(t, w.app, z.app, w.agent, Proj(z.toAgent, t.id), Proj(z.toApp, t.id));
    assert TellOk(z, h);
    OthersTold(w, z, t.id) by { InvAppOk(w); }
  }

  lemma InvAppOk(w: World)
    requires Inv(w)
    ensures AppOk(w.app)
  {
  }

  lemma TellsOpen(s: Sock, app: App, other: App, agent: Agent, qa: seq<Frame>, qb: seq<Frame>)
    requires Tells(s, app, agent, qa, qb) && other.open == app.open
    ensures Tells(s, other, agent, qa, qb)
  {
  }

  lemma ProjHead(q: seq<Frame>, id: StreamId)
    ensures q != [] && q[0].id == id ==> Proj(q, id) != [] && Proj(q, id)[0] == q[0]
  {
  }

  lemma EndedTold(w: World, z: World, h: nat, t: Sock, fs: seq<Frame>, pop: bool)
    requires Inv(w) && Told(w) && EndedAt(w, z, h, t, fs, pop) && AppOk(z.app)
    requires w.app.open && !w.app.socks[h].remoteEnded ==> fs != [] || (pop && IsEnd(w.toApp[0]))
    ensures Told(z)
  {
    EndedOnlyAt(w, z, h, t, fs, pop);
    hide Inv, Proj, OnlyAt, AppOk, Tells, SockOk;
    assert TellOk(w, h);
    var qa, qb := Proj(w.toAgent, t.id), Proj(w.toApp, t.id);
    ProjHead(w.toApp, t.id);
    EndedTells(w.app.socks[h], t, w.app, w.agent, qa, qb, fs, pop);
    TellsOpen(t, w.app, z.app, w.agent, Proj(z.toAgent, t.id), Proj(z.toApp, t.id));
    assert TellOk(z, h);
    OthersTold(w, z, t.id) by { InvAppOk(w); }
  }

  lemma NewTells(s: Sock, app: App, agent: Agent, fs: seq<Frame>)
    requires !s.remoteEnded && fs == (if app.open then [Open(s.id, s.port)] else []) && Alone(agent, s.id)
    ensures Tells(s, app, agent, fs, [])
  {
  }

  lemma StartTold(w: World, port: nat)
    requires Inv(w) && Told(w) && Enabled(w, AppStart(port)) && |w.app.socks| < ID_SPACE && Inv(Next(w, AppStart(port)))
    ensures Told(Next(w, AppStart(port)))
  {
    var z, n := Next(w, AppStart(port)), |w.app.socks|;
    InvAppOk(w);
    InvAppOk(z);
    NextIsFree(w.app);
    StartShape(w, port);
    hide Next, Proj, OnlyAt, Tells, AppOk, StartStream;
    if |z.app.socks| > n {
      var id := w.app.next;
      var fs := Send(w.app, [Open(id, port)]);
      NewId(w);
      AllAllowed(w);
      hide Inv;
      StartOnlyAt(w, z, id, port, fs);
      NewHandle(z.app);
      ProjNone(w.toAgent, id);
      ProjNone(w.toApp, id);
      QueueOnlyAt(w.toAgent, fs, id);
      assert [] + fs == fs;
      NewTells(z.app.socks[n], z.app, z.agent, fs);
      assert TellOk(z, n);
      OthersTold(w, z, id);
    }
  }

  lemma StartShape(w: World, port: nat)
    requires Enabled(w, AppStart(port)) && FirstFree(w.app.streams.Keys, w.app.next, 0) == w.app.next
    ensures var z, n := Next(w, AppStart(port)), |w.app.socks|;
            if |z.app.socks| == n then z == w
            else
              && |z.app.socks| == n + 1 && z.app.open == w.app.open && z.agent == w.agent && z.toApp == w.toApp
              && z.app.socks[n] == Sock(w.app.next, port, true, false, false, false, [], [], [], [])
              && z.toAgent == w.toAgent + Send(w.app, [Open(w.app.next, port)])
              && forall h :: 0 <= h < n ==> z.app.socks[h] == w.app.socks[h]
  {
    assert w.toAgent + [] == w.toAgent;
  }

  lemma WriteTold(w: World, h: nat, chunk: seq<byte>)
    requires Inv(w) && Told(w) && Enabled(w, AppWrite(h, chunk)) && Inv(Next(w, AppWrite(h, chunk)))
    ensures Told(Next(w, AppWrite(h, chunk)))
  {
    RelatedBefore(w, h);
    var t, fs := WriteShape(w, h, chunk);
    InvAppOk(Next(w, AppWrite(h, chunk)));
    hide Inv, Next, Told, AppOk, Proj;
    MovedTold(w, Next(w, AppWrite(h, chunk)), h, t, fs, false);
  }

  lemma FinishTold(w: World, h: nat)
    requires Inv(w) && Told(w) && Enabled(w, AppFinish(h)) && Inv(Next(w, AppFinish(h)))
    ensures Told(Next(w, AppFinish(h)))
  {
    var z := Next(w, AppFinish(h));
    RelatedBefore(w, h);
    StillLinked(w, h);
    InvAppOk(z);
    FinishShape(w, h);
    hide Inv, Next, Told, AppOk, Proj, EndedAt, Related;
    EndedTold(w, z, h, z.app.socks[h], Finish(w.app, h).frames, false);
  }

  lemma FinishShape(w: World, h: nat)
    requires Enabled(w, AppFinish(h)) && SockOk(w.app.open, w.app.socks[h])
    requires !w.app.socks[h].remoteEnded ==> w.app.socks[h].id in w.app.streams && w.app.streams[w.app.socks[h].id] == h
    ensures var z, fs := Next(w, AppFinish(h)), Finish(w.app, h).frames;
            && h < |z.app.socks| && EndedAt(w, z, h, z.app.socks[h], fs, false)
            && (w.app.open && !w.app.socks[h].remoteEnded ==> fs != [])
  {
  }

  lemma DestroyTold(w: World, h: nat)
    requires Inv(w) && Told(w) && Enabled(w, AppDestroy(h)) && Inv(Next(w, AppDestroy(h)))
    ensures Told(Next(w, AppDestroy(h)))
  {
    var z := Next(w, AppDestroy(h));
    RelatedBefore(w, h);
    StillLinked(w, h);
    InvAppOk(z);
    DestroyShape(w, h);
    hide Inv, Next, Told, AppOk, Proj, EndedAt, Related;
    EndedTold(w, z, h, z.app.socks[h], Destroy(w.app, h).frames, false);
  }

  lemma DestroyShape(w: World, h: nat)
    requires Enabled(w, AppDestroy(h)) && SockOk(w.app.open, w.app.socks[h])
    requires !w.app.socks[h].remoteEnded ==> w.app.socks[h].id in w.app.streams && w.app.streams[w.app.socks[h].id] == h
    ensures var z, fs := Next(w, AppDestroy(h)), Destroy(w.app, h).frames;
            && h < |z.app.socks| && EndedAt(w, z, h, z.app.socks[h], fs, false)
            && (w.app.open && !w.app.socks[h].remoteEnded ==> fs != [])
  {
  }

  lemma AppShutTold(w: World, z: World)
    requires Told(w) && !z.app.open && z.agent == w.agent && z.toAgent == w.toAgent && z.toApp == w.toApp
    requires |z.app.socks| == |w.app.socks|
    requires forall h :: 0 <= h < |w.app.socks| ==>
               z.app.socks[h].id == w.app.socks[h].id && z.app.socks[h].port == w.app.socks[h].port
               && (w.app.socks[h].remoteEnded ==> z.app.socks[h].remoteEnded)
    ensures Told(z)
  {
    forall h | 0 <= h < |z.app.socks| ensures TellOk(z, h) {
      assert TellOk(w, h);
      hide Proj;
    }
  }

  lemma ClosingTold(w: World)
    requires Told(w)
    ensures Told(Next(w, AppClosing)) && Told(Next(w, AppDrop))
  {
    AppShutTold(w, Next(w, AppClosing));
    AppShutTold(w, Next(w, AppDrop));
  }

  lemma ReadsEndingTold(w: World, full: bool, h: nat)
    requires Inv(w) && Told(w) && Enabled(w, AppReads(full)) && h < |w.app.socks| && w.app.socks[h].id == w.toApp[0].id
    requires w.toApp[0].id in w.app.streams ==> w.app.streams[w.toApp[0].id] == h && !w.app.socks[h].remoteEnded
    requires w.toApp[0].id !in w.app.streams ==> w.app.socks[h].remoteEnded
    requires w.toApp[0].id !in w.app.streams || w.toApp[0].Close? || w.toApp[0].Error?
          || (w.toApp[0].Data? && full && !w.app.socks[h].connecting)
    requires Inv(Next(w, AppReads(full)))
    ensures Told(Next(w, AppReads(full)))
  {
    var z := Next(w, AppReads(full));
    RelatedBefore(w, h);
    assert ToAppFrame(w.toApp[0]);
    InvAppOk(z);
    EndingShape(w, full, h);
    var fs := OnMessage(w.app, w.toApp[0], full).frames;
    if !w.app.socks[h].remoteEnded {
      EndingFrames(w.app, w.toApp[0], full, h);
    }
    hide Inv, Next, Told, AppOk, Proj, OnMessage, EndedAt;
    EndedTold(w, z, h, z.app.socks[h], fs, true);
  }

  /** Cutting off a reader that stopped sends CLOSE. */
  lemma EndingFrames(app: App, f: Frame, full: bool, h: nat)
    requires StreamsValid(app) && h < |app.socks| && app.socks[h].id == f.id && !app.socks[h].remoteEnded
    requires f.id in app.streams && app.streams[f.id] == h
    requires f.Close? || f.Error? || (f.Data? && full && !app.socks[h].connecting)
    requires app.socks[h].destroyed ==> app.socks[h].remoteEnded
    ensures app.open ==> OnMessage(app, f, full).frames != [] || IsEnd(f)
  {
  }

  lemma ReadsDataTold(w: World, h: nat)
    requires Inv(w) && Told(w) && Enabled(w, AppReads(false)) && h < |w.app.socks| && w.app.socks[h].id == w.toApp[0].id
    requires w.toApp[0].Data? && w.toApp[0].id in w.app.streams && w.app.streams[w.toApp[0].id] == h
    requires !w.app.socks[h].remoteEnded && Inv(Next(w, AppReads(false)))
    ensures Told(Next(w, AppReads(false)))
  {
    var z := Next(w, AppReads(false));
    hide Inv, Next, Told, AppOk, Proj, MovedAt, Related;
    FirstAnswer(w, h);
    RelatedBefore(w, h);
    InvAppOk(z);
    ReceivedShape(w, h);
    MovedTold(w, z, h, z.app.socks[h], [], true);
  }

  lemma ReceivedShape(w: World, h: nat)
    requires Enabled(w, AppReads(false)) && h < |w.app.socks| && w.app.socks[h].id == w.toApp[0].id
    requires w.toApp[0].Data? && w.toApp[0].id in w.app.streams && w.app.streams[w.toApp[0].id] == h
    requires !w.app.socks[h].connecting
    ensures var z := Next(w, AppReads(false)); h < |z.app.socks| && MovedAt(w, z, h, z.app.socks[h], [], true)
  {
    assert w.toAgent + [] == w.toAgent;
  }

  lemma ReadsOpenedTold(w: World, full: bool, h: nat)
    requires Inv(w) && Told(w) && Enabled(w, AppReads(full)) && h < |w.app.socks| && w.app.socks[h].id == w.toApp[0].id
    requires w.toApp[0].Opened? && w.toApp[0].id in w.app.streams && w.app.streams[w.toApp[0].id] == h
    requires !w.app.socks[h].remoteEnded && Inv(Next(w, AppReads(full)))
    ensures Told(Next(w, AppReads(full)))
  {
    FirstAnswer(w, h);
    InvAppOk(Next(w, AppReads(full)));
    hide Inv, Next, Told, AppOk, Proj;
    var t, fs := OpenedShape(w, full, h);
    MovedTold(w, Next(w, AppReads(full)), h, t, fs, true);
  }

  lemma ReadsTold(w: World, full: bool)
    requires Inv(w) && Told(w) && Enabled(w, AppReads(full)) && Inv(Next(w, AppReads(full)))
    ensures Told(Next(w, AppReads(full)))
  {
    var f := w.toApp[0];
    var h := SockOf(w, f);
    assert ToAppFrame(f);
    hide Told, Proj;
    if f.id !in w.app.streams || f.Close? || f.Error? {
      ReadsEndingTold(w, full, h);
    } else if f.Opened? {
      ReadsOpenedTold(w, full, h);
    } else {
      FirstAnswer(w, h);
      if full {
        ReadsEndingTold(w, full, h);
      } else {
        ReadsDataTold(w, h);
      }
    }
  }

  // ── Events of the agent ────────────────────────────────────────────────────

  lemma AnsweredTold(w: World, z: World, id: StreamId, fs: seq<Frame>, pop: bool, h: nat)
    requires Inv(w) && Told(w) && AnsweredAt(w, z, id, fs, pop) && PortsAllowed(z.agent)
    requires h < |w.app.socks| && w.app.socks[h].id == id
    requires pop ==> Proj(w.toAgent, id) != []
    requires Tells(w.app.socks[h], w.app, z.agent, Popped(Proj(w.toAgent, id), pop), Proj(w.toApp, id) + fs)
    ensures Told(z)
  {
    AnsweredOnlyAt(w, z, id, fs, pop);
    InvAppOk(w);
    assert z.app == w.app;
    var g := SockOfId(w.app, id);
    hide Inv, Proj, OnlyAt, AppOk, Tells, AnsweredAt;
    assert TellOk(z, h);
    OthersTold(w, z, id);
  }

  /** A local connection answers with frames that end the stream only when it is done. */
  lemma AnswerTells(s: Sock, app: App, a: Agent, b: Agent, k: nat, m: Local, qa: seq<Frame>, qb: seq<Frame>, fs: seq<Frame>)
    requires Tells(s, app, a, qa, qb) && k < |a.locals| && a.locals[k].id == s.id
    requires b.locals == a.locals[k := m] && b.open == a.open
    requires m.id == s.id && m.port == a.locals[k].port && (a.locals[k].done ==> m.done)
    requires HasEnd(fs) ==> m.done
    requires forall j :: 0 <= j < |a.locals| && a.locals[j].id == s.id ==> j == k
    ensures Tells(s, app, b, qa, qb + fs)
  {
    assert b.locals[k].id == s.id;
    if HasEnd(qb + fs) {
      EndIsNew(qb, fs);
    }
    hide HasEnd, HasClose;
  }

  lemma LocalTold(w: World, z: World, k: nat, m: Local, fs: seq<Frame>)
    requires Inv(w) && Told(w) && k < |w.agent.locals|
    requires AnsweredAt(w, z, m.id, fs, false) && z.agent.allowed == w.agent.allowed
    requires z.agent.locals == w.agent.locals[k := m]
    requires var l := w.agent.locals[k]; m.id == l.id && m.port == l.port && (l.done ==> m.done)
    requires HasEnd(fs) ==> m.done
    ensures Told(z)
  {
    var h := SockOfLocal(w, k);
    var s := w.app.socks[h];
    assert TellOk(w, h);
    OnlyLocal(w, k);
    hide Inv, Proj, Tells, Linked, AnsweredAt, HasEnd;
    AnswerTells(s, w.app, w.agent, z.agent, k, m, Proj(w.toAgent, s.id), Proj(w.toApp, s.id), fs) by {
      assert z.agent.open == w.agent.open by { AnsweredOpen(w, z, m.id, fs, false); }
    }
    AnsweredTold(w, z, m.id, fs, false, h);
  }

  lemma OnlyLocal(w: World, k: nat)
    requires Inv(w) && k < |w.agent.locals|
    ensures forall j :: 0 <= j < |w.agent.locals| && w.agent.locals[j].id == w.agent.locals[k].id ==> j == k
  {
  }

  lemma AnsweredOpen(w: World, z: World, id: StreamId, fs: seq<Frame>, pop: bool)
    requires AnsweredAt(w, z, id, fs, pop)
    ensures z.agent.open == w.agent.open
  {
  }

  lemma NoEnd(fs: seq<Frame>)
    requires forall i :: 0 <= i < |fs| ==> fs[i].Data? || fs[i].Opened?
    ensures !HasEnd(fs)
  {
  }

  lemma LocalId(w: World, k: nat)
    requires Inv(w) && k < |w.agent.locals|
    ensures HandleOf(w.agent.locals[k].id) < |w.app.socks| && LocalOk(w.agent.open, w.agent.locals[k])
  {
  }

  lemma ConnectTold(w: World, k: nat)
    requires Inv(w) && Told(w) && Enabled(w, AgentConnects(k))
    ensures Told(Next(w, AgentConnects(k)))
  {
    var l := w.agent.locals[k];
    var fs := Reply(w.agent, [Opened(l.id)]);
    LocalId(w, k);
    ConnectShape(w, k);
    NoEnd(fs);
    hide Inv, Told, Next, AnsweredAt;
    LocalTold(w, Next(w, AgentConnects(k)), k, l.(connected := true), fs);
  }

  lemma DataTold(w: World, k: nat, chunk: seq<byte>)
    requires Inv(w) && Told(w) && Enabled(w, AgentHasData(k, chunk))
    ensures Told(Next(w, AgentHasData(k, chunk)))
  {
    LocalId(w, k);
    var m, fs := LocalDataShape(w, k, chunk);
    NoEnd(fs);
    hide Inv, Told, Next, AnsweredAt, DataOf;
    LocalTold(w, Next(w, AgentHasData(k, chunk)), k, m, fs);
  }

  lemma FailTold(w: World, k: nat, why: seq<byte>)
    requires Inv(w) && Told(w) && Enabled(w, AgentFails(k, why))
    ensures Told(Next(w, AgentFails(k, why)))
  {
    var l := w.agent.locals[k];
    LocalId(w, k);
    FailShape(w, k, why);
    hide Inv, Told, Next, AnsweredAt, HasEnd;
    LocalTold(w, Next(w, AgentFails(k, why)), k, l.(done := true), LocalError(w.agent, k, why).frames);
  }

  lemma CloseTold(w: World, k: nat)
    requires Inv(w) && Told(w) && Enabled(w, AgentCloses(k))
    ensures Told(Next(w, AgentCloses(k)))
  {
    var l := w.agent.locals[k];
    LocalId(w, k);
    CloseEventShape(w, k);
    hide Inv, Told, Next, AnsweredAt, HasEnd;
    LocalTold(w, Next(w, AgentCloses(k)), k, l.(closed := true, done := true), LocalClosed(w.agent, k).frames);
  }

  lemma AgentShutTold(w: World, z: World)
    requires Told(w) && !z.agent.open && z.app == w.app && z.toAgent == w.toAgent && z.toApp == w.toApp
    requires z.agent.allowed == w.agent.allowed && |z.agent.locals| == |w.agent.locals|
    requires forall k :: 0 <= k < |w.agent.locals| ==>
               z.agent.locals[k].id == w.agent.locals[k].id && z.agent.locals[k].port == w.agent.locals[k].port
               && (w.agent.locals[k].done ==> z.agent.locals[k].done)
    ensures Told(z)
  {
    forall h | 0 <= h < |z.app.socks| ensures TellOk(z, h) {
      assert TellOk(w, h);
      hide Proj, HasClose, HasEnd;
      if Alone(z.agent, z.app.socks[h].id) {
        forall k | 0 <= k < |w.agent.locals| ensures w.agent.locals[k].id != z.app.socks[h].id {
          assert z.agent.locals[k].id == w.agent.locals[k].id;
        }
      }
    }
  }

  lemma AgentShutsTold(w: World)
    requires Told(w)
    ensures Told(Next(w, AgentClosing)) && Told(Next(w, AgentDrop))
  {
    AgentShutTold(w, Next(w, AgentClosing));
    AgentShutTold(w, Next(w, AgentDrop));
  }

  // ── Frames the agent reads ─────────────────────────────────────────────────

  lemma AcceptTells(s: Sock, app: App, a: Agent, b: Agent, port: nat, qa: seq<Frame>, qb: seq<Frame>)
    requires Tells(s, app, a, qa, qb) && Alone(a, s.id) && qa != [] && qa[0] == Open(s.id, port)
    requires b.locals == a.locals + [Local(s.id, port, false, false, false, [], [], [])] && b.open == a.open
    ensures Tells(s, app, b, qa[1..], qb + [])
  {
    assert b.locals[|a.locals|].id == s.id;
    if HasClose(qa) {
      CloseIsLater(qa);
    }
    assert qb + [] == qb;
    assert qb == [] ==> !HasEnd(qb);
    hide HasClose, HasEnd;
  }

  lemma RefuseTells(s: Sock, app: App, a: Agent, qa: seq<Frame>, qb: seq<Frame>, fs: seq<Frame>)
    requires Tells(s, app, a, qa, qb) && Alone(a, s.id) && qa != [] && qa[0].Open?
    requires a.open ==> fs != []
    ensures Tells(s, app, a, qa[1..], qb + fs)
  {
    assert forall i :: 0 <= i < |qa[1..]| ==> !qa[1..][i].Open?;
    hide HasClose, HasEnd;
  }

  /** Frames for a stream the agent has ended, or never had. */
  lemma IgnoredTells(s: Sock, app: App, a: Agent, qa: seq<Frame>, qb: seq<Frame>)
    requires Tells(s, app, a, qa, qb) && qa != [] && !qa[0].Open?
    requires forall k :: 0 <= k < |a.locals| && a.locals[k].id == s.id ==> a.locals[k].done
    ensures Tells(s, app, a, qa[1..], qb + [])
  {
    assert qb + [] == qb;
    assert forall i :: 0 <= i < |qa[1..]| ==> qa[1..][i] == qa[i + 1];
    hide HasClose, HasEnd;
  }

  /** DATA or CLOSE for a stream the agent carries. */
  lemma TakesTells(s: Sock, app: App, a: Agent, b: Agent, k: nat, m: Local, qa: seq<Frame>, qb: seq<Frame>, fs: seq<Frame>)
    requires Tells(s, app, a, qa, qb) && k < |a.locals| && a.locals[k].id == s.id && qa != []
    requires forall j :: 0 <= j < |a.locals| && a.locals[j].id == s.id ==> j == k
    requires b.locals == a.locals[k := m] && b.open == a.open && m.id == s.id && m.port == a.locals[k].port
    requires a.locals[k].done || qa[0].Close? || (fs != [] && HasEnd(fs)) ==> m.done
    requires HasEnd(fs) ==> m.done
    ensures Tells(s, app, b, qa[1..], qb + fs)
  {
    assert b.locals[k].id == s.id;
    if HasEnd(qb + fs) {
      EndIsNew(qb, fs);
    }
    if HasClose(qa) && !qa[0].Close? {
      CloseIsLater(qa);
    }
    hide HasClose, HasEnd;
  }

  /** The parts of the first frame's stream. */
  lemma HeadTells(w: World) returns (h: nat)
    requires Inv(w) && Told(w) && w.toAgent != []
    ensures h < |w.app.socks| && w.app.socks[h].id == w.toAgent[0].id && ToAgentFrame(w.toAgent[0])
    ensures var s := w.app.socks[h];
            && Proj(w.toAgent, s.id) != [] && Proj(w.toAgent, s.id)[0] == w.toAgent[0]
            && Tells(s, w.app, w.agent, Proj(w.toAgent, s.id), Proj(w.toApp, s.id))
            && Related(s, w.agent, Proj(w.toAgent, s.id), Proj(w.toApp, s.id))
  {
    h := HeadFromApp(w);
    hide Tells, Proj, Related;
    assert TellOk(w, h);
  }

  lemma ReadsOpenTold(w: World, full: bool, why: seq<byte>)
    requires Inv(w) && Told(w) && Enabled(w, AgentReads(full, why)) && w.toAgent[0].Open?
    ensures Told(Next(w, AgentReads(full, why)))
  {
    var f := w.toAgent[0];
    var h := HeadTells(w);
    var s, z := w.app.socks[h], Next(w, AgentReads(full, why));
    var qa, qb := Proj(w.toAgent, s.id), Proj(w.toApp, s.id);
    assert HandleOf(f.id) < |w.app.socks| && LocalsValid(w.agent);
    OpenIsNew(w, h);
    hide Inv, Related, Unlinked, Tells, Proj;
    if f.port !in w.agent.allowed || |w.agent.streams| >= w.agent.maxStreams {
      var fs := Reply(w.agent, [Error(f.id, why)]);
      RefuseNew(w, full, why);
      hide Next, Told, AnsweredAt;
      RefuseTells(s, w.app, w.agent, qa, qb, fs);
      AnsweredTold(w, z, f.id, fs, true, h) by { AllAllowed(w); }
    } else {
      AcceptNew(w, full, why);
      hide Next, Told, AnsweredAt;
      AcceptTells(s, w.app, w.agent, z.agent, f.port, qa, qb);
      AnsweredTold(w, z, f.id, [], true, h) by { AllAllowed(w); }
    }
  }

  lemma AllAllowed(w: World)
    requires Told(w)
    ensures PortsAllowed(w.agent)
  {
  }

  lemma RefuseNew(w: World, full: bool, why: seq<byte>)
    requires Enabled(w, AgentReads(full, why)) && w.toAgent[0].Open? && w.toAgent[0].id !in w.agent.streams
    requires HandleOf(w.toAgent[0].id) < |w.app.socks|
    requires w.toAgent[0].port !in w.agent.allowed || |w.agent.streams| >= w.agent.maxStreams
    ensures var f, z := w.toAgent[0], Next(w, AgentReads(full, why));
            AnsweredAt(w, z, f.id, Reply(w.agent, [Error(f.id, why)]), true) && z.agent == w.agent
  {
    hide HandleOf;
  }

  lemma AcceptNew(w: World, full: bool, why: seq<byte>)
    requires Enabled(w, AgentReads(full, why)) && w.toAgent[0].Open? && w.toAgent[0].id !in w.agent.streams
    requires HandleOf(w.toAgent[0].id) < |w.app.socks|
    requires w.toAgent[0].port in w.agent.allowed && |w.agent.streams| < w.agent.maxStreams
    ensures var f, z := w.toAgent[0], Next(w, AgentReads(full, why));
            && AnsweredAt(w, z, f.id, [], true) && z.agent.open == w.agent.open && z.agent.allowed == w.agent.allowed
            && z.agent.locals == w.agent.locals + [Local(f.id, f.port, false, false, false, [], [], [])]
  {
    hide HandleOf;
  }

  lemma ReadsIgnoredTold(w: World, full: bool, why: seq<byte>)
    requires Inv(w) && Told(w) && Enabled(w, AgentReads(full, why)) && !w.toAgent[0].Open?
    requires var id := w.toAgent[0].id; id !in w.agent.streams || (w.toAgent[0].Data? && w.agent.locals[w.agent.streams[id]].done)
    ensures Told(Next(w, AgentReads(full, why)))
  {
    var f, z := w.toAgent[0], Next(w, AgentReads(full, why));
    var h := HeadTells(w);
    var s := w.app.socks[h];
    assert HandleOf(f.id) < |w.app.socks|;
    assert forall k :: 0 <= k < |w.agent.locals| && w.agent.locals[k].id == f.id ==> w.agent.locals[k].done;
    IgnoredShape(w, full, why);
    AllAllowed(w);
    hide Inv, Next, AnsweredAt, Proj, Related, Told, Tells;
    IgnoredTells(s, w.app, w.agent, Proj(w.toAgent, s.id), Proj(w.toApp, s.id));
    AnsweredTold(w, z, f.id, [], true, h);
  }

  lemma ReadsForTold(w: World, z: World, k: nat, m: Local, fs: seq<Frame>, h: nat)
    requires Inv(w) && Told(w) && IsFor(w, k) && h < |w.app.socks|
    requires m.id == w.agent.locals[k].id == w.app.socks[h].id == w.toAgent[0].id && m.port == w.agent.locals[k].port
    requires AnsweredAt(w, z, m.id, fs, true) && z.agent.locals == w.agent.locals[k := m] && z.agent.allowed == w.agent.allowed
    requires w.agent.locals[k].done || w.toAgent[0].Close? || HasEnd(fs) ==> m.done
    ensures Told(z)
  {
    var s := w.app.socks[h];
    assert TellOk(w, h);
    OnlyLocal(w, k);
    ProjHead(w.toAgent, s.id);
    AnsweredOpen(w, z, m.id, fs, true);
    AllAllowed(w);
    hide Inv, Proj, Tells, AnsweredAt, HasEnd, Told;
    TakesTells(s, w.app, w.agent, z.agent, k, m, Proj(w.toAgent, s.id), Proj(w.toApp, s.id), fs);
    AnsweredTold(w, z, m.id, fs, true, h);
  }

  lemma ReadsTakenTold(w: World, full: bool, why: seq<byte>)
    requires Inv(w) && Told(w) && Enabled(w, AgentReads(full, why)) && w.toAgent[0].id in w.agent.streams
    requires w.toAgent[0].Close? || (w.toAgent[0].Data? && !w.agent.locals[w.agent.streams[w.toAgent[0].id]].done)
    ensures Told(Next(w, AgentReads(full, why)))
  {
    hide Inv, AnsweredAt, Next, Told, Tells, Related, Proj, HasEnd;
    var k := StreamIsFor(w);
    var h := HeadTells(w);
    var z := Next(w, AgentReads(full, why));
    AllowedStay(w, full, why);
    if w.toAgent[0].Data? {
      var m, fs := DataShape(w, k, full, why);
      NoEndIn(fs);
      ReadsForTold(w, z, k, m, fs, h);
    } else {
      var m := CloseShape(w, k, full, why);
      NoEndIn([]);
      ReadsForTold(w, z, k, m, [], h);
    }
  }

  lemma AllowedStay(w: World, full: bool, why: seq<byte>)
    requires Enabled(w, AgentReads(full, why))
    ensures Next(w, AgentReads(full, why)).agent.allowed == w.agent.allowed
  {
  }

  lemma NoEndIn(fs: seq<Frame>)
    ensures fs == [] ==> !HasEnd(fs)
  {
  }

  lemma AgentReadsTold(w: World, full: bool, why: seq<byte>)
    requires Inv(w) && Told(w) && Enabled(w, AgentReads(full, why))
    ensures Told(Next(w, AgentReads(full, why)))
  {
    var f := w.toAgent[0];
    assert ToAgentFrame(f);
    hide Told, Next, Inv;
    if f.Open? {
      ReadsOpenTold(w, full, why);
    } else if f.id !in w.agent.streams || (f.Data? && w.agent.locals[w.agent.streams[f.id]].done) {
      ReadsIgnoredTold(w, full, why);
    } else {
      ReadsTakenTold(w, full, why);
    }
  }

  // ── Whole runs ─────────────────────────────────────────────────────────────

  lemma StepTells(w: World, e: Event)
    requires Inv(w) && Told(w) && Enabled(w, e) && Inv(Next(w, e))
    requires e.AppStart? ==> |w.app.socks| < ID_SPACE
    ensures Told(Next(w, e))
  {
    hide Inv, Told;
    match e
    case AppStart(port) => StartTold(w, port);
    case AppWrite(h, chunk) => WriteTold(w, h, chunk);
    case AppFinish(h) => FinishTold(w, h);
    case AppDestroy(h) => DestroyTold(w, h);
    case AppClosing => ClosingTold(w);
    case AppDrop => ClosingTold(w);
    case AppReads(full) => ReadsTold(w, full);
    case AgentReads(full, why) => AgentReadsTold(w, full, why);
    case AgentConnects(k) => ConnectTold(w, k);
    case AgentHasData(k, chunk) => DataTold(w, k, chunk);
    case AgentFails(k, why) => FailTold(w, k, why);
    case AgentCloses(k) => CloseTold(w, k);
    case AgentClosing => AgentShutsTold(w);
    case AgentDrop => AgentShutsTold(w);
    case Cut => CutTold(w);
  }

  lemma CutTold(w: World)
    requires Told(w)
    ensures Told(Next(w, Cut))
  {
    forall h | 0 <= h < |w.app.socks| ensures TellOk(Next(w, Cut), h) {
      assert TellOk(w, h);
    }
  }

  lemma {:induction false} RunTells(w: World, run: seq<Event>, z: World)
    requires Inv(w) && Told(w) && Reaches(w, run, z) && |w.app.socks| + Starts(run) <= ID_SPACE
    ensures Inv(z) && Told(z)
    decreases |run|
  {
    if run != [] {
      StepKeeps(w, run[0]);
      StepTells(w, run[0]);
      StepCount(w, run[0]);
      hide Inv, Told, Next, Enabled;
      RunTells(Next(w, run[0]), run[1..], z);
    }
  }

  /** Every stream is for one port: its socket's, its OPEN's and its local connection's, and that port is allowed. */
  lemma PortsAreKept(w: World, run: seq<Event>, z: World)
    requires Initial(w) && Reaches(w, run, z) && Starts(run) <= ID_SPACE
    ensures forall k :: 0 <= k < |z.agent.locals| ==>
              z.agent.locals[k].port in z.agent.allowed
              && exists h :: 0 <= h < |z.app.socks| && z.app.socks[h].id == z.agent.locals[k].id && z.app.socks[h].port == z.agent.locals[k].port
    ensures forall i :: 0 <= i < |z.toAgent| && z.toAgent[i].Open? ==>
              exists h :: 0 <= h < |z.app.socks| && z.app.socks[h].id == z.toAgent[i].id && z.app.socks[h].port == z.toAgent[i].port
  {
    RunTells(w, run, z);
    hide Reaches;
    forall k | 0 <= k < |z.agent.locals|
      ensures exists h :: 0 <= h < |z.app.socks| && z.app.socks[h].id == z.agent.locals[k].id && z.app.socks[h].port == z.agent.locals[k].port
    {
      var h := SockOfLocal(z, k);
      assert TellOk(z, h);
    }
    forall i | 0 <= i < |z.toAgent| && z.toAgent[i].Open?
      ensures exists h :: 0 <= h < |z.app.socks| && z.app.socks[h].id == z.toAgent[i].id && z.app.socks[h].port == z.toAgent[i].port
    {
      var h := OpenTells(z, i);
    }
  }

  lemma {:induction false} InProj(q: seq<Frame>, i: nat) returns (j: nat)
    requires i < |q|
    ensures j < |Proj(q, q[i].id)| && Proj(q, q[i].id)[j] == q[i]
    decreases |q|
  {
    var id := q[i].id;
    OneProjected(q, id);
    hide Proj;
    if i == 0 {
      j := 0;
    } else {
      assert q[1..][i - 1] == q[i];
      j := InProj(q[1..], i - 1);
      j := if q[0].id == id then j + 1 else j;
    }
  }

  lemma OneProjected(q: seq<Frame>, id: StreamId)
    requires q != []
    ensures Proj(q, id) == (if q[0].id == id then [q[0]] else []) + Proj(q[1..], id)
  {
  }

  lemma {:induction false} OpensAt(q: seq<Frame>, i: nat)
    requires i < |q| && q[i].Open?
    ensures Opens(q) > 0
  {
    if i > 0 {
      OpensAt(q[1..], i - 1);
    }
  }

  lemma OpenTells(z: World, i: nat) returns (h: nat)
    requires Inv(z) && Told(z) && i < |z.toAgent| && z.toAgent[i].Open?
    ensures h < |z.app.socks| && z.app.socks[h].id == z.toAgent[i].id && z.app.socks[h].port == z.toAgent[i].port
  {
    var f := z.toAgent[i];
    assert HandleOf(f.id) < |z.app.socks|;
    h := SockOfId(z.app, f.id);
    var j := InProj(z.toAgent, i);
    OpensAt(Proj(z.toAgent, f.id), j);
    RelatedBefore(z, h);
    assert TellOk(z, h);
    hide Inv, Told, Proj, Opens;
  }

  /** Nothing is on its way for the stream. */
  ghost predicate Settled(z: World, id: StreamId)
  {
    forall f :: (f in z.toAgent || f in z.toApp) && f.id == id ==> false
  }

  lemma SettledProj(z: World, id: StreamId)
    requires Settled(z, id)
    ensures Proj(z.toAgent, id) == [] && Proj(z.toApp, id) == []
  {
    assert forall i :: 0 <= i < |z.toAgent| ==> z.toAgent[i] in z.toAgent;
    assert forall i :: 0 <= i < |z.toApp| ==> z.toApp[i] in z.toApp;
    ProjNone(z.toAgent, id);
    ProjNone(z.toApp, id);
  }

  /**
   * In every run, while both WebSockets are open and nothing is on its way for a stream: its socket has ended
   * if and only if its local connection is done (or there is none: the OPEN was refused), and while neither
   * is, each end has all that the other was given to send.
   */
  lemma EndsMeet(w: World, run: seq<Event>, z: World, h: nat)
    requires Initial(w) && Reaches(w, run, z) && Starts(run) <= ID_SPACE
    requires z.app.open && z.agent.open && h < |z.app.socks| && Settled(z, z.app.socks[h].id)
    ensures (forall k :: 0 <= k < |z.agent.locals| ==> z.agent.locals[k].id != z.app.socks[h].id) ==> z.app.socks[h].remoteEnded
    ensures forall k :: 0 <= k < |z.agent.locals| && z.agent.locals[k].id == z.app.socks[h].id ==>
              var s, l := z.app.socks[h], z.agent.locals[k];
              && (s.remoteEnded <==> l.done)
              && (!s.remoteEnded ==> (s.connecting <==> !l.connected) && s.received == l.produced)
              && (!s.remoteEnded && !s.connecting ==> l.delivered == s.written)
  {
    RunTells(w, run, z);
    hide Reaches;
    var s := z.app.socks[h];
    SettledProj(z, s.id);
    assert TellOk(z, h) && HandleOk(z, h);
    assert !HasClose([]) && DataOf([]) == [];
    forall k | 0 <= k < |z.agent.locals| && z.agent.locals[k].id == s.id
      ensures var l := z.agent.locals[k];
              && (s.remoteEnded <==> l.done)
              && (!s.remoteEnded ==> (s.connecting <==> !l.connected) && s.received == l.produced)
              && (!s.remoteEnded && !s.connecting ==> l.delivered == s.written)
    {
      var l := z.agent.locals[k];
      assert LocalOk(z.agent.open, l);
      hide Inv, Told, TellOk, HandleOk, Proj, DataOf;
      SettledEnds(s, l, z.app.open, z.agent.open);
    }
  }

  lemma SettledEnds(s: Sock, l: Local, appOpen: bool, agentOpen: bool)
    requires appOpen && agentOpen && SockOk(appOpen, s) && LocalOk(agentOpen, l)
    requires Linked(s, l, agentOpen, [], []) && LinkedTold(s, l, appOpen, [], [])
    ensures s.remoteEnded <==> l.done
    ensures !s.remoteEnded ==> (s.connecting <==> !l.connected) && s.received == l.produced
    ensures !s.remoteEnded && !s.connecting ==> l.delivered == s.written
  {
    assert After(PhaseOf(s), []) == PhaseOf(s) && DataOf([]) == [];
  }
}
