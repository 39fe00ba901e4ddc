/** What every run of the tunnel keeps, as long as the 32-bit stream ids of a connection do not run out. */
module TunnelSafety {
  import opened Bytes
  import opened TunnelFrames
  import opened Tunnel

  // ── What the frames of one stream say ──────────────────────────────────────

  /** The frames of stream `id` in a queue. */
  function Proj(q: seq<Frame>, id: StreamId): seq<Frame>
  {
    if q == [] then []
    else (if q[0].id == id then [q[0]] else []) + Proj(q[1..], id)
  }

  function DataOf(q: seq<Frame>): seq<byte>
  {
    if q == [] then [] else (if q[0].Data? then q[0].data else []) + DataOf(q[1..])
  }

  function Opens(q: seq<Frame>): nat
  {
    if q == [] then 0 else (if q[0].Open? then 1 else 0) + Opens(q[1..])
  }

  /** Neither OPENED nor DATA. */
  ghost predicate Quiet(q: seq<Frame>)
  {
    forall i :: 0 <= i < |q| ==> !q[i].Opened? && !q[i].Data?
  }

  /** Where a stream stands in the app: what its next frame may be. */
  datatype Phase = Waiting | Flowing | Gone | Bad

  function Step(p: Phase, f: Frame): Phase
  {
    match p
    case Bad => Bad
    case Gone => if f.Open? then Bad else Gone
    case Waiting => if f.Opened? then Flowing else if f.Close? || f.Error? then Gone else Bad
    case Flowing => if f.Data? then Flowing else if f.Close? || f.Error? then Gone else Bad
  }

  function After(p: Phase, q: seq<Frame>): Phase
    decreases |q|
  {
    if q == [] then p else After(Step(p, q[0]), q[1..])
  }

  function PhaseOf(s: Sock): Phase
  {
    if s.remoteEnded then Gone else if s.connecting then Waiting else Flowing
  }

  lemma {:induction false} ProjAppend(q: seq<Frame>, r: seq<Frame>, id: StreamId)
    ensures Proj(q + r, id) == Proj(q, id) + Proj(r, id)
  {
    if q == [] {
      assert q + r == r;
    } else {
      var rest, first := q[1..] + r, if q[0].id == id then [q[0]] else [];
      assert q + r == [q[0]] + rest;
      ProjAppend(q[1..], r, id);
      assert Proj(q + r, id) == first + Proj(rest, id);
    }
  }

  lemma {:induction false} ProjUniform(r: seq<Frame>, id: StreamId, other: StreamId)
    requires forall i :: 0 <= i < |r| ==> r[i].id == id
    ensures Proj(r, id) == r
    ensures other != id ==> Proj(r, other) == []
  {
    if r != [] {
      ProjUniform(r[1..], id, other);
    }
  }

  lemma {:induction false} DataOfAppend(q: seq<Frame>, r: seq<Frame>)
    ensures DataOf(q + r) == DataOf(q) + DataOf(r)
  {
    if q == [] {
      assert q + r == r;
    } else {
      assert (q + r)[1..] == q[1..] + r;
      DataOfAppend(q[1..], r);
    }
  }

  lemma {:induction false} OpensAppend(q: seq<Frame>, r: seq<Frame>)
    ensures Opens(q + r) == Opens(q) + Opens(r)
  {
    if q == [] {
      assert q + r == r;
    } else {
      assert (q + r)[1..] == q[1..] + r;
      OpensAppend(q[1..], r);
    }
  }

  lemma {:induction false} AfterAppend(p: Phase, q: seq<Frame>, r: seq<Frame>)
    ensures After(p, q + r) == After(After(p, q), r)
    decreases |q|
  {
    if q == [] {
      assert q + r == r;
    } else {
      assert (q + r)[1..] == q[1..] + r;
      AfterAppend(Step(p, q[0]), q[1..], r);
    }
  }

  /** A stream the app has let go of stays let go of, whatever answers are still on their way. */
  lemma {:induction false} GoneStaysGone(q: seq<Frame>)
    requires forall i :: 0 <= i < |q| ==> !q[i].Open?
    ensures After(Gone, q) == Gone
  {
    if q != [] {
      GoneStaysGone(q[1..]);
    }
  }

  lemma {:induction false} QuietPhase(p: Phase, q: seq<Frame>)
    requires p == Waiting || p == Gone
    requires Quiet(q) && forall i :: 0 <= i < |q| ==> !q[i].Open?
    ensures After(p, q) == Waiting || After(p, q) == Gone
    decreases |q|
  {
    if q != [] {
      QuietPhase(Step(p, q[0]), q[1..]);
    }
  }

  /** Splitting a write into frames loses nothing, and every piece fits. */
  lemma {:induction false} DataFramesCarry(id: StreamId, data: seq<byte>)
    ensures var fs := DataFrames(id, data);
            && DataOf(fs) == data && Opens(fs) == 0
            && After(Flowing, fs) == Flowing && After(Gone, fs) == Gone
            && forall i :: 0 <= i < |fs| ==> fs[i].Data? && fs[i].id == id && |fs[i].data| <= MAX_DATA_PAYLOAD
  {
    if data != [] {
      var fs := DataFrames(id, data);
      if |data| <= MAX_DATA_PAYLOAD {
        assert fs[1..] == [];
      } else {
        DataFramesCarry(id, data[MAX_DATA_PAYLOAD..]);
        assert fs[1..] == DataFrames(id, data[MAX_DATA_PAYLOAD..]);
        assert data == data[..MAX_DATA_PAYLOAD] + data[MAX_DATA_PAYLOAD..];
      }
    }
  }

  lemma {:induction false} PendingFramesCarry(id: StreamId, chunks: seq<seq<byte>>)
    ensures var fs := PendingFrames(id, chunks);
            && DataOf(fs) == Concat(chunks) && Opens(fs) == 0
            && forall i :: 0 <= i < |fs| ==> fs[i].Data? && fs[i].id == id && |fs[i].data| <= MAX_DATA_PAYLOAD
  {
    if chunks != [] {
      DataFramesCarry(id, chunks[0]);
      PendingFramesCarry(id, chunks[1..]);
      DataOfAppend(DataFrames(id, chunks[0]), PendingFrames(id, chunks[1..]));
      OpensAppend(DataFrames(id, chunks[0]), PendingFrames(id, chunks[1..]));
    }
  }

  // ── The invariant ──────────────────────────────────────────────────────────

  ghost predicate SockOk(open: bool, s: Sock)
  {
    && (s.destroyed || s.finished ==> s.remoteEnded)
    && (s.connecting ==> s.sent == [])
    && (s.connecting && !s.destroyed ==> Concat(s.pending) == s.written)
    && (!s.connecting ==> s.pending == [])
    && (!s.connecting && open ==> s.sent == s.written)
    && s.sent <= s.written
  }

  ghost predicate LocalOk(open: bool, l: Local)
  {
    && (!l.connected ==> l.sent == [] && l.produced == [])
    && (!l.done && open ==> l.sent == l.produced)
    && (l.closed ==> l.done)
    && l.sent <= l.produced
  }

  /** A CLOSE is only on its way for a socket that has ended. */
  ghost predicate Closes(s: Sock, toAgent: seq<Frame>)
  {
    forall i :: 0 <= i < |toAgent| && toAgent[i].Close? ==> s.remoteEnded
  }

  /** A socket whose OPEN the agent has not accepted (so far). */
  ghost predicate Unlinked(s: Sock, toAgent: seq<Frame>, toApp: seq<Frame>)
  {
    && s.connecting && s.sent == [] && s.received == []
    && DataOf(toAgent) == [] && Opens(toAgent) <= 1 && Quiet(toApp)
  }

  /** A socket and the agent's local connection for it, with the frames between them. */
  ghost predicate Linked(s: Sock, l: Local, agentOpen: bool, toAgent: seq<Frame>, toApp: seq<Frame>)
  {
    var end := After(PhaseOf(s), toApp);
    && Opens(toAgent) == 0
    && end != Bad
    && (agentOpen ==>
      && (l.done ==> end == Gone)
      && (!l.done && !l.connected ==> end == Waiting || end == Gone)
      && (!l.done && l.connected ==> end == Flowing || end == Gone))
    && (!s.remoteEnded ==> s.received + DataOf(toApp) == l.sent)
    && s.received <= l.sent
    && (!l.done ==> l.delivered + DataOf(toAgent) == s.sent)
    && l.delivered <= s.sent
  }

  ghost predicate HandleOk(w: World, h: nat)
    requires h < |w.app.socks|
  {
    var s := w.app.socks[h];
    && SockOk(w.app.open, s)
    && Closes(s, Proj(w.toAgent, s.id))
    && ((forall k :: 0 <= k < |w.agent.locals| ==> w.agent.locals[k].id != s.id)
        ==> Unlinked(s, Proj(w.toAgent, s.id), Proj(w.toApp, s.id)))
    && (forall k :: 0 <= k < |w.agent.locals| && w.agent.locals[k].id == s.id ==>
          Linked(s, w.agent.locals[k], w.agent.open, Proj(w.toAgent, s.id), Proj(w.toApp, s.id)))
  }

  function HandleOf(id: StreamId): nat
  {
    (id + ID_SPACE - 1) % ID_SPACE
  }

  /** The app's tables: ids in order of opening, and a stream listed exactly while its socket has not ended. */
  ghost predicate AppOk(app: App)
  {
    && |app.socks| <= ID_SPACE
    && app.next == IdPlus(1, |app.socks|)
    && |app.streams| <= MAX_STREAMS_PER_AGENT
    && (forall h :: 0 <= h < |app.socks| ==> app.socks[h].id == IdPlus(1, h))
    && (forall id :: id in app.streams ==>
          app.streams[id] < |app.socks| && app.socks[app.streams[id]].id == id && !app.socks[app.streams[id]].remoteEnded)
    && (forall h :: 0 <= h < |app.socks| && !app.socks[h].remoteEnded ==>
          app.socks[h].id in app.streams && app.streams[app.socks[h].id] == h)
  }

  /** The agent's tables: one local connection per id the app opened, listed until it is done with. */
  ghost predicate AgentOk(agent: Agent, count: nat)
  {
    && (forall k :: 0 <= k < |agent.locals| ==> LocalOk(agent.open, agent.locals[k]) && HandleOf(agent.locals[k].id) < count)
    && (forall k, m :: 0 <= k < m < |agent.locals| ==> agent.locals[k].id != agent.locals[m].id)
    && (forall id :: id in agent.streams ==>
          agent.streams[id] < |agent.locals| && agent.locals[agent.streams[id]].id == id)
    && (forall k :: 0 <= k < |agent.locals| && !agent.locals[k].done ==>
          agent.locals[k].id in agent.streams && agent.streams[agent.locals[k].id] == k)
  }

  ghost predicate ToAgentFrame(f: Frame)
  {
    match f
    case Open(_, port) => ValidPort(port)
    case Data(_, data) => |data| <= MAX_DATA_PAYLOAD
    case Close(_) => true
    case _ => false
  }

  ghost predicate ToAppFrame(f: Frame)
  {
    match f
    case Open(_, _) => false
    case Data(_, data) => |data| <= MAX_DATA_PAYLOAD
    case Error(_, body) => |body| <= MAX_DATA_PAYLOAD
    case _ => true
  }

  ghost predicate QueuesOk(w: World)
  {
    && (forall i :: 0 <= i < |w.toAgent| ==> ToAgentFrame(w.toAgent[i]) && HandleOf(w.toAgent[i].id) < |w.app.socks|)
    && (forall i :: 0 <= i < |w.toApp| ==> ToAppFrame(w.toApp[i]) && HandleOf(w.toApp[i].id) < |w.app.socks|)
  }

  ghost predicate Base(w: World)
  {
    && AppOk(w.app) && AgentOk(w.agent, |w.app.socks|) && QueuesOk(w)
    && !w.violation && !w.inUse
  }

  ghost predicate Inv(w: World)
  {
    Base(w) && forall h :: 0 <= h < |w.app.socks| ==> HandleOk(w, h)
  }

  // ── A step touches one stream ──────────────────────────────────────────────

  /** Everything that concerns a stream other than `id` is as it was. */
  ghost predicate OnlyAt(w: World, z: World, id: StreamId)
  {
    && z.app.open == w.app.open && z.agent.open == w.agent.open
    && |w.app.socks| <= |z.app.socks|
    && (forall h :: 0 <= h < |w.app.socks| && w.app.socks[h].id != id ==> z.app.socks[h] == w.app.socks[h])
    && (forall h :: |w.app.socks| <= h < |z.app.socks| ==> z.app.socks[h].id == id)
    && |w.agent.locals| <= |z.agent.locals|
    && (forall k :: 0 <= k < |w.agent.locals| ==>
          z.agent.locals[k].id == w.agent.locals[k].id
          && (w.agent.locals[k].id != id ==> z.agent.locals[k] == w.agent.locals[k]))
    && (forall k :: |w.agent.locals| <= k < |z.agent.locals| ==> z.agent.locals[k].id == id)
    && (forall other :: other != id ==>
          Proj(z.toAgent, other) == Proj(w.toAgent, other) && Proj(z.toApp, other) == Proj(w.toApp, other))
  }

  lemma OtherStreamsKeep(w: World, z: World, id: StreamId)
    requires Inv(w) && Base(z) && OnlyAt(w, z, id)
    requires forall h :: 0 <= h < |z.app.socks| && z.app.socks[h].id == id ==> HandleOk(z, h)
    ensures Inv(z)
  {
    forall h | 0 <= h < |z.app.socks| ensures HandleOk(z, h) {
      if z.app.socks[h].id != id {
        assert h < |w.app.socks|;
        assert w.app.socks[h].id == IdPlus(1, h) == z.app.socks[h].id;
        assert HandleOk(w, h);
        var s := w.app.socks[h];
        if forall k :: 0 <= k < |z.agent.locals| ==> z.agent.locals[k].id != s.id {
          forall k | 0 <= k < |w.agent.locals| ensures w.agent.locals[k].id != s.id {
            assert z.agent.locals[k].id == w.agent.locals[k].id;
          }
        }
      }
    }
  }

  /** Frames of stream `id` appended to, or taken from the front of, a queue. */
  lemma QueueOnlyAt(q: seq<Frame>, fs: seq<Frame>, id: StreamId)
    requires forall i :: 0 <= i < |fs| ==> fs[i].id == id
    ensures Proj(q + fs, id) == Proj(q, id) + fs
    ensures forall other :: other != id ==> Proj(q + fs, other) == Proj(q, other)
  {
    ProjAppend(q, fs, id);
    ProjUniform(fs, id, id);
    forall other | other != id ensures Proj(q + fs, other) == Proj(q, other) {
      ProjAppend(q, fs, other);
      ProjUniform(fs, id, other);
    }
  }

  lemma {:induction false} ProjMembers(q: seq<Frame>, id: StreamId)
    requires forall i :: 0 <= i < |q| ==> !q[i].Open?
    ensures forall i :: 0 <= i < |Proj(q, id)| ==> !Proj(q, id)[i].Open?
  {
    if q != [] {
      ProjMembers(q[1..], id);
    }
  }

  lemma HandleIds(h: nat)
    requires h < ID_SPACE
    ensures HandleOf(IdPlus(1, h)) == h
  {
  }

  /** Ids and places in the list of sockets go together. */
  lemma IdOfHandle(id: StreamId)
    ensures IdPlus(1, HandleOf(id)) == id
  {
  }

  lemma {:induction false} ProjNone(q: seq<Frame>, id: StreamId)
    requires forall i :: 0 <= i < |q| ==> q[i].id != id
    ensures Proj(q, id) == []
  {
    if q != [] {
      ProjNone(q[1..], id);
    }
  }

  lemma {:induction false} QuietData(q: seq<Frame>)
    requires Quiet(q)
    ensures DataOf(q) == []
  {
    if q != [] {
      QuietData(q[1..]);
    }
  }

  // ── One stream, one step ───────────────────────────────────────────────────

  lemma PrefixOfMore(a: seq<byte>, b: seq<byte>, c: seq<byte>)
    requires a <= b
    ensures a <= b + c
  {
  }

  lemma LinkedSends(s: Sock, t: Sock, l: Local, agentOpen: bool, qa: seq<Frame>, qb: seq<Frame>, fs: seq<Frame>)
    requires Linked(s, l, agentOpen, qa, qb)
    requires PhaseOf(t) == PhaseOf(s) && t.remoteEnded == s.remoteEnded && t.received == s.received
    requires t.sent == s.sent + DataOf(fs) && Opens(fs) == 0
    ensures Linked(t, l, agentOpen, qa + fs, qb)
  {
    hide DataOf, Opens, After;
    DataOfAppend(qa, fs);
    OpensAppend(qa, fs);
    assert l.delivered + (DataOf(qa) + DataOf(fs)) == (l.delivered + DataOf(qa)) + DataOf(fs);
    PrefixOfMore(l.delivered, s.sent, DataOf(fs));
  }

  /** The app lets go of a stream, with or without a CLOSE. */
  lemma LinkedEnds(s: Sock, t: Sock, l: Local, agentOpen: bool, qa: seq<Frame>, qb: seq<Frame>, fs: seq<Frame>)
    requires Linked(s, l, agentOpen, qa, qb)
    requires t.remoteEnded && t.received == s.received && t.sent == s.sent
    requires DataOf(fs) == [] && Opens(fs) == 0
    requires forall i :: 0 <= i < |qb| ==> !qb[i].Open?
    ensures Linked(t, l, agentOpen, qa + fs, qb)
  {
    DataOfAppend(qa, fs);
    OpensAppend(qa, fs);
    GoneStaysGone(qb);
    if !l.done {
      assert s.sent + [] == s.sent;
    }
  }

  lemma UnlinkedEnds(s: Sock, t: Sock, qa: seq<Frame>, qb: seq<Frame>, fs: seq<Frame>)
    requires Unlinked(s, qa, qb)
    requires t.connecting && t.received == s.received && t.sent == s.sent
    requires DataOf(fs) == [] && Opens(fs) == 0
    ensures Unlinked(t, qa + fs, qb)
  {
    DataOfAppend(qa, fs);
    OpensAppend(qa, fs);
  }

  lemma LinkedAnswers(s: Sock, l: Local, m: Local, agentOpen: bool, qa: seq<Frame>, qb: seq<Frame>, fs: seq<Frame>)
    requires Linked(s, l, agentOpen, qa, qb)
    requires m.delivered == l.delivered && m.sent == l.sent + DataOf(fs) && (l.done ==> m.done)
    requires var end := After(After(PhaseOf(s), qb), fs);
             && end != Bad
             && (agentOpen ==>
               && (m.done ==> end == Gone)
               && (!m.done && !m.connected ==> end == Waiting || end == Gone)
               && (!m.done && m.connected ==> end == Flowing || end == Gone))
    ensures Linked(s, m, agentOpen, qa, qb + fs)
  {
    DataOfAppend(qb, fs);
    AfterAppend(PhaseOf(s), qb, fs);
    if !s.remoteEnded {
    }
  }

  lemma {:induction false} ProjIds(q: seq<Frame>, id: StreamId)
    ensures forall i :: 0 <= i < |Proj(q, id)| ==> Proj(q, id)[i] in q && Proj(q, id)[i].id == id
  {
    if q != [] {
      ProjIds(q[1..], id);
    }
  }
}
