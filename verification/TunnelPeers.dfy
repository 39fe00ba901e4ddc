/** The two ends of the tunnel as the objects the source keeps, each method proved to take its model's step. */
module TunnelPeers {
  import opened Bytes
  import opened TunnelFrames
  import T = Tunnel

  /** A socket whose bytes were handed to the WebSocket. */
  ghost function Sending(s: T.Sock, open: bool, data: seq<byte>): (t: T.Sock)
    ensures t.id == s.id
  {
    if open then s.(sent := s.sent + data) else s
  }

  lemma NothingFlushed(s: T.Sock, open: bool, app: T.App, out: seq<Frame>)
    ensures out + T.Send(app, T.PendingFrames(s.id, [])) == out && Sending(s, open, T.Concat([])) == s
  {
    assert s.sent + [] == s.sent;
  }

  /** One more chunk after those already written. */
  lemma OneFlushed(s: T.Sock, open: bool, app: T.App, out: seq<Frame>, flushed: seq<seq<byte>>, chunk: seq<byte>)
    ensures out + T.Send(app, T.PendingFrames(s.id, flushed + [chunk]))
         == out + T.Send(app, T.PendingFrames(s.id, flushed)) + T.Send(app, DataFrames(s.id, chunk))
    ensures Sending(s, open, T.Concat(flushed + [chunk])) == Sending(Sending(s, open, T.Concat(flushed)), open, chunk)
  {
    T.PendingAppend(s.id, flushed, chunk);
    hide T.PendingFrames, T.Concat, DataFrames;
    assert s.sent + (T.Concat(flushed) + chunk) == (s.sent + T.Concat(flushed)) + chunk;
  }

  /** The app's end of one agent connection: its hub entry and the tunnel sockets it carries. */
  class AgentConnection {
    var wsOpen: bool
    var live: bool
    var nextStreamId: StreamId
    var streams: map<StreamId, nat>
    var socks: seq<T.Sock>
    /** The frames handed to the WebSocket so far. */
    var out: seq<Frame>

    ghost function State(): T.App
      reads this
    {
      T.App(wsOpen, live, nextStreamId, streams, socks)
    }

    ghost predicate Valid()
      reads this
    {
      && |streams.Keys| < ID_SPACE
      && forall id :: id in streams ==> streams[id] < |socks| && socks[streams[id]].id == id
    }

    constructor ()
      ensures Valid() && State() == T.App(true, true, 1, map[], []) && out == []
    {
      wsOpen, live, nextStreamId := true, true, 1;
      streams, socks, out := map[], [], [];
    }

    method Send(frame: Frame)
      requires Valid()
      modifies this`out
      ensures Valid() && out == old(out) + T.Send(State(), [frame])
    {
      if wsOpen {
        out := out + [frame];
      }
    }

    /** Takes ids in turn, going round at 2^32 and passing over those still in use. */
    method AllocateStreamId() returns (id: StreamId)
      requires Valid()
      modifies this`nextStreamId
      ensures id == T.FirstFree(streams.Keys, old(nextStreamId), 0)
      ensures nextStreamId == T.NextId(id)
    {
      ghost var start, used := nextStreamId, streams.Keys;
      ghost var k := 0;
      id := nextStreamId;
      nextStreamId := T.NextId(id);
      while id in streams
        invariant used == streams.Keys && |used| < ID_SPACE
        invariant k <= |used| && id == T.IdPlus(start, k) && nextStreamId == T.NextId(id)
        invariant forall j: nat :: j < k ==> T.IdPlus(start, j) in used
        invariant T.FirstFree(used, start, k) == T.FirstFree(used, start, 0)
        decreases |used| - k
      {
        T.WindowSize(used, start, k + 1);
        T.NextIsPlus(start, k);
        k := k + 1;
        id := nextStreamId;
        nextStreamId := T.NextId(id);
      }
    }

    method StartStream(port: nat)
      requires Valid() && ValidPort(port)
      modifies this
      ensures Valid()
      ensures var o := T.StartStream(old(State()), port); State() == o.app && out == old(out) + o.frames
      // Room on a live connection: a new socket for that port, under an id no stream has, and its OPEN
      ensures old(live) && |old(streams)| < 64 ==>
                && |socks| == |old(socks)| + 1 && socks[..|old(socks)|] == old(socks)
                && var s := socks[|old(socks)|];
                && s.port == port && s.connecting && !s.remoteEnded && !s.destroyed && s.pending == []
                && s.id !in old(streams) && streams == old(streams)[s.id := |old(socks)|]
                && out == old(out) + if wsOpen then [Open(s.id, port)] else []
      // Otherwise nothing happens
      ensures !old(live) || |old(streams)| >= 64 ==> State() == old(State()) && out == old(out)
      ensures wsOpen == old(wsOpen) && live == old(live)
    {
      if !live || |streams| >= T.MAX_STREAMS_PER_AGENT {
        return;
      }
      var id := AllocateStreamId();
      streams := streams[id := |socks|];
      socks := socks + [T.Sock(id, port, true, false, false, false, [], [], [], [])];
      Send(Open(id, port));
    }

    method Release(h: nat)
      requires Valid() && h < |socks|
      modifies this`streams
      ensures Valid() && State() == T.Forget(old(State()), h)
    {
      var id := socks[h].id;
      if id in streams && streams[id] == h {
        streams := streams - {id};
      }
    }

    method LinkClose(h: nat)
      requires Valid() && h < |socks|
      modifies this`streams, this`out
      ensures Valid()
      ensures var o := T.LinkClose(old(State()), h); State() == o.app && out == old(out) + o.frames
      ensures var id := socks[h].id;
              var due := id in old(streams) && old(streams)[id] == h;
              && out == old(out) + (if due && wsOpen then [Close(id)] else [])
              && streams == if due then old(streams) - {id} else old(streams)
    {
      var id := socks[h].id;
      if id !in streams || streams[id] != h {
        return;
      }
      Release(h);
      Send(Close(id));
    }

    /** The link's `write`: every frame of the chunk, in order. */
    method LinkWrite(h: nat, data: seq<byte>)
      requires Valid() && h < |socks|
      modifies this`out, this`socks
      ensures Valid()
      ensures out == old(out) + T.Send(old(State()), DataFrames(old(socks[h].id), data))
      ensures socks == old(socks)[h := Sending(old(socks[h]), wsOpen, data)]
    {
      var frames := EncodeDataFrames(socks[h].id, data);
      for i := 0 to |frames|
        invariant Valid() && socks == old(socks)
        invariant out == old(out) + T.Send(old(State()), frames[..i])
      {
        Send(frames[i]);
        assert frames[..i + 1] == frames[..i] + [frames[i]];
      }
      assert frames[..|frames|] == frames;
      if wsOpen {
        socks := socks[h := socks[h].(sent := socks[h].sent + data)];
      }
    }

    /** `_write` of socket `h`. */
    method Write(h: nat, chunk: seq<byte>)
      requires Valid() && h < |socks|
      modifies this`out, this`socks
      ensures Valid()
      ensures var o := T.Write(old(State()), h, chunk); State() == o.app && out == old(out) + o.frames
    {
      var s := socks[h];
      if s.connecting {
        socks := socks[h := s.(pending := s.pending + [chunk], written := s.written + chunk)];
      } else {
        hide DataFrames;
        socks := socks[h := s.(written := s.written + chunk)];
        LinkWrite(h, chunk);
        assert socks == old(socks)[h := socks[h]];
      }
    }

    /** `_final` of socket `h`. */
    method Finish(h: nat)
      requires Valid() && h < |socks|
      modifies this
      ensures Valid()
      ensures var o := T.Finish(old(State()), h); State() == o.app && out == old(out) + o.frames
      ensures |socks| == |old(socks)| && socks[h] == old(socks)[h].(finished := true, remoteEnded := true)
      ensures var s := old(socks)[h];
              var due := !s.remoteEnded && s.id in old(streams) && old(streams)[s.id] == h;
              && out == old(out) + (if due && wsOpen then [Close(s.id)] else [])
              && streams == if due then old(streams) - {s.id} else old(streams)
    {
      var ended := socks[h].remoteEnded;
      socks := socks[h := socks[h].(finished := true, remoteEnded := true)];
      if !ended {
        LinkClose(h);
      }
    }

    /** `_destroy` of socket `h`. */
    method Destroy(h: nat)
      requires Valid() && h < |socks|
      modifies this
      ensures Valid()
      ensures var o := T.Destroy(old(State()), h); State() == o.app && out == old(out) + o.frames
      ensures |socks| == |old(socks)| && socks[h] == old(socks)[h].(destroyed := true, remoteEnded := true, pending := [])
      ensures var s := old(socks)[h];
              var due := !s.remoteEnded && s.id in old(streams) && old(streams)[s.id] == h;
              && out == old(out) + (if due && wsOpen then [Close(s.id)] else [])
              && streams == if due then old(streams) - {s.id} else old(streams)
    {
      hide T.LinkClose;
      var ended := socks[h].remoteEnded;
      socks := socks[h := socks[h].(destroyed := true, remoteEnded := true, pending := [])];
      if !ended {
        LinkClose(h);
      }
    }

    method Fail(h: nat)
      requires Valid() && h < |socks|
      modifies this`socks, this`streams
      ensures Valid() && State() == T.Fail(old(State()), h)
      ensures socks == old(socks)[h := old(socks)[h].(remoteEnded := true, destroyed := true, pending := [])]
    {
      socks := socks[h := socks[h].(remoteEnded := true, destroyed := true, pending := [])];
      Release(h);
    }

    method Opened(h: nat)
      requires Valid() && h < |socks|
      modifies this`socks, this`out
      ensures Valid()
      ensures var o := T.OpenedBy(old(State()), h); State() == o.app && out == old(out) + o.frames
    {
      var s := socks[h];
      if !s.connecting || s.destroyed {
        return;
      }
      socks := socks[h := s.(connecting := false, pending := [])];
      hide T.PendingFrames, T.Concat, DataFrames;
      FlushPending(h, s.pending);
      assert socks == old(socks)[h := socks[h]];
    }

    /** What was written while connecting goes out in the order it was written. */
    method FlushPending(h: nat, chunks: seq<seq<byte>>)
      requires Valid() && h < |socks|
      modifies this`socks, this`out
      ensures Valid()
      ensures out == old(out) + T.Send(old(State()), T.PendingFrames(old(socks[h].id), chunks))
      ensures socks == old(socks)[h := Sending(old(socks[h]), wsOpen, T.Concat(chunks))]
    {
      ghost var app, before, s := State(), out, socks[h];
      ghost var flushed: seq<seq<byte>> := [];
      NothingFlushed(s, wsOpen, app, before);
      hide T.PendingFrames, T.Concat, DataFrames, Sending;
      for i := 0 to |chunks|
        invariant Valid() && socks == old(socks)[h := Sending(s, wsOpen, T.Concat(flushed))]
        invariant flushed == chunks[..i] && out == before + T.Send(app, T.PendingFrames(s.id, flushed))
      {
        OneFlushed(s, wsOpen, app, before, flushed, chunks[i]);
        assert chunks[..i + 1] == flushed + [chunks[i]];
        LinkWrite(h, chunks[i]);
        flushed := flushed + [chunks[i]];
      }
      assert chunks[..|chunks|] == chunks;
    }

    method Receive(h: nat, data: seq<byte>, full: bool)
      requires Valid() && h < |socks|
      modifies this
      ensures Valid()
      ensures var o := T.Receive(old(State()), h, data, full); State() == o.app && out == old(out) + o.frames
      ensures var s := old(socks)[h];
              && |socks| == |old(socks)|
              && (s.destroyed || s.remoteEnded ==> State() == old(State()) && out == old(out))
              && (!s.destroyed && !s.remoteEnded && !full ==> socks == old(socks)[h := s.(received := s.received + data)] && out == old(out))
              && (!s.destroyed && !s.remoteEnded && full ==> socks[h].destroyed && socks[h].received == s.received)
    {
      var s := socks[h];
      if s.destroyed || s.remoteEnded {
        return;
      }
      if full {
        Destroy(h);
        return;
      }
      socks := socks[h := s.(received := s.received + data)];
    }

    method RemoteClose(h: nat)
      requires Valid() && h < |socks|
      modifies this`socks, this`streams
      ensures Valid() && State() == T.RemoteClose(old(State()), h)
      ensures socks == old(socks)[h := old(socks)[h].(remoteEnded := true)]
    {
      if socks[h].remoteEnded {
        return;
      }
      socks := socks[h := socks[h].(remoteEnded := true)];
      Release(h);
    }

    method ProtocolViolation()
      requires Valid()
      modifies this`wsOpen
      ensures Valid() && !wsOpen
    {
      wsOpen := false;
    }

    /** A frame that decoded; `violation` when it ends the connection. */
    method OnMessage(f: Frame, full: bool) returns (violation: bool)
      requires Valid()
      modifies this
      ensures Valid()
      ensures var o := T.OnMessage(old(State()), f, full);
              State() == o.app && out == old(out) + o.frames && violation == o.violation
    {
      violation := false;
      var known := f.id in streams;
      match f {
        case Open(_, _) =>
          ProtocolViolation();
          violation := true;
        case Opened(id) =>
          if known {
            if !socks[streams[id]].connecting {
              ProtocolViolation();
              violation := true;
            } else {
              Opened(streams[id]);
            }
          }
        case Data(id, data) =>
          if known {
            if socks[streams[id]].connecting {
              ProtocolViolation();
              violation := true;
            } else {
              Receive(streams[id], data, full);
            }
          }
        case Close(id) =>
          if known {
            RemoteClose(streams[id]);
          }
        case Error(id, _) =>
          if known {
            Fail(streams[id]);
          }
      }
    }

    /** A raw message: what does not decode is a violation too. */
    method OnRaw(raw: seq<byte>, isError: seq<byte> -> bool, full: bool) returns (violation: bool)
      requires Valid()
      modifies this
      ensures Valid()
      ensures match Decode(raw, isError)
              case ProtocolError => violation && State() == old(State()).(open := false) && out == old(out)
              case Ok(f) =>
                var o := T.OnMessage(old(State()), f, full);
                State() == o.app && out == old(out) + o.frames && violation == o.violation
    {
      match Decode(raw, isError) {
        case ProtocolError =>
          ProtocolViolation();
          violation := true;
        case Ok(f) =>
          violation := OnMessage(f, full);
      }
    }

    /** The WebSocket closed: every stream fails. */
    method OnClose()
      requires Valid()
      modifies this
      ensures Valid() && State() == T.DropApp(old(State())) && out == old(out)
    {
      hide FailedBut;
      var failing := streams;
      ghost var before := socks;
      NoneFailed(socks, failing);
      streams := map[];
      wsOpen, live := false, false;
      var ids := failing.Keys;
      while ids != {}
        invariant ids <= failing.Keys && Valid() && streams == map[] && !wsOpen && !live
        invariant nextStreamId == old(nextStreamId) && out == old(out)
        invariant |socks| == |before| && FailedBut(socks, before, failing, ids)
        decreases ids
      {
        var id :| id in ids;
        ghost var now := socks;
        Fail(failing[id]);
        OneMoreFailed(now, before, failing, ids, id);
        ids := ids - {id};
      }
      AllFailed(socks, before, failing);
    }
  }

  /** The sockets once those still linked have failed, all but those of `ids`. */
  ghost predicate FailedBut(now: seq<T.Sock>, before: seq<T.Sock>, failing: map<StreamId, nat>, ids: set<StreamId>)
    requires |now| == |before|
  {
    forall h :: 0 <= h < |now| ==>
      now[h] == var s := before[h]; if s.id in failing && failing[s.id] == h && s.id !in ids then T.Failed(s) else s
  }

  lemma NoneFailed(socks: seq<T.Sock>, failing: map<StreamId, nat>)
    ensures FailedBut(socks, socks, failing, failing.Keys)
  {
  }

  lemma OneMoreFailed(now: seq<T.Sock>, before: seq<T.Sock>, failing: map<StreamId, nat>, ids: set<StreamId>, id: StreamId)
    requires |now| == |before| && FailedBut(now, before, failing, ids) && id in ids && id in failing
    requires failing[id] < |before| && before[failing[id]].id == id
    ensures FailedBut(now[failing[id] := T.Failed(now[failing[id]])], before, failing, ids - {id})
  {
  }

  lemma AllFailed(now: seq<T.Sock>, before: seq<T.Sock>, failing: map<StreamId, nat>)
    requires |now| == |before| && FailedBut(now, before, failing, {})
    ensures forall h :: 0 <= h < |now| ==>
      now[h] == if before[h].id in failing && failing[before[h].id] == h then T.Failed(before[h]) else before[h]
  {
  }

  /** The agent's end: its map of local connections. */
  class TunnelAgent {
    var wsOpen: bool
    const allowed: set<nat>
    const maxStreams: nat
    var streams: map<StreamId, nat>
    var locals: seq<T.Local>
    var out: seq<Frame>

    ghost function State(): T.Agent
      reads this
    {
      T.Agent(wsOpen, allowed, maxStreams, streams, locals)
    }

    ghost predicate Valid()
      reads this
    {
      forall id :: id in streams ==> streams[id] < |locals| && locals[streams[id]].id == id
    }

    /** The ports given, or 22 alone when none are. */
    constructor (ports: set<nat>, maxStreams: nat)
      ensures Valid() && out == []
      ensures State() == T.Agent(true, if ports == {} then {22} else ports, maxStreams, map[], [])
    {
      this.allowed := if ports == {} then {22} else ports;
      this.maxStreams := maxStreams;
      wsOpen, streams, locals, out := true, map[], [], [];
    }

    method Send(frame: Frame)
      modifies this`out
      ensures out == old(out) + T.Reply(State(), [frame])
    {
      if wsOpen {
        out := out + [frame];
      }
    }

    method OpenStream(id: StreamId, port: nat, why: seq<byte>)
      requires Valid()
      modifies this
      ensures Valid()
      ensures var o := T.OpenStream(old(State()), id, port, why); State() == o.agent && out == old(out) + o.frames
      ensures var taken := id !in old(streams) && port in allowed && |old(streams)| < maxStreams;
              && (taken ==> locals == old(locals) + [T.Local(id, port, false, false, false, [], [], [])]
                            && streams == old(streams)[id := |old(locals)|] && out == old(out))
              && (!taken ==> locals == old(locals) && streams == old(streams)
                             && out == old(out) + if wsOpen then [Error(id, why)] else [])
    {
      if id in streams {
        Send(Error(id, why));
        return;
      }
      if port !in allowed {
        Send(Error(id, why));
        return;
      }
      if |streams| >= maxStreams {
        Send(Error(id, why));
        return;
      }
      streams := streams[id := |locals|];
      locals := locals + [T.Local(id, port, false, false, false, [], [], [])];
    }

    method OnFrame(f: Frame, full: bool, why: seq<byte>) returns (violation: bool)
      requires Valid()
      modifies this
      ensures Valid()
      ensures var o := T.OnFrame(old(State()), f, full, why);
              State() == o.agent && out == old(out) + o.frames && violation == o.violation
    {
      violation := false;
      match f {
        case Open(id, port) =>
          OpenStream(id, port, why);
        case Data(id, data) =>
          if id !in streams || locals[streams[id]].done {
            return;
          }
          var k := streams[id];
          locals := locals[k := locals[k].(delivered := locals[k].delivered + data)];
          if full {
            locals := locals[k := locals[k].(done := true)];
            Send(Error(id, why));
          }
        case Close(id) =>
          Ended(id);
        case Error(id, _) =>
          Ended(id);
        case Opened(_) =>
          wsOpen := false;
          violation := true;
      }
    }

    method Ended(id: StreamId)
      requires Valid()
      modifies this`locals, this`streams
      ensures Valid()
      ensures id !in old(streams) ==> State() == old(State())
      ensures id in old(streams) ==>
                State() == old(State()).(streams := old(streams) - {id},
                                         locals := old(locals)[old(streams)[id] := old(locals)[old(streams)[id]].(done := true)])
    {
      if id !in streams {
        return;
      }
      var k := streams[id];
      locals := locals[k := locals[k].(done := true)];
      streams := streams - {id};
    }

    method OnConnect(k: nat)
      requires Valid() && k < |locals|
      modifies this`locals, this`out
      ensures Valid()
      ensures var o := T.Connected(old(State()), k); State() == o.agent && out == old(out) + o.frames
    {
      locals := locals[k := locals[k].(connected := true)];
      Send(Opened(locals[k].id));
    }

    method OnData(k: nat, chunk: seq<byte>)
      requires Valid() && k < |locals|
      modifies this`locals, this`out
      ensures Valid()
      ensures var o := T.LocalData(old(State()), k, chunk); State() == o.agent && out == old(out) + o.frames
    {
      var l := locals[k];
      locals := locals[k := l.(produced := l.produced + chunk)];
      if l.done {
        return;
      }
      var frames := EncodeDataFrames(l.id, chunk);
      for i := 0 to |frames|
        invariant Valid() && locals == old(locals)[k := l.(produced := l.produced + chunk)]
        invariant out == old(out) + T.Reply(old(State()), frames[..i])
      {
        Send(frames[i]);
        assert frames[..i + 1] == frames[..i] + [frames[i]];
      }
      assert frames[..|frames|] == frames;
      if wsOpen {
        locals := locals[k := locals[k].(sent := l.sent + chunk)];
      }
    }

    method OnError(k: nat, why: seq<byte>)
      requires Valid() && k < |locals|
      modifies this`locals, this`out
      ensures Valid()
      ensures var o := T.LocalError(old(State()), k, why); State() == o.agent && out == old(out) + o.frames
    {
      if locals[k].done {
        return;
      }
      locals := locals[k := locals[k].(done := true)];
      Send(Error(locals[k].id, why));
    }

    method OnLocalClose(k: nat)
      requires Valid() && k < |locals|
      modifies this
      ensures Valid()
      ensures var o := T.LocalClosed(old(State()), k); State() == o.agent && out == old(out) + o.frames
    {
      var l := locals[k];
      if l.id in streams && streams[l.id] == k {
        streams := streams - {l.id};
      }
      locals := locals[k := l.(closed := true, done := true)];
      if l.done {
        return;
      }
      Send(Close(l.id));
    }

    /** The WebSocket closed: `destroyAll`. */
    method DestroyAll()
      requires Valid()
      modifies this
      ensures Valid() && State() == T.DropAgent(old(State())) && out == old(out)
    {
      hide DoneBut;
      wsOpen := false;
      var ids := streams.Keys;
      ghost var before := locals;
      NoneDone(locals, streams);
      while ids != {}
        invariant ids <= streams.Keys && Valid() && streams == old(streams) && !wsOpen && out == old(out)
        invariant |locals| == |before| && DoneBut(locals, before, streams, ids)
        decreases ids
      {
        var id :| id in ids;
        var k := streams[id];
        OneMoreDone(locals, before, streams, ids, id);
        locals := locals[k := locals[k].(done := true)];
        ids := ids - {id};
      }
      AllAreDone(locals, before, streams);
      streams := map[];
    }
  }

  /** The local connections once those with a stream are done, all but those of `ids`. */
  ghost predicate DoneBut(now: seq<T.Local>, before: seq<T.Local>, streams: map<StreamId, nat>, ids: set<StreamId>)
    requires |now| == |before|
  {
    forall k :: 0 <= k < |now| ==>
      now[k] == var l := before[k]; if l.id in streams && streams[l.id] == k && l.id !in ids then l.(done := true) else l
  }

  lemma NoneDone(locals: seq<T.Local>, streams: map<StreamId, nat>)
    ensures DoneBut(locals, locals, streams, streams.Keys)
  {
  }

  lemma OneMoreDone(now: seq<T.Local>, before: seq<T.Local>, streams: map<StreamId, nat>, ids: set<StreamId>, id: StreamId)
    requires |now| == |before| && DoneBut(now, before, streams, ids) && id in ids && id in streams
    requires streams[id] < |now| && now[streams[id]].id == id
    ensures DoneBut(now[streams[id] := now[streams[id]].(done := true)], before, streams, ids - {id})
  {
  }

  lemma AllAreDone(now: seq<T.Local>, before: seq<T.Local>, streams: map<StreamId, nat>)
    requires |now| == |before| && DoneBut(now, before, streams, {})
    ensures forall k :: 0 <= k < |now| ==>
      now[k] == if before[k].id in streams && streams[before[k].id] == k then before[k].(done := true) else before[k]
  {
  }
}
