/** Docker's multiplexed exec stream: split at once, and frame by frame as it arrives. */
module Demux {
  import opened Bytes

  const STDERR := 2

  datatype Streams = Streams(out: seq<byte>, err: seq<byte>)

  function Plus(a: Streams, b: Streams): Streams
  {
    Streams(a.out + b.out, a.err + b.err)
  }

  function Frame(kind: byte, payload: seq<byte>): Streams
  {
    if kind == STDERR then Streams([], payload) else Streams(payload, [])
  }

  function SizeOf(data: seq<byte>): nat
    requires |data| >= 8
  {
    FromBE(data[4..8])
  }

  /** `data.subarray(from, to)`: a range past the end is cut short. */
  function Sub(data: seq<byte>, from: nat, to: nat): seq<byte>
    requires from <= to
  {
    if to <= |data| then data[from..to] else if from <= |data| then data[from..] else []
  }

  /** `demux` */
  function Batch(data: seq<byte>): Streams
    decreases |data|
  {
    if |data| < 8 then Streams([], [])
    else
      var end := 8 + SizeOf(data);
      Plus(Frame(data[0], Sub(data, 8, end)), if end <= |data| then Batch(data[end..]) else Streams([], []))
  }

  datatype Delivered = Delivered(streams: Streams, pending: seq<byte>)

  /** The complete frames of `data`, and what is left over. */
  function Whole(data: seq<byte>): Delivered
    decreases |data|
  {
    if |data| < 8 || |data| < 8 + SizeOf(data) then Delivered(Streams([], []), data)
    else
      var end := 8 + SizeOf(data);
      var rest := Whole(data[end..]);
      Delivered(Plus(Frame(data[0], data[8..end]), rest.streams), rest.pending)
  }

  lemma PlusGroups(a: Streams, b: Streams, c: Streams)
    ensures Plus(Plus(a, b), c) == Plus(a, Plus(b, c))
    ensures Plus(Streams([], []), a) == a && Plus(a, Streams([], [])) == a
  {
  }

  lemma OneFrame(data: seq<byte>)
    ensures Whole(data) ==
      if |data| < 8 || |data| < 8 + SizeOf(data) then Delivered(Streams([], []), data)
      else Delivered(Plus(Frame(data[0], data[8..8 + SizeOf(data)]), Whole(data[8 + SizeOf(data)..]).streams),
                     Whole(data[8 + SizeOf(data)..]).pending)
  {
  }

  /** Handing over what is complete and keeping the rest gives the same as waiting for more. */
  lemma {:induction false} WholeAppend(a: seq<byte>, b: seq<byte>)
    ensures var d := Whole(a);
            var later := Whole(d.pending + b);
            Whole(a + b) == Delivered(Plus(d.streams, later.streams), later.pending)
    decreases |a|
  {
    hide Whole, Plus, Frame;
    OneFrame(a);
    if |a| < 8 || |a| < 8 + SizeOf(a) {
      PlusGroups(Whole(a + b).streams, Streams([], []), Streams([], []));
    } else {
      var end := 8 + SizeOf(a);
      assert (a + b)[4..8] == a[4..8];
      OneFrame(a + b);
      hide SizeOf;
      assert (a + b)[end..] == a[end..] + b;
      assert (a + b)[8..end] == a[8..end];
      WholeAppend(a[end..], b);
      PlusGroups(Frame(a[0], a[8..end]), Whole(a[end..]).streams, Whole(Whole(a).pending + b).streams);
    }
  }

  /** The data handler of `execStream`: `pending` bytes, and what went to the two callbacks so far. */
  class ExecStream {
    var pending: seq<byte>
    var out: seq<byte>
    var err: seq<byte>
    /** Everything received so far. */
    ghost var received: seq<byte>

    ghost predicate Valid()
      reads this
    {
      Whole(received) == Delivered(Streams(out, err), pending)
    }

    constructor ()
      ensures Valid() && received == []
    {
      pending, out, err := [], [], [];
      received := [];
    }

    method OnData(c: seq<byte>)
      requires Valid()
      modifies this
      ensures Valid() && received == old(received) + c
    {
      hide Whole, FromBE;
      WholeAppend(received, c);
      pending := if pending != [] then pending + c else c;
      received := received + c;
      assert pending == old(pending) + c;
      while |pending| >= 8
        invariant Plus(Streams(out, err), Whole(pending).streams) == Whole(received).streams
        invariant Whole(pending).pending == Whole(received).pending && received == old(received) + c
        decreases |pending|
      {
        WholeIs(pending);
        var size := FromBE(pending[4..8]);
        if |pending| < 8 + size {
          break;
        }
        var frame := pending[8..8 + size];
        PlusGroups(Streams(out, err), Frame(pending[0], frame), Whole(pending[8 + size..]).streams);
        if pending[0] == STDERR {
          err := err + frame;
        } else {
          out := out + frame;
        }
        pending := pending[8 + size..];
      }
      WholeIs(pending);
      PlusGroups(Streams(out, err), Streams(out, err), Streams(out, err));
    }
  }

  lemma WholeIs(data: seq<byte>)
    ensures |data| < 8 || |data| < 8 + SizeOf(data) ==> Whole(data) == Delivered(Streams([], []), data)
    ensures |data| >= 8 && |data| >= 8 + SizeOf(data) ==>
      var end := 8 + SizeOf(data);
      var rest := Whole(data[end..]);
      Whole(data) == Delivered(Plus(Frame(data[0], data[8..end]), rest.streams), rest.pending)
  {
  }

  /** The frame at `i`, and the rest of what `demux` gives. */
  lemma BatchAt(data: seq<byte>, i: nat)
    requires i + 8 <= |data|
    ensures var end := i + 8 + FromBE(data[i + 4..i + 8]);
            Batch(data[i..]) == Plus(Frame(data[i], Sub(data, i + 8, end)),
                                     if end <= |data| then Batch(data[end..]) else Streams([], []))
  {
    hide FromBE;
    var d := data[i..];
    assert d[4..8] == data[i + 4..i + 8];
    var size := SizeOf(d);
    assert Sub(d, 8, 8 + size) == Sub(data, i + 8, i + 8 + size);
    if i + 8 + size <= |data| {
      assert d[8 + size..] == data[i + 8 + size..];
    }
  }

  /** `demux` over the same bytes. */
  method DemuxAll(data: seq<byte>) returns (s: Streams)
    ensures s == Batch(data)
  {
    hide Batch, FromBE, Sub;
    var out, err: seq<byte> := [], [];
    var i := 0;
    assert data[0..] == data;
    PlusGroups(Batch(data), Batch(data), Batch(data));
    while i + 8 <= |data|
      invariant 0 <= i
      invariant i <= |data| ==> Batch(data) == Plus(Streams(out, err), Batch(data[i..]))
      invariant i > |data| ==> Batch(data) == Streams(out, err)
      decreases |data| - i
    {
      BatchAt(data, i);
      var kind := data[i];
      var size := FromBE(data[i + 4..i + 8]);
      var end := i + 8 + size;
      var frame := Sub(data, i + 8, end);
      PlusGroups(Streams(out, err), Frame(kind, frame), if end <= |data| then Batch(data[end..]) else Streams([], []));
      PlusGroups(Plus(Streams(out, err), Frame(kind, frame)), Streams([], []), Streams([], []));
      if kind == STDERR {
        err := err + frame;
      } else {
        out := out + frame;
      }
      i := end;
    }
    if i <= |data| {
      TooShort(data[i..]);
    }
    PlusGroups(Streams(out, err), Streams(out, err), Streams(out, err));
    s := Streams(out, err);
  }

  lemma TooShort(data: seq<byte>)
    ensures |data| < 8 ==> Batch(data) == Streams([], [])
  {
  }

  function Concat(chunks: seq<seq<byte>>): seq<byte>
  {
    if chunks == [] then [] else Concat(chunks[..|chunks| - 1]) + chunks[|chunks| - 1]
  }

  /** The handler fed chunk by chunk. */
  method Receive(chunks: seq<seq<byte>>) returns (out: seq<byte>, err: seq<byte>, pending: seq<byte>)
    ensures Delivered(Streams(out, err), pending) == Whole(Concat(chunks))
  {
    var stream := new ExecStream();
    for i := 0 to |chunks|
      invariant stream.Valid() && stream.received == Concat(chunks[..i])
    {
      stream.OnData(chunks[i]);
      assert chunks[..i + 1][..i] == chunks[..i];
    }
    assert chunks[..|chunks|] == chunks;
    out, err, pending := stream.out, stream.err, stream.pending;
  }

  /** What `demux` makes of a last frame that was cut off: its payload so far. */
  function Torn(pending: seq<byte>): Streams
  {
    if |pending| < 8 then Streams([], []) else Frame(pending[0], pending[8..])
  }

  lemma {:induction false} BatchIs(data: seq<byte>)
    ensures var d := Whole(data);
            Batch(data) == Plus(d.streams, Torn(d.pending))
    decreases |data|
  {
    if |data| < 8 {
      PlusGroups(Streams([], []), Streams([], []), Streams([], []));
    } else {
      var end := 8 + SizeOf(data);
      PlusGroups(Frame(data[0], Sub(data, 8, end)), Streams([], []), Streams([], []));
      if end <= |data| {
        BatchIs(data[end..]);
        var rest := Whole(data[end..]);
        PlusGroups(Frame(data[0], data[8..end]), rest.streams, Torn(rest.pending));
      }
    }
  }

  /**
   * Chunking independence, exactly: whatever the chunks, the incremental loop delivers what `demux` gives on all of
   * them together if and only if no frame is cut off after its header.
   */
  lemma IncrementalIsBatch(data: seq<byte>)
    ensures Whole(data).streams == Batch(data) <==> |Whole(data).pending| <= 8
  {
    BatchIs(data);
    var d := Whole(data);
    if |d.pending| <= 8 {
      assert |d.pending| == 8 ==> d.pending[8..] == [];
      PlusGroups(d.streams, d.streams, d.streams);
    } else {
      assert |Batch(data).out| + |Batch(data).err| > |d.streams.out| + |d.streams.err|;
    }
  }

  /** A well-formed stream: header, then as many bytes as it says. */
  function Encode(frames: seq<(byte, seq<byte>)>): seq<byte>
    requires forall f :: f in frames ==> |f.1| < 0x1_0000_0000
  {
    if frames == [] then []
    else [frames[0].0, 0, 0, 0] + BE(|frames[0].1|, 4) + frames[0].1 + Encode(frames[1..])
  }

  function Payloads(frames: seq<(byte, seq<byte>)>): Streams
  {
    if frames == [] then Streams([], []) else Plus(Frame(frames[0].0, frames[0].1), Payloads(frames[1..]))
  }

  /** Both readers give back exactly the frames written. */
  lemma {:induction false} ReadersRecover(frames: seq<(byte, seq<byte>)>)
    requires forall f :: f in frames ==> |f.1| < 0x1_0000_0000
    ensures Whole(Encode(frames)) == Delivered(Payloads(frames), [])
    ensures Batch(Encode(frames)) == Payloads(frames)
  {
    if frames != [] {
      var data := Encode(frames);
      var size := |frames[0].1|;
      FieldSizes();
      FromBEOfBE(size, 4);
      assert data[4..8] == BE(size, 4);
      assert data[8..8 + size] == frames[0].1;
      assert data[8 + size..] == Encode(frames[1..]);
      ReadersRecover(frames[1..]);
    }
    IncrementalIsBatch(Encode(frames));
  }
}
