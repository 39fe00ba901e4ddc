/**
 * Replacing the proxy container or its Caddy: the old container is kept aside until the new one answers,
 * and put back when it does not. Every call may be refused or fail with or without its effect; `seen` holds
 * the state after each change, so also every state a run cut off there leaves behind.
 */
module ProxyUpgrade {
  import opened Calls

  /** A proxy container, and the Caddy its front runs (or last ran). */
  datatype Container = Container(id: nat, running: bool, program: string)

  /** The containers under the proxy's name and under `-previous`, the Caddyfile, its copy, and the Caddy link. */
  datatype World = World(
    proxy: Option<Container>, previous: Option<Container>, file: Option<string>, backup: Option<string>, link: Option<string>)

  // ── What the calls do ──────────────────────────────────────────────────────

  function Stopped(c: Option<Container>): Option<Container>
  {
    if c.Some? then Some(c.value.(running := false)) else None
  }

  /** A front that starts runs the linked Caddy; starting one that runs changes nothing. */
  function Started(c: Option<Container>, link: Option<string>): Option<Container>
  {
    if c.None? || c.value.running then c
    else Some(c.value.(running := true, program := if link.Some? then link.value else c.value.program))
  }

  /** The front told to run another Caddy. */
  function Reloaded(w: World, program: string): World
  {
    if w.proxy.Some? then w.(proxy := Some(w.proxy.value.(program := program))) else w
  }

  /** A rename takes a container that is there and a name that is free. */
  predicate CanMoveAside(w: World)
  {
    w.proxy.Some? && w.previous.None?
  }

  function MovedAside(w: World): World
    requires CanMoveAside(w)
  {
    w.(proxy := None, previous := w.proxy)
  }

  predicate CanMoveBack(w: World)
  {
    w.previous.Some? && w.proxy.None?
  }

  function MovedBack(w: World): World
    requires CanMoveBack(w)
  {
    w.(proxy := w.previous, previous := None)
  }

  /** `recoverPreviousProxy` with its calls succeeding. */
  function Recovered(w: World): World
  {
    if !CanMoveBack(w) then w
    else
      var back := MovedBack(w);
      back.(proxy := Started(back.proxy, back.link))
  }

  /** A proxy is there under one of its names; one that is only set aside is `original`. */
  predicate IsThere(w: World, original: nat)
  {
    && (w.proxy.Some? || w.previous.Some?)
    && (w.proxy.None? ==> w.previous.value.id == original)
  }

  /** How a replacement ended; `restored` says whether every restoring call succeeded. */
  datatype Outcome = Replaced | NotBegun(moved: bool) | PutBack(restored: bool)

  /** After the first of the calls from the `n`-th on that failed, `m` restoring ones were made, or those up to one that failed. */
  ghost predicate RestoredFrom(fate: Fates, n: nat, end: nat, m: nat, restored: bool)
  {
    exists failed: nat ::
      && failed < end && FailsBefore(fate, n, failed)
      && (if restored then end == failed + m && Smooth(fate, failed, m) else FailsBefore(fate, failed, end) && end <= failed + m)
  }

  lemma RestoredLater(fate: Fates, n: nat, first: nat, end: nat, m: nat)
    requires Smooth(fate, n, first)
    ensures forall restored :: RestoredFrom(fate, n + first, end, m, restored) ==> RestoredFrom(fate, n, end, m, restored)
  {
    forall restored | RestoredFrom(fate, n + first, end, m, restored)
      ensures RestoredFrom(fate, n, end, m, restored)
    {
      var failed: nat :|
        && failed < end && FailsBefore(fate, n + first, failed)
        && (if restored then end == failed + m && Smooth(fate, failed, m) else FailsBefore(fate, failed, end) && end <= failed + m);
      FailsLater(fate, n, first, failed);
    }
  }

  class ProxyHost {
    const fate: Fates
    var calls: nat
    var w: World
    ghost var seen: seq<World>

    constructor (start: World, fate: Fates)
      ensures w == start && this.fate == fate && calls == 0 && seen == []
    {
      w, this.fate, calls, seen := start, fate, 0, [];
    }

    method Call(after: World) returns (ok: bool)
      modifies this
      ensures ok == fate(old(calls)).Done? && calls == old(calls) + 1
      ensures w == if Takes(fate(old(calls))) then after else old(w)
      ensures seen == old(seen) + [w]
    {
      ok := fate(calls).Done?;
      if Takes(fate(calls)) {
        w := after;
      }
      calls := calls + 1;
      seen := seen + [w];
    }

    /** A change on disk. */
    method Set(after: World)
      modifies this
      ensures w == after && seen == old(seen) + [w] && calls == old(calls)
    {
      w := after;
      seen := seen + [w];
    }

    /** `recoverPreviousProxy`; a proxy that is there stays there, whatever fails, so it can be tried again. */
    method RecoverPrevious() returns (ok: bool)
      modifies this
      ensures ok ==> w == Recovered(old(w))
      ensures ok <==> !CanMoveBack(old(w)) || Smooth(fate, old(calls), 2)
      ensures !CanMoveBack(old(w)) ==> w == old(w) && seen == old(seen)
      ensures !ok ==> w in {old(w), MovedBack(old(w)), Recovered(old(w))}
      ensures old(seen) <= seen
      ensures forall k, original :: |old(seen)| <= k < |seen| && IsThere(old(w), original) ==> IsThere(seen[k], original)
    {
      ok := true;
      if w.proxy.Some? {
        return;
      }
      if w.previous.None? {
        return;
      }
      ok := Call(MovedBack(w));
      if ok {
        ok := Call(w.(proxy := Started(w.proxy, w.link)));
      }
    }

    /**
     * `replaceCaddy`: the link moved, and moved back when the new Caddy does not take over. A reload that
     * fails without an answer can leave the front running the new Caddy with the old link.
     */
    method ReplaceCaddy(target: string, text: string) returns (ok: bool)
      requires w.proxy.Some?
      modifies this
      ensures var m := if old(w).file.None? then 3 else 2;
              && (ok <==> Smooth(fate, old(calls), m))
              && w.proxy.Some?
              && w.proxy.value == (if Smooth(fate, old(calls), m - 1) && Takes(fate(old(calls) + m - 1))
                                   then old(w).proxy.value.(program := target) else old(w).proxy.value)
      ensures w.link == if !ok && old(w).link.Some? then old(w).link else Some(target)
      ensures w.previous == old(w).previous && w.backup == old(w).backup
      ensures w.file == if old(w).file.None? && fate(old(calls)).Done? then Some(text) else old(w).file
    {
      var before := w.link;
      Set(w.(link := Some(target)));
      ok := true;
      if w.file.None? {
        // The generated text needs the network's addresses
        ok := Call(w);
        if ok {
          Set(w.(file := Some(text)));
        }
      }
      if ok {
        ok := Call(w);
      }
      if ok {
        ok := Call(Reloaded(w, target));
      }
      if !ok && before.Some? {
        Set(w.(link := before));
      }
    }

    /** Up to the rename the old container keeps serving: a failure there puts the file and the link back. */
    method MoveAside(target: string, text: string) returns (ok: bool)
      requires w.proxy.Some?
      modifies this
      ensures ok <==> Smooth(fate, old(calls), 3)
      ensures ok ==> calls == old(calls) + 3
      ensures old(seen) <= seen
      ensures forall k :: |old(seen)| <= k < |seen| ==> IsThere(seen[k], old(w).proxy.value.id)
      ensures ok ==> w.proxy == None && w.previous == old(w).proxy && w.file == Some(text) && w.link == Some(target)
      ensures ok ==> w.backup == if old(w).file.Some? then old(w).file else old(w).backup
      ensures !ok ==> (w.proxy == old(w).proxy || (w.proxy == None && w.previous == old(w).proxy))
      ensures !ok ==> (w.proxy == None <==> Smooth(fate, old(calls), 2) && Takes(fate(old(calls) + 2)))
      ensures !ok && old(w).file.Some? ==> w.file == old(w).file
      ensures !ok && old(w).link.Some? ==> w.link == old(w).link
    {
      var beforeLink, hadFile := w.link, w.file.Some?;
      if hadFile {
        Set(w.(backup := w.file));
      }
      Set(w.(link := Some(target)));
      ok := Call(w);
      if ok {
        Set(w.(file := Some(text)));
        ok := Call(w.(previous := None));
        if ok {
          ok := Call(MovedAside(w));
        }
      }
      if !ok {
        PutFilesBack(hadFile, beforeLink);
      }
    }

    method PutFilesBack(hadFile: bool, beforeLink: Option<string>)
      requires hadFile ==> w.backup.Some?
      modifies this
      ensures w.proxy == old(w).proxy && w.previous == old(w).previous && calls == old(calls)
      ensures w.file == (if hadFile then old(w).backup else old(w).file) && w.link == (if beforeLink.Some? then beforeLink else old(w).link)
      ensures w.backup == if hadFile then None else old(w).backup
      ensures old(seen) <= seen
      ensures forall k :: |old(seen)| <= k < |seen| ==> seen[k].proxy == w.proxy && seen[k].previous == w.previous
    {
      if hadFile {
        Set(w.(file := w.backup, backup := None));
      }
      if beforeLink.Some? {
        Set(w.(link := beforeLink));
      }
    }

    /** The old container stopped, and the new one created, connected, started and ready. */
    method BringUp(newId: nat) returns (ok: bool)
      requires w.proxy == None && w.previous.Some? && w.link.Some?
      modifies this
      ensures ok <==> Smooth(fate, old(calls), 5)
      ensures (ok ==> calls == old(calls) + 5) && (!ok ==> FailsBefore(fate, old(calls), calls))
      ensures old(seen) <= seen
      ensures forall k :: |old(seen)| <= k < |seen| ==> IsThere(seen[k], old(w).previous.value.id)
      ensures w == old(w).(proxy := w.proxy, previous := w.previous)
      ensures w.previous == if Takes(fate(old(calls))) then Stopped(old(w).previous) else old(w).previous
      ensures ok ==> w.proxy == Some(Container(newId, true, w.link.value))
    {
      ok := Call(w.(previous := Stopped(w.previous)));
      if !ok {
        return;
      }
      ok := Call(w.(proxy := Some(Container(newId, false, ""))));
      if !ok {
        return;
      }
      ok := Call(w);
      if !ok {
        return;
      }
      ok := Call(w.(proxy := Started(w.proxy, w.link)));
      if !ok {
        return;
      }
      ok := Call(w);
    }

    /** The new container removed, and the file, the link and the old container put back. */
    method Restore(hadFile: bool, beforeLink: Option<string>, wasRunning: bool) returns (restored: bool)
      requires w.previous.Some? && (hadFile ==> w.backup.Some?)
      modifies this
      ensures restored <==> Smooth(fate, old(calls), if wasRunning then 3 else 2)
      ensures restored ==> calls == old(calls) + (if wasRunning then 3 else 2) && w.backup == (if hadFile then None else old(w).backup)
      ensures !restored ==> FailsBefore(fate, old(calls), calls)
      ensures old(seen) <= seen
      ensures forall k :: |old(seen)| <= k < |seen| ==> IsThere(seen[k], old(w).previous.value.id)
      ensures w.proxy.Some? || w.previous.Some?
      ensures restored ==> w.previous == None && w.proxy == (if wasRunning then Started(old(w).previous, w.link) else old(w).previous)
      ensures restored ==> w.file == (if hadFile then old(w).backup else old(w).file)
      ensures restored ==> w.link == (if beforeLink.Some? then beforeLink else old(w).link)
    {
      restored := Call(w.(proxy := None));
      if !restored {
        return;
      }
      PutFilesBack(hadFile, beforeLink);
      restored := Call(MovedBack(w));
      if restored && wasRunning {
        restored := Call(w.(proxy := Started(w.proxy, w.link)));
      }
    }

    /** The new container in place of the one set aside, or that one again. */
    method TakeOver(hadFile: bool, beforeLink: Option<string>, wasRunning: bool, newId: nat) returns (r: Outcome)
      requires w.proxy == None && w.previous.Some? && w.link.Some? && (hadFile ==> w.backup.Some?)
      modifies this
      ensures !r.NotBegun? && (r.Replaced? <==> Smooth(fate, old(calls), 5))
      ensures old(seen) <= seen
      ensures forall k :: |old(seen)| <= k < |seen| ==> IsThere(seen[k], old(w).previous.value.id)
      ensures r.Replaced? ==>
        && w.proxy == Some(Container(newId, true, old(w).link.value)) && w.file == old(w).file && w.link == old(w).link
        && w.backup == None && calls == old(calls) + 6
        && w.previous == if Takes(fate(old(calls) + 5)) then None else Some(old(w).previous.value.(running := false))
      ensures r.PutBack? ==> RestoredFrom(fate, old(calls), calls, if wasRunning then 3 else 2, r.restored)
      ensures r.PutBack? && r.restored ==>
        var was, link := old(w).previous.value, w.link;
        && (w.proxy == Some(was) || w.proxy == Some(was.(running := wasRunning))
            || (wasRunning && w.proxy == Some(Container(was.id, true, if link.Some? then link.value else was.program))))
        && (wasRunning ==> w.proxy.value.running)
        && w.previous == None && w.backup == (if hadFile then None else old(w).backup)
        && w.file == (if hadFile then old(w).backup else old(w).file)
        && w.link == (if beforeLink.Some? then beforeLink else old(w).link)
    {
      var ok := BringUp(newId);
      if !ok {
        var restored := Restore(hadFile, beforeLink, wasRunning);
        return PutBack(restored);
      }
      Set(w.(backup := None));
      var removed := Call(w.(previous := None));
      return Replaced;
    }

    /**
     * `replaceFront`. It replaces the container exactly if each of its nine calls is done. At every moment a
     * proxy container is there, and when only `-previous` is, it is the original, so a run cut off can be
     * recovered. A failure whose restoring calls succeed leaves the original under its name, running exactly
     * if it ran, with its Caddyfile and link, and the Caddy that link names if it had to be started again.
     */
    method ReplaceFront(target: string, text: string, newId: nat) returns (r: Outcome)
      requires w.proxy.Some? && w.proxy.value.id != newId
      modifies this
      ensures r.Replaced? <==> Smooth(fate, old(calls), 9)
      ensures r.NotBegun? <==> !Smooth(fate, old(calls), 4)
      ensures old(seen) <= seen
      ensures forall k :: |old(seen)| <= k < |seen| ==> IsThere(seen[k], old(w).proxy.value.id)
      ensures r.Replaced? ==> w.proxy == Some(Container(newId, true, target)) && w.file == Some(text) && w.link == Some(target)
      ensures r.NotBegun? && !r.moved ==> w.proxy == old(w).proxy
      // Done: nothing is left of the old one, unless its removal fails, and of the copy
      ensures r.Replaced? ==> w.backup == None && calls == old(calls) + 10
      ensures r.Replaced? ==> w.previous == if Takes(fate(old(calls) + 9)) then None else Some(old(w).proxy.value.(running := false))
      ensures r.PutBack? ==>
        && RestoredFrom(fate, old(calls), calls, if old(w).proxy.value.running then 3 else 2, r.restored)
        && (r.restored ==> w.previous == None && w.backup == if old(w).file.Some? then None else old(w).backup)
      ensures r.NotBegun? ==> (r.moved <==> Smooth(fate, old(calls), 3) && Takes(fate(old(calls) + 3)))
      ensures r.PutBack? && r.restored ==>
        var was, link := old(w).proxy.value, w.link;
        || w.proxy == Some(was)
        || (was.running && w.proxy == Some(Container(was.id, true, if link.Some? then link.value else was.program)))
      ensures (r.PutBack? && r.restored) || r.NotBegun? ==>
        (old(w).file.Some? ==> w.file == old(w).file) && (old(w).link.Some? ==> w.link == old(w).link)
      ensures r.PutBack? && r.restored ==> w.file == (if old(w).file.Some? then old(w).file else Some(text))
      ensures r.PutBack? && r.restored ==> w.link == (if old(w).link.Some? then old(w).link else Some(target))
      ensures r.NotBegun? && r.moved ==> Recovered(w).proxy == Started(old(w).proxy, w.link)
    {
      var beforeLink, hadFile, wasRunning := w.link, w.file.Some?, w.proxy.value.running;
      ghost var n := calls;
      SmoothOne(fate, n, 3);
      SmoothAfter(fate, n, 4, 5);
      var ok := Call(w);
      if !ok {
        return NotBegun(false);
      }
      ok := MoveAside(target, text);
      if !ok {
        return NotBegun(w.proxy.None?);
      }
      r := TakeOver(hadFile, beforeLink, wasRunning, newId);
      RestoredLater(fate, n, 4, calls, if wasRunning then 3 else 2);
    }
  }

  /** Whatever moment a run is cut off at, recovering leaves a proxy under its name: the original, if no other was in place. */
  lemma CutOffIsRecovered(w: World, original: nat)
    requires IsThere(w, original)
    ensures Recovered(w).proxy.Some?
    ensures w.proxy.None? ==> Recovered(w).proxy.value.id == original && Recovered(w).proxy.value.running && Recovered(w).previous.None?
  {
  }
}
