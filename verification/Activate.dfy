/**
 * Activating a release: rolling, with the old container serving until the new one does, or recreate,
 * with the old ones stopped first and started again when the new one fails. Every call may be refused or
 * fail with or without its effect; `seen` holds the state after each call.
 */
module Activate {
  import opened Calls
  import opened Deployment

  class Host {
    const fate: Fates
    var calls: nat
    var w: World
    ghost var seen: seq<World>

    constructor (start: World, fate: Fates)
      ensures w == start && this.fate == fate && calls == 0 && seen == []
    {
      w, this.fate, calls, seen := start, fate, 0, [];
    }

    method Call(after: World) returns (ok: bool)
      modifies this
      ensures ok == fate(old(calls)).Done? && calls == old(calls) + 1
      ensures w == if Takes(fate(old(calls))) then after else old(w)
      ensures seen == old(seen) + [w]
    {
      ok := fate(calls).Done?;
      if Takes(fate(calls)) {
        w := after;
      }
      calls := calls + 1;
      seen := seen + [w];
    }

    method FindNamed(name: string) returns (id: Option<nat>)
      ensures id.Some? ==> IsNamed(w, id.value, name)
      ensures id.None? ==> forall i :: !IsNamed(w, i, name)
    {
      var rest := w.containers.Keys;
      while rest != {}
        invariant rest <= w.containers.Keys
        invariant forall i :: IsNamed(w, i, name) ==> i in rest
        decreases |rest|
      {
        var i :| i in rest;
        if w.containers[i].name == name {
          return Some(i);
        }
        rest := rest - {i};
      }
      return None;
    }

    /** The ids of the app's containers not called `name`, those that run among them if asked. */
    method ListOthers(name: string, onlyRunning: bool) returns (ids: seq<nat>)
      ensures forall i :: i in ids <==> i in w.containers && w.containers[i].name != name && (onlyRunning ==> w.containers[i].running)
      ensures forall a, b :: 0 <= a < b < |ids| ==> ids[a] != ids[b]
    {
      ids := [];
      var rest := w.containers.Keys;
      while rest != {}
        invariant rest <= w.containers.Keys
        invariant forall i :: i in ids <==> i in w.containers && i !in rest && w.containers[i].name != name && (onlyRunning ==> w.containers[i].running)
        invariant forall a, b :: 0 <= a < b < |ids| ==> ids[a] != ids[b]
        decreases |rest|
      {
        var i :| i in rest;
        if w.containers[i].name != name && (onlyRunning ==> w.containers[i].running) {
          ids := ids + [i];
        }
        rest := rest - {i};
      }
    }

    /** `switchProxy` with `onlyIfChanged`; `same` when the generated text and the certificates are those installed. */
    method SwitchProxy(target: Option<string>, same: bool) returns (r: SwitchResult)
      requires same ==> w.file == target
      modifies this
      ensures r.Switched? <==> same || Smooth(fate, old(calls), 2)
      ensures r.Threw? <==> !same && fate(old(calls)).Done? && fate(old(calls) + 1).Lost?
      ensures r.Switched? ==> w == old(w).(file := target, served := if same then old(w).served else target)
      ensures r.Turned? ==> w == old(w)
      ensures r.Threw? ==>
        w == old(w).(file := target, served := if Takes(fate(old(calls) + 1)) then target else old(w).served)
      ensures calls == old(calls) + if same then 0 else if fate(old(calls)).Done? then 2 else 1
      ensures !r.Switched? ==> FailsBefore(fate, old(calls), calls)
      ensures old(seen) <= seen && (same ==> seen == old(seen)) && (!same ==> old(seen) < seen && seen[|seen| - 1] == w)
      ensures forall k :: |old(seen)| <= k < |seen| ==>
        && seen[k] == old(w).(file := seen[k].file, served := seen[k].served)
        && seen[k].file in {old(w).file, target} && seen[k].served in {old(w).served, target}
    {
      if same {
        return Switched;
      }
      var validated := Call(w);
      if !validated {
        return Turned;
      }
      var before := w.file;
      w := w.(file := target);
      seen := seen + [w];
      var reloaded := Call(w.(served := target));
      if reloaded {
        return Switched;
      }
      if fate(calls - 1).Refused? {
        w := w.(file := before);
        seen := seen + [w];
        return Turned;
      }
      return Threw;
    }

    /** `goLive` of container `id`: on the live network under its alias, the proxy switched, `current` moved. */
    method GoLive(id: nat, upstream: string, target: Option<string>, same: bool, release: string) returns (ok: bool, threw: bool)
      requires IsRunning(w, id) && (same ==> w.file == target)
      modifies this
      ensures ok <==> Smooth(fate, old(calls), if same then 2 else 4)
      ensures (threw <==> !same && Smooth(fate, old(calls), 3) && fate(old(calls) + 3).Lost?) && !(ok && threw)
      ensures ok ==> w == Joined(old(w), id, upstream).(file := target, served := if same then old(w).served else target, current := release)
      ensures !ok && !threw ==> w in {old(w), Joined(old(w), id, upstream)}
      ensures threw ==> w == Joined(old(w), id, upstream).(file := target, served := if Takes(fate(old(calls) + 3)) then target else old(w).served)
      ensures old(calls) < calls && (ok || threw ==> calls == old(calls) + if same then 2 else 4)
      ensures !ok ==> FailsBefore(fate, old(calls), calls)
      ensures old(seen) < seen && seen[|seen| - 1] == w
      ensures forall k :: |old(seen)| <= k < |seen| ==> GoingLive(old(w), id, upstream, target, seen[k])
    {
      hide Smooth, FailsBefore, GoingLive, Joined;
      threw := false;
      ghost var start, n, joined := w, calls, Joined(w, id, upstream);
      SmoothTwo(fate, n, if same then 0 else 2);
      SmoothTwo(fate, n, 1);
      SmoothOne(fate, n + 2, 0);
      FailsFirst(fate, n);
      SmoothTwo(fate, n + 2, 0);
      Nothing(fate, n + 2);
      WasLive(start, id, upstream, target);
      ok := Call(w);
      if !ok {
        return;
      }
      ok := Call(Joined(w, id, upstream));
      if !ok {
        return;
      }
      ghost var begun := |seen|;
      var r := SwitchProxy(target, same);
      AllAreGoing(start, joined, seen, begun, id, upstream, target);
      if !r.Switched? {
        FailsLater(fate, n, 2, calls);
        return false, r.Threw?;
      }
      w := w.(current := release);
      seen := seen + [w];
      SwitchingIsGoing(start, w, id, upstream, target);
    }

    /** `remove(name)`: gone already is fine. */
    method RemoveNamed(name: string) returns (ok: bool)
      requires Valid(w)
      modifies this
      ensures ok == fate(old(calls)).Done? && calls == old(calls) + 1 && seen == old(seen) + [w]
      ensures w == if Takes(fate(old(calls))) then old(w).(containers := OthersOf(old(w), name)) else old(w)
      ensures Valid(w)
    {
      var id := FindNamed(name);
      if id.Some? {
        assert Without(w, id.value).containers == OthersOf(w, name) by {
          assert IsNamed(w, id.value, name);
        }
      } else {
        assert forall i :: i in w.containers ==> !IsNamed(w, i, name);
        assert w.containers == OthersOf(w, name);
      }
      ok := Call(if id.Some? then Without(w, id.value) else w);
    }

    /** Starts the created container, waits for its health and takes it live. */
    method BringUp(id: nat, upstream: string, target: Option<string>, same: bool, release: string) returns (ok: bool, threw: bool)
      requires id in w.containers && !w.containers[id].running && (same ==> w.file == target)
      modifies this
      ensures ok <==> Smooth(fate, old(calls), LiveCalls(same))
      ensures (threw <==> ReloadThrows(fate, old(calls), same)) && !(ok && threw)
      ensures calls > old(calls) && (ok ==> calls == old(calls) + LiveCalls(same)) && (threw ==> calls == old(calls) + 6)
      ensures !ok ==> FailsBefore(fate, old(calls), calls)
      ensures IsOnTheWay(old(w), w, id, upstream, target)
      ensures IsRunning(w, id) <==> Takes(fate(old(calls)))
      ensures ok || threw ==>
        w.file == target && w.containers[id] == old(w).containers[id].(running := true, aliases := old(w).containers[id].aliases + {upstream})
      ensures ok ==> w.served == (if same then old(w).served else target) && w.current == release
      ensures !ok ==> w.current == old(w).current
      ensures threw ==> w.served == if Takes(fate(old(calls) + 5)) then target else old(w).served
      ensures !ok && !threw ==> w.file == old(w).file && w.served == old(w).served
      ensures old(seen) < seen && seen[|seen| - 1] == w
      ensures forall k :: |old(seen)| <= k < |seen| ==> IsOnTheWay(old(w), seen[k], id, upstream, target)
    {
      hide GoingLive, IsOnTheWay, Smooth;
      threw := false;
      ghost var start, n := w, calls;
      FailsFirst(fate, n);
      SmoothTwo(fate, n, LiveCalls(same) - 2);
      SmoothTwo(fate, n, 3);
      StartedIsOnTheWay(start, id, upstream, target);
      ok := Call(WithRunning(w, id, true));
      if !ok {
        return;
      }
      ok := Call(w);
      if !ok {
        return;
      }
      ghost var up, begun := w, |seen|;
      ok, threw := GoLive(id, upstream, target, same, release);
      forall k | begun <= k < |seen|
        ensures IsOnTheWay(start, seen[k], id, upstream, target)
      {
        GoingIsOnTheWay(start, up, seen[k], id, upstream, target);
      }
      FailsLater(fate, n, 2, calls);
    }

    /** Stops and removes the others; what fails stays, and does no harm. */
    method RetireAll(others: seq<nat>, ghost id: nat, ghost first: nat)
      requires id !in others && id in w.containers
      requires first < |seen| && seen[|seen| - 1] == w && StopsFirst(seen, first)
      modifies this
      ensures AllDone(fate, old(calls)) ==> StopsFirst(seen, first)
      ensures IsRetiring(old(w), w, id) && calls >= old(calls)
      ensures AllDone(fate, old(calls)) ==> forall i :: i in others ==> i !in w.containers
      ensures old(seen) <= seen && seen[|seen| - 1] == w
      ensures forall k :: |old(seen)| <= k < |seen| ==> IsRetiring(seen[k], w, id)
    {
      hide IsRetiring, StopsFirst, AllDone;
      ghost var start, n, from := w, calls, |seen|;
      RetiringOne(w, id + 1, id);
      for i := 0 to |others|
        invariant old(seen) <= seen && seen[|seen| - 1] == w && calls >= n
        invariant IsRetiring(start, w, id) && id in w.containers
        invariant AllDone(fate, n) ==> StopsFirst(seen, first) && forall j :: 0 <= j < i ==> others[j] !in w.containers
        invariant forall k :: from <= k < |seen| ==> IsRetiring(seen[k], w, id)
      {
        assert others[i] in others;
        ghost var before := w;
        DoneLater(fate, n, calls);
        RetireOne(others[i], id, from, first);
        RetiringTwice(start, before, w, id);
      }
    }

    method RetireOne(other: nat, ghost id: nat, ghost from: nat, ghost first: nat)
      requires other != id && id in w.containers && from <= |seen| && first < |seen| && seen[|seen| - 1] == w
      requires forall k :: from <= k < |seen| ==> IsRetiring(seen[k], w, id)
      modifies this
      ensures IsRetiring(old(w), w, id) && calls == old(calls) + 2
      ensures id in w.containers && w.containers.Keys <= old(w).containers.Keys
      ensures AllDone(fate, old(calls)) ==> other !in w.containers
      ensures AllDone(fate, old(calls)) && StopsFirst(old(seen), first) ==> StopsFirst(seen, first)
      ensures old(seen) < seen && seen[|seen| - 1] == w
      ensures forall k :: from <= k < |seen| ==> IsRetiring(seen[k], w, id)
    {
      hide IsRetiring, StopsFirst;
      ghost var start, states := w, seen;
      RetiringOne(w, other, id);
      if StopsFirst(seen, first) {
        RetiringStopsFirst(seen, first, w, other);
      }
      var stopped := Call(WithRunning(w, other, false));
      ghost var half := w;
      RetiringOne(w, other, id);
      var removed := Call(Without(w, other));
      assert seen == states + [half, w];
      RetiringTwice(start, half, w, id);
      RetiringOne(w, other, id);
      forall k | from <= k < |seen|
        ensures IsRetiring(seen[k], w, id)
      {
        if k < |old(seen)| {
          RetiringTwice(seen[k], start, w, id);
        } else if k == |old(seen)| {
          assert seen[k] == half;
        } else {
          assert seen[k] == w;
        }
      }
    }

    /** The name freed and the container created; the others are as they were. */
    method Create(name: string) returns (ok: bool, id: nat)
      requires Valid(w)
      modifies this
      ensures ok <==> Smooth(fate, old(calls), 2)
      ensures Valid(w) && id == old(w).nextId && id !in old(w).containers && (ok ==> calls == old(calls) + 2)
      ensures w == old(w).(containers := w.containers, nextId := w.nextId) && OthersOf(w, name) == OthersOf(old(w), name)
      ensures ok ==> w.containers == OthersOf(old(w), name)[id := Container(name, false, {})]
      ensures old(seen) < seen && seen[|seen| - 1] == w && calls > old(calls)
      ensures forall k :: |old(seen)| <= k < |seen| ==>
        seen[k].file == old(w).file && seen[k].served == old(w).served && OthersOf(seen[k], name) == OthersOf(old(w), name)
    {
      id := w.nextId;
      ok := RemoveNamed(name);
      assert OthersOf(w, name) == OthersOf(old(w), name);
      if ok {
        CreatedIsValid(w, name);
        ghost var after := Created(w, name);
        assert OthersOf(after, name) == OthersOf(w, name);
        ok := Call(Created(w, name));
      }
    }

    /** The first part of a rolling activation: the new container next to the old ones, until it is live. */
    method StartNext(name: string, upstream: string, target: Option<string>, same: bool, release: string)
      returns (ok: bool, id: nat, threw: bool)
      requires Valid(w) && (target.Some? ==> target.value == upstream) && (same ==> w.file == target)
      modifies this
      ensures ok <==> Smooth(fate, old(calls), 2 + LiveCalls(same))
      ensures (threw <==> Smooth(fate, old(calls), 2) && ReloadThrows(fate, old(calls) + 2, same)) && !(ok && threw)
      ensures Valid(w) && OthersOf(w, name) == OthersOf(old(w), name) && id == old(w).nextId && id !in old(w).containers
      ensures ok || (threw && !Takes(fate(old(calls) + 8))) ==>
        w.containers == OthersOf(old(w), name)[id := Container(name, true, {upstream})]
      ensures threw && Takes(fate(old(calls) + 8)) ==> w.containers == OthersOf(old(w), name)
      ensures ok ==> w.file == target && w.served == (if same then old(w).served else target) && w.current == release
      ensures threw ==>
        w == old(w).(containers := w.containers, nextId := w.nextId, file := target,
                     served := if Takes(fate(old(calls) + 7)) then target else old(w).served)
      ensures !ok && !threw ==> w == old(w).(containers := w.containers, nextId := w.nextId)
      ensures !ok && Smooth(fate, old(calls), 2) ==>
        && calls > 0 && FailsBefore(fate, old(calls), calls - 1)
        && (if Takes(fate(calls - 1)) then w.containers == OthersOf(old(w), name) else IsNamed(w, id, name))
      ensures old(seen) < seen && seen[|seen| - 1] == w && calls > old(calls)
      ensures forall k :: |old(seen)| <= k < |seen| - (if threw then 1 else 0) ==> IsSafe(old(w), seen[k], name, upstream, target)
    {
      hide IsSafe, OthersOf, Smooth, FailsBefore, IsOnTheWay, Valid;
      threw := false;
      ok, id := Create(name);
      ghost var created, before := |seen|, w;
      SmoothAfter(fate, old(calls), 2, LiveCalls(same));
      forall k | |old(seen)| <= k < created
        ensures IsSafe(old(w), seen[k], name, upstream, target)
      {
        KeptIsSafe(old(w), seen[k], name, upstream, target);
      }
      if !ok {
        return;
      }
      ok, threw := BringUp(id, upstream, target, same, release);
      forall k | created <= k < |seen|
        ensures IsSafe(old(w), seen[k], name, upstream, target)
      {
        OnTheWayIsSafe(old(w), before, seen[k], name, id, upstream, target);
      }
      TakenBack(old(w), before, w, name, id, upstream, target);
      TakenBackIsValid(before, w, id, upstream, target);
      assert {} + {upstream} == {upstream};
      if !ok {
        FailsLater(fate, old(calls), 2, calls);
        ghost var up := w;
        assert Without(up, id).containers == OthersOf(old(w), name);
        var removed := Call(Without(w, id));
        if !threw {
          KeptIsSafe(old(w), w, name, upstream, target);
        }
      }
    }

    /**
     * Rolling: the new container next to the old ones, live once it is healthy, and the others stopped then.
     * If others answer both upstreams at the start, they are answered after every call exactly if they are
     * at the end. A failure takes the answer away only with an unanswered reload to an upstream no other
     * container answers, and the new container removed; going live only with the config's text as it was
     * while the running one names another upstream, and nothing left that answers that.
     */
    method ActivateRolling(
      name: string, upstream: string, target: Option<string>, same: bool, release: string, finalName: Option<string>)
      returns (r: Rolling)
      requires Valid(w) && (target.Some? ==> target.value == upstream) && (same ==> w.file == target)
      modifies this
      ensures Valid(w) && old(seen) < seen
      ensures r.RollingLive? <==> Smooth(fate, old(calls), 2 + LiveCalls(same))
      ensures r == RollingFailed(true) <==> Smooth(fate, old(calls), 2) && ReloadThrows(fate, old(calls) + 2, same)
      ensures IsKept(old(w), name) ==> (EverUnanswered(seen, |old(seen)|) <==> !IsAnswered(w))
      ensures RollingEnds(
        r, old(w), w, name, upstream, target, same, release, Takes(fate(old(calls) + 7)), Takes(fate(old(calls) + 8)))
      ensures AllDone(fate, old(calls)) ==> r == RollingLive(true) && w.containers.Keys == {old(w).nextId}
      ensures AllDone(fate, old(calls)) ==> OthersStopFirst(seen, |old(seen)|, name)
      // A container that was created and did not go live is removed
      ensures r.RollingFailed? && Smooth(fate, old(calls), 2) ==>
        && calls > 0 && FailsBefore(fate, old(calls), calls - 1)
        && (if Takes(fate(calls - 1)) then w.containers == OthersOf(old(w), name) else IsNamed(w, old(w).nextId, name))
      // With every call done: the new container alone, under its final name, and everything names it
      ensures AllDone(fate, old(calls)) ==>
        && w.containers == map[old(w).nextId := Container(if finalName.Some? then finalName.value else name, true, {upstream})]
        && w.file == target && w.served == (if same then old(w).served else target) && w.current == release
    {
      hide Smooth, FailsBefore, OthersOf, IsSafe, IsKept, IsAnswered, EverUnanswered, AnswersLess, AllDone, ReloadThrows,
           RollingEnds, LiveCalls, Valid;
      ghost var start, n := w, calls;
      DoneIsSmooth(fate, n, 2 + LiveCalls(same));
      var ok, id, threw := StartNext(name, upstream, target, same, release);
      ghost var live, up := seen, w;
      SafeAreAnswered(start, seen, |old(seen)|, name, upstream, target, threw);
      if !ok {
        FailureEnds(start, w, name, upstream, target, same, release, threw, Takes(fate(n + 7)), Takes(fate(n + 8)));
        return RollingFailed(threw);
      }
      DoneLater(fate, n, calls);
      var finished := Retire(name, id, finalName);
      if AllDone(fate, n) {
        OthersStopFirstAfter(start, live, seen, |old(seen)|, name, upstream, target);
      }
      LiveEnds(start, up, w, name, upstream, target, same, release, finished, Takes(fate(n + 7)), Takes(fate(n + 8)));
      if IsKept(start, name) {
        AnsweredIfAtTheEnd(live, seen, |old(seen)|);
      }
      return RollingLive(finished);
    }

    /** The last part: the others stopped and removed, and the release's own name taken if it is free. */
    method Retire(name: string, id: nat, finalName: Option<string>) returns (finished: bool)
      requires Valid(w) && IsNamed(w, id, name) && seen != [] && seen[|seen| - 1] == w
      modifies this
      ensures AllDone(fate, old(calls)) ==> StopsFirst(seen, |old(seen)| - 1)
      ensures Valid(w) && w == old(w).(containers := w.containers)
      ensures id in w.containers && w.containers[id].running == old(w).containers[id].running
      ensures w.containers[id].aliases == old(w).containers[id].aliases
      ensures forall i :: i in w.containers ==> i in old(w).containers
      ensures AllDone(fate, old(calls)) ==> finished && w.containers.Keys == {id}
      ensures AllDone(fate, old(calls)) ==> w.containers[id].name == if finalName.Some? then finalName.value else name
      ensures old(seen) < seen && seen[|seen| - 1] == w
      ensures AnswersLess(old(w), w)
      ensures forall k :: |old(seen)| <= k < |seen| ==> AnswersLess(seen[k], w)
    {
      assert w.containers[id].name == name;
      hide *;
      ghost var start, from := w, |seen|;
      LessThanItself(w);
      StopsWith(seen);
      finished := Call(w);
      DoneFirst(fate, old(calls));
      assert w == start && forall k :: from <= k < |seen| ==> seen[k] == w;
      if finished {
        RetireListed(name, id, finalName, from);
      }
    }

    method RetireListed(name: string, id: nat, finalName: Option<string>, ghost from: nat)
      requires Valid(w) && IsNamed(w, id, name) && 0 < from < |seen| && forall k :: from <= k < |seen| ==> seen[k] == w
      requires StopsFirst(seen, from - 1)
      modifies this
      ensures Valid(w) && w == old(w).(containers := w.containers) && w.containers.Keys <= old(w).containers.Keys
      ensures id in w.containers && w.containers[id].running == old(w).containers[id].running
      ensures w.containers[id].aliases == old(w).containers[id].aliases
      ensures AllDone(fate, old(calls)) ==> w.containers.Keys == {id} && StopsFirst(seen, from - 1)
      ensures AllDone(fate, old(calls)) ==> w.containers[id].name == if finalName.Some? then finalName.value else name
      ensures old(seen) <= seen && seen[|seen| - 1] == w && AnswersLess(old(w), w)
      ensures forall k :: from <= k < |seen| ==> AnswersLess(seen[k], w)
    {
      assert w.containers[id].name == name;
      hide *;
      ghost var start := w;
      RetireOthers(name, id, from);
      DoneLater(fate, old(calls), calls);
      EndUnder(id, finalName, start, from);
    }

    /** The release's own name taken, where everything since `from` answers no less. */
    method EndUnder(id: nat, finalName: Option<string>, ghost start: World, ghost from: nat)
      requires Valid(w) && id in w.containers && 0 < from < |seen| && seen[|seen| - 1] == w && AnswersLess(start, w)
      requires forall k :: from <= k < |seen| ==> AnswersLess(seen[k], w)
      modifies this
      ensures Valid(w) && w == old(w).(containers := w.containers) && w.containers.Keys == old(w).containers.Keys
      ensures w.containers[id].running == old(w).containers[id].running && w.containers[id].aliases == old(w).containers[id].aliases
      ensures AnswersLess(start, w) && old(seen) <= seen && seen[|seen| - 1] == w
      ensures StopsFirst(old(seen), from - 1) ==> StopsFirst(seen, from - 1)
      ensures forall k :: from <= k < |seen| ==> AnswersLess(seen[k], w)
      ensures AllDone(fate, old(calls)) && old(w).containers.Keys == {id} ==>
                w.containers[id].name == if finalName.Some? then finalName.value else old(w).containers[id].name
    {
      hide *;
      ghost var before, done := w, |seen|;
      TakeName(id, finalName, from - 1);
      AllAnswerLess(seen, from, done, before, w);
      AnswersLessTwice(start, before, w);
    }

    method RetireOthers(name: string, id: nat, ghost from: nat)
      requires Valid(w) && IsNamed(w, id, name) && 0 < from < |seen| && forall k :: from <= k < |seen| ==> seen[k] == w
      requires StopsFirst(seen, from - 1)
      modifies this
      ensures Valid(w) && w == old(w).(containers := w.containers) && AnswersLess(old(w), w)
      ensures id in w.containers && w.containers[id] == old(w).containers[id] && w.containers.Keys <= old(w).containers.Keys
      ensures calls >= old(calls)
      ensures AllDone(fate, old(calls)) ==> w.containers.Keys == {id} && StopsFirst(seen, from - 1)
      ensures old(seen) <= seen && seen[|seen| - 1] == w
      ensures forall k :: from <= k < |seen| ==> AnswersLess(seen[k], w)
    {
      ghost var ids := w.containers.Keys;
      assert forall i :: i in ids && w.containers[i].name == name ==> i == id;
      hide IsRetiring, AnswersLess, Valid, OnlyLess, AllDone, StopsFirst;
      var others := ListOthers(name, false);
      assert forall i :: i in ids ==> i in others || i == id;
      RetireAll(others, id, from - 1);
      Retiring(old(w), w, id);
      AllRetiring(seen, from, w, id);
    }

    /** The release's own name, for a container under a temporary one, if it is free. */
    method TakeName(id: nat, finalName: Option<string>, ghost first: nat)
      requires Valid(w) && id in w.containers
      modifies this
      ensures Valid(w) && w == old(w).(containers := w.containers) && w.containers.Keys == old(w).containers.Keys
      ensures w.containers[id].running == old(w).containers[id].running && w.containers[id].aliases == old(w).containers[id].aliases
      ensures AnswersLess(w, old(w)) && AnswersLess(old(w), w) && AnswersLess(w, w) && RunsLess(w, old(w)) && RunsLess(old(w), w)
      ensures seen == old(seen) || seen == old(seen) + [w]
      ensures (seen == old(seen) ==> w == old(w)) && calls >= old(calls)
      ensures first < |old(seen)| && old(seen)[|old(seen)| - 1] == old(w) && StopsFirst(old(seen), first) ==> StopsFirst(seen, first)
      // Alone and with every call done, it ends under that name
      ensures AllDone(fate, old(calls)) && old(w).containers.Keys == {id} ==>
                w.containers[id].name == if finalName.Some? then finalName.value else old(w).containers[id].name
    {
      hide AnswersLess, RunsLess, Valid, StopsFirst;
      RenamedAnswersAlike(w, id, w.containers[id].name);
      if finalName.Some? {
        RenamedAnswersAlike(w, id, finalName.value);
        var taken := FindNamed(finalName.value);
        if taken.None? {
          RenamedIsValid(w, id, finalName.value);
        }
        ghost var states, before := seen, w;
        var renamed := Call(if taken.Some? then w else Renamed(w, id, finalName.value));
        StopsLonger(states, first, before, w);
        assert seen == states + [w];
        RenamedAnswersAlike(w, id, w.containers[id].name);
      }
    }

    /** Stops the listed containers, up to one that fails; `ghost stopped` of them do not run any more. */
    method StopAll(ids: seq<nat>) returns (ok: bool, ghost stopped: nat)
      modifies this
      ensures ok <==> Smooth(fate, old(calls), |ids|)
      ensures ok ==> stopped == |ids| && calls == old(calls) + |ids|
      ensures !ok ==>
        var j := calls - old(calls) - 1;
        0 <= j < |ids| && Smooth(fate, old(calls), j) && !fate(old(calls) + j).Done?
        && stopped == j + if Takes(fate(old(calls) + j)) then 1 else 0
      ensures stopped <= |ids| && w == old(w).(containers := StoppedIn(old(w).containers, ids[..stopped]))
      ensures old(seen) <= seen && forall k :: |old(seen)| <= k < |seen| ==> RunsLess(old(w), seen[k])
    {
      ok, stopped := true, 0;
      for i := 0 to |ids|
        invariant ok && stopped == i && calls == old(calls) + i && Smooth(fate, old(calls), i)
        invariant w == old(w).(containers := StoppedIn(old(w).containers, ids[..i]))
        invariant old(seen) <= seen && forall k :: |old(seen)| <= k < |seen| ==> RunsLess(old(w), seen[k])
      {
        StoppedOneMore(old(w).containers, ids, i);
        ok := Call(WithRunning(w, ids[i], false));
        if !ok {
          stopped := if Takes(fate(calls - 1)) then i + 1 else i;
          return;
        }
        stopped := i + 1;
      }
      assert ids[..|ids|] == ids;
    }

    /** Starts the listed containers again, each on its own; `all` when every start succeeded. */
    method StartAgain(ids: seq<nat>) returns (all: bool)
      requires forall i :: i in ids ==> i in w.containers
      modifies this
      ensures calls == old(calls) + |ids| && (all <==> Smooth(fate, old(calls), |ids|))
      ensures w == old(w).(containers := w.containers) && SameNames(old(w).containers, w.containers)
      ensures all ==> w.containers == StartedIn(old(w).containers, ids)
      ensures |ids| == 1 ==> w.containers == if Takes(fate(old(calls))) then StartedIn(old(w).containers, ids) else old(w).containers
      ensures old(seen) <= seen && |seen| == |old(seen)| + |ids| && (if ids == [] then w == old(w) else seen[|seen| - 1] == w)
    {
      all := true;
      assert StartedIn(w.containers, []) == w.containers;
      for i := 0 to |ids|
        invariant calls == old(calls) + i && (all <==> Smooth(fate, old(calls), i))
        invariant w == old(w).(containers := w.containers) && SameNames(old(w).containers, w.containers)
        invariant all ==> w.containers == StartedIn(old(w).containers, ids[..i])
        invariant i == 1 ==> w.containers == if Takes(fate(old(calls))) then StartedIn(old(w).containers, ids[..1]) else old(w).containers
        invariant old(seen) <= seen && |seen| == |old(seen)| + i && (if i == 0 then w == old(w) else seen[|seen| - 1] == w)
      {
        assert ids[i] in ids;
        StartedOneMore(old(w).containers, ids, i);
        var ok := Call(WithRunning(w, ids[i], true));
        all := all && ok;
      }
      assert ids[..|ids|] == ids;
    }

    /** Removes the listed containers; what fails stays, not running. */
    method RemoveAll(ids: seq<nat>)
      modifies this
      ensures w == old(w).(containers := w.containers)
      ensures forall i :: i in w.containers ==> i in old(w).containers && w.containers[i] == old(w).containers[i]
      ensures forall i :: i in old(w).containers && i !in ids ==> i in w.containers
      ensures AllDone(fate, old(calls)) ==> forall i :: i in ids ==> i !in w.containers
      ensures calls >= old(calls)
      ensures old(seen) <= seen && forall k :: |old(seen)| <= k < |seen| ==> RunsLess(old(w), seen[k])
    {
      for i := 0 to |ids|
        invariant w == old(w).(containers := w.containers) && calls >= old(calls)
        invariant forall i :: i in w.containers ==> i in old(w).containers && w.containers[i] == old(w).containers[i]
        invariant forall i :: i in old(w).containers && i !in ids ==> i in w.containers
        invariant AllDone(fate, old(calls)) ==> forall j :: 0 <= j < i ==> ids[j] !in w.containers
        invariant old(seen) <= seen && forall k :: |old(seen)| <= k < |seen| ==> RunsLess(old(w), seen[k])
      {
        assert ids[i] in ids;
        var ok := Call(Without(w, ids[i]));
      }
    }

    /** The app's containers stopped, all of them, or an early end. */
    method StopOthers(name: string) returns (ok: bool, running: seq<nat>)
      requires Valid(w)
      modifies this
      ensures ok <==> Smooth(fate, old(calls), 2 + RunningCount(old(w), name))
      ensures calls > old(calls) && Valid(w) && w == old(w).(containers := w.containers)
      ensures ok ==>
        && calls == old(calls) + 2 + RunningCount(old(w), name) && |running| == RunningCount(old(w), name)
        && (forall a, b :: 0 <= a < b < |running| ==> running[a] != running[b])
        && (forall i :: i in running <==> i in RunningOthers(old(w), name))
        && w.containers == StoppedIn(OthersOf(old(w), name), running)
      ensures !ok && Smooth(fate, old(calls), 2) ==>
        StoppedSome(fate, old(calls) + 2, calls, RunningCount(old(w), name), RunningCount(w, name))
      ensures RunsLess(old(w), w)
      ensures old(seen) <= seen && forall k :: |old(seen)| <= k < |seen| ==> RunsLess(old(w), seen[k])
    {
      hide Smooth, StoppedIn, OthersOf, RunningOthers, RunningCount, Valid, RunsLess;
      running := [];
      ghost var n, freed := calls, w.(containers := OthersOf(w, name));
      Freed(w, freed, name);
      ok := RemoveNamed(name);
      SmoothTwo(fate, n, RunningCount(old(w), name));
      if !ok {
        return;
      }
      ok := Call(w);
      if !ok {
        return;
      }
      running := ListOthers(name, true);
      Listed(w, name, running);
      ghost var begun := |seen|;
      ghost var stopped;
      ok, stopped := StopAll(running);
      StillRunning(freed, w, name, running, stopped);
      forall k | begun <= k < |seen|
        ensures RunsLess(old(w), seen[k])
      {
        LessTwice(old(w), freed, seen[k]);
      }
      LessTwice(old(w), freed, w);
      assert running[..|running|] == running;
    }

    /** The new container in place of the stopped ones. */
    method StartAlone(name: string, upstream: string, target: Option<string>, same: bool, release: string)
      returns (ok: bool, id: nat, threw: bool)
      requires Valid(w) && (target.Some? ==> target.value == upstream) && (same ==> w.file == target)
      requires forall i :: !IsRunning(w, i) && !IsNamed(w, i, name)
      modifies this
      ensures ok <==> Smooth(fate, old(calls), 1 + LiveCalls(same))
      ensures (threw <==> fate(old(calls)).Done? && ReloadThrows(fate, old(calls) + 1, same)) && !(ok && threw)
      ensures Valid(w) && id == old(w).nextId && id !in old(w).containers && calls > old(calls)
      ensures !ok ==> FailsBefore(fate, old(calls), calls)
      ensures w.containers == old(w).containers
              || (id in w.containers && w.containers[id].name == name && w.containers == old(w).containers[id := w.containers[id]])
      ensures IsRunning(w, id) <==> fate(old(calls)).Done? && Takes(fate(old(calls) + 1))
      ensures ok ==>
        && w.containers == old(w).containers[id := Container(name, true, {upstream})]
        && w.served == (if same then old(w).served else target) && w.current == release
      ensures ok || threw ==> w.file == target
      ensures threw ==> w.served == if Takes(fate(old(calls) + 6)) then target else old(w).served
      ensures !ok && !threw ==> w.file == old(w).file && w.served == old(w).served
      ensures !ok ==> w.current == old(w).current
      ensures old(seen) <= seen && forall k :: |old(seen)| <= k < |seen| ==> AtMostOneRuns(seen[k])
    {
      hide Smooth, FailsBefore, IsOnTheWay;
      assert w.nextId !in w.containers;
      hide Valid, AtMostOneRuns, IsRunning;
      id, threw := w.nextId, false;
      CreatedIsValid(w, name);
      CreatedRunsNothing(w, name);
      SmoothOne(fate, calls, LiveCalls(same));
      FailsFirst(fate, calls);
      ok := Call(Created(w, name));
      NoneRuns(w);
      if ok {
        ghost var created, start := |seen|, w;
        ok, threw := BringUp(id, upstream, target, same, release);
        forall k | created <= k < |seen|
          ensures AtMostOneRuns(seen[k])
        {
          RunsAlone(start, seen[k], id, upstream, target);
        }
        CreatedIsUp(old(w), start, w, name, id, upstream, target);
        assert ok ==> w.containers[id] == Container(name, true, {upstream});
        TakenBackIsValid(start, w, id, upstream, target);
        FailsLater(fate, old(calls), 1, calls);
      }
    }

    /** The failed container removed and the stopped ones, `c`, started again. */
    method RollBack(
      name: string, running: seq<nat>, ghost id: nat, ghost c: Containers, ghost start: World, ghost target: Option<string>, ghost threw: bool)
      returns (removed: bool, restored: bool)
      requires Valid(w) && id !in c && (forall i :: i in c ==> c[i].name != name && !c[i].running)
      requires w.containers == c || (id in w.containers && w.containers[id].name == name && w.containers == c[id := w.containers[id]])
      requires (forall i :: i in running ==> i in c) && StartedIn(c, running) == OthersOf(start, name)
      requires if threw then w.file == target && w.served in {start.served, target} else w.file == start.file && w.served == start.served
      modifies this
      ensures removed == fate(old(calls)).Done? && (restored <==> Smooth(fate, old(calls) + 1, |running|))
      ensures calls == old(calls) + 1 + |running| && w == old(w).(containers := w.containers) && Valid(w)
      ensures removed && restored ==>
        && w.containers == OthersOf(start, name)
        && (IsKept(start, name) ==> (IsAnswered(w) <==> !threw || IsUpWithout(start, target, name)))
      ensures old(seen) < seen
      ensures |running| <= 1 ==>
        (EverTwo(seen, |old(seen)|) <==>
         |running| == 1 && IsRunning(old(w), id) && !Takes(fate(old(calls))) && Takes(fate(old(calls) + 1)))
        && (EverTwo(seen, |old(seen)|) <==> !AtMostOneRuns(w))
    {
      hide Smooth, OthersOf, AtMostOneRuns, StartedIn, Valid, SameNames, IsAnswered, IsKept, IsUpWithout;
      OnlyNewIsNamed(w, c, name, id);
      removed := RemoveNamed(name);
      ghost var cleaned := w;
      restored := StartAgain(running);
      NamesAreValid(cleaned, w);
      if removed && restored {
        RestoredIsAnswered(start, w, name, target, threw);
      }
      if |running| == 1 {
        assert seen == old(seen) + [cleaned, w];
        OneStarted(c, cleaned, w, id, running, Takes(fate(calls - 1)));
      } else if running == [] {
        assert seen == old(seen) + [cleaned];
        NewRunsAlone(c, cleaned, id);
      }
    }

    /**
     * Recreate: the app's containers stopped first, then the new one; if it fails it is removed and those
     * that ran are started again. Where at most one runs at the start, two run at once exactly if the new
     * one was started, could not be removed, and the old one was started again.
     */
    method ActivateRecreate(
      name: string, upstream: string, target: Option<string>, same: bool, release: string, finalName: Option<string>)
      returns (r: Recreated)
      requires Valid(w) && (target.Some? ==> target.value == upstream) && (same ==> w.file == target)
      modifies this
      ensures Valid(w) && old(seen) <= seen
      ensures r.StopFailed? <==> !Smooth(fate, old(calls), 2 + RunningCount(old(w), name))
      ensures r.RecreatedLive? <==> Smooth(fate, old(calls), 3 + RunningCount(old(w), name) + LiveCalls(same))
      ensures var m := 3 + RunningCount(old(w), name);
              (r.RolledBack? && r.reloadThrew <==> Smooth(fate, old(calls), m) && ReloadThrows(fate, old(calls) + m, same))
      ensures r.RolledBack? ==>
        var m := RunningCount(old(w), name);
        calls > m + 1 && FailsBefore(fate, old(calls) + 2 + m, calls - m - 1) && r.removed == fate(calls - m - 1).Done?
      ensures AtMostOneRuns(old(w)) ==>
        (EverTwo(seen, |old(seen)|) <==>
         r.RolledBack? && RunningCount(old(w), name) == 1 && TwoStarted(fate, old(calls) + 3, calls))
        && (r.RolledBack? ==> (EverTwo(seen, |old(seen)|) <==> !AtMostOneRuns(w)))
      ensures RecreateEnds(r, old(w), w, name, upstream, target, same, release)
      // With every call done: the new container alone, under its final name, and everything names it
      ensures AllDone(fate, old(calls)) ==>
        && r == RecreatedLive(true)
        && w.containers == map[old(w).nextId := Container(if finalName.Some? then finalName.value else name, true, {upstream})]
        && w.file == target && w.served == (if same then old(w).served else target) && w.current == release
      ensures r.RolledBack? && r.reloadThrew ==>
        w.served == if Takes(fate(old(calls) + RunningCount(old(w), name) + 8)) then target else old(w).served
      ensures r.StopFailed? && Smooth(fate, old(calls), 2) ==>
        StoppedSome(fate, old(calls) + 2, calls, RunningCount(old(w), name), RunningCount(w, name))
    {
      hide Smooth, OthersOf, RunningOthers, RunningCount, EverTwo, AtMostOneRuns, StoppedIn, RunsLess, Valid, StoppedSome, AllDone,
           ReloadThrows, TwoStarted, IsAnswered, RecreateEnds, FailsBefore;
      ghost var start, n, begun, m := w, calls, |seen|, RunningCount(w, name);
      var ok, running := StopOthers(name);
      LessAreOne(start, seen, begun);
      SmoothAfter(fate, n, 2 + m, 1 + LiveCalls(same));
      SmoothAfter(fate, n, 2 + m, 1);
      SmoothOne(fate, n + 2 + m, LiveCalls(same));
      DoneIsSmooth(fate, n, 2 + m);
      if !ok {
        StoppedEarly(start, w, name, upstream, target, same, release);
        return StopFailed;
      }
      OneListed(start, name, running);
      ghost var stopping := seen;
      r := Replace(name, running, upstream, target, same, release, finalName, start);
      if AtMostOneRuns(start) {
        EverTwoLater(stopping, seen, begun);
      }
    }

    /** The second part of a recreate: the new container instead of the stopped ones, or those again. */
    method Replace(
      name: string, running: seq<nat>, upstream: string, target: Option<string>, same: bool, release: string,
      finalName: Option<string>, ghost start: World)
      returns (r: Recreated)
      requires Valid(w) && (target.Some? ==> target.value == upstream) && (same ==> w.file == target)
      requires w == start.(containers := StoppedIn(OthersOf(start, name), running))
      requires forall i :: i in running <==> i in RunningOthers(start, name)
      modifies this
      ensures Valid(w) && old(seen) <= seen && !r.StopFailed? && calls > old(calls)
      ensures r.RecreatedLive? <==> fate(old(calls)).Done? && Smooth(fate, old(calls) + 1, LiveCalls(same))
      ensures r.RolledBack? && r.reloadThrew <==> fate(old(calls)).Done? && ReloadThrows(fate, old(calls) + 1, same)
      ensures r.RolledBack? ==>
        && calls > |running| + 1 && FailsBefore(fate, old(calls), calls - |running| - 1)
        && r.removed == fate(calls - |running| - 1).Done?
        && (|running| <= 1 ==> (EverTwo(seen, |old(seen)|) <==> !AtMostOneRuns(w)))
      ensures |running| <= 1 ==>
        (EverTwo(seen, |old(seen)|) <==>
         r.RolledBack? && |running| == 1 && TwoStarted(fate, old(calls), calls))
      ensures RecreateEnds(r, start, w, name, upstream, target, same, release)
      ensures r.RecreatedLive? ==> w.file == target && w.served == (if same then start.served else target) && w.current == release
      ensures r.RolledBack? && r.reloadThrew ==> w.served == if Takes(fate(old(calls) + 6)) then target else start.served
      ensures AllDone(fate, old(calls)) ==>
        && r == RecreatedLive(true)
        && w.containers == map[start.nextId := Container(if finalName.Some? then finalName.value else name, true, {upstream})]
    {
      hide Smooth, FailsBefore, OthersOf, RunningOthers, AtMostOneRuns, StoppedIn, StartedIn, Valid, IsAnswered, AllDone, IsKept, IsUpWithout;
      ghost var c := w.containers;
      StoppedRunNothing(start, w, name, running);
      SmoothOne(fate, calls, LiveCalls(same));
      DoneIsSmooth(fate, calls, 1 + LiveCalls(same));
      var ok, id, threw := StartAlone(name, upstream, target, same, release);
      DoneLater(fate, old(calls), calls);
      ghost var begun := seen;
      if ok {
        var finished := Finish(name, id, finalName, c, upstream, target, same);
        EverTwoLater(begun, seen, |old(seen)|);
        return RecreatedLive(finished);
      }
      var removed, restored := RollBack(name, running, id, c, start, target, threw);
      EverTwoLater(begun, seen, |old(seen)|);
      return RolledBack(removed, restored, threw);
    }

    /** The old containers, which do not run, removed, and the release's own name taken. */
    method Finish(
      name: string, id: nat, finalName: Option<string>, ghost c: Containers, ghost upstream: string, ghost target: Option<string>,
      ghost same: bool)
      returns (finished: bool)
      requires Valid(w) && id !in c && (forall i :: i in c ==> c[i].name != name && !c[i].running)
      requires w.containers == c[id := Container(name, true, {upstream})]
      requires w.file == target && (!same ==> w.served == target) && (target.Some? ==> target.value == upstream)
      modifies this
      ensures Valid(w) && w == old(w).(containers := w.containers)
      ensures forall i :: IsRunning(w, i) <==> i == id
      ensures IsAnswered(w) <==> !same || w.served.None? || w.served.value == upstream
      ensures AllDone(fate, old(calls)) ==>
        finished && w.containers == map[id := Container(if finalName.Some? then finalName.value else name, true, {upstream})]
      ensures calls > old(calls)
      ensures old(seen) <= seen && forall k :: |old(seen)| <= k < |seen| ==> AtMostOneRuns(seen[k])
    {
      hide Valid, IsAnswered, AtMostOneRuns, AllDone, AnswersLess, RunsLess, IsRunning;
      finished := RemoveOld(name, id, c, upstream, target, same);
      DoneLater(fate, old(calls), calls);
      if finished {
        ghost var alone, before := w, seen;
        TakeName(id, finalName, 0);
        SameRun(alone, w, id);
        OnlyOneRuns(w, id);
        assert forall k :: |before| <= k < |seen| ==> seen[k] == w;
      }
    }

    method RemoveOld(name: string, ghost id: nat, ghost c: Containers, ghost upstream: string, ghost target: Option<string>, ghost same: bool)
      returns (finished: bool)
      requires Valid(w) && id !in c && (forall i :: i in c ==> c[i].name != name && !c[i].running)
      requires w.containers == c[id := Container(name, true, {upstream})]
      requires w.file == target && (!same ==> w.served == target) && (target.Some? ==> target.value == upstream)
      modifies this
      ensures Valid(w) && w == old(w).(containers := w.containers)
      ensures id in w.containers && w.containers[id] == Container(name, true, {upstream})
      ensures forall i :: IsRunning(w, i) <==> i == id
      ensures IsAnswered(w) <==> !same || w.served.None? || w.served.value == upstream
      ensures AllDone(fate, old(calls)) ==> finished && w.containers == map[id := Container(name, true, {upstream})]
      ensures calls > old(calls)
      ensures old(seen) <= seen && forall k :: |old(seen)| <= k < |seen| ==> AtMostOneRuns(seen[k])
    {
      finished := Call(w);
      hide Valid, IsAnswered, AtMostOneRuns, AllDone, RunsLess, Takes;
      DoneFirst(fate, old(calls));
      RenamedAnswersAlike(w, id, name);
      if finished {
        RemoveOthers(name, id, c);
      }
      LessIsValid(old(w), w);
      AloneIsAnswered(c, w, name, id, upstream, target, same);
      OnlyOneRuns(old(w), id);
      LessAreOne(old(w), seen, |old(seen)|);
    }

    /** All but the new container removed; what fails stays, not running. */
    method RemoveOthers(name: string, ghost id: nat, ghost c: Containers)
      requires id !in c && (forall i :: i in c ==> c[i].name != name && !c[i].running)
      requires id in w.containers && w.containers[id].name == name && w.containers == c[id := w.containers[id]]
      modifies this
      ensures w == old(w).(containers := w.containers) && calls >= old(calls)
      ensures id in w.containers && w.containers[id] == old(w).containers[id]
      ensures forall i :: i in w.containers && i != id ==> i in c && w.containers[i] == c[i]
      ensures AllDone(fate, old(calls)) ==> w.containers == map[id := old(w).containers[id]]
      ensures old(seen) <= seen && forall k :: |old(seen)| <= k < |seen| ==> RunsLess(old(w), seen[k])
    {
      var others := ListOthers(name, false);
      RemoveAll(others);
      assert forall i :: i in others <==> i in c;
    }
  }

  // ── Where the promise ends ─────────────────────────────────────────────────

  /** One container runs, and the proxy sends to what it answers. */
  function OneServes(): World
  {
    World(map[0 := Container("old", true, {"one"})], 1, Some("one"), Some("one"), "old")
  }

  lemma OneServesWell()
    ensures Valid(OneServes()) && IsAnswered(OneServes()) && AtMostOneRuns(OneServes())
    ensures IsKept(OneServes(), "new") && RunningCount(OneServes(), "new") == 1
    ensures !IsUpWithout(OneServes(), Some("two"), "new")
  {
    assert Answers(OneServes(), 0, "one") && 0 in OthersOf(OneServes(), "new");
    assert RunningOthers(OneServes(), "new") == {0};
  }

  /**
   * A reload that fails without an answer although the front switched: the new container is removed, and
   * the upstream the proxy now sends to is answered by nobody, though the old container runs.
   */
  method UnansweredReload() returns (end: World, r: Rolling)
    ensures r == RollingFailed(true) && OthersOf(end, "new") == OthersOf(OneServes(), "new")
    ensures end.served == Some("two") && !IsAnswered(end)
  {
    OneServesWell();
    var h := new Host(OneServes(), i => if i == 7 then Lost(true) else Done);
    r := h.ActivateRolling("new", "two", Some("two"), false, "new", None);
    end := h.w;
  }

  lemma BothAnswer(w: World)
    requires w.file == Some("two") && w.served == Some("one") && OthersOf(w, "new") == OthersOf(OneServes(), "new")
    requires Answers(w, 1, "two") && IsNamed(w, 1, "new")
    ensures IsAnswered(w) && IsKept(w, "newer")
  {
    assert 0 in OthersOf(OneServes(), "new");
    assert w.containers[0] == OthersOf(w, "new")[0];
    assert Answers(w, 0, "one") && 0 in OthersOf(w, "newer") && 1 in OthersOf(w, "newer");
  }

  /**
   * Two activations from a start where all is well. The first one's reload fails without effect and without
   * an answer, and so does the removal of its container, so the config's file is ahead of the running
   * config. The second finds the file's text unchanged, skips the reload and retires what the running
   * config sends to: it succeeds, with every call done, and nobody answers.
   */
  method StaleConfigIsStranded() returns (between: World, end: World, r: Rolling)
    ensures IsAnswered(between) && IsKept(between, "newer") && between.file == Some("two") && between.served == Some("one")
    ensures r == RollingLive(true) && end.file == Some("two") && end.served == Some("one") && !IsAnswered(end)
  {
    hide OthersOf, IsKept, Valid;
    OneServesWell();
    var h := new Host(OneServes(), i => if i == 7 then Lost(false) else if i == 8 then Refused else Done);
    r := h.ActivateRolling("new", "two", Some("two"), false, "new", None);
    between := h.w;
    BothAnswer(between);
    var h2 := new Host(between, i => Done);
    r := h2.ActivateRolling("newer", "two", Some("two"), true, "newer", None);
    end := h2.w;
    assert forall i :: i in end.containers ==> i == between.nextId;
  }

  /** Recreate with a failed health check and a failed removal: the failed container and the old one run together. */
  method FailedRemovalRunsTwo() returns (end: World, r: Recreated)
    ensures r.RolledBack? && !r.removed && !AtMostOneRuns(end)
  {
    OneServesWell();
    var h := new Host(OneServes(), i => if i == 5 || i == 6 then Refused else Done);
    assert !h.fate(5).Done?;
    r := h.ActivateRecreate("new", "one", Some("one"), true, "new", None);
    end := h.w;
  }

  /** Two run before a recreate and the second does not stop: the first stays stopped. */
  method FailedStopIsNotUndone(start: World) returns (end: World, r: Recreated)
    requires Valid(start) && RunningCount(start, "new") == 2
    ensures r == StopFailed && RunningCount(end, "new") == 1
  {
    var h := new Host(start, i => if i == 3 then Refused else Done);
    assert !h.fate(3).Done?;
    r := h.ActivateRecreate("new", "one", Some("one"), false, "new", None);
    end := h.w;
  }
}
