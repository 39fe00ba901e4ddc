/**
 * An app's containers while a release is activated: what the calls do, what is promised of every state a
 * run passes through, and what the steps of an activation keep of it.
 */
module Deployment {
  import opened Calls

  datatype Container = Container(name: string, running: bool, aliases: set<string>)

  type Containers = map<nat, Container>

  /** The app's containers, the upstream the proxy's config file and its running config name, and `current`. */
  datatype World = World(
    containers: Containers, nextId: nat, file: Option<string>, served: Option<string>, current: string)

  predicate IsRunning(w: World, id: nat)
  {
    id in w.containers && w.containers[id].running
  }

  predicate Answers(w: World, id: nat, upstream: string)
  {
    IsRunning(w, id) && upstream in w.containers[id].aliases
  }

  predicate IsNamed(w: World, id: nat, name: string)
  {
    id in w.containers && w.containers[id].name == name
  }

  /** Ids are given out once, and names are taken once. */
  ghost predicate Valid(w: World)
  {
    && (forall id :: id in w.containers ==> id < w.nextId)
    && (forall i, j :: i in w.containers && j in w.containers && w.containers[i].name == w.containers[j].name ==> i == j)
  }

  // ── What the calls do ──────────────────────────────────────────────────────

  function Without(w: World, id: nat): World
  {
    w.(containers := w.containers - {id})
  }

  function WithRunning(w: World, id: nat, running: bool): World
  {
    if id in w.containers then w.(containers := w.containers[id := w.containers[id].(running := running)]) else w
  }

  /** A created container does not run yet, and is on the apps network only. */
  function Created(w: World, name: string): World
  {
    w.(containers := w.containers[w.nextId := Container(name, false, {})], nextId := w.nextId + 1)
  }

  function Joined(w: World, id: nat, upstream: string): World
  {
    if id in w.containers then
      w.(containers := w.containers[id := w.containers[id].(aliases := w.containers[id].aliases + {upstream})])
    else w
  }

  function Renamed(w: World, id: nat, name: string): World
  {
    if id in w.containers then w.(containers := w.containers[id := w.containers[id].(name := name)]) else w
  }

  // ── What is promised ───────────────────────────────────────────────────────

  /** An upstream is answered by a running container. */
  ghost predicate IsUp(w: World, upstream: Option<string>)
  {
    upstream.Some? ==> exists id :: Answers(w, id, upstream.value)
  }

  /** Each upstream the proxy's file or its running config names is answered. */
  ghost predicate IsAnswered(w: World)
  {
    IsUp(w, w.file) && IsUp(w, w.served)
  }

  /** The containers not called `name`. */
  function OthersOf(w: World, name: string): Containers
  {
    map id | id in w.containers && w.containers[id].name != name :: w.containers[id]
  }

  ghost predicate IsUpWithout(w: World, upstream: Option<string>, name: string)
  {
    upstream.Some? ==> exists id :: Answers(w, id, upstream.value) && id in OthersOf(w, name)
  }

  /** Both upstreams are answered by containers that an activation under `name` keeps. */
  ghost predicate IsKept(w: World, name: string)
  {
    IsUpWithout(w, w.file, name) && IsUpWithout(w, w.served, name)
  }

  predicate AtMostOneRuns(w: World)
  {
    forall i, j :: i in w.containers && j in w.containers && w.containers[i].running && w.containers[j].running ==> i == j
  }

  ghost predicate EverUnanswered(seen: seq<World>, from: nat)
  {
    exists k :: from <= k < |seen| && !IsAnswered(seen[k])
  }

  /** Two run at once in some state from the `from`-th on. */
  ghost predicate EverTwo(seen: seq<World>, from: nat)
  {
    exists k :: from <= k < |seen| && !AtMostOneRuns(seen[k])
  }

  function RunningOthers(w: World, name: string): set<nat>
  {
    set id | id in w.containers && w.containers[id].running && w.containers[id].name != name
  }

  function RunningCount(w: World, name: string): nat
  {
    |RunningOthers(w, name)|
  }

  /** How the proxy's switch ended; `Threw` is a reload call that failed without an answer. */
  datatype SwitchResult = Switched | Turned | Threw

  /** `finished` is false when the old containers could not be listed any more. */
  datatype Rolling = RollingLive(finished: bool) | RollingFailed(reloadThrew: bool)

  /** `removed` and `restored` say whether the compensating calls succeeded: the removal, and every start. */
  datatype Recreated = RecreatedLive(finished: bool) | StopFailed | RolledBack(removed: bool, restored: bool, reloadThrew: bool)

  /** The calls from starting a created container to moving `current`; the last is the reload. */
  function LiveCalls(same: bool): nat
  {
    if same then 4 else 6
  }

  /** From call `n` on, the container comes up and joins, and the reload fails without an answer. */
  predicate ReloadThrows(fate: Fates, n: nat, same: bool)
  {
    !same && Smooth(fate, n, 5) && fate(n + 5).Lost?
  }

  /** Of the calls from the creation, `n`, to `end`: created and started, not removed, and one started again. */
  predicate TwoStarted(fate: Fates, n: nat, end: nat)
  {
    fate(n).Done? && Takes(fate(n + 1)) && end >= 2 && !Takes(fate(end - 2)) && Takes(fate(end - 1))
  }

  /**
   * What a rolling activation leaves, from containers that answer both upstreams. Live: both are answered
   * unless the config's text stayed as it was, the running one names another upstream and nothing is left
   * that answers it. Failed: the others as they were, and both answered unless the reload threw, none of
   * them answers the new upstream and the new container is `gone`. `switched` is what became of the reload.
   */
  ghost predicate RollingEnds(
    r: Rolling, start: World, w: World, name: string, upstream: string, target: Option<string>, same: bool, release: string,
    switched: bool, gone: bool)
  {
    && (r.RollingLive? ==>
          && w.file == target && w.served == (if same then start.served else target) && w.current == release
          && start.nextId !in start.containers && Answers(w, start.nextId, upstream)
          && (IsAnswered(w) <==> !same || w.served.None? || w.served.value == upstream
                                 || exists id :: id in start.containers && Answers(w, id, w.served.value)))
    && (r.RollingFailed? ==>
          && OthersOf(w, name) == OthersOf(start, name)
          && (IsKept(start, name) ==> (IsAnswered(w) <==> !r.reloadThrew || IsUpWithout(start, target, name) || !gone)))
    && (r == RollingFailed(false) ==> w == start.(containers := w.containers, nextId := w.nextId))
    && (r == RollingFailed(true) ==>
          && w == start.(containers := w.containers, nextId := w.nextId, file := target,
                         served := if switched then target else start.served)
          && (!gone ==> IsNamed(w, start.nextId, name) && Answers(w, start.nextId, upstream)))
  }

  /**
   * What a recreate leaves. Live: the new container alone runs, and both upstreams are answered unless the
   * config's text stayed as it was while the running one names another upstream. Taken back, with every
   * call for it done: the containers that were there, with both upstreams answered as they were, unless
   * the reload threw and none of those answers the new upstream. Stopped early: nothing new runs.
   */
  ghost predicate RecreateEnds(
    r: Recreated, start: World, w: World, name: string, upstream: string, target: Option<string>, same: bool, release: string)
  {
    && (r.RecreatedLive? ==>
          && w.file == target && w.served == (if same then start.served else target) && w.current == release
          && (forall i :: IsRunning(w, i) <==> i == start.nextId)
          && (IsAnswered(w) <==> !same || w.served.None? || w.served.value == upstream))
    && (r.RolledBack? && r.removed && r.restored ==>
          && w.containers == OthersOf(start, name)
          && (IsKept(start, name) ==> (IsAnswered(w) <==> !r.reloadThrew || IsUpWithout(start, target, name))))
    && (r.RolledBack? && !r.reloadThrew ==> w == start.(containers := w.containers, nextId := w.nextId))
    && (r.RolledBack? && r.reloadThrew ==>
          w == start.(containers := w.containers, nextId := w.nextId, file := target, served := w.served))
    && (r.StopFailed? ==> w == start.(containers := w.containers) && RunsLess(start, w))
  }

  // ── What the steps keep ────────────────────────────────────────────────────

  /** A state on the way: the proxy names the old upstream or the new one, and the new one only after the join. */
  predicate GoingLive(start: World, id: nat, upstream: string, target: Option<string>, w: World)
  {
    || w == start
    || (w.containers == Joined(start, id, upstream).containers && w.nextId == start.nextId
        && w.file in {start.file, target} && w.served in {start.served, target})
  }

  lemma WasLive(start: World, id: nat, upstream: string, target: Option<string>)
    ensures GoingLive(start, id, upstream, target, start) && GoingLive(start, id, upstream, target, Joined(start, id, upstream))
    ensures Joined(start, id, upstream).file == start.file && Joined(start, id, upstream).served == start.served
  {
  }

  lemma SwitchingIsGoing(start: World, w: World, id: nat, upstream: string, target: Option<string>)
    requires w == Joined(start, id, upstream).(file := w.file, served := w.served, current := w.current)
    requires w.file in {start.file, target} && w.served in {start.served, target}
    ensures GoingLive(start, id, upstream, target, w)
  {
  }

  lemma AllAreGoing(start: World, joined: World, seen: seq<World>, begun: nat, id: nat, upstream: string, target: Option<string>)
    requires joined == Joined(start, id, upstream)
    requires forall k :: begun <= k < |seen| ==>
               && seen[k] == joined.(file := seen[k].file, served := seen[k].served)
               && seen[k].file in {joined.file, target} && seen[k].served in {joined.served, target}
    ensures forall k :: begun <= k < |seen| ==> GoingLive(start, id, upstream, target, seen[k])
  {
    hide GoingLive, Joined;
    WasLive(start, id, upstream, target);
    forall k | begun <= k < |seen|
      ensures GoingLive(start, id, upstream, target, seen[k])
    {
      SwitchingIsGoing(start, seen[k], id, upstream, target);
    }
  }

  /** Only container `id` changed, and the proxy names another upstream only once `id` answers it. */
  predicate IsOnTheWay(start: World, w: World, id: nat, upstream: string, target: Option<string>)
  {
    && id in start.containers && id in w.containers && w.nextId == start.nextId
    && w.containers == start.containers[id := w.containers[id]] && w.containers[id].name == start.containers[id].name
    && w.file in {start.file, target} && w.served in {start.served, target}
    && (w.file != start.file || w.served != start.served ==> Answers(w, id, upstream))
  }

  lemma StartedIsOnTheWay(start: World, id: nat, upstream: string, target: Option<string>)
    requires id in start.containers
    ensures IsOnTheWay(start, start, id, upstream, target) && IsOnTheWay(start, WithRunning(start, id, true), id, upstream, target)
  {
  }

  lemma GoingIsOnTheWay(start: World, up: World, w: World, id: nat, upstream: string, target: Option<string>)
    requires id in start.containers && up == WithRunning(start, id, true) && GoingLive(up, id, upstream, target, w)
    ensures IsOnTheWay(start, w, id, upstream, target)
  {
  }

  /** The containers not called `name` are as they were, and a new upstream is answered. */
  ghost predicate IsSafe(start: World, w: World, name: string, upstream: string, target: Option<string>)
  {
    && OthersOf(w, name) == OthersOf(start, name)
    && w.file in {start.file, target} && w.served in {start.served, target}
    && (w.file != start.file || w.served != start.served ==> exists id :: Answers(w, id, upstream))
  }

  lemma OnTheWayIsSafe(start: World, created: World, w: World, name: string, id: nat, upstream: string, target: Option<string>)
    requires OthersOf(created, name) == OthersOf(start, name) && IsOnTheWay(created, w, id, upstream, target)
    requires created.file == start.file && created.served == start.served && IsNamed(created, id, name)
    ensures IsSafe(start, w, name, upstream, target)
  {
    assert OthersOf(w, name) == OthersOf(created, name);
  }

  lemma KeptIsSafe(start: World, w: World, name: string, upstream: string, target: Option<string>)
    requires OthersOf(w, name) == OthersOf(start, name) && w.file == start.file && w.served == start.served
    ensures IsSafe(start, w, name, upstream, target)
  {
  }

  lemma TakenBackIsValid(
    created: World, w: World, id: nat, upstream: string, target: Option<string>)
    requires Valid(created) && IsOnTheWay(created, w, id, upstream, target)
    ensures Valid(w) && Valid(Without(w, id))
  {
  }

  /** The new container up, and removed again. */
  lemma TakenBack(
    start: World, created: World, w: World, name: string, id: nat, upstream: string, target: Option<string>)
    requires id !in start.containers
    requires created.containers == OthersOf(start, name)[id := Container(name, false, {})]
    requires IsOnTheWay(created, w, id, upstream, target)
    ensures OthersOf(w, name) == Without(w, id).containers == OthersOf(Without(w, id), name) == OthersOf(start, name)
    ensures w.containers == OthersOf(start, name)[id := w.containers[id]] && w.containers[id].name == name
  {
    assert w.containers == OthersOf(start, name)[id := w.containers[id]];
  }

  /** What the others answer does not depend on the rest. */
  lemma OthersStillAnswer(start: World, w: World, upstream: Option<string>, name: string)
    requires OthersOf(w, name) == OthersOf(start, name)
    ensures IsUpWithout(w, upstream, name) <==> IsUpWithout(start, upstream, name)
    ensures IsUpWithout(start, upstream, name) ==> IsUp(w, upstream)
  {
    if upstream.Some? {
      forall id
        ensures id in OthersOf(w, name) ==> (Answers(w, id, upstream.value) <==> Answers(start, id, upstream.value))
      {
        assert id in OthersOf(w, name) <==> id in OthersOf(start, name);
        assert id in OthersOf(w, name) ==> OthersOf(w, name)[id] == w.containers[id];
        assert id in OthersOf(start, name) ==> OthersOf(start, name)[id] == start.containers[id];
      }
    }
  }

  lemma SafeIsAnswered(start: World, w: World, name: string, upstream: string, target: Option<string>)
    requires IsSafe(start, w, name, upstream, target) && IsKept(start, name) && (target.Some? ==> target.value == upstream)
    ensures IsAnswered(w)
  {
    OthersStillAnswer(start, w, start.file, name);
    OthersStillAnswer(start, w, start.served, name);
  }

  /** All but, when the reload threw, the last. */
  lemma SafeAreAnswered(
    start: World, seen: seq<World>, from: nat, name: string, upstream: string, target: Option<string>, threw: bool)
    requires from < |seen| && (target.Some? ==> target.value == upstream)
    requires forall k :: from <= k < |seen| - (if threw then 1 else 0) ==> IsSafe(start, seen[k], name, upstream, target)
    ensures IsKept(start, name) ==> (EverUnanswered(seen, from) <==> !IsAnswered(seen[|seen| - 1]))
  {
    hide IsSafe, IsKept, IsAnswered;
    if IsKept(start, name) {
      forall k | from <= k < |seen| - if threw then 1 else 0
        ensures IsAnswered(seen[k])
      {
        SafeIsAnswered(start, seen[k], name, upstream, target);
      }
    }
  }

  lemma AnsweredIfAtTheEnd(first: seq<World>, seen: seq<World>, from: nat)
    requires from < |first| && first < seen
    requires EverUnanswered(first, from) <==> !IsAnswered(first[|first| - 1])
    requires forall k :: |first| <= k < |seen| ==> AnswersLess(seen[k], seen[|seen| - 1])
    requires AnswersLess(first[|first| - 1], seen[|seen| - 1])
    ensures EverUnanswered(seen, from) <==> !IsAnswered(seen[|seen| - 1])
  {
    hide AnswersLess, IsAnswered;
    var w := seen[|seen| - 1];
    LessIsAnswered(first[|first| - 1], w);
    forall k | from <= k < |seen|
      ensures IsAnswered(w) ==> IsAnswered(seen[k])
    {
      if k >= |first| {
        LessIsAnswered(seen[k], w);
      } else {
        assert seen[k] == first[k];
      }
    }
  }

  /** A failed activation's end: nothing unanswered but an upstream the new container alone answered. */
  lemma FailureIsAnswered(
    start: World, w: World, name: string, target: Option<string>, threw: bool, removal: Fate, id: nat)
    requires OthersOf(w, name) == OthersOf(start, name)
    requires !threw ==> w.file == start.file && w.served == start.served
    requires threw ==> w.file == target && w.served in {start.served, target}
    requires threw && Takes(removal) ==> w.containers == OthersOf(start, name)
    requires threw && !Takes(removal) && target.Some? ==> Answers(w, id, target.value)
    ensures IsKept(start, name) ==>
      (IsAnswered(w) <==> !threw || IsUpWithout(start, target, name) || !Takes(removal))
  {
    OthersStillAnswer(start, w, start.file, name);
    OthersStillAnswer(start, w, start.served, name);
    OthersStillAnswer(start, w, target, name);
    if threw && Takes(removal) {
      assert forall i :: i in w.containers ==> i in OthersOf(w, name);
    }
  }

  lemma FailureEnds(
    start: World, w: World, name: string, upstream: string, target: Option<string>, same: bool, release: string, threw: bool,
    switched: bool, gone: bool)
    requires OthersOf(w, name) == OthersOf(start, name) && (target.Some? ==> target.value == upstream)
    requires !threw ==> w == start.(containers := w.containers, nextId := w.nextId)
    requires threw ==>
      w == start.(containers := w.containers, nextId := w.nextId, file := target, served := if switched then target else start.served)
    requires threw ==>
      w.containers == if gone then OthersOf(start, name) else OthersOf(start, name)[start.nextId := Container(name, true, {upstream})]
    ensures RollingEnds(RollingFailed(threw), start, w, name, upstream, target, same, release, switched, gone)
  {
    assert threw && !gone ==> Answers(w, start.nextId, upstream);
    FailureIsAnswered(start, w, name, target, threw, if gone then Done else Refused, start.nextId);
  }

  lemma LiveEnds(
    start: World, up: World, w: World, name: string, upstream: string, target: Option<string>, same: bool, release: string,
    finished: bool, switched: bool, gone: bool)
    requires start.nextId !in start.containers && w == up.(containers := w.containers)
    requires up.containers == OthersOf(start, name)[start.nextId := Container(name, true, {upstream})]
    requires up.file == target && up.served == (if same then start.served else target) && up.current == release
    requires start.nextId in w.containers && w.containers[start.nextId].running && w.containers[start.nextId].aliases == {upstream}
    requires (forall i :: i in w.containers ==> i in up.containers) && (target.Some? ==> target.value == upstream)
    ensures RollingEnds(RollingLive(finished), start, w, name, upstream, target, same, release, switched, gone)
  {
    LiveIsAnswered(start, w, start.nextId, upstream, target, same);
  }

  /** Live: the file's upstream is answered, and the running config's unless only retired ones answered it. */
  lemma LiveIsAnswered(start: World, w: World, id: nat, upstream: string, target: Option<string>, same: bool)
    requires Answers(w, id, upstream) && w.containers[id].aliases == {upstream} && id !in start.containers
    requires w.file == target && (!same ==> w.served == target) && (target.Some? ==> target.value == upstream)
    requires forall i :: i in w.containers ==> i == id || i in start.containers
    ensures IsAnswered(w) <==> !same || w.served.None? || w.served.value == upstream
                               || exists i :: i in start.containers && Answers(w, i, w.served.value)
  {
  }

  /** Some containers were stopped or removed. */
  predicate OnlyLess(before: Containers, c: Containers)
  {
    forall i :: i in c ==> i in before && (c[i] == before[i] || c[i] == before[i].(running := false))
  }

  /** What answers in `w` answered in `before`, and the proxy is the same. */
  ghost predicate AnswersLess(before: World, w: World)
  {
    && before.file == w.file && before.served == w.served
    && forall i, u :: Answers(w, i, u) ==> Answers(before, i, u)
  }

  lemma Retiring(before: World, w: World, id: nat)
    requires IsRetiring(before, w, id)
    ensures AnswersLess(before, w) && (Valid(before) ==> Valid(w)) && w == before.(containers := w.containers)
    ensures w.containers.Keys <= before.containers.Keys && id in w.containers && w.containers[id] == before.containers[id]
  {
    if Valid(before) {
      LessIsValid(before, w);
    }
  }

  lemma LessThanItself(w: World)
    ensures AnswersLess(w, w)
  {
  }

  lemma RenamedAnswersAlike(w: World, id: nat, name: string)
    ensures AnswersLess(w, Renamed(w, id, name)) && AnswersLess(Renamed(w, id, name), w) && AnswersLess(w, w)
    ensures RunsLess(w, Renamed(w, id, name)) && RunsLess(Renamed(w, id, name), w) && RunsLess(w, w)
  {
  }

  lemma AnswersLessTwice(a: World, b: World, c: World)
    requires AnswersLess(a, b) && AnswersLess(b, c)
    ensures AnswersLess(a, c)
  {
  }

  lemma AllRetiring(seen: seq<World>, from: nat, w: World, id: nat)
    requires forall k :: from <= k < |seen| ==> IsRetiring(seen[k], w, id)
    ensures forall k :: from <= k < |seen| ==> AnswersLess(seen[k], w)
  {
    hide AnswersLess, IsRetiring;
    forall k | from <= k < |seen|
      ensures AnswersLess(seen[k], w)
    {
      Retiring(seen[k], w, id);
    }
  }

  lemma AllAnswerLess(seen: seq<World>, from: nat, done: nat, mid: World, w: World)
    requires from <= done <= |seen| && AnswersLess(mid, w) && AnswersLess(w, w)
    requires forall k :: from <= k < done ==> AnswersLess(seen[k], mid)
    requires forall k :: done <= k < |seen| ==> seen[k] == w
    ensures forall k :: from <= k < |seen| ==> AnswersLess(seen[k], w)
  {
    hide AnswersLess;
    forall k | from <= k < done
      ensures AnswersLess(seen[k], w)
    {
      AnswersLessTwice(seen[k], mid, w);
    }
  }

  lemma LessIsAnswered(before: World, w: World)
    requires AnswersLess(before, w)
    ensures IsAnswered(w) ==> IsAnswered(before)
  {
  }

  /** Some containers other than `id` were stopped or removed, nothing else. */
  predicate IsRetiring(before: World, w: World, id: nat)
  {
    && w == before.(containers := w.containers) && OnlyLess(before.containers, w.containers)
    && id in before.containers && id in w.containers && w.containers[id] == before.containers[id]
  }

  lemma RetiringOne(w: World, other: nat, id: nat)
    requires other != id && id in w.containers
    ensures IsRetiring(w, w, id) && IsRetiring(w, WithRunning(w, other, false), id) && IsRetiring(w, Without(w, other), id)
  {
  }

  lemma RetiringTwice(a: World, b: World, c: World, id: nat)
    requires IsRetiring(a, b, id) && IsRetiring(b, c, id)
    ensures IsRetiring(a, c, id)
  {
    forall i | i in c.containers
      ensures i in a.containers && (c.containers[i] == a.containers[i] || c.containers[i] == a.containers[i].(running := false))
    {
      assert i in b.containers;
    }
  }

  lemma LessIsValid(before: World, w: World)
    requires Valid(before) && OnlyLess(before.containers, w.containers) && w.nextId == before.nextId
    ensures Valid(w)
  {
    forall i | i in w.containers
      ensures i in before.containers && w.containers[i].name == before.containers[i].name
    {
    }
  }

  /** From the `from`-th state on, what runs in one is there in the next: nothing is removed before it stopped. */
  ghost predicate StopsFirst(seen: seq<World>, from: nat)
  {
    forall k, i :: from <= k < |seen| - 1 && IsRunning(seen[k], i) ==> i in seen[k + 1].containers
  }

  /** The same of the containers not called `name`. */
  ghost predicate OthersStopFirst(seen: seq<World>, from: nat, name: string)
  {
    forall k, i :: from <= k < |seen| - 1 && IsRunning(seen[k], i) && seen[k].containers[i].name != name ==> i in seen[k + 1].containers
  }

  lemma StopsOneMore(seen: seq<World>, from: nat, w: World, next: World)
    requires from < |seen| && seen[|seen| - 1] == w && StopsFirst(seen, from)
    requires forall i :: IsRunning(w, i) ==> i in next.containers
    ensures StopsFirst(seen + [next], from)
  {
    var more := seen + [next];
    forall k, i | from <= k < |more| - 1 && IsRunning(more[k], i)
      ensures i in more[k + 1].containers
    {
      if k < |seen| - 1 {
        assert more[k] == seen[k] && more[k + 1] == seen[k + 1];
      }
    }
  }

  /** One more state with the same containers. */
  lemma StopsLonger(seen: seq<World>, from: nat, w: World, next: World)
    requires w.containers.Keys == next.containers.Keys
    ensures from < |seen| && seen[|seen| - 1] == w && StopsFirst(seen, from) ==> StopsFirst(seen + [next], from)
  {
    if from < |seen| && seen[|seen| - 1] == w && StopsFirst(seen, from) {
      StopsOneMore(seen, from, w, next);
    }
  }

  lemma StopsWith(seen: seq<World>)
    ensures seen != [] ==> StopsFirst(seen + [seen[|seen| - 1]], |seen| - 1)
  {
  }

  lemma RetiringStopsFirst(seen: seq<World>, from: nat, w: World, other: nat)
    requires from < |seen| && seen[|seen| - 1] == w && StopsFirst(seen, from)
    ensures var half := WithRunning(w, other, false); StopsFirst(seen + [half, Without(half, other)], from)
  {
    var half := WithRunning(w, other, false);
    StopsOneMore(seen, from, w, half);
    StopsOneMore(seen + [half], from, half, Without(half, other));
    assert seen + [half] + [Without(half, other)] == seen + [half, Without(half, other)];
  }

  /** Until it is live an activation leaves the others alone. */
  lemma OthersStopFirstAfter(
    start: World, live: seq<World>, seen: seq<World>, from: nat, name: string, upstream: string, target: Option<string>)
    requires from < |live| && live <= seen && StopsFirst(seen, |live| - 1)
    requires forall k :: from <= k < |live| ==> IsSafe(start, live[k], name, upstream, target)
    ensures OthersStopFirst(seen, from, name)
  {
    forall k, i | from <= k < |seen| - 1 && IsRunning(seen[k], i) && seen[k].containers[i].name != name
      ensures i in seen[k + 1].containers
    {
      if k < |live| - 1 {
        assert IsSafe(start, live[k], name, upstream, target) && IsSafe(start, live[k + 1], name, upstream, target);
        assert i in OthersOf(seen[k], name) && OthersOf(seen[k + 1], name) == OthersOf(seen[k], name);
      }
    }
  }

  lemma RenamedIsValid(w: World, id: nat, name: string)
    requires Valid(w) && forall i :: !IsNamed(w, i, name)
    ensures Valid(Renamed(w, id, name))
  {
    forall i | i in w.containers
      ensures w.containers[i].name != name
    {
      assert !IsNamed(w, i, name);
    }
  }

  lemma CreatedIsValid(w: World, name: string)
    requires Valid(w) && forall i :: !IsNamed(w, i, name)
    ensures Valid(Created(w, name))
  {
    forall i | i in w.containers
      ensures i != w.nextId && w.containers[i].name != name
    {
      assert !IsNamed(w, i, name);
    }
  }

  lemma StoppedEarly(start: World, w: World, name: string, upstream: string, target: Option<string>, same: bool, release: string)
    requires w == start.(containers := w.containers) && RunsLess(start, w)
    ensures RecreateEnds(StopFailed, start, w, name, upstream, target, same, release)
  {
  }

  // ── Stopping and starting ──────────────────────────────────────────────────

  function StoppedIn(c: Containers, ids: seq<nat>): Containers
  {
    map i | i in c :: if i in ids then c[i].(running := false) else c[i]
  }

  function StartedIn(c: Containers, ids: seq<nat>): Containers
  {
    map i | i in c :: if i in ids then c[i].(running := true) else c[i]
  }

  predicate SameNames(before: Containers, c: Containers)
  {
    c.Keys == before.Keys && forall i :: i in c ==> c[i].name == before[i].name
  }

  lemma StartedOneMore(c: Containers, ids: seq<nat>, k: nat)
    requires k < |ids| && ids[k] in c
    ensures var s := StartedIn(c, ids[..k]);
            StartedIn(c, ids[..k + 1]) == s[ids[k] := s[ids[k]].(running := true)]
  {
    assert ids[..k + 1] == ids[..k] + [ids[k]];
  }

  lemma StoppedOneMore(c: Containers, ids: seq<nat>, k: nat)
    requires k < |ids|
    ensures var s := StoppedIn(c, ids[..k]);
            StoppedIn(c, ids[..k + 1]) == if ids[k] in c then s[ids[k] := s[ids[k]].(running := false)] else s
  {
    assert ids[..k + 1] == ids[..k] + [ids[k]];
  }

  lemma Freed(before: World, w: World, name: string)
    requires Valid(before) && w == before.(containers := OthersOf(before, name))
    ensures RunningOthers(w, name) == RunningOthers(before, name) && RunningCount(w, name) == RunningCount(before, name)
    ensures OthersOf(w, name) == w.containers
    ensures RunsLess(before, w) && RunsLess(before, before) && Valid(w)
  {
  }

  lemma Listed(w: World, name: string, ids: seq<nat>)
    requires forall i :: i in ids <==> i in w.containers && w.containers[i].name != name && w.containers[i].running
    ensures forall i :: i in ids <==> i in RunningOthers(w, name)
  {
  }

  lemma LessTwice(a: World, b: World, c: World)
    requires RunsLess(a, b) && RunsLess(b, c)
    ensures RunsLess(a, c)
  {
  }

  /** What still runs after the first `k` of the running ones were stopped. */
  lemma StillRunning(before: World, w: World, name: string, ids: seq<nat>, k: nat)
    requires k <= |ids| && w.containers == StoppedIn(before.containers, ids[..k])
    requires forall a, b :: 0 <= a < b < |ids| ==> ids[a] != ids[b]
    requires forall i :: i in ids <==> i in RunningOthers(before, name)
    requires Valid(before) && w == before.(containers := w.containers)
    ensures RunningCount(w, name) == RunningCount(before, name) - k && |ids| == RunningCount(before, name)
    ensures Valid(w) && RunsLess(before, w)
  {
    Counted(ids, RunningOthers(before, name));
    forall i
      ensures i in RunningOthers(w, name) <==> i in ids[k..]
    {
      assert ids == ids[..k] + ids[k..];
      assert i in ids <==> i in RunningOthers(before, name);
    }
    Counted(ids[k..], RunningOthers(w, name));
  }

  /** Of `m` stops begun at call `n`, those before the one that failed took effect, and `left` still run. */
  predicate StoppedSome(fate: Fates, n: nat, end: nat, m: nat, left: nat)
  {
    && n < end <= n + m && Smooth(fate, n, end - 1 - n) && !fate(end - 1).Done?
    && left == m - (end - 1 - n) - (if Takes(fate(end - 1)) then 1 else 0)
  }

  ghost predicate RunsLess(before: World, w: World)
  {
    forall i :: IsRunning(w, i) ==> IsRunning(before, i)
  }

  lemma LessAreOne(before: World, seen: seq<World>, from: nat)
    requires from <= |seen| && forall k :: from <= k < |seen| ==> RunsLess(before, seen[k])
    ensures AtMostOneRuns(before) ==> (forall k :: from <= k < |seen| ==> AtMostOneRuns(seen[k])) && !EverTwo(seen, from)
  {
    if AtMostOneRuns(before) {
      forall k | from <= k < |seen|
        ensures AtMostOneRuns(seen[k])
      {
        LessIsOne(before, seen[k]);
      }
    }
  }

  lemma EverTwoLater(first: seq<World>, seen: seq<World>, from: nat)
    requires first <= seen && from <= |first| && !EverTwo(first, from)
    ensures EverTwo(seen, from) <==> EverTwo(seen, |first|)
  {
    assert forall k :: from <= k < |first| ==> seen[k] == first[k];
  }

  /** Running alike and answering alike. */
  lemma SameRun(a: World, b: World, id: nat)
    requires AnswersLess(a, b) && AnswersLess(b, a) && RunsLess(a, b) && RunsLess(b, a)
    ensures (forall i :: IsRunning(a, i) <==> i == id) ==> forall i :: IsRunning(b, i) <==> i == id
    ensures IsAnswered(a) <==> IsAnswered(b)
    ensures a.file == b.file && a.served == b.served
  {
    LessIsAnswered(a, b);
    LessIsAnswered(b, a);
  }

  lemma LessIsOne(before: World, w: World)
    requires RunsLess(before, w) && AtMostOneRuns(before)
    ensures AtMostOneRuns(w)
  {
    forall i, j | i in w.containers && j in w.containers && w.containers[i].running && w.containers[j].running
      ensures i == j
    {
      assert IsRunning(w, i) && IsRunning(w, j);
    }
  }

  lemma {:induction false} Counted(ids: seq<nat>, s: set<nat>)
    requires forall a, b :: 0 <= a < b < |ids| ==> ids[a] != ids[b]
    requires forall i :: i in ids <==> i in s
    ensures |ids| == |s|
  {
    if ids != [] {
      assert ids[0] in s;
      Counted(ids[1..], s - {ids[0]});
    } else {
      assert s == {};
    }
  }

  lemma RestoredIsAnswered(start: World, w: World, name: string, target: Option<string>, threw: bool)
    requires w.containers == OthersOf(start, name)
    requires if threw then w.file == target && w.served in {start.served, target} else w.file == start.file && w.served == start.served
    ensures IsKept(start, name) ==> (IsAnswered(w) <==> !threw || IsUpWithout(start, target, name))
  {
    assert OthersOf(w, name) == OthersOf(start, name);
    FailureIsAnswered(start, w, name, target, threw, Done, 0);
  }

  /** Live, and no other container runs. */
  lemma AloneIsAnswered(c: Containers, w: World, name: string, id: nat, upstream: string, target: Option<string>, same: bool)
    requires forall i :: i in c ==> !c[i].running
    requires id in w.containers && w.containers[id] == Container(name, true, {upstream})
    requires forall i :: i in w.containers && i != id ==> i in c && w.containers[i] == c[i]
    requires w.file == target && (!same ==> w.served == target) && (target.Some? ==> target.value == upstream)
    ensures forall i :: IsRunning(w, i) <==> i == id
    ensures IsAnswered(w) <==> !same || w.served.None? || w.served.value == upstream
  {
    assert Answers(w, id, upstream);
  }

  lemma OnlyNewIsNamed(w: World, c: Containers, name: string, id: nat)
    requires id !in c && forall i :: i in c ==> c[i].name != name
    requires w.containers == c || (id in w.containers && w.containers[id].name == name && w.containers == c[id := w.containers[id]])
    ensures OthersOf(w, name) == c
  {
  }

  lemma NamesAreValid(before: World, w: World)
    requires Valid(before) && SameNames(before.containers, w.containers) && w.nextId == before.nextId
    ensures Valid(w)
  {
  }

  lemma NewRunsAlone(c: Containers, w: World, id: nat)
    requires id !in c && forall i :: i in c ==> !c[i].running
    requires w.containers == c || (id in w.containers && w.containers == c[id := w.containers[id]])
    ensures AtMostOneRuns(w)
  {
  }

  /** One of the stopped containers started next to what is left of the new one. */
  lemma OneStarted(c: Containers, cleaned: World, w: World, id: nat, ids: seq<nat>, started: bool)
    requires id !in c && forall i :: i in c ==> !c[i].running
    requires cleaned.containers == c || (id in cleaned.containers && cleaned.containers == c[id := cleaned.containers[id]])
    requires |ids| == 1 && ids[0] in c
    requires w.containers == if started then StartedIn(cleaned.containers, ids) else cleaned.containers
    ensures AtMostOneRuns(cleaned) && (AtMostOneRuns(w) <==> !(IsRunning(cleaned, id) && started))
  {
    assert ids[0] in ids && forall i :: i in ids ==> i == ids[0];
    assert started ==> IsRunning(w, ids[0]);
    if IsRunning(cleaned, id) && started {
      assert IsRunning(w, id);
    } else {
      assert forall i :: IsRunning(w, i) ==> i == if started then ids[0] else id;
    }
  }

  lemma OneListed(w: World, name: string, ids: seq<nat>)
    requires forall i :: i in ids <==> i in RunningOthers(w, name)
    requires forall a, b :: 0 <= a < b < |ids| ==> ids[a] != ids[b]
    ensures AtMostOneRuns(w) ==> |ids| <= 1
  {
    if AtMostOneRuns(w) && ids != [] {
      assert ids[0] in ids;
      Counted(ids, {ids[0]});
    }
  }

  lemma StoppedRunNothing(start: World, w: World, name: string, ids: seq<nat>)
    requires w.containers == StoppedIn(OthersOf(start, name), ids)
    requires forall i :: i in ids <==> i in RunningOthers(start, name)
    ensures forall i :: !IsRunning(w, i) && !IsNamed(w, i, name)
    ensures forall i :: i in w.containers ==> w.containers[i].name != name && !w.containers[i].running
    ensures forall i :: i in ids ==> i in w.containers
    ensures StartedIn(w.containers, ids) == OthersOf(start, name)
  {
    forall i
      ensures !IsRunning(w, i) && !IsNamed(w, i, name) && (i in ids ==> i in w.containers)
    {
      assert i in ids <==> i in RunningOthers(start, name);
    }
    forall i | i in w.containers
      ensures w.containers[i].name != name && !w.containers[i].running
    {
      assert !IsRunning(w, i) && !IsNamed(w, i, name);
    }
  }

  lemma RunsAlone(start: World, w: World, id: nat, upstream: string, target: Option<string>)
    requires IsOnTheWay(start, w, id, upstream, target) && forall i :: !IsRunning(start, i)
    ensures AtMostOneRuns(w)
  {
    forall i | i in w.containers && i != id
      ensures !w.containers[i].running
    {
      assert !IsRunning(start, i);
    }
  }

  lemma CreatedIsUp(before: World, start: World, w: World, name: string, id: nat, upstream: string, target: Option<string>)
    requires start == Created(before, name) && id == before.nextId && IsOnTheWay(start, w, id, upstream, target)
    ensures id in w.containers && w.containers[id].name == name && w.containers == before.containers[id := w.containers[id]]
  {
    assert start.containers[id := w.containers[id]] == before.containers[id := w.containers[id]];
  }

  lemma CreatedRunsNothing(w: World, name: string)
    requires forall i :: !IsRunning(w, i)
    ensures forall i :: !IsRunning(Created(w, name), i)
  {
    forall i
      ensures !IsRunning(Created(w, name), i)
    {
      assert !IsRunning(w, i);
    }
  }

  lemma OnlyOneRuns(w: World, id: nat)
    requires forall i :: IsRunning(w, i) ==> i == id
    ensures AtMostOneRuns(w)
  {
    forall i | i in w.containers && w.containers[i].running
      ensures i == id
    {
      assert IsRunning(w, i);
    }
  }

  lemma NoneRuns(w: World)
    requires forall i :: !IsRunning(w, i)
    ensures AtMostOneRuns(w)
  {
    forall i | i in w.containers
      ensures !w.containers[i].running
    {
      assert !IsRunning(w, i);
    }
  }
}
