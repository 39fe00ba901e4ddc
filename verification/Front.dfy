/**
 * The proxy front: generations of Caddy in four slots, connections counted per generation, reloads
 * one after the other, and old generations drained. Everything that may happen is an event; what the
 * front does about it is a function of its state.
 */
module Front {
  const SLOTS := 4

  datatype Option<T> = None | Some(value: T)

  /** A Caddy that was started from `program`; its generation is its place in the list, counted from one. */
  datatype Instance = Instance(slot: nat, conns: int, exited: bool, stopping: bool, signalled: bool, program: string)

  /** A client connection, until it is released. */
  datatype Conn = Conn(inst: nat, counted: bool)

  datatype Request = Boot | Reload(caddy: Option<string>)

  /** Where the launch that is under way stands; launches wait for each other. */
  datatype Phase =
    | Idle
    | Freeing(oldest: nat, request: Request)
    | Snapshot(slot: nat, request: Request)
    | Starting(inst: nat, request: Request)
    | Probing(inst: nat, request: Request)
    | Failing(inst: nat, request: Request)
    | NeverStarted

  /** `results` holds how each finished reload went. */
  datatype State = State(
    instances: seq<Instance>, conns: seq<Conn>, current: Option<nat>, program: string, stopping: bool,
    phase: Phase, results: seq<bool>, fatal: seq<nat>)

  datatype Event =
    | Accept
    | Release(conn: nat)
    | AskReload(caddy: Option<string>)
    | Freed
    | SnapshotFails
    | Spawn
    | StartFails
    | Ready
    | ProbeFails
    | Switch
    | GaveUp
    | Signal(inst: nat, timeUp: bool)
    | Exit(inst: nat)
    | AskStop
    | StopAll

  predicate IsLive(s: State, g: nat)
  {
    g < |s.instances| && !s.instances[g].exited
  }

  // ── Slots ──────────────────────────────────────────────────────────────────

  predicate IsUsed(instances: seq<Instance>, slot: nat)
  {
    exists g :: 0 <= g < |instances| && !instances[g].exited && instances[g].slot == slot
  }

  /** The least slot from `slot` on that no running Caddy has. */
  function FreeSlot(instances: seq<Instance>, slot: nat): (r: Option<nat>)
    ensures r.Some? ==> slot <= r.value < SLOTS && !IsUsed(instances, r.value)
    ensures r.Some? ==> forall k :: slot <= k < r.value ==> IsUsed(instances, k)
    ensures r.None? ==> forall k :: slot <= k < SLOTS ==> IsUsed(instances, k)
    decreases SLOTS - slot
  {
    if slot >= SLOTS then None
    else if !IsUsed(instances, slot) then Some(slot)
    else FreeSlot(instances, slot + 1)
  }

  /** The oldest running Caddy from `g` on that does not serve. */
  function Oldest(s: State, g: nat): (r: Option<nat>)
    ensures r.Some? ==> g <= r.value && IsLive(s, r.value) && s.current != Some(r.value)
    ensures r.Some? ==> forall k :: g <= k < r.value && IsLive(s, k) ==> s.current == Some(k)
    ensures r.None? ==> forall k :: k >= g && IsLive(s, k) ==> s.current == Some(k)
    decreases |s.instances| - g
  {
    if g >= |s.instances| then None
    else if !s.instances[g].exited && s.current != Some(g) then Some(g)
    else Oldest(s, g + 1)
  }

  // ── Stopping ───────────────────────────────────────────────────────────────

  /** `stopInstance` begins: nothing for one that exited. */
  function Asked(s: State, g: nat): State
    requires g < |s.instances|
  {
    if s.instances[g].exited then s
    else s.(instances := s.instances[g := s.instances[g].(stopping := true)])
  }

  /** It waits for the connections to close, or for its time to be up, and then sends the signal. */
  function Signalled(s: State, g: nat): State
    requires g < |s.instances|
  {
    s.(instances := s.instances[g := s.instances[g].(signalled := true)])
  }

  function Exited(s: State, g: nat): State
    requires g < |s.instances|
  {
    s.(instances := s.instances[g := s.instances[g].(exited := true)],
       fatal := if s.current == Some(g) && !s.stopping then s.fatal + [g] else s.fatal)
  }

  function AllAsked(s: State): State
  {
    s.(instances := seq(|s.instances|, g requires 0 <= g < |s.instances| =>
         if s.instances[g].exited then s.instances[g] else s.instances[g].(stopping := true)))
  }

  // ── Connections ────────────────────────────────────────────────────────────

  function Accepted(s: State): State
  {
    if s.current.Some? && IsLive(s, s.current.value) then
      var g := s.current.value;
      s.(instances := s.instances[g := s.instances[g].(conns := s.instances[g].conns + 1)],
         conns := s.conns + [Conn(g, true)])
    else s
  }

  /** `release`, which only counts once. */
  function Released(s: State, c: nat): State
    requires c < |s.conns| && s.conns[c].inst < |s.instances|
  {
    if !s.conns[c].counted then s
    else
      var g := s.conns[c].inst;
      s.(instances := s.instances[g := s.instances[g].(conns := s.instances[g].conns - 1)],
         conns := s.conns[c := Conn(g, false)])
  }

  // ── Launching and switching ────────────────────────────────────────────────

  function Rejected(s: State, request: Request): State
  {
    if request.Boot? then s.(phase := NeverStarted) else s.(phase := Idle, results := s.results + [false])
  }

  /** `launch` begins: a free slot, or that of the oldest Caddy that does not serve, once it is gone. */
  function Launching(s: State, request: Request): State
  {
    match FreeSlot(s.instances, 0)
    case Some(slot) => s.(phase := Snapshot(slot, request))
    case None =>
      match Oldest(s, 0)
      case None => Rejected(s, request)
      case Some(g) => Asked(s, g).(phase := Freeing(g, request))
  }

  function Switched(s: State): State
    requires s.phase.Probing? && (s.current.Some? ==> s.current.value < |s.instances|)
  {
    var next := s.phase.inst;
    var t := s.(current := Some(next), phase := Idle);
    if s.phase.request.Boot? then t
    else
      var u := t.(program := if s.phase.request.caddy.Some? then s.phase.request.caddy.value else s.program,
                  results := s.results + [true]);
      if s.current.Some? then Asked(u, s.current.value) else u
  }

  /** The program a launch runs: the one the reload names, or that of the front. */
  function Launched(s: State, request: Request): string
  {
    if request.Reload? && request.caddy.Some? then request.caddy.value else s.program
  }

  /** Whether the event can happen. */
  predicate Enabled(s: State, e: Event)
  {
    match e
    case Accept => s.current.Some? && !s.stopping
    case Release(c) => c < |s.conns|
    case AskReload(_) => s.phase.Idle?
    case Freed => s.phase.Freeing? && !IsLive(s, s.phase.oldest)
    case SnapshotFails => s.phase.Snapshot?
    case Spawn => s.phase.Snapshot?
    case StartFails => s.phase.Starting?
    case Ready => s.phase.Starting?
    case ProbeFails => s.phase.Probing?
    case Switch => s.phase.Probing?
    case GaveUp => s.phase.Failing? && !IsLive(s, s.phase.inst)
    case Signal(g, timeUp) => IsLive(s, g) && s.instances[g].stopping && (s.instances[g].conns == 0 || timeUp)
    case Exit(g) => IsLive(s, g)
    case AskStop => s.current.Some?
    case StopAll => s.stopping
  }

  /** What the front keeps true of its state. */
  ghost predicate Valid(s: State)
  {
    && SlotsAreDistinct(s.instances) && CountsAreRight(s) && PhaseIsRight(s)
    && (s.current.Some? ==> s.current.value < |s.instances|)
    && (s.current.Some? && s.instances[s.current.value].stopping ==> s.stopping)
    && ((s.phase.Starting? || s.phase.Probing?) && s.instances[s.phase.inst].stopping ==> s.stopping)
    && (forall g :: 0 <= g < |s.instances| && s.instances[g].signalled ==> s.instances[g].stopping)
  }

  predicate SlotsAreDistinct(instances: seq<Instance>)
  {
    && (forall g :: 0 <= g < |instances| ==> instances[g].slot < SLOTS)
    && (forall g, h :: 0 <= g < h < |instances| && !instances[g].exited && !instances[h].exited ==>
          instances[g].slot != instances[h].slot)
  }

  /** The connections to a generation that are not released. */
  function Unreleased(conns: seq<Conn>, g: nat): nat
  {
    if conns == [] then 0
    else Unreleased(conns[..|conns| - 1], g) + (if conns[|conns| - 1] == Conn(g, true) then 1 else 0)
  }

  predicate CountsAreRight(s: State)
  {
    && (forall c :: 0 <= c < |s.conns| ==> s.conns[c].inst < |s.instances|)
    && (forall g :: 0 <= g < |s.instances| ==> s.instances[g].conns == Unreleased(s.conns, g))
  }

  /** The instance being launched is the last one and does not serve; a slot waited for is free. */
  predicate PhaseIsRight(s: State)
  {
    match s.phase
    case Idle => s.current.Some?
    case Freeing(g, r) => g < |s.instances| && s.current != Some(g) && (r.Boot? <==> s.current.None?)
                          && SlotOnlyOf(s.instances, g)
    case Snapshot(slot, r) => slot < SLOTS && !IsUsed(s.instances, slot) && (r.Boot? <==> s.current.None?)
    case Starting(g, r) => g + 1 == |s.instances| && s.current != Some(g) && (r.Boot? <==> s.current.None?)
    case Probing(g, r) => g + 1 == |s.instances| && s.current != Some(g) && (r.Boot? <==> s.current.None?)
    case Failing(g, r) => g + 1 == |s.instances| && s.current != Some(g) && (r.Boot? <==> s.current.None?)
    case NeverStarted => s.current.None?
  }

  /** No other running Caddy has its slot, whether it still runs or not. */
  predicate SlotOnlyOf(instances: seq<Instance>, g: nat)
    requires g < |instances|
  {
    forall h :: 0 <= h < |instances| && h != g && !instances[h].exited ==> instances[h].slot != instances[g].slot
  }

  /** With every slot used there is a Caddy that does not serve. */
  lemma SomeoneDrains(s: State)
    requires Valid(s) && FreeSlot(s.instances, 0).None?
    ensures Oldest(s, 0).Some?
  {
    assert IsUsed(s.instances, 0) && IsUsed(s.instances, 1);
    var g :| 0 <= g < |s.instances| && !s.instances[g].exited && s.instances[g].slot == 0;
    var h :| 0 <= h < |s.instances| && !s.instances[h].exited && s.instances[h].slot == 1;
    assert IsLive(s, g) && IsLive(s, h);
  }

  function Step(s: State, e: Event): State
    requires Valid(s) && Enabled(s, e)
  {
    match e
    case Accept => Accepted(s)
    case Release(c) => Released(s, c)
    case AskReload(caddy) =>
      if s.stopping then s.(results := s.results + [false]) else Launching(s, Reload(caddy))
    case Freed => s.(phase := Snapshot(s.instances[s.phase.oldest].slot, s.phase.request))
    case SnapshotFails => Rejected(s, s.phase.request)
    case Spawn =>
      s.(instances := s.instances + [Instance(s.phase.slot, 0, false, false, false, Launched(s, s.phase.request))],
         phase := Starting(|s.instances|, s.phase.request))
    case StartFails => Asked(s, s.phase.inst).(phase := Failing(s.phase.inst, s.phase.request))
    case Ready => s.(phase := Probing(s.phase.inst, s.phase.request))
    case ProbeFails => Asked(s, s.phase.inst).(phase := Failing(s.phase.inst, s.phase.request))
    case Switch => Switched(s)
    case GaveUp => Rejected(s, s.phase.request)
    case Signal(g, _) => Signalled(s, g)
    case Exit(g) => Exited(s, g)
    case AskStop => s.(stopping := true)
    case StopAll => AllAsked(s)
  }

  /** `startFront`, before its first launch has begun. */
  function Initial(program: string): State
  {
    State([], [], None, program, false, Snapshot(0, Boot), [], [])
  }

  // ── Every event keeps the state right ──────────────────────────────────────

  lemma {:induction false} UnreleasedAfterRelease(conns: seq<Conn>, c: nat, g: nat)
    requires c < |conns| && conns[c].counted
    ensures Unreleased(conns[c := Conn(conns[c].inst, false)], g)
         == Unreleased(conns, g) - (if conns[c].inst == g then 1 else 0)
    decreases |conns|
  {
    var after := conns[c := Conn(conns[c].inst, false)];
    var init := conns[..|conns| - 1];
    if c < |conns| - 1 {
      UnreleasedAfterRelease(init, c, g);
      assert after[..|after| - 1] == init[c := Conn(conns[c].inst, false)];
    } else {
      assert after[..|after| - 1] == init;
      assert conns[c] == Conn(conns[c].inst, true);
    }
  }

  lemma {:induction false} UnreleasedOfOthers(conns: seq<Conn>, g: nat)
    requires forall c :: 0 <= c < |conns| ==> conns[c].inst != g
    ensures Unreleased(conns, g) == 0
    decreases |conns|
  {
    if conns != [] {
      UnreleasedOfOthers(conns[..|conns| - 1], g);
    }
  }

  lemma AcceptKeeps(s: State)
    requires Valid(s) && Enabled(s, Accept)
    ensures Valid(Step(s, Accept))
  {
    var t := Step(s, Accept);
    if t != s {
      assert t.conns[..|t.conns| - 1] == s.conns;
      SameSlots(s, t);
    }
  }

  lemma ReleaseKeeps(s: State, c: nat)
    requires Valid(s) && Enabled(s, Release(c))
    ensures Valid(Step(s, Release(c)))
  {
    var t := Step(s, Release(c));
    if s.conns[c].counted {
      forall g | 0 <= g < |s.instances|
        ensures t.instances[g].conns == Unreleased(t.conns, g)
      {
        UnreleasedAfterRelease(s.conns, c, g);
      }
      SameSlots(s, t);
    }
  }

  /** What depends only on the slots and who runs. */
  lemma SameSlots(s: State, t: State)
    requires SlotsAreDistinct(s.instances) && PhaseIsRight(s) && s.phase == t.phase && s.current == t.current
    requires |s.instances| == |t.instances|
    requires forall g :: 0 <= g < |s.instances| ==>
      t.instances[g].slot == s.instances[g].slot && (s.instances[g].exited ==> t.instances[g].exited)
    ensures SlotsAreDistinct(t.instances) && PhaseIsRight(t)
  {
  }

  lemma LaunchKeeps(s: State, caddy: Option<string>)
    requires Valid(s) && Enabled(s, AskReload(caddy))
    ensures Valid(Step(s, AskReload(caddy)))
  {
    if !s.stopping && FreeSlot(s.instances, 0).None? {
      SomeoneDrains(s);
      var g := Oldest(s, 0).value;
      forall h | 0 <= h < |s.instances| && h != g && !s.instances[h].exited
        ensures s.instances[h].slot != s.instances[g].slot
      {
        if h < g { } else { }
      }
    }
  }

  lemma SpawnKeeps(s: State)
    requires Valid(s) && Enabled(s, Spawn)
    ensures Valid(Step(s, Spawn))
  {
    UnreleasedOfOthers(s.conns, |s.instances|);
  }

  lemma StopAllKeeps(s: State)
    requires Valid(s) && Enabled(s, StopAll)
    ensures Valid(Step(s, StopAll))
  {
    SameSlots(s, Step(s, StopAll));
  }

  lemma SwitchKeeps(s: State)
    requires Valid(s) && Enabled(s, Switch)
    ensures Valid(Step(s, Switch))
  {
  }

  lemma StopKeeps(s: State, e: Event)
    requires Valid(s) && Enabled(s, e) && (e.StartFails? || e.ProbeFails?)
    ensures Valid(Step(s, e))
  {
  }

  lemma OutcomeKeeps(s: State, e: Event)
    requires Valid(s) && Enabled(s, e) && (e.SnapshotFails? || e.GaveUp?)
    ensures Valid(Step(s, e))
  {
  }

  lemma ExitKeeps(s: State, g: nat)
    requires Valid(s) && Enabled(s, Exit(g))
    ensures Valid(Step(s, Exit(g)))
  {
    SameSlots(s, Step(s, Exit(g)));
  }

  lemma SignalKeeps(s: State, g: nat, timeUp: bool)
    requires Valid(s) && Enabled(s, Signal(g, timeUp))
    ensures Valid(Step(s, Signal(g, timeUp)))
  {
    SameSlots(s, Step(s, Signal(g, timeUp)));
  }

  lemma ReadyKeeps(s: State)
    requires Valid(s) && Enabled(s, Ready)
    ensures Valid(Step(s, Ready))
  {
  }

  lemma AskStopKeeps(s: State)
    requires Valid(s) && Enabled(s, AskStop)
    ensures Valid(Step(s, AskStop))
  {
  }

  lemma FreedKeeps(s: State)
    requires Valid(s) && Enabled(s, Freed)
    ensures Valid(Step(s, Freed))
  {
  }

  lemma StepKeeps(s: State, e: Event)
    requires Valid(s) && Enabled(s, e)
    ensures Valid(Step(s, e))
  {
    hide Valid, Step, Enabled;
    match e
    case Accept => AcceptKeeps(s);
    case Release(c) => ReleaseKeeps(s, c);
    case AskReload(caddy) => LaunchKeeps(s, caddy);
    case Spawn => SpawnKeeps(s);
    case StopAll => StopAllKeeps(s);
    case Exit(g) => ExitKeeps(s, g);
    case Signal(g, timeUp) => SignalKeeps(s, g, timeUp);
    case Switch => SwitchKeeps(s);
    case StartFails => StopKeeps(s, e);
    case ProbeFails => StopKeeps(s, e);
    case SnapshotFails => OutcomeKeeps(s, e);
    case GaveUp => OutcomeKeeps(s, e);
    case Freed => FreedKeeps(s);
    case Ready => ReadyKeeps(s);
    case AskStop => AskStopKeeps(s);
  }

  // ── Runs ───────────────────────────────────────────────────────────────────

  /** The state after a run of events that could each happen. */
  ghost predicate Reaches(s: State, run: seq<Event>, t: State)
    requires Valid(s)
    decreases |run|
  {
    if run == [] then s == t
    else Enabled(s, run[0]) && (StepKeeps(s, run[0]); Reaches(Step(s, run[0]), run[1..], t))
  }

  lemma InitialIsValid(program: string)
    ensures Valid(Initial(program))
  {
  }

  lemma {:induction false} RunKeeps(s: State, run: seq<Event>, t: State)
    requires Valid(s) && Reaches(s, run, t)
    ensures Valid(t)
    decreases |run|
  {
    if run != [] {
      StepKeeps(s, run[0]);
      hide Valid, Enabled, Step;
      RunKeeps(Step(s, run[0]), run[1..], t);
    }
  }

  /** The generations that run. */
  function LiveOf(instances: seq<Instance>): set<nat>
  {
    set g: nat | g < |instances| && !instances[g].exited
  }

  lemma SlotsBound(instances: seq<Instance>)
    requires SlotsAreDistinct(instances)
    ensures |LiveOf(instances)| <= SLOTS
  {
    var live := LiveOf(instances);
    var slots := set g | g in live :: instances[g].slot;
    SameSize(instances, live, slots);
    assert slots <= {0, 1, 2, 3};
    Fewer(slots, {0, 1, 2, 3});
  }

  lemma {:induction false} SameSize(instances: seq<Instance>, live: set<nat>, slots: set<nat>)
    requires SlotsAreDistinct(instances)
    requires forall g :: g in live ==> g < |instances| && !instances[g].exited
    requires slots == set g | g in live :: instances[g].slot
    ensures |slots| == |live|
    decreases |live|
  {
    if live != {} {
      var g :| g in live;
      var rest := live - {g};
      var others := set h | h in rest :: instances[h].slot;
      SameSize(instances, rest, others);
      assert instances[g].slot !in others;
      assert slots == others + {instances[g].slot};
    }
  }

  lemma {:induction false} Fewer(a: set<nat>, b: set<nat>)
    requires a <= b
    ensures |a| <= |b|
    decreases |b|
  {
    if a != {} {
      var x :| x in a;
      Fewer(a - {x}, b - {x});
    }
  }

  /**
   * In every run: the Caddys that run have slots of their own, so there are at most four; the one that
   * serves has been neither asked nor signalled to stop unless the front itself is stopping; and each
   * one's connection count is the number of its connections not yet released.
   */
  lemma FrontIsSafe(program: string, run: seq<Event>, t: State)
    requires Reaches(Initial(program), run, t)
    ensures |LiveOf(t.instances)| <= SLOTS
    ensures forall g, h :: 0 <= g < h < |t.instances| && IsLive(t, g) && IsLive(t, h) ==>
      t.instances[g].slot != t.instances[h].slot
    ensures t.current.Some? ==> t.current.value < |t.instances|
    ensures t.current.Some? && !t.stopping ==>
      !t.instances[t.current.value].stopping && !t.instances[t.current.value].signalled
    ensures forall g :: 0 <= g < |t.instances| ==> t.instances[g].conns == Unreleased(t.conns, g)
  {
    InitialIsValid(program);
    RunKeeps(Initial(program), run, t);
    SlotsBound(t.instances);
  }

  // ── Programs and generations, over runs ────────────────────────────────────

  /**
   * The program after a run, read off the reloads asked for and the switches alone: each switch adopts
   * the name the reload before it gave, if it gave one.
   */
  function ProgramAfter(run: seq<Event>, program: string, named: Option<string>): string
    decreases |run|
  {
    if run == [] then program
    else
      match run[0]
      case AskReload(caddy) => ProgramAfter(run[1..], program, caddy)
      case Switch => ProgramAfter(run[1..], if named.Some? then named.value else program, None)
      case _ => ProgramAfter(run[1..], program, named)
  }

  function RequestOf(phase: Phase): Option<Request>
  {
    match phase
    case Freeing(_, r) => Some(r)
    case Snapshot(_, r) => Some(r)
    case Starting(_, r) => Some(r)
    case Probing(_, r) => Some(r)
    case Failing(_, r) => Some(r)
    case _ => None
  }

  /** The reload under way names this program, or none. */
  predicate Names(s: State, named: Option<string>)
  {
    RequestOf(s.phase).Some? ==>
      named == if RequestOf(s.phase).value.Reload? then RequestOf(s.phase).value.caddy else None
  }

  lemma ProgramStep(s: State, e: Event, named: Option<string>)
    requires Valid(s) && Enabled(s, e) && Names(s, named)
    ensures var t := Step(s, e);
            if e.AskReload? then t.program == s.program && Names(t, e.caddy)
            else if e.Switch? then t.program == (if named.Some? then named.value else s.program) && Names(t, None)
            else t.program == s.program && Names(t, named)
  {
    hide SlotsAreDistinct, CountsAreRight, SlotOnlyOf, Unreleased;
  }

  lemma {:induction false} ProgramIs(s: State, run: seq<Event>, t: State, named: Option<string>)
    requires Valid(s) && Reaches(s, run, t) && Names(s, named)
    ensures t.program == ProgramAfter(run, s.program, named)
    decreases |run|
  {
    if run != [] {
      StepKeeps(s, run[0]);
      ProgramStep(s, run[0], named);
      hide Valid, Enabled, Step, Names;
      ProgramIs(Step(s, run[0]), run[1..], t,
                match run[0] { case AskReload(caddy) => caddy case Switch => None case _ => named });
    }
  }

  /** Which Caddys still run besides the one that serves, and what each runs. */
  ghost predicate Ordered(s: State)
  {
    // Older ones have been asked to stop
    && (s.current.Some? ==> forall g :: 0 <= g < |s.instances| && g < s.current.value && !s.instances[g].exited ==> s.instances[g].stopping)
    // Newer ones have exited, but for the one being launched
    && (forall g :: 0 <= g < |s.instances| && !s.instances[g].exited && (s.current.Some? ==> g > s.current.value) ==>
          (s.phase.Starting? || s.phase.Probing? || s.phase.Failing?) && s.phase.inst == g)
    // The one that serves runs the front's program, the one being launched what its reload named
    && (s.current.Some? && s.current.value < |s.instances| ==> s.instances[s.current.value].program == s.program)
    && ((s.phase.Starting? || s.phase.Probing?) && s.phase.inst < |s.instances| ==>
          s.instances[s.phase.inst].program == Launched(s, s.phase.request))
  }

  lemma OrderedSwitch(s: State)
    requires Valid(s) && Enabled(s, Switch) && Ordered(s)
    ensures Ordered(Step(s, Switch))
  {
    hide SlotsAreDistinct, CountsAreRight, SlotOnlyOf, Unreleased, IsUsed;
  }

  lemma OrderedAsk(s: State, caddy: Option<string>)
    requires Valid(s) && Enabled(s, AskReload(caddy)) && Ordered(s)
    ensures Ordered(Step(s, AskReload(caddy)))
  {
    hide SlotsAreDistinct, CountsAreRight, SlotOnlyOf, Unreleased, IsUsed;
  }

  lemma OrderedSpawn(s: State)
    requires Valid(s) && Enabled(s, Spawn) && Ordered(s)
    ensures Ordered(Step(s, Spawn))
  {
    hide SlotsAreDistinct, CountsAreRight, SlotOnlyOf, Unreleased, IsUsed;
  }

  lemma OrderedExit(s: State, g: nat)
    requires Valid(s) && Enabled(s, Exit(g)) && Ordered(s)
    ensures Ordered(Step(s, Exit(g)))
  {
    hide SlotsAreDistinct, CountsAreRight, SlotOnlyOf, Unreleased, IsUsed;
  }

  lemma OrderedConn(s: State, e: Event)
    requires Valid(s) && Enabled(s, e) && Ordered(s) && (e.Accept? || e.Release? || e.Signal?)
    ensures Ordered(Step(s, e))
  {
    hide SlotsAreDistinct, SlotOnlyOf, Unreleased, IsUsed;
  }

  lemma OrderedStep(s: State, e: Event)
    requires Valid(s) && Enabled(s, e) && Ordered(s)
    ensures Ordered(Step(s, e))
  {
    hide SlotsAreDistinct, CountsAreRight, SlotOnlyOf, Unreleased, IsUsed;
    match e
    case Switch => OrderedSwitch(s);
    case AskReload(caddy) => OrderedAsk(s, caddy);
    case Spawn => OrderedSpawn(s);
    case Exit(g) => OrderedExit(s, g);
    case Accept => OrderedConn(s, e);
    case Release(_) => OrderedConn(s, e);
    case Signal(_, _) => OrderedConn(s, e);
    case StopAll =>
    case _ =>
  }

  lemma {:induction false} OrderedStays(s: State, run: seq<Event>, t: State)
    requires Valid(s) && Ordered(s) && Reaches(s, run, t)
    ensures Ordered(t)
    decreases |run|
  {
    if run != [] {
      StepKeeps(s, run[0]);
      OrderedStep(s, run[0]);
      hide Valid, Enabled, Step, Ordered;
      OrderedStays(Step(s, run[0]), run[1..], t);
    }
  }

  /**
   * In every run: the front's program is the one the last successful reload that named one named, else the
   * first; the serving Caddy runs it; every running Caddy older than that has been asked to stop, and
   * at most one newer one runs, which is being launched.
   */
  lemma LastReloadServes(program: string, run: seq<Event>, t: State)
    requires Reaches(Initial(program), run, t)
    ensures t.program == ProgramAfter(run, program, None)
    ensures t.current.Some? ==> t.current.value < |t.instances| && t.instances[t.current.value].program == t.program
    ensures forall g: nat :: IsLive(t, g) && t.current.Some? && g < t.current.value ==> t.instances[g].stopping
    ensures forall g: nat, h: nat :: IsLive(t, g) && IsLive(t, h) && (t.current.Some? ==> t.current.value < g && t.current.value < h) ==> g == h
  {
    InitialIsValid(program);
    ProgramIs(Initial(program), run, t, None);
    OrderedStays(Initial(program), run, t);
    RunKeeps(Initial(program), run, t);
  }

  /** Reloads that finish well, and the events that make them. */
  function Successes(results: seq<bool>): nat
  {
    if results == [] then 0 else Successes(results[..|results| - 1]) + if results[|results| - 1] then 1 else 0
  }

  lemma OnlySwitchChanges(s: State, e: Event)
    requires Valid(s) && Enabled(s, e)
    ensures var t := Step(s, e);
            if e.Switch? && s.phase.request.Reload? then Successes(t.results) == Successes(s.results) + 1
            else Successes(t.results) == Successes(s.results)
    ensures e.Switch? || (Step(s, e).current == s.current && Step(s, e).program == s.program)
  {
    hide SlotsAreDistinct, CountsAreRight, SlotOnlyOf;
    var t := Step(s, e);
    if t.results != s.results {
      assert t.results[..|t.results| - 1] == s.results;
    }
  }

  /** As long as no reload succeeds, however many fail, the same generation serves and later ones run the same program. */
  lemma {:induction false} FailedReloadsChangeNothing(s: State, run: seq<Event>, t: State)
    requires Valid(s) && s.current.Some? && Reaches(s, run, t)
    requires Successes(t.results) == Successes(s.results)
    ensures t.current == s.current && t.program == s.program
    decreases |run|
  {
    if run != [] {
      StepKeeps(s, run[0]);
      OnlySwitchChanges(s, run[0]);
      hide Valid, Enabled, Step;
      var u := Step(s, run[0]);
      SuccessesGrow(u, run[1..], t);
      FailedReloadsChangeNothing(u, run[1..], t);
    }
  }

  lemma {:induction false} SuccessesGrow(s: State, run: seq<Event>, t: State)
    requires Valid(s) && Reaches(s, run, t)
    ensures Successes(s.results) <= Successes(t.results)
    decreases |run|
  {
    if run != [] {
      StepKeeps(s, run[0]);
      OnlySwitchChanges(s, run[0]);
      hide Valid, Enabled, Step, Successes;
      SuccessesGrow(Step(s, run[0]), run[1..], t);
    }
  }

  // ── A serving Caddy that is gone ───────────────────────────────────────────

  /** New connections are turned away, and nobody was told. */
  predicate IsSilentlyDown(s: State)
  {
    && s.current.Some? && s.current.value < |s.instances| && s.instances[s.current.value].exited
    && !s.stopping && s.current.value !in s.fatal
  }

  /** Those reported as the front's end have exited. */
  ghost predicate FatalHaveExited(s: State)
  {
    forall g :: g in s.fatal ==> g < |s.instances| && s.instances[g].exited
  }

  lemma FatalStep(s: State, e: Event)
    requires Valid(s) && Enabled(s, e) && FatalHaveExited(s)
    ensures FatalHaveExited(Step(s, e))
  {
    hide SlotOnlyOf;
  }

  lemma {:induction false} FatalStay(s: State, run: seq<Event>, t: State)
    requires Valid(s) && FatalHaveExited(s) && Reaches(s, run, t)
    ensures FatalHaveExited(t)
    decreases |run|
  {
    if run != [] {
      StepKeeps(s, run[0]);
      FatalStep(s, run[0]);
      hide Valid, Step, Enabled, FatalHaveExited;
      FatalStay(Step(s, run[0]), run[1..], t);
    }
  }

  /** In every run the front goes down without a word exactly when it switches to a Caddy that has already exited. */
  lemma DownOnlyBySwitching(program: string, run: seq<Event>, s: State, e: Event)
    requires Reaches(Initial(program), run, s) && Valid(s) && Enabled(s, e) && !IsSilentlyDown(s)
    ensures IsSilentlyDown(Step(s, e)) <==>
      e.Switch? && s.instances[s.phase.inst].exited && !s.stopping && s.phase.inst !in s.fatal
  {
    hide Reaches, SlotOnlyOf;
    FatalStay(Initial(program), run, s);
  }

  /** That can happen: a Caddy that came up and exited before the switch. */
  lemma SwitchedToTheDead(program: string) returns (run: seq<Event>, t: State)
    ensures Reaches(Initial(program), run, t)
    ensures t.results == [true] && IsSilentlyDown(t)
  {
    run, t := FirstServes(program);
    hide Reaches, Valid;
    assert t.instances[0].slot == 0 && !t.instances[0].exited;
    assert !IsUsed(t.instances, 1) && IsUsed(t.instances, 0);
    assert FreeSlot(t.instances, 0) == Some(1);
    run, t := Then(program, run, t, AskReload(None));
    run, t := Then(program, run, t, Spawn);
    run, t := Then(program, run, t, Ready);
    run, t := Then(program, run, t, Exit(1));
    run, t := Then(program, run, t, Switch);
  }

  lemma FirstServes(program: string) returns (run: seq<Event>, t: State)
    ensures Reaches(Initial(program), run, t) && Valid(t)
    ensures t == State([Instance(0, 0, false, false, false, program)], [], Some(0), program, false, Idle, [], [])
  {
    InitialIsValid(program);
    run, t := [], Initial(program);
    assert Reaches(t, run, t);
    hide Reaches, Valid;
    run, t := Then(program, run, t, Spawn);
    run, t := Then(program, run, t, Ready);
    run, t := Then(program, run, t, Switch);
  }

  lemma Then(program: string, run: seq<Event>, s: State, e: Event) returns (more: seq<Event>, t: State)
    requires Reaches(Initial(program), run, s) && Valid(s) && Enabled(s, e)
    ensures more == run + [e] && t == Step(s, e) && Valid(t) && Reaches(Initial(program), more, t)
  {
    InitialIsValid(program);
    StepKeeps(s, e);
    hide Valid, Enabled, Step;
    Extend(Initial(program), run, s, e);
    more, t := run + [e], Step(s, e);
  }

  lemma {:induction false} Extend(s: State, run: seq<Event>, m: State, e: Event)
    requires Valid(s) && Reaches(s, run, m) && Valid(m) && Enabled(m, e)
    ensures Reaches(s, run + [e], Step(m, e))
    decreases |run|
  {
    hide Valid, Enabled, Step;
    StepKeeps(m, e);
    if run == [] {
      assert (run + [e])[1..] == [];
    } else {
      StepKeeps(s, run[0]);
      Extend(Step(s, run[0]), run[1..], m, e);
      assert (run + [e])[1..] == run[1..] + [e];
    }
  }

  // ── The front itself ───────────────────────────────────────────────────────

  /** The variables of `startFront`, changed by its functions one event at a time. */
  class ProxyFront {
    var instances: seq<Instance>
    var conns: seq<Conn>
    var current: Option<nat>
    var program: string
    var stopping: bool
    var phase: Phase
    var results: seq<bool>
    var fatal: seq<nat>

    ghost function Now(): State
      reads this
    {
      State(instances, conns, current, program, stopping, phase, results, fatal)
    }

    constructor (caddy: string)
      ensures Now() == Initial(caddy)
    {
      instances, conns, current, program, stopping := [], [], None, caddy, false;
      phase, results, fatal := Snapshot(0, Boot), [], [];
    }

    method StopInstance(g: nat)
      requires g < |instances|
      modifies this`instances
      ensures Now() == Asked(old(Now()), g)
    {
      if instances[g].exited {
        return;
      }
      instances := instances[g := instances[g].(stopping := true)];
    }

    /** The wait in `stopInstance` is over: the signal. */
    method Kill(g: nat, ghost timeUp: bool)
      requires Valid(Now()) && Enabled(Now(), Signal(g, timeUp))
      modifies this`instances
      ensures Now() == Step(old(Now()), Signal(g, timeUp))
    {
      instances := instances[g := instances[g].(signalled := true)];
    }

    method OnClose(g: nat)
      requires Valid(Now()) && Enabled(Now(), Exit(g))
      modifies this`instances, this`fatal
      ensures Now() == Step(old(Now()), Exit(g))
      ensures instances == old(instances)[g := old(instances)[g].(exited := true)]
      ensures fatal == old(fatal) + if current == Some(g) && !stopping then [g] else []
    {
      instances := instances[g := instances[g].(exited := true)];
      if current == Some(g) && !stopping {
        fatal := fatal + [g];
      }
    }

    method Accept()
      requires Valid(Now()) && Enabled(Now(), Event.Accept)
      modifies this`instances, this`conns
      ensures Now() == Step(old(Now()), Event.Accept)
      // Counted for the serving generation, if it still runs
      ensures var g, was := current.value, old(instances);
              if was[g].exited then instances == was && conns == old(conns)
              else instances == was[g := was[g].(conns := was[g].conns + 1)] && conns == old(conns) + [Conn(g, true)]
    {
      var g := current.value;
      if instances[g].exited {
        return;
      }
      instances := instances[g := instances[g].(conns := instances[g].conns + 1)];
      conns := conns + [Conn(g, true)];
    }

    method Release(c: nat)
      requires Valid(Now()) && Enabled(Now(), Event.Release(c))
      modifies this`instances, this`conns
      ensures Now() == Step(old(Now()), Event.Release(c))
      // Counted out once
      ensures var g, was := old(conns)[c].inst, old(instances);
              if old(conns)[c].counted
              then instances == was[g := was[g].(conns := was[g].conns - 1)] && conns == old(conns)[c := Conn(g, false)]
              else instances == was && conns == old(conns)
    {
      if conns[c].counted {
        var g := conns[c].inst;
        conns := conns[c := Conn(g, false)];
        instances := instances[g := instances[g].(conns := instances[g].conns - 1)];
      }
    }

    /** The slots of the running Caddys, and the first one that is not among them. */
    method FindSlot() returns (slot: Option<nat>)
      ensures slot == FreeSlot(instances, 0)
    {
      var used: set<nat> := {};
      for g := 0 to |instances|
        invariant forall k :: k in used <==> exists h :: 0 <= h < g && !instances[h].exited && instances[h].slot == k
      {
        if !instances[g].exited {
          used := used + {instances[g].slot};
        }
      }
      var s := 0;
      while s < SLOTS
        invariant 0 <= s <= SLOTS
        invariant FreeSlot(instances, 0) == FreeSlot(instances, s)
      {
        assert s in used <==> IsUsed(instances, s);
        if s !in used {
          return Some(s);
        }
        s := s + 1;
      }
      return None;
    }

    method FindOldest() returns (oldest: Option<nat>)
      ensures oldest == Oldest(Now(), 0)
    {
      var g := 0;
      while g < |instances|
        invariant 0 <= g <= |instances|
        invariant Oldest(Now(), 0) == Oldest(Now(), g)
      {
        if !instances[g].exited && current != Some(g) {
          return Some(g);
        }
        g := g + 1;
      }
      return None;
    }

    /** `reload` reaches the head of the queue, and its launch begins. */
    method Reload(caddy: Option<string>)
      requires Valid(Now()) && Enabled(Now(), AskReload(caddy))
      modifies this`instances, this`phase, this`results
      ensures Now() == Step(old(Now()), AskReload(caddy))
      ensures old(stopping) ==> results == old(results) + [false] && instances == old(instances) && phase == old(phase)
      // Into the least free slot, or, with none free, that of the oldest Caddy that does not serve, which is asked to stop
      ensures !old(stopping) ==> results == old(results) && match phase
        case Snapshot(slot, r) =>
          && r == Request.Reload(caddy) && instances == old(instances)
          && slot < 4 && !IsUsed(instances, slot) && forall k :: 0 <= k < slot ==> IsUsed(instances, k)
        case Freeing(g, r) =>
          && r == Request.Reload(caddy) && (forall k :: 0 <= k < 4 ==> IsUsed(old(instances), k))
          && g < |old(instances)| && !old(instances)[g].exited && current != Some(g)
          && (forall k :: 0 <= k < g && !old(instances)[k].exited ==> current == Some(k))
          && instances == old(instances)[g := old(instances)[g].(stopping := true)]
        case _ => false
    {
      if stopping {
        results := results + [false];
        return;
      }
      var slot := FindSlot();
      if slot.Some? {
        phase := Snapshot(slot.value, Request.Reload(caddy));
        return;
      }
      var oldest := FindOldest();
      SomeoneDrains(Now());
      StopInstance(oldest.value);
      phase := Freeing(oldest.value, Request.Reload(caddy));
    }

    method OnSpawn()
      requires Valid(Now()) && Enabled(Now(), Spawn)
      modifies this`instances, this`phase
      ensures Now() == Step(old(Now()), Spawn)
      // The newest generation, in the slot chosen for it, from the program the reload names or else the front's
      ensures var r := old(phase).request;
              instances == old(instances) + [Instance(old(phase).slot, 0, false, false, false,
                if r.Reload? && r.caddy.Some? then r.caddy.value else program)]
      ensures phase == Starting(|old(instances)|, old(phase).request)
    {
      var slot := phase.slot;
      var named := if phase.request.Reload? && phase.request.caddy.Some? then phase.request.caddy.value else program;
      phase := Starting(|instances|, phase.request);
      instances := instances + [Instance(slot, 0, false, false, false, named)];
    }

    /** The new Caddy did not start, or serves no certificate: it is stopped. */
    method GiveUp()
      requires Valid(Now()) && (Enabled(Now(), StartFails) || Enabled(Now(), ProbeFails))
      modifies this`instances, this`phase
      ensures Now() == Step(old(Now()), if old(phase).Starting? then StartFails else ProbeFails)
      ensures var g, was := old(phase).inst, old(instances);
              && instances == (if was[g].exited then was else was[g := was[g].(stopping := true)])
              && phase == Failing(g, old(phase).request)
    {
      var g := phase.inst;
      StopInstance(g);
      phase := Failing(g, phase.request);
    }

    method SwitchOver()
      requires Valid(Now()) && Enabled(Now(), Switch)
      modifies this`instances, this`current, this`program, this`phase, this`results
      ensures Now() == Step(old(Now()), Switch)
      // The new Caddy serves, from now on its program is the front's, and the one before it is asked to drain
      ensures var next, r, running, was := old(phase).inst, old(phase).request, old(current), old(instances);
              && current == Some(next) && phase == Idle
              && program == (if r.Reload? && r.caddy.Some? then r.caddy.value else old(program))
              && results == old(results) + (if r.Reload? then [true] else [])
              && instances == if r.Reload? && running.Some? && !was[running.value].exited
                              then was[running.value := was[running.value].(stopping := true)] else was
    {
      var running := current;
      var request := phase.request;
      current := Some(phase.inst);
      phase := Idle;
      if request.Reload? {
        if request.caddy.Some? {
          program := request.caddy.value;
        }
        results := results + [true];
        if running.Some? {
          StopInstance(running.value);
        }
      }
    }

    method Stop()
      requires Valid(Now()) && Enabled(Now(), AskStop)
      modifies this`stopping, this`instances
      ensures Now() == AllAsked(Step(old(Now()), AskStop))
      ensures stopping && |instances| == |old(instances)|
      ensures forall g :: 0 <= g < |instances| ==>
                instances[g] == if old(instances)[g].exited then old(instances)[g] else old(instances)[g].(stopping := true)
    {
      stopping := true;
      ghost var start := Now();
      for g := 0 to |instances|
        invariant Now() == start.(instances := instances) && |instances| == |start.instances|
        invariant forall h :: 0 <= h < g ==> instances[h] == AllAsked(start).instances[h]
        invariant forall h :: g <= h < |instances| ==> instances[h] == start.instances[h]
      {
        StopInstance(g);
      }
      assert instances == AllAsked(start).instances;
    }
  }
}
