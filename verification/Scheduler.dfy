/** The fixed-rate scheduler: one loop per stream sharing a global semaphore and one semaphore per host, under any
    interleaving of the loops, the clock and cancellation. */
module Scheduler {
  import opened Prelude
  import Ticks

  datatype Outcome = Skipped(reason: string) | Fetched

  /** How one tick was disposed of, and when: the recording of a skip or the start of a fetch. */
  datatype Record = Record(tick: int, outcome: Outcome, at: int)

  /** Where runStream is: at the top of its loop, asleep in waitUntil, before the lateness check, before or inside
      each acquireUntil, fetching, or returned. */
  datatype Pc = Top | Asleep | Awake | WantGlobal | WaitGlobal | WantHost | WaitHost | Fetching(since: int) | Returned

  datatype Loop = Loop(first: int, interval: int, lateness: int, host: Option<string>, next: int, pc: Pc,
    log: seq<Record>)

  /** `prompt` says that a wait which has timed out takes no token any more. Go's select promises no such thing: with
      the timer fired and a token free it may take either. */
  datatype System = System(clock: int, cancelled: bool, prompt: bool, globalCap: nat, hostCap: nat, globalUsed: int,
                           hostUsed: map<string, int>, loops: seq<Loop>)

  datatype Move = Arrive | Wake | CancelSleep | Judge(paused: bool) | TryGlobal | TakeGlobal | FailGlobal
                | TryHost | TakeHost | FailHost | Finish

  datatype Action = Advance(elapsed: nat) | Cancel | Moves(i: nat, m: Move)

  function Deadline(l: Loop): int {
    l.next + l.lateness
  }

  /** recordSkip, then the next tick. */
  function Skip(l: Loop, reason: string, clock: int): Loop {
    l.(log := l.log + [Record(l.next, Skipped(reason), clock)], next := l.next + l.interval, pc := Top)
  }

  predicate Enabled(s: System, l: Loop, m: Move) {
    match m
    case Arrive => l.pc.Top?
    case Wake => l.pc.Asleep? && s.clock >= l.next
    case CancelSleep => l.pc.Asleep? && s.cancelled
    case Judge(_) => l.pc.Awake?
    case TryGlobal => l.pc.WantGlobal?
    case TakeGlobal => l.pc.WaitGlobal? && (s.prompt ==> s.clock <= Deadline(l)) && s.globalUsed < s.globalCap
    case FailGlobal => l.pc.WaitGlobal? && (s.clock >= Deadline(l) || s.cancelled)
    case TryHost => l.pc.WantHost?
    case TakeHost =>
      l.pc.WaitHost? && (s.prompt ==> s.clock <= Deadline(l)) && l.host.Some? && GetHost(s, l.host.value) < s.hostCap
    case FailHost => l.pc.WaitHost? && (s.clock >= Deadline(l) || s.cancelled)
    case Finish => l.pc.Fetching?
  }

  function GetHost(s: System, h: string): int {
    if h in s.hostUsed then s.hostUsed[h] else 0
  }

  /** A loop's new state and the tokens it put into (+1) or took out of (-1) each channel. */
  datatype Effect = Effect(loop: Loop, global: int, host: int)

  function Perform(l: Loop, m: Move, clock: int, cancelled: bool): Effect {
    match m
    case Arrive => Effect(l.(pc := if clock >= l.next then Awake else Asleep), 0, 0)
    case Wake => Effect(l.(pc := Awake), 0, 0)
    case CancelSleep => Effect(l.(pc := Returned), 0, 0)
    case Judge(paused) =>
      if clock - l.next > l.lateness then Effect(Skip(l, "late", clock), 0, 0)
      else if paused then Effect(Skip(l, "disk_pressure", clock), 0, 0)
      else Effect(l.(pc := WantGlobal), 0, 0)
    case TryGlobal =>
      if clock >= Deadline(l) then Effect(Skip(l, "global_concurrency", clock), 0, 0)
        else Effect(l.(pc := WaitGlobal), 0, 0)
    case TakeGlobal =>
      if l.host.Some? then Effect(l.(pc := WantHost), 1, 0)
      else if cancelled then Effect(l.(pc := Returned), 1 - 1, 0)
      else Effect(l.(pc := Fetching(clock)), 1, 0)
    case FailGlobal => Effect(Skip(l, "global_concurrency", clock), 0, 0)
    case TryHost =>
      if clock >= Deadline(l) then Effect(Skip(l, "host_concurrency", clock), -1, 0)
        else Effect(l.(pc := WaitHost), 0, 0)
    case TakeHost =>
      if cancelled then Effect(l.(pc := Returned), -1, 1 - 1) else Effect(l.(pc := Fetching(clock)), 0, 1)
    case FailHost => Effect(Skip(l, "host_concurrency", clock), -1, 0)
    case Finish =>
      var since := if l.pc.Fetching? then l.pc.since else clock;
      Effect(l.(log := l.log + [Record(l.next, Fetched, since)], next := l.next + l.interval, pc := Top),
             -1, if l.host.Some? then -1 else 0)
  }

  predicate CanAct(s: System, a: Action) {
    a.Moves? ==> a.i < |s.loops| && Enabled(s, s.loops[a.i], a.m)
  }

  function Act(s: System, a: Action): System
    requires CanAct(s, a)
  {
    match a
    case Advance(elapsed) => s.(clock := s.clock + elapsed)
    case Cancel => s.(cancelled := true)
    case Moves(i, m) =>
      var l := s.loops[i];
      var e := Perform(l, m, s.clock, s.cancelled);
      s.(loops := s.loops[i := e.loop], globalUsed := s.globalUsed + e.global,
         hostUsed := if l.host.Some? then s.hostUsed[l.host.value := GetHost(s, l.host.value) + e.host] else s.hostUsed)
  }

  /** The actions that can happen, in order; one that cannot happen is passed over. */
  function Run(s: System, actions: seq<Action>): System {
    if |actions| == 0 then s
    else
      var t := Run(s, actions[..|actions|-1]);
      if CanAct(t, actions[|actions|-1]) then Act(t, actions[|actions|-1]) else t
  }

  // ---- one loop ----

  predicate HoldsGlobal(l: Loop) {
    l.pc.WantHost? || l.pc.WaitHost? || l.pc.Fetching?
  }

  predicate HoldsHost(l: Loop, h: string) {
    l.pc.Fetching? && l.host == Some(h)
  }

  predicate InWindow(l: Loop, tick: int, at: int) {
    tick <= at <= tick + l.lateness
  }

  /** What a log entry says: the lateness check and the two acquisitions put each tick on the right side. */
  predicate RecordOk(l: Loop, r: Record, prompt: bool) {
    match r.outcome
    case Fetched => r.at >= r.tick && (prompt ==> InWindow(l, r.tick, r.at)) && l.lateness > 0
    case Skipped(reason) =>
      && r.at >= r.tick
      && (reason == "late" ==> r.at > r.tick + l.lateness)
      && (reason == "disk_pressure" ==> InWindow(l, r.tick, r.at))
  }

  /** The disposed ticks are the first ones, consecutively, disposed of in order, and the loop is at the next. */
  predicate LogOk(l: Loop, clock: int, prompt: bool) {
    && (forall k :: 0 <= k < |l.log| ==> l.log[k].tick == l.first + k * l.interval && RecordOk(l, l.log[k], prompt))
    && (forall j, k :: 0 <= j < k < |l.log| ==> l.log[j].at <= l.log[k].at)
    && (|l.log| > 0 ==> l.log[|l.log|-1].at <= clock)
    && l.next == l.first + |l.log| * l.interval
  }

  predicate PcOk(l: Loop, clock: int, prompt: bool) {
    && l.interval > 0 && 0 <= l.lateness < l.interval
    && (l.pc.Top? || l.pc.Asleep? || l.pc.Returned? || clock >= l.next)
    && (l.pc.WaitGlobal? || HoldsGlobal(l) ==> l.lateness > 0)
    && (l.pc.Fetching? ==> l.next <= l.pc.since <= clock && (prompt ==> InWindow(l, l.next, l.pc.since)))
    && (l.pc.Fetching? && |l.log| > 0 ==> l.log[|l.log|-1].at <= l.pc.since)
    && (l.pc.WantHost? || l.pc.WaitHost? ==> l.host.Some?)
  }

  predicate LoopOk(l: Loop, clock: int, prompt: bool) {
    LogOk(l, clock, prompt) && PcOk(l, clock, prompt)
  }

  lemma SameLog(l: Loop, pc: Pc, clock: int, prompt: bool)
    requires LogOk(l, clock, prompt)
    ensures LogOk(l.(pc := pc), clock, prompt)
  {
    forall k | 0 <= k < |l.log| ensures RecordOk(l.(pc := pc), l.log[k], prompt) {
      assert RecordOk(l, l.log[k], prompt);
    }
  }

  lemma NextInstant(l: Loop)
    requires l.next == l.first + |l.log| * l.interval
    ensures l.next + l.interval == l.first + (|l.log| + 1) * l.interval
  {
  }

  lemma SkipOk(l: Loop, reason: string, clock: int, prompt: bool)
    requires LoopOk(l, clock, prompt) && RecordOk(l, Record(l.next, Skipped(reason), clock), prompt)
    ensures LoopOk(Skip(l, reason, clock), clock, prompt)
  {
    NextInstant(l);
  }

  lemma PerformOk(s: System, l: Loop, m: Move)
    requires LoopOk(l, s.clock, s.prompt) && Enabled(s, l, m)
    ensures LoopOk(Perform(l, m, s.clock, s.cancelled).loop, s.clock, s.prompt)
  {
    SameLog(l, Perform(l, m, s.clock, s.cancelled).loop.pc, s.clock, s.prompt);
    match m {
      case Judge(paused) => JudgeOk(l, paused, s.clock, s.cancelled, s.prompt);
      case TryGlobal => ConcurrencySkipOk(l, "global_concurrency", s.clock, s.prompt);
      case FailGlobal => ConcurrencySkipOk(l, "global_concurrency", s.clock, s.prompt);
      case TryHost => ConcurrencySkipOk(l, "host_concurrency", s.clock, s.prompt);
      case FailHost => ConcurrencySkipOk(l, "host_concurrency", s.clock, s.prompt);
      case Finish => FinishOk(l, s.clock, s.cancelled, s.prompt);
      case _ => NoRecordOk(s, l, m);
    }
  }

  /** The moves that dispose of no tick. */
  lemma NoRecordOk(s: System, l: Loop, m: Move)
    requires LoopOk(l, s.clock, s.prompt) && Enabled(s, l, m)
    requires m.Arrive? || m.Wake? || m.CancelSleep? || m.TakeGlobal? || m.TakeHost?
    ensures LoopOk(Perform(l, m, s.clock, s.cancelled).loop, s.clock, s.prompt)
  {
    SameLog(l, Perform(l, m, s.clock, s.cancelled).loop.pc, s.clock, s.prompt);
  }

  lemma JudgeOk(l: Loop, paused: bool, clock: int, cancelled: bool, prompt: bool)
    requires LoopOk(l, clock, prompt) && l.pc.Awake?
    ensures LoopOk(Perform(l, Judge(paused), clock, cancelled).loop, clock, prompt)
  {
    if clock - l.next > l.lateness {
      assert "disk_pressure"[0] != "late"[0];
      SkipOk(l, "late", clock, prompt);
    } else if paused {
      assert "disk_pressure"[0] != "late"[0];
      SkipOk(l, "disk_pressure", clock, prompt);
    }
  }

  lemma FinishOk(l: Loop, clock: int, cancelled: bool, prompt: bool)
    requires LoopOk(l, clock, prompt) && l.pc.Fetching?
    ensures LoopOk(Perform(l, Finish, clock, cancelled).loop, clock, prompt)
  {
    NextInstant(l);
  }

  lemma ConcurrencySkipOk(l: Loop, reason: string, clock: int, prompt: bool)
    requires LoopOk(l, clock, prompt) && clock >= l.next && |reason| > 0 && (reason[0] == 'g' || reason[0] == 'h')
    ensures LoopOk(Skip(l, reason, clock), clock, prompt)
  {
    assert "late"[0] == 'l' && "disk_pressure"[0] == 'd';
    SkipOk(l, reason, clock, prompt);
  }

  /** A move adds to each channel exactly what its loop now holds more. */
  lemma TokensFollow(s: System, l: Loop, m: Move)
    requires LoopOk(l, s.clock, s.prompt) && Enabled(s, l, m)
    ensures var e := Perform(l, m, s.clock, s.cancelled);
      && e.loop.host == l.host
      && e.global == One(HoldsGlobal(e.loop)) - One(HoldsGlobal(l))
      && (forall h :: l.host == Some(h) ==> e.host == One(HoldsHost(e.loop, h)) - One(HoldsHost(l, h)))
      && (e.global == 1 ==> s.globalUsed < s.globalCap)
      && (e.host == 1 ==> l.host.Some? && GetHost(s, l.host.value) < s.hostCap)
  {
  }

  function One(b: bool): int {
    if b then 1 else 0
  }

  // ---- all loops ----

  ghost function Where(loops: seq<Loop>, p: Loop -> bool): set<nat> {
    set i | 0 <= i < |loops| && p(loops[i])
  }

  lemma WhereUpdated(loops: seq<Loop>, i: nat, l: Loop, p: Loop -> bool)
    requires i < |loops|
    ensures |Where(loops[i := l], p)| == |Where(loops, p)| + One(p(l)) - One(p(loops[i]))
  {
    var others := Where(loops, p) - {i};
    assert Where(loops[i := l], p) - {i} == others;
    assert Where(loops, p) == if p(loops[i]) then others + {i} else others;
    assert Where(loops[i := l], p) == if p(l) then others + {i} else others;
  }

  function OnHost(h: string): Loop -> bool {
    l => HoldsHost(l, h)
  }

  /** The tokens in each channel are held by as many loops, within its capacity. */
  ghost predicate TokensOk(s: System) {
    && s.globalUsed == |Where(s.loops, HoldsGlobal)| <= s.globalCap
    && (forall h :: GetHost(s, h) == |Where(s.loops, OnHost(h))| <= s.hostCap)
  }

  ghost predicate Ok(s: System) {
    TokensOk(s) && forall i :: 0 <= i < |s.loops| ==> LoopOk(s.loops[i], s.clock, s.prompt)
  }

  lemma MoveKeepsTokens(s: System, i: nat, m: Move)
    requires Ok(s) && i < |s.loops| && Enabled(s, s.loops[i], m)
    ensures TokensOk(Act(s, Moves(i, m)))
  {
    var l := s.loops[i];
    var e := Perform(l, m, s.clock, s.cancelled);
    var t := Act(s, Moves(i, m));
    TokensFollow(s, l, m);
    WhereUpdated(s.loops, i, e.loop, HoldsGlobal);
    forall h ensures GetHost(t, h) == |Where(t.loops, OnHost(h))| <= s.hostCap {
      WhereUpdated(s.loops, i, e.loop, OnHost(h));
      assert l.host != Some(h) ==> !HoldsHost(l, h) && !HoldsHost(e.loop, h);
    }
  }

  lemma ActKeeps(s: System, a: Action)
    requires Ok(s) && CanAct(s, a)
    ensures Ok(Act(s, a))
  {
    if a.Moves? {
      MoveKeepsTokens(s, a.i, a.m);
      PerformOk(s, s.loops[a.i], a.m);
    }
  }

  /** Every state any interleaving reaches is in order. */
  lemma {:induction false} RunKeeps(s: System, actions: seq<Action>)
    requires Ok(s)
    ensures Ok(Run(s, actions))
  {
    if |actions| > 0 {
      RunKeeps(s, actions[..|actions|-1]);
      var t := Run(s, actions[..|actions|-1]);
      if CanAct(t, actions[|actions|-1]) {
        ActKeeps(t, actions[|actions|-1]);
      }
    }
  }

  /** The configuration New and Run start from: every loop at the first tick after now. */
  ghost predicate Initial(s: System) {
    && !s.cancelled && s.globalUsed == 0 && (forall h :: h in s.hostUsed ==> s.hostUsed[h] == 0)
    && forall i :: 0 <= i < |s.loops| ==>
        var l := s.loops[i];
        && l.pc == Top && l.log == [] && l.next == l.first && s.clock < l.first && l.interval > 0
        && exists configured :: l.lateness == Ticks.EffectiveLateness(configured, l.interval)
  }

  lemma InitialOk(s: System)
    requires Initial(s)
    ensures Ok(s)
  {
    assert Where(s.loops, HoldsGlobal) == {};
    forall h ensures Where(s.loops, OnHost(h)) == {} {
    }
    forall i | 0 <= i < |s.loops| ensures LoopOk(s.loops[i], s.clock, s.prompt) {
      var configured :| s.loops[i].lateness == Ticks.EffectiveLateness(configured, s.loops[i].interval);
    }
  }

  // ---- what that means ----

  ghost function InFlight(s: System): set<nat> {
    Where(s.loops, (l: Loop) => l.pc.Fetching?)
  }

  /** In-flight fetches never exceed the global capacity, nor the capacity of their host; tokens in the channels are
      held; once every loop has returned all channels are empty. */
  lemma ConcurrencyBounded(s: System, actions: seq<Action>, h: string)
    requires Initial(s)
    ensures var t := Run(s, actions);
      && |InFlight(t)| <= s.globalCap
      && |Where(t.loops, OnHost(h))| <= s.hostCap
      && ((forall i :: 0 <= i < |t.loops| ==> t.loops[i].pc.Returned?) ==> t.globalUsed == 0 && GetHost(t, h) == 0)
  {
    InitialOk(s);
    RunKeeps(s, actions);
    CapacitiesFixed(s, actions);
    var t := Run(s, actions);
    SubsetSize(InFlight(t), Where(t.loops, HoldsGlobal));
    if forall i :: 0 <= i < |t.loops| ==> t.loops[i].pc.Returned? {
      assert Where(t.loops, HoldsGlobal) == {} && Where(t.loops, OnHost(h)) == {};
    }
  }

  lemma {:induction false} CapacitiesFixed(s: System, actions: seq<Action>)
    ensures Run(s, actions).prompt == s.prompt
    ensures Run(s, actions).globalCap == s.globalCap && Run(s, actions).hostCap == s.hostCap
    ensures |Run(s, actions).loops| == |s.loops|
    ensures forall i :: 0 <= i < |s.loops| ==> Same(s.loops[i], Run(s, actions).loops[i])
  {
    if |actions| > 0 {
      CapacitiesFixed(s, actions[..|actions|-1]);
      var t := Run(s, actions[..|actions|-1]);
      if CanAct(t, actions[|actions|-1]) { ActFixed(t, actions[|actions|-1]); }
    }
  }

  lemma ActFixed(s: System, a: Action)
    requires CanAct(s, a)
    ensures Act(s, a).prompt == s.prompt
    ensures Act(s, a).globalCap == s.globalCap && Act(s, a).hostCap == s.hostCap && |Act(s, a).loops| == |s.loops|
    ensures forall i :: 0 <= i < |s.loops| ==> Same(s.loops[i], Act(s, a).loops[i])
  {
  }

  /** The configuration of a loop. */
  predicate Same(a: Loop, b: Loop) {
    a.first == b.first && a.interval == b.interval && a.lateness == b.lateness && a.host == b.host
  }

  /** The disposed instants of a stream are its first aligned tick and the following ones without a gap, each disposed
      of once, in order, no fetch starting before its tick. */
  ghost predicate Accounted(l: Loop, phase: int) {
    && l.interval > 0
    && (forall k :: 0 <= k < |l.log| ==>
        && l.log[k].tick == l.first + k * l.interval && Ticks.Aligned(l.log[k].tick, l.interval, phase)
        && l.log[k].tick <= l.log[k].at)
    && (forall j, k :: 0 <= j < k < |l.log| ==> l.log[j].at <= l.log[k].at)
  }

  /** Every fetch starts inside its own window, so no two share one. */
  ghost predicate Punctual(l: Loop) {
    && (forall k :: 0 <= k < |l.log| && l.log[k].outcome.Fetched? ==> InWindow(l, l.log[k].tick, l.log[k].at))
    && (forall j, k :: 0 <= j < k < |l.log| && l.log[j].outcome.Fetched? ==> l.log[j].at < l.log[k].tick)
  }

  predicate NeverFetched(l: Loop) {
    forall k :: 0 <= k < |l.log| ==> !l.log[k].outcome.Fetched?
  }

  /** Every tick is accounted for, whatever happens; and as long as no timed-out wait takes a token, every fetch starts
      in its window. */
  lemma EveryTickAccountedFor(s: System, actions: seq<Action>, i: nat, phase: int)
    requires Initial(s) && i < |s.loops|
    requires Ticks.Aligned(s.loops[i].first, s.loops[i].interval, phase)
    ensures i < |Run(s, actions).loops|
    ensures var l := Run(s, actions).loops[i];
      && Same(s.loops[i], l) && Accounted(l, phase)
      && (s.prompt ==> Punctual(l))
      && (l.lateness == 0 ==> NeverFetched(l))
  {
    InitialOk(s);
    RunKeeps(s, actions);
    CapacitiesFixed(s, actions);
    var l := Run(s, actions).loops[i];
    assert Same(s.loops[i], l) && LoopOk(l, Run(s, actions).clock, s.prompt);
    var configured :| l.lateness == Ticks.EffectiveLateness(configured, l.interval);
    LogAccounted(l, Run(s, actions).clock, s.prompt, phase, configured);
  }

  lemma LogAccounted(l: Loop, clock: int, prompt: bool, phase: int, configured: int)
    requires LoopOk(l, clock, prompt) && Ticks.Aligned(l.first, l.interval, phase)
    requires l.lateness == Ticks.EffectiveLateness(configured, l.interval)
    ensures Accounted(l, phase) && (prompt ==> Punctual(l)) && (l.lateness == 0 ==> NeverFetched(l))
  {
    forall k | 0 <= k < |l.log| ensures Ticks.Aligned(l.log[k].tick, l.interval, phase) {
      Ticks.AlignmentKept(l.first, l.interval, phase, k);
      assert l.interval * k == k * l.interval;
    }
    forall j, k | 0 <= j < k < |l.log| && l.log[j].outcome.Fetched? && prompt ensures l.log[j].at < l.log[k].tick {
      assert InWindow(l, l.log[j].tick, l.log[j].at);
      assert l.interval * j == j * l.interval && l.interval * k == k * l.interval;
      Ticks.WindowsDisjoint(l.first, l.interval, configured, j, k, l.log[j].at);
    }
  }

  // ---- why a tick was disposed of ----

  /** The action happened when its turn came, and was this move of loop `i`. */
  predicate Happened(s: System, actions: seq<Action>, n: nat, i: nat, m: Move) {
    && n < |actions| && actions[n] == Moves(i, m) && i < |Run(s, actions[..n]).loops|
    && Enabled(Run(s, actions[..n]), Run(s, actions[..n]).loops[i], m)
  }

  /** The tick loop `i` was at when action `n` came, and the time. */
  function TickAt(s: System, actions: seq<Action>, n: nat, i: nat): int
    requires n <= |actions| && i < |Run(s, actions[..n]).loops|
  {
    Run(s, actions[..n]).loops[i].next
  }

  function TimeAt(s: System, actions: seq<Action>, n: nat): int
    requires n <= |actions|
  {
    Run(s, actions[..n]).clock
  }

  /** What an action makes of the tick that loop `i` is at, judged by the clock alone: its record, or nothing yet. */
  function Disposal(t: System, a: Action, i: nat): Option<Record>
    requires i < |t.loops|
  {
    if !a.Moves? || a.i != i || !Enabled(t, t.loops[i], a.m) then None
    else
      var l := t.loops[i];
      match a.m
      case Judge(paused) =>
        if t.clock > l.next + l.lateness then Some(Record(l.next, Skipped("late"), t.clock))
        else if paused then Some(Record(l.next, Skipped("disk_pressure"), t.clock)) else None
      case TryGlobal =>
        if t.clock >= l.next + l.lateness then Some(Record(l.next, Skipped("global_concurrency"), t.clock)) else None
      case FailGlobal => Some(Record(l.next, Skipped("global_concurrency"), t.clock))
      case TryHost =>
        if t.clock >= l.next + l.lateness then Some(Record(l.next, Skipped("host_concurrency"), t.clock)) else None
      case FailHost => Some(Record(l.next, Skipped("host_concurrency"), t.clock))
      case Finish => Some(Record(l.next, Fetched, l.pc.since))
      case _ => None
  }

  function Take(s: System, a: Action): System {
    if CanAct(s, a) then Act(s, a) else s
  }

  lemma MoveLogs(t: System, i: nat, m: Move)
    requires i < |t.loops| && Enabled(t, t.loops[i], m)
    ensures var l, after := t.loops[i], Perform(t.loops[i], m, t.clock, t.cancelled).loop;
      match Disposal(t, Moves(i, m), i)
      case Some(r) => after.log == l.log + [r] && after.next == l.next + l.interval && r.tick == l.next
      case None => after.log == l.log && after.next == l.next
  {
  }

  /** The log grows by exactly that, and the loop goes to its next tick exactly then. */
  lemma LogFollows(t: System, a: Action, i: nat)
    requires i < |t.loops|
    ensures |Take(t, a).loops| == |t.loops| && Same(t.loops[i], Take(t, a).loops[i])
    ensures var l, after := t.loops[i], Take(t, a).loops[i];
      match Disposal(t, a, i)
      case Some(r) => after.log == l.log + [r] && after.next == l.next + l.interval && r.tick == l.next
      case None => after.log == l.log && after.next == l.next
  {
    if CanAct(t, a) {
      ActFixed(t, a);
      if a.Moves? && a.i == i { MoveLogs(t, i, a.m); }
    }
  }

  lemma RunStep(s: System, actions: seq<Action>, n: nat)
    requires n < |actions|
    ensures Run(s, actions[..n+1]) == Take(Run(s, actions[..n]), actions[n])
  {
    assert actions[..n+1][..n] == actions[..n];
  }

  /** What is logged stays, and no loop goes back to a tick. */
  lemma {:induction false} LogKept(s: System, actions: seq<Action>, n: nat, m: nat, i: nat)
    requires n <= m <= |actions| && i < |s.loops| && s.loops[i].interval > 0
    ensures i < |Run(s, actions[..n]).loops| && i < |Run(s, actions[..m]).loops|
    ensures Run(s, actions[..n]).loops[i].log <= Run(s, actions[..m]).loops[i].log
    ensures TickAt(s, actions, n, i) <= TickAt(s, actions, m, i)
    decreases m
  {
    CapacitiesFixed(s, actions[..n]);
    CapacitiesFixed(s, actions[..m]);
    if n < m {
      LogKept(s, actions, n, m - 1, i);
      RunStep(s, actions, m - 1);
      CapacitiesFixed(s, actions[..m-1]);
      LogFollows(Run(s, actions[..m-1]), actions[m-1], i);
    }
  }

  /** A tick that is disposed of is logged for good, once, and the loop never comes back to it: no fetch of it
      follows. */
  lemma DisposedOnce(s: System, actions: seq<Action>, n: nat, i: nat, phase: int)
    requires Initial(s) && i < |s.loops| && Ticks.Aligned(s.loops[i].first, s.loops[i].interval, phase)
    requires n < |actions| && i < |Run(s, actions[..n]).loops|
    requires Disposal(Run(s, actions[..n]), actions[n], i).Some?
    ensures var t := Run(s, actions[..n]);
      var k, r := |t.loops[i].log|, Disposal(t, actions[n], i).value;
      && i < |Run(s, actions).loops| && r.tick == t.loops[i].next
      && (var log := Run(s, actions).loops[i].log;
          k < |log| && log[k] == r && forall j :: 0 <= j < |log| && log[j].tick == r.tick ==> j == k)
      && (forall m :: n < m <= |actions| ==> i < |Run(s, actions[..m]).loops| && TickAt(s, actions, m, i) > r.tick)
  {
    assert actions[..|actions|] == actions;
    CapacitiesFixed(s, actions[..n]);
    RunStep(s, actions, n);
    LogFollows(Run(s, actions[..n]), actions[n], i);
    LogKept(s, actions, n + 1, |actions|, i);
    var l, k := Run(s, actions).loops[i], |Run(s, actions[..n]).loops[i].log|;
    EveryTickAccountedFor(s, actions, i, phase);
    forall j | 0 <= j < |l.log| && l.log[j].tick == l.log[k].tick ensures j == k {
      DistinctTicks(l.first, l.interval, j, k);
    }
    forall m | n < m <= |actions|
      ensures i < |Run(s, actions[..m]).loops| && TickAt(s, actions, m, i) > l.log[k].tick
    {
      LogKept(s, actions, n + 1, m, i);
    }
  }

  lemma DistinctTicks(first: int, interval: int, j: int, k: int)
    requires interval > 0 && first + j * interval == first + k * interval
    ensures j == k
  {
    assert interval * (j - k) == 0;
    Ticks.SmallMultiple(interval, j - k);
  }

  /** Every record of the log was made by one action of the run. */
  lemma {:induction false} MadeBy(s: System, actions: seq<Action>, i: nat, k: nat) returns (n: nat)
    requires i < |s.loops| && s.loops[i].log == []
    requires i < |Run(s, actions).loops| && k < |Run(s, actions).loops[i].log|
    ensures n < |actions| && i < |Run(s, actions[..n]).loops|
    ensures Disposal(Run(s, actions[..n]), actions[n], i) == Some(Run(s, actions).loops[i].log[k])
  {
    var last := |actions| - 1;
    var front := actions[..last];
    CapacitiesFixed(s, front);
    assert actions[..|actions|] == actions;
    RunStep(s, actions, last);
    LogFollows(Run(s, front), actions[last], i);
    if k < |Run(s, front).loops[i].log| {
      n := MadeBy(s, front, i, k);
      assert front[..n] == actions[..n];
    } else {
      n := last;
    }
  }

  /** The tick was judged more than the lateness after its time. */
  ghost predicate JudgedLate(s: System, actions: seq<Action>, i: nat, tick: int, lateness: int) {
    exists n, paused :: Happened(s, actions, n, i, Judge(paused)) && TickAt(s, actions, n, i) == tick
                          && TimeAt(s, actions, n) > tick + lateness
  }

  /** It was judged in time, while fetching was paused. */
  ghost predicate JudgedPaused(s: System, actions: seq<Action>, i: nat, tick: int, lateness: int) {
    exists n :: Happened(s, actions, n, i, Judge(true)) && TickAt(s, actions, n, i) == tick
                  && TimeAt(s, actions, n) <= tick + lateness
  }

  /** The acquisition was given up: in waiting, or before it began because its deadline had come. */
  ghost predicate GaveUp(s: System, actions: seq<Action>, i: nat, tick: int, lateness: int, begin: Move, wait: Move) {
    exists n, m :: Happened(s, actions, n, i, m) && TickAt(s, actions, n, i) == tick
                     && (m == wait || (m == begin && TimeAt(s, actions, n) >= tick + lateness))
  }

  ghost predicate FetchEnded(s: System, actions: seq<Action>, i: nat, tick: int) {
    exists n :: Happened(s, actions, n, i, Finish) && TickAt(s, actions, n, i) == tick
  }

  /** The reason of a record, if it is of this tick and of this kind. */
  ghost predicate Reasoned(s: System, actions: seq<Action>, i: nat, r: Record, lateness: int) {
    || (r.outcome == Skipped("late") && JudgedLate(s, actions, i, r.tick, lateness))
    || (r.outcome == Skipped("disk_pressure") && JudgedPaused(s, actions, i, r.tick, lateness))
    || (r.outcome == Skipped("global_concurrency")
        && GaveUp(s, actions, i, r.tick, lateness, TryGlobal, FailGlobal))
    || (r.outcome == Skipped("host_concurrency") && GaveUp(s, actions, i, r.tick, lateness, TryHost, FailHost))
    || (r.outcome == Fetched && FetchEnded(s, actions, i, r.tick))
  }

  lemma ReasonGiven(s: System, actions: seq<Action>, n: nat, i: nat, r: Record)
    requires i < |s.loops| && n < |actions| && i < |Run(s, actions[..n]).loops|
    requires Disposal(Run(s, actions[..n]), actions[n], i) == Some(r)
    ensures Reasoned(s, actions, i, r, s.loops[i].lateness)
  {
    CapacitiesFixed(s, actions[..n]);
    assert Happened(s, actions, n, i, actions[n].m) && TickAt(s, actions, n, i) == r.tick;
  }

  /** An action that disposes of the tick of a record made that record. */
  lemma Settles(s: System, actions: seq<Action>, n: nat, i: nat, k: nat, phase: int)
    requires Initial(s) && i < |s.loops| && Ticks.Aligned(s.loops[i].first, s.loops[i].interval, phase)
    requires i < |Run(s, actions).loops| && k < |Run(s, actions).loops[i].log|
    requires n < |actions| && i < |Run(s, actions[..n]).loops|
    requires TickAt(s, actions, n, i) == Run(s, actions).loops[i].log[k].tick
    ensures Run(s, actions[..n]).loops[i].lateness == s.loops[i].lateness
    ensures Disposal(Run(s, actions[..n]), actions[n], i).Some? ==>
      Disposal(Run(s, actions[..n]), actions[n], i) == Some(Run(s, actions).loops[i].log[k])
  {
    CapacitiesFixed(s, actions[..n]);
    if Disposal(Run(s, actions[..n]), actions[n], i).Some? { DisposedOnce(s, actions, n, i, phase); }
  }

  lemma SoJudged(s: System, actions: seq<Action>, i: nat, k: nat, phase: int)
    requires Initial(s) && i < |s.loops| && Ticks.Aligned(s.loops[i].first, s.loops[i].interval, phase)
    requires i < |Run(s, actions).loops| && k < |Run(s, actions).loops[i].log|
    ensures var r, lateness := Run(s, actions).loops[i].log[k], s.loops[i].lateness;
      && (JudgedLate(s, actions, i, r.tick, lateness) ==> r.outcome == Skipped("late"))
      && (JudgedPaused(s, actions, i, r.tick, lateness) ==> r.outcome == Skipped("disk_pressure"))
  {
    var r, lateness := Run(s, actions).loops[i].log[k], s.loops[i].lateness;
    if JudgedLate(s, actions, i, r.tick, lateness) {
      var n, paused :| Happened(s, actions, n, i, Judge(paused)) && TickAt(s, actions, n, i) == r.tick
                       && TimeAt(s, actions, n) > r.tick + lateness;
      Settles(s, actions, n, i, k, phase);
    }
    if JudgedPaused(s, actions, i, r.tick, lateness) {
      var n :| Happened(s, actions, n, i, Judge(true)) && TickAt(s, actions, n, i) == r.tick
               && TimeAt(s, actions, n) <= r.tick + lateness;
      Settles(s, actions, n, i, k, phase);
    }
  }

  lemma SoFetched(s: System, actions: seq<Action>, i: nat, k: nat, phase: int)
    requires Initial(s) && i < |s.loops| && Ticks.Aligned(s.loops[i].first, s.loops[i].interval, phase)
    requires i < |Run(s, actions).loops| && k < |Run(s, actions).loops[i].log|
    ensures var r := Run(s, actions).loops[i].log[k]; FetchEnded(s, actions, i, r.tick) ==> r.outcome == Fetched
  {
    var r := Run(s, actions).loops[i].log[k];
    if FetchEnded(s, actions, i, r.tick) {
      var n :| Happened(s, actions, n, i, Finish) && TickAt(s, actions, n, i) == r.tick;
      Settles(s, actions, n, i, k, phase);
    }
  }

  lemma SoGaveUpGlobal(s: System, actions: seq<Action>, i: nat, k: nat, phase: int)
    requires Initial(s) && i < |s.loops| && Ticks.Aligned(s.loops[i].first, s.loops[i].interval, phase)
    requires i < |Run(s, actions).loops| && k < |Run(s, actions).loops[i].log|
    ensures var r := Run(s, actions).loops[i].log[k];
      GaveUp(s, actions, i, r.tick, s.loops[i].lateness, TryGlobal, FailGlobal) ==>
        r.outcome == Skipped("global_concurrency")
  {
    var r, lateness := Run(s, actions).loops[i].log[k], s.loops[i].lateness;
    if GaveUp(s, actions, i, r.tick, lateness, TryGlobal, FailGlobal) {
      var n, m :| Happened(s, actions, n, i, m) && TickAt(s, actions, n, i) == r.tick
                  && (m == FailGlobal || (m == TryGlobal && TimeAt(s, actions, n) >= r.tick + lateness));
      Settles(s, actions, n, i, k, phase);
    }
  }

  lemma SoGaveUpHost(s: System, actions: seq<Action>, i: nat, k: nat, phase: int)
    requires Initial(s) && i < |s.loops| && Ticks.Aligned(s.loops[i].first, s.loops[i].interval, phase)
    requires i < |Run(s, actions).loops| && k < |Run(s, actions).loops[i].log|
    ensures var r := Run(s, actions).loops[i].log[k];
      GaveUp(s, actions, i, r.tick, s.loops[i].lateness, TryHost, FailHost) ==> r.outcome == Skipped("host_concurrency")
  {
    var r, lateness := Run(s, actions).loops[i].log[k], s.loops[i].lateness;
    if GaveUp(s, actions, i, r.tick, lateness, TryHost, FailHost) {
      var n, m :| Happened(s, actions, n, i, m) && TickAt(s, actions, n, i) == r.tick
                  && (m == FailHost || (m == TryHost && TimeAt(s, actions, n) >= r.tick + lateness));
      Settles(s, actions, n, i, k, phase);
    }
  }

  /** Each reason of a skip is given exactly when it is so, over every run: late, when the tick was judged more than the
      lateness after its time; disk pressure, when it was judged in time while fetching was paused; a concurrency limit,
      when that acquisition was given up. And a tick is logged as fetched exactly when a fetch of it ended. */
  lemma ReasonsExactly(s: System, actions: seq<Action>, i: nat, k: nat, phase: int)
    requires Initial(s) && i < |s.loops| && Ticks.Aligned(s.loops[i].first, s.loops[i].interval, phase)
    requires i < |Run(s, actions).loops| && k < |Run(s, actions).loops[i].log|
    ensures var r, lateness := Run(s, actions).loops[i].log[k], s.loops[i].lateness;
      && (r.outcome == Skipped("late") <==> JudgedLate(s, actions, i, r.tick, lateness))
      && (r.outcome == Skipped("disk_pressure") <==> JudgedPaused(s, actions, i, r.tick, lateness))
      && (r.outcome == Skipped("global_concurrency") <==>
          GaveUp(s, actions, i, r.tick, lateness, TryGlobal, FailGlobal))
      && (r.outcome == Skipped("host_concurrency") <==> GaveUp(s, actions, i, r.tick, lateness, TryHost, FailHost))
      && (r.outcome == Fetched <==> FetchEnded(s, actions, i, r.tick))
  {
    var n := MadeBy(s, actions, i, k);
    ReasonGiven(s, actions, n, i, Run(s, actions).loops[i].log[k]);
    SoJudged(s, actions, i, k, phase);
    SoGaveUpGlobal(s, actions, i, k, phase);
    SoGaveUpHost(s, actions, i, k, phase);
    SoFetched(s, actions, i, k, phase);
    ReasonsDiffer();
  }

  /** A tick judged in time while fetching is paused is skipped for that, for good; it is never fetched. */
  lemma PausedTickIsSkipped(s: System, actions: seq<Action>, n: nat, i: nat, phase: int)
    requires Initial(s) && i < |s.loops| && Ticks.Aligned(s.loops[i].first, s.loops[i].interval, phase)
    requires Happened(s, actions, n, i, Judge(true))
    requires TimeAt(s, actions, n) <= TickAt(s, actions, n, i) + s.loops[i].lateness
    ensures i < |Run(s, actions).loops|
    ensures var log, tick := Run(s, actions).loops[i].log, TickAt(s, actions, n, i);
      && Record(tick, Skipped("disk_pressure"), TimeAt(s, actions, n)) in log
      && (forall r :: r in log && r.tick == tick ==> r.outcome == Skipped("disk_pressure"))
      && (forall m :: n < m <= |actions| ==> i < |Run(s, actions[..m]).loops| && TickAt(s, actions, m, i) > tick)
  {
    CapacitiesFixed(s, actions[..n]);
    DisposedOnce(s, actions, n, i, phase);
  }

  lemma ReasonsDiffer()
    ensures "late" != "disk_pressure" && "late" != "global_concurrency" && "late" != "host_concurrency"
    ensures "disk_pressure" != "global_concurrency" && "disk_pressure" != "host_concurrency"
    ensures "global_concurrency" != "host_concurrency"
  {
    assert "late"[0] == 'l' && "disk_pressure"[0] == 'd';
    assert "global_concurrency"[0] == 'g' && "host_concurrency"[0] == 'h';
  }

  // ---- whether a stream is ever fetched ----

  ghost predicate Reached(s: System, t: System) {
    exists actions :: Run(s, actions) == t
  }

  lemma StepReaches(s: System, t: System, a: Action)
    requires Reached(s, t) && CanAct(t, a)
    ensures Reached(s, Act(t, a))
  {
    var actions :| Run(s, actions) == t;
    assert (actions + [a])[..|actions|] == actions;
    assert Run(s, actions + [a]) == Act(t, a);
  }

  /** The loop at its first tick, with room in the channels it needs. */
  predicate AtFirst(s: System, i: nat, pc: Pc) {
    && i < |s.loops| && s.loops[i].pc == pc && s.loops[i].log == [] && s.loops[i].next == s.clock
    && s.loops[i].lateness > 0 && !s.cancelled
  }

  predicate HostFree(s: System, i: nat) {
    i < |s.loops| && (s.loops[i].host.Some? ==> GetHost(s, s.loops[i].host.value) < s.hostCap)
  }

  lemma WakesUp(s: System, i: nat) returns (t: System)
    requires Initial(s) && i < |s.loops| && s.loops[i].lateness > 0 && s.hostCap > 0
    ensures Reached(s, t) && AtFirst(t, i, Awake) && HostFree(t, i) && t.globalUsed == 0 && t.globalCap == s.globalCap
  {
    var l := s.loops[i];
    assert Run(s, []) == s;
    StepReaches(s, s, Moves(i, Arrive));
    var s1 := Act(s, Moves(i, Arrive));
    StepReaches(s, s1, Advance(l.first - s.clock));
    var s2 := Act(s1, Advance(l.first - s.clock));
    StepReaches(s, s2, Moves(i, Wake));
    t := Act(s2, Moves(i, Wake));
  }

  lemma TakesGlobal(s: System, r: System, i: nat) returns (t: System)
    requires Reached(s, r) && AtFirst(r, i, Awake) && HostFree(r, i) && r.globalUsed < r.globalCap
    ensures Reached(s, t) && HostFree(t, i) && AtFirst(t, i, if t.loops[i].host.Some? then WantHost
      else Fetching(t.clock))
  {
    StepReaches(s, r, Moves(i, Judge(false)));
    var s1 := Act(r, Moves(i, Judge(false)));
    StepReaches(s, s1, Moves(i, TryGlobal));
    var s2 := Act(s1, Moves(i, TryGlobal));
    StepReaches(s, s2, Moves(i, TakeGlobal));
    t := Act(s2, Moves(i, TakeGlobal));
  }

  lemma TakesHost(s: System, r: System, i: nat) returns (t: System)
    requires Reached(s, r) && AtFirst(r, i, WantHost) && HostFree(r, i) && r.loops[i].host.Some?
    ensures Reached(s, t) && AtFirst(t, i, Fetching(t.clock))
  {
    StepReaches(s, r, Moves(i, TryHost));
    var s1 := Act(r, Moves(i, TryHost));
    StepReaches(s, s1, Moves(i, TakeHost));
    t := Act(s1, Moves(i, TakeHost));
  }

  lemma FirstFetchHappens(s: System, i: nat)
    requires Initial(s) && i < |s.loops| && s.loops[i].lateness > 0 && s.globalCap > 0 && s.hostCap > 0
    ensures exists actions :: i < |Run(s, actions).loops| && !NeverFetched(Run(s, actions).loops[i])
  {
    var t := WakesUp(s, i);
    t := TakesGlobal(s, t, i);
    if t.loops[i].host.Some? { t := TakesHost(s, t, i); }
    StepReaches(s, t, Moves(i, Finish));
    var u := Act(t, Moves(i, Finish));
    assert u.loops[i].log[0].outcome == Fetched;
    var actions :| Run(s, actions) == u;
    assert !NeverFetched(Run(s, actions).loops[i]);
  }

  /** A stream is fetched in some run exactly when its lateness is positive. */
  lemma FetchedExactly(s: System, i: nat)
    requires Initial(s) && i < |s.loops| && s.globalCap > 0 && s.hostCap > 0
    ensures (exists actions :: i < |Run(s, actions).loops| && !NeverFetched(Run(s, actions).loops[i])) <==>
      s.loops[i].lateness > 0
  {
    if s.loops[i].lateness > 0 {
      FirstFetchHappens(s, i);
    } else {
      InitialOk(s);
      forall actions ensures i < |Run(s, actions).loops| ==> NeverFetched(Run(s, actions).loops[i]) {
        RunKeeps(s, actions);
        CapacitiesFixed(s, actions);
        assert LoopOk(Run(s, actions).loops[i], Run(s, actions).clock, s.prompt);
      }
    }
  }

  /** Only taking the last token starts a fetch, never after cancellation, and in its window exactly when that happens
      by the deadline. */
  lemma StartsInWindowExactly(s: System, l: Loop, m: Move)
    requires LoopOk(l, s.clock, s.prompt) && Enabled(s, l, m) && !l.pc.Fetching?
    requires Perform(l, m, s.clock, s.cancelled).loop.pc.Fetching?
    ensures m == if l.host.Some? then TakeHost else TakeGlobal
    ensures !s.cancelled && Perform(l, m, s.clock, s.cancelled).loop.pc.since == s.clock
    ensures InWindow(l, l.next, Perform(l, m, s.clock, s.cancelled).loop.pc.since) <==> s.clock <= l.next + l.lateness
  {
  }

  /** Without promptness the window does not hold: the one loop here waits for a token until 7, takes it at 100, and
      starts its fetch of the tick due at 5 then. */
  lemma LateTokenExample()
    ensures var s := System(0, false, false, 1, 0, 0, map[], [Loop(5, 10, 2, None, 5, Top, [])]);
      Initial(s) && exists actions ::
        |Run(s, actions).loops| == 1 && Run(s, actions).loops[0].log == [Record(5, Fetched, 100)]
  {
    var l := Loop(5, 10, 2, None, 5, Top, []);
    var s := System(0, false, false, 1, 0, 0, map[], [l]);
    assert l.lateness == Ticks.EffectiveLateness(2, l.interval);
    var t := WaitsForToken(s, l);
    StepReaches(s, t, Advance(95));
    var s1 := Act(t, Advance(95));
    StepReaches(s, s1, Moves(0, TakeGlobal));
    var s2 := Act(s1, Moves(0, TakeGlobal));
    StepReaches(s, s2, Moves(0, Finish));
    var s3 := Act(s2, Moves(0, Finish));
    var actions :| Run(s, actions) == s3;
    assert Run(s, actions).loops[0].log == [Record(5, Fetched, 100)];
  }

  lemma WaitsForToken(s: System, l: Loop) returns (t: System)
    requires s == System(0, false, false, 1, 0, 0, map[], [l]) && l == Loop(5, 10, 2, None, 5, Top, [])
    ensures Reached(s, t) && t == s.(clock := 5, loops := [l.(pc := WaitGlobal)])
  {
    assert Run(s, []) == s;
    StepReaches(s, s, Advance(5));
    var s1 := Act(s, Advance(5));
    StepReaches(s, s1, Moves(0, Arrive));
    var s2 := Act(s1, Moves(0, Arrive));
    StepReaches(s, s2, Moves(0, Judge(false)));
    var s3 := Act(s2, Moves(0, Judge(false)));
    StepReaches(s, s3, Moves(0, TryGlobal));
    t := Act(s3, Moves(0, TryGlobal));
  }

  // ---- cancellation ----

  /** The ticks of a loop that are due. */
  function Due(l: Loop, clock: int): nat
    requires l.interval > 0
  {
    if clock < l.next then 0 else (clock - l.next) / l.interval + 1
  }

  function Rank(pc: Pc): nat {
    match pc
    case Top => 8
    case Asleep => 7
    case Awake => 6
    case WantGlobal => 5
    case WaitGlobal => 4
    case WantHost => 3
    case WaitHost => 2
    case Fetching(_) => 1
    case Returned => 0
  }

  function Remaining(l: Loop, clock: int): nat
    requires l.interval > 0
  {
    if l.pc.Returned? then 0 else 9 * Due(l, clock) + Rank(l.pc)
  }

  lemma NextDue(l: Loop, after: Loop, clock: int)
    requires l.interval > 0 && after.interval == l.interval && clock >= l.next && after.next == l.next + l.interval
    ensures Due(after, clock) == Due(l, clock) - 1
  {
    var d := clock - l.next;
    if d >= l.interval {
      var q, r := d / l.interval, d % l.interval;
      assert d - l.interval == l.interval * (q - 1) + r by {
        assert l.interval * (q - 1) == l.interval * q - l.interval;
      }
      QuotientUnique(d - l.interval, l.interval, q - 1, r);
    } else {
      QuotientUnique(d, l.interval, 0, d);
    }
  }

  lemma QuotientUnique(a: int, b: int, q: int, r: int)
    requires b > 0 && 0 <= r < b && a == b * q + r
    ensures a / b == q
  {
    assert b * (a / b - q) == r - a % b;
    Ticks.SmallMultiple(b, a / b - q);
  }

  /** Every move brings its loop nearer to its return, as counted at any instant from then on: the ticks due by then. */
  lemma MoveShrinks(s: System, l: Loop, m: Move, end: int)
    requires LoopOk(l, s.clock, s.prompt) && Enabled(s, l, m) && s.clock <= end
    ensures Perform(l, m, s.clock, s.cancelled).loop.interval == l.interval
    ensures Remaining(Perform(l, m, s.clock, s.cancelled).loop, end) < Remaining(l, end)
  {
    var after := Perform(l, m, s.clock, s.cancelled).loop;
    if after.next != l.next {
      NextDue(l, after, end);
    }
  }

  /** A cancelled loop that has not returned can always move, whatever the other loops hold. */
  lemma CancelledCanMove(s: System, i: nat)
    requires Ok(s) && s.cancelled && i < |s.loops| && !s.loops[i].pc.Returned?
    ensures exists m :: Enabled(s, s.loops[i], m)
  {
    var l := s.loops[i];
    var m := match l.pc
      case Top => Arrive
      case Asleep => CancelSleep
      case Awake => Judge(false)
      case WantGlobal => TryGlobal
      case WaitGlobal => FailGlobal
      case WantHost => TryHost
      case WaitHost => FailHost
      case Fetching(_) => Finish
      case Returned => Arrive;
    assert Enabled(s, l, m);
  }

  predicate AnyLoop(l: Loop) {
    true
  }

  /** What is left to do until every loop has returned, if that takes until `end`. */
  ghost function Left(s: System, end: int): nat
    requires forall i :: 0 <= i < |s.loops| ==> s.loops[i].interval > 0
  {
    Sum(Where(s.loops, AnyLoop), LeftOf(s, end))
  }

  function LeftOf(s: System, end: int): nat -> nat
    requires forall i :: 0 <= i < |s.loops| ==> s.loops[i].interval > 0
  {
    (i: nat) => if i < |s.loops| then Remaining(s.loops[i], end) else 0
  }

  lemma ActShrinks(s: System, a: Action, end: int)
    requires Ok(s) && CanAct(s, a) && Act(s, a).clock <= end
    ensures Ok(Act(s, a)) && Left(Act(s, a), end) + (if a.Moves? then 1 else 0) <= Left(s, end)
  {
    var t := Act(s, a);
    ActKeeps(s, a);
    if a.Moves? {
      MoveShrinks(s, s.loops[a.i], a.m, end);
      OneShrinks(s, t, a.i, end);
    } else {
      SumSame(Where(s.loops, AnyLoop), LeftOf(s, end), LeftOf(t, end));
    }
  }

  lemma OneShrinks(s: System, t: System, i: nat, end: int)
    requires i < |s.loops| == |t.loops| && (forall k :: 0 <= k < |s.loops| ==> s.loops[k].interval > 0)
    requires t.loops == s.loops[i := t.loops[i]] && t.loops[i].interval > 0
    requires Remaining(t.loops[i], end) < Remaining(s.loops[i], end)
    ensures Left(t, end) < Left(s, end)
  {
    var all := Where(s.loops, AnyLoop);
    SumRemove(all, LeftOf(s, end), i);
    SumRemove(all, LeftOf(t, end), i);
    SumSame(all - {i}, LeftOf(s, end), LeftOf(t, end));
    assert Where(t.loops, AnyLoop) == all;
  }

  /** Every action could happen when its turn came. */
  predicate Happens(s: System, actions: seq<Action>) {
    |actions| > 0 ==>
      Happens(s, actions[..|actions|-1]) && CanAct(Run(s, actions[..|actions|-1]), actions[|actions|-1])
  }

  function MovesIn(actions: seq<Action>): nat {
    if |actions| == 0 then 0
    else MovesIn(actions[..|actions|-1]) + if actions[|actions|-1].Moves? then 1 else 0
  }

  lemma {:induction false} DrainBounded(s: System, actions: seq<Action>, end: int)
    requires Ok(s) && s.cancelled && Happens(s, actions) && Run(s, actions).clock <= end
    ensures Ok(Run(s, actions)) && Run(s, actions).cancelled
    ensures MovesIn(actions) + Left(Run(s, actions), end) <= Left(s, end)
  {
    if |actions| > 0 {
      var t := Run(s, actions[..|actions|-1]);
      assert t.clock <= Run(s, actions).clock;
      DrainBounded(s, actions[..|actions|-1], end);
      ActShrinks(t, actions[|actions|-1], end);
    }
  }

  /** Shutdown: however the clock advances meanwhile, the moves after cancellation are at most what was left until then
      (each loop's way to its return, and once round for every tick that has become due); and when no loop can move any
      more all have returned with every token back in its channel. */
  lemma ShutdownCompletes(s: System, actions: seq<Action>, h: string)
    requires Ok(s) && s.cancelled && Happens(s, actions)
    ensures MovesIn(actions) <= Left(s, Run(s, actions).clock)
    ensures var t := Run(s, actions);
      (forall i, m :: 0 <= i < |t.loops| ==> !Enabled(t, t.loops[i], m)) ==>
        && (forall i :: 0 <= i < |t.loops| ==> t.loops[i].pc.Returned?)
        && t.globalUsed == 0 && GetHost(t, h) == 0
  {
    DrainBounded(s, actions, Run(s, actions).clock);
    var t := Run(s, actions);
    if forall i, m :: 0 <= i < |t.loops| ==> !Enabled(t, t.loops[i], m) {
      forall i | 0 <= i < |t.loops| ensures t.loops[i].pc.Returned? {
        if !t.loops[i].pc.Returned? { CancelledCanMove(t, i); }
      }
      assert Where(t.loops, HoldsGlobal) == {} && Where(t.loops, OnHost(h)) == {};
    }
  }
}
