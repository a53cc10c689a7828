/** How Run sleeps and is woken, under any interleaving with concurrent Schedule and Remove calls. A locked
    section, a channel operation and a firing of the select are one step each; time moves in steps too.
    Run's own pass over the due ids schedules and signals like any other caller. */
module Wakeup {
  import opened Arithmetic
  import opened Wrappers
  import opened SchedulerSpec

  /** Run: about to call nextWait; past it, with what it sampled and how long it says to wait; in the select,
      with the instant its timer was reset and the instant it fires; answering the ids it popped; between one
      answer's unlock and its signal. */
  datatype RunPC =
    | Looking
    | Sampled(target: Option<int>, sampledAt: int, wait: int)
    | Armed(target: Option<int>, sampledAt: int, armedAt: int, deadline: int)
    | Answering(due: seq<string>)
    | Signalling(due: seq<string>)

  /** A caller outside Schedule, or between Schedule's unlock and its signal. */
  datatype Caller = Quiet | Unlocked

  datatype State = State(plan: Plan, token: bool, clock: int, run: RunPC, callers: seq<Caller>)

  datatype Action =
    | Schedule(i: nat, id: string, at: int)
    | Signal(i: nat)
    | Remove(id: string)
    | Tick(d: nat)
    | Sample(least: int)
    | Arm
    | TimerFires(popped: seq<string>)
    | TakeToken
    | Answer(next: Option<int>)
    | OwnSignal

  ghost predicate IsLeast(plan: Plan, m: int) {
    (exists id :: id in plan && plan[id] == m) && forall id :: id in plan ==> m <= plan[id]
  }

  /** Steps that can be taken now. */
  ghost predicate Enabled(s: State, a: Action) {
    match a
    case Schedule(i, _, _) => i < |s.callers| && s.callers[i] == Quiet
    case Signal(i) => i < |s.callers| && s.callers[i] == Unlocked
    case Remove(_) => true
    case Tick(_) => true
    case Sample(m) => s.run.Looking? && (s.plan != map[] ==> IsLeast(s.plan, m))
    case Arm => s.run.Sampled?
    case TimerFires(popped) => s.run.Armed? && s.clock >= s.run.deadline && Drains(s.plan, s.clock, popped)
    case TakeToken => s.run.Armed? && s.token
    case Answer(_) => s.run.Answering?
    case OwnSignal => s.run.Signalling?
  }

  /** A send on the one-place channel: dropped when a token is there already. */
  function Send(s: State): State {
    if s.token then s else s.(token := true)
  }

  /** What nextWait makes of the heap at a clock reading. */
  function WaitFor(target: Option<int>, clock: int): int {
    if target.None? then HOUR else Max(0, target.value - clock)
  }

  function Sampling(s: State, m: int): RunPC {
    var target := if s.plan == map[] then None else Some(m);
    Sampled(target, s.clock, WaitFor(target, s.clock))
  }

  /** The timer runs from the moment it is reset. */
  function Arming(s: State): RunPC
    requires s.run.Sampled?
  {
    Armed(s.run.target, s.run.sampledAt, s.clock, s.clock + s.run.wait)
  }

  function AnswerNext(s: State, next: Option<int>): State
    requires s.run.Answering?
  {
    var due := s.run.due;
    if due == [] then s.(run := Looking)
    else if next.None? then s.(run := Answering(due[1..]))
    else s.(plan := s.plan[due[0] := next.value], run := Signalling(due[1..]))
  }

  function Effect(s: State, a: Action): State {
    match a
    case Schedule(i, id, at) =>
      if i < |s.callers| then s.(plan := s.plan[id := at], callers := s.callers[i := Unlocked]) else s
    case Signal(i) => if i < |s.callers| then Send(s).(callers := s.callers[i := Quiet]) else s
    case Remove(id) => s.(plan := s.plan - {id})
    case Tick(d) => s.(clock := s.clock + d)
    case Sample(m) => s.(run := Sampling(s, m))
    case Arm => if s.run.Sampled? then s.(run := Arming(s)) else s
    case TimerFires(popped) => s.(plan := Without(s.plan, popped), run := Answering(popped))
    case TakeToken => s.(token := false, run := Looking)
    case Answer(next) => if s.run.Answering? then AnswerNext(s, next) else s
    case OwnSignal => if s.run.Signalling? then Send(s).(run := Answering(s.run.due)) else s
  }

  ghost function Step(s: State, a: Action): State {
    if Enabled(s, a) then Effect(s, a) else s
  }

  ghost function Run(s: State, acts: seq<Action>): State
    decreases acts
  {
    if acts == [] then s else Run(Step(s, acts[0]), acts[1..])
  }

  function Start(clock: int, callers: nat): State {
    State(map[], false, clock, Looking, seq(callers, _ => Quiet))
  }

  // ---- no wakeup is lost -----------------------------------------------------------------------------

  ghost predicate SignalInFlight(s: State) {
    exists i :: 0 <= i < |s.callers| && s.callers[i] == Unlocked
  }

  ghost predicate TargetCovers(plan: Plan, target: Option<int>) {
    plan == map[] || (target.Some? && forall id :: id in plan ==> target.value <= plan[id])
  }

  /** Between its sample and the end of its select. */
  predicate Waiting(r: RunPC) {
    r.Sampled? || r.Armed?
  }

  ghost predicate Inv(s: State) {
    && (Waiting(s.run) ==>
          && (TargetCovers(s.plan, s.run.target) || s.token || SignalInFlight(s))
          && s.run.sampledAt <= s.clock)
    && (s.run.Sampled? ==> s.run.wait == WaitFor(s.run.target, s.run.sampledAt))
    && (s.run.Armed? ==>
          && s.run.sampledAt <= s.run.armedAt <= s.clock
          && s.run.deadline == s.run.armedAt + WaitFor(s.run.target, s.run.sampledAt))
  }

  lemma StepInv(s: State, a: Action)
    requires Inv(s)
    ensures Inv(Step(s, a))
  {
    if Enabled(s, a) && Waiting(s.run) {
      match a {
        case Schedule(i, _, _) => assert Effect(s, a).callers[i] == Unlocked;
        case Signal(i) => assert Effect(s, a).token;
        case Tick(_) => if SignalInFlight(s) { assert SignalInFlight(Effect(s, a)); }
        case Remove(_) => if SignalInFlight(s) { assert SignalInFlight(Effect(s, a)); }
        case Arm => if SignalInFlight(s) { assert SignalInFlight(Effect(s, a)); }
        case _ =>
      }
    }
  }

  lemma {:induction false} RunInv(s: State, acts: seq<Action>)
    requires Inv(s)
    ensures Inv(Run(s, acts))
    decreases acts
  {
    if acts != [] {
      StepInv(s, acts[0]);
      RunInv(Step(s, acts[0]), acts[1..]);
    }
  }

  /** In every interleaving, from its sample to the end of its select, either nothing is scheduled, or what
      Run sampled is no later than anything scheduled now, or a token waits in the channel, or some Schedule
      call is between its unlock and its signal. */
  lemma NoLostWakeup(clock: int, callers: nat, acts: seq<Action>)
    ensures var s := Run(Start(clock, callers), acts);
            Waiting(s.run) ==> TargetCovers(s.plan, s.run.target) || s.token || SignalInFlight(s)
  {
    RunInv(Start(clock, callers), acts);
  }

  // ---- how late Run may be -------------------------------------------------------------------------------

  /** Time between the sample and the reset of the timer; the timer fires that much after what was sampled. */
  function Slip(s: State): int
    requires s.run.Armed?
  {
    s.run.armedAt - s.run.sampledAt
  }

  /** With no token there and no signal on its way, the timer fires no later than any entry's time, or the sample
      if that is later, plus the slip. */
  lemma TimerCoversPlan(s: State, id: string)
    requires Inv(s) && s.run.Armed? && !s.token && !SignalInFlight(s) && id in s.plan
    ensures s.run.deadline <= Max(s.plan[id], s.run.sampledAt) + Slip(s)
  {
  }

  /** Run never sleeps longer past a due entry than it took to reset its timer: once that has passed too, the
      timer has fired, or a token is there to take, or a signal is on its way. */
  lemma DueIsNotSleptThrough(clock: int, callers: nat, acts: seq<Action>, id: string)
    ensures var s := Run(Start(clock, callers), acts);
            s.run.Armed? && id in s.plan && s.plan[id] + Slip(s) <= s.clock ==>
              s.clock >= s.run.deadline || s.token || SignalInFlight(s)
  {
    RunInv(Start(clock, callers), acts);
  }

  /** The ids Run has popped and not yet answered. */
  function Owed(r: RunPC): seq<string> {
    match r
    case Answering(due) => due
    case Signalling(due) => due
    case _ => []
  }

  /** An id that is removed, and that Run is not answering just then, stays out of the schedule, and is never popped,
      until someone schedules it again. */
  lemma {:induction false} RemovedStaysOut(s: State, id: string, acts: seq<Action>)
    requires id !in s.plan && id !in Owed(s.run)
    requires forall a :: a in acts ==> !(a.Schedule? && a.id == id)
    ensures id !in Run(s, acts).plan && id !in Owed(Run(s, acts).run)
    decreases acts
  {
    if acts != [] {
      assert acts[0] in acts && forall a :: a in acts[1..] ==> a in acts;
      RemovedStaysOut(Step(s, acts[0]), id, acts[1..]);
    }
  }

  lemma RemoveTakesOut(s: State, id: string, acts: seq<Action>)
    requires id !in Owed(s.run) && forall a :: a in acts ==> !(a.Schedule? && a.id == id)
    ensures id !in Run(Step(s, Remove(id)), acts).plan
  {
    RemovedStaysOut(Step(s, Remove(id)), id, acts);
  }

  // ---- and no earlier than it must -------------------------------------------------------------------------

  /** Steps that leave the schedule and Run's sample alone. */
  predicate IsQuiet(a: Action) {
    a.Tick? || a.Arm? || a.Signal?
  }

  predicate Holding(s: State, plan: Plan, target: Option<int>) {
    s.plan == plan && Waiting(s.run) && s.run.target == target
  }

  lemma {:induction false} QuietHolds(s: State, quiet: seq<Action>, plan: Plan, target: Option<int>)
    requires Inv(s) && Holding(s, plan, target) && forall a :: a in quiet ==> IsQuiet(a)
    ensures Inv(Run(s, quiet)) && Holding(Run(s, quiet), plan, target)
    decreases quiet
  {
    if quiet != [] {
      assert IsQuiet(quiet[0]) && forall a :: a in quiet[1..] ==> a in quiet;
      StepInv(s, quiet[0]);
      QuietHolds(Step(s, quiet[0]), quiet[1..], plan, target);
    }
  }

  /** Run sleeps until something is due, and does not poll: if nothing touches the schedule after its sample, its timer
      has not run out before the earliest entry is due, or, with nothing scheduled, before an hour has passed. */
  lemma SleepsUntilDue(s: State, m: int, quiet: seq<Action>)
    requires Inv(s) && Enabled(s, Sample(m)) && forall a :: a in quiet ==> IsQuiet(a)
    ensures var t := Run(Step(s, Sample(m)), quiet);
      t.run.Armed? && t.clock >= t.run.deadline ==>
        if s.plan == map[] then t.clock >= t.run.armedAt + HOUR else SomethingDue(t)
  {
    StepInv(s, Sample(m));
    var target := if s.plan == map[] then None else Some(m);
    QuietHolds(Step(s, Sample(m)), quiet, s.plan, target);
    var t := Run(Step(s, Sample(m)), quiet);
    if t.run.Armed? && t.clock >= t.run.deadline && s.plan != map[] {
      var id :| id in s.plan && s.plan[id] == m;
      assert id in t.plan && t.plan[id] <= t.clock;
    }
  }

  /** Run's own steps through a pass with these answers. */
  function Answers(due: seq<string>, now: int, onDue: OnDue): seq<Action> {
    if due == [] then [Answer(None)]
    else if onDue(due[0], now).Some? then [Answer(onDue(due[0], now)), OwnSignal] + Answers(due[1..], now, onDue)
    else [Answer(None)] + Answers(due[1..], now, onDue)
  }

  lemma {:induction false} RescheduleHead(plan: Plan, due: seq<string>, now: int, onDue: OnDue)
    requires due != []
    ensures Reschedule(plan, due, now, onDue)
         == Reschedule(SchedulerSpec.Answer(plan, due[0], onDue(due[0], now)), due[1..], now, onDue)
    decreases |due|
  {
    if |due| > 1 {
      var front := due[..|due| - 1];
      RescheduleHead(plan, front, now, onDue);
      assert front[1..] == due[1..][..|due| - 2];
    }
  }

  lemma {:induction false} AnswersReschedule(s: State, now: int, onDue: OnDue)
    requires s.run.Answering?
    ensures var t := Run(s, Answers(s.run.due, now, onDue));
      && t.run == Looking && t.plan == Reschedule(s.plan, s.run.due, now, onDue)
      && (t.token <==> s.token || exists id :: id in s.run.due && onDue(id, now).Some?)
    decreases |s.run.due|
  {
    var due := s.run.due;
    if due == [] {
      assert Answers(due, now, onDue)[1..] == [];
    } else {
      RescheduleHead(s.plan, due, now, onDue);
      var next := onDue(due[0], now);
      var rest := Answers(due[1..], now, onDue);
      var s1 := Step(s, Answer(next));
      var s2 := if next.Some? then Step(s1, OwnSignal) else s1;
      if next.Some? {
        assert Answers(due, now, onDue)[1..] == [OwnSignal] + rest && ([OwnSignal] + rest)[1..] == rest;
      } else {
        assert Answers(due, now, onDue)[1..] == rest;
      }
      AnswersReschedule(s2, now, onDue);
      assert forall id :: id in due <==> id == due[0] || id in due[1..];
    }
  }

  /** A pass that nothing interrupts, step by step, is the pass of the schedule on values, and leaves a token exactly if
      one was there or something was scheduled again. */
  lemma PassIsReschedule(s: State, popped: seq<string>, onDue: OnDue)
    requires Enabled(s, TimerFires(popped))
    ensures var t := Run(Step(s, TimerFires(popped)), Answers(popped, s.clock, onDue));
      && t.run == Looking && t.plan == Reschedule(Without(s.plan, popped), popped, s.clock, onDue)
      && (t.token <==> s.token || exists id :: id in popped && onDue(id, s.clock).Some?)
  {
    AnswersReschedule(Step(s, TimerFires(popped)), s.clock, onDue);
  }

  predicate IsRunStep(a: Action) {
    a.Sample? || a.Arm? || a.TimerFires? || a.TakeToken? || a.Answer? || a.OwnSignal?
  }

  ghost predicate SomethingDue(s: State) {
    exists id :: id in s.plan && s.plan[id] <= s.clock
  }

  /** In its select Run can step exactly when its timer has run out or a token is there. */
  lemma SelectStepsExactlyWhen(s: State)
    requires s.run.Armed?
    ensures (exists a :: IsRunStep(a) && Enabled(s, a)) <==> s.clock >= s.run.deadline || s.token
  {
    if s.token {
      assert IsRunStep(TakeToken) && Enabled(s, TakeToken);
    } else if s.clock >= s.run.deadline {
      var popped := SomeDrain(s.plan, s.clock);
      assert IsRunStep(TimerFires(popped)) && Enabled(s, TimerFires(popped));
    }
  }

  /** So with an entry due for longer than the slip and no signal on its way, Run can step. */
  lemma SelectIsNotStuck(s: State, id: string) returns (a: Action)
    requires Inv(s) && s.run.Armed? && id in s.plan && s.plan[id] + Slip(s) <= s.clock && !SignalInFlight(s)
    ensures IsRunStep(a) && Enabled(s, a)
  {
    SelectStepsExactlyWhen(s);
    a :| IsRunStep(a) && Enabled(s, a);
  }

  lemma {:induction false} RunAppend(s: State, x: seq<Action>, a: Action)
    ensures Run(s, x + [a]) == Step(Run(s, x), a)
    decreases x
  {
    if x != [] {
      assert (x + [a])[1..] == x[1..] + [a];
      RunAppend(Step(s, x[0]), x[1..], a);
    } else {
      assert [a][1..] == [];
      assert x + [a] == [a];
    }
  }

  /** The slip is really lost: an entry sampled ten ahead, a timer reset five later, and at twelve the entry is
      due while Run can take no step and nothing is on its way to wake it. */
  lemma LateByTheSlip(id: string) returns (acts: seq<Action>)
    ensures var s := Run(Start(0, 1), acts);
      && s.run.Armed? && Slip(s) == 5 && id in s.plan && s.plan[id] == 10 && s.clock == 12
      && !s.token && !SignalInFlight(s) && !(exists a :: IsRunStep(a) && Enabled(s, a))
  {
    var s := Start(0, 1);
    acts := [];
    acts := Next(s, acts, Schedule(0, id, 10));
    acts := Next(s, acts, Signal(0));
    acts := Next(s, acts, Sample(10));
    acts := Next(s, acts, Arm);
    acts := Next(s, acts, TakeToken);
    assert Run(s, acts) == State(map[id := 10], false, 0, Looking, [Quiet]);
    acts := SlipAfter(s, acts, id);
  }

  lemma Next(s: State, acts: seq<Action>, a: Action) returns (more: seq<Action>)
    ensures more == acts + [a] && Run(s, more) == Step(Run(s, acts), a)
  {
    RunAppend(s, acts, a);
    more := acts + [a];
  }

  lemma SlipAfter(s: State, before: seq<Action>, id: string) returns (acts: seq<Action>)
    requires Run(s, before) == State(map[id := 10], false, 0, Looking, [Quiet])
    ensures var s' := Run(s, acts);
      && s'.run.Armed? && Slip(s') == 5 && id in s'.plan && s'.plan[id] == 10 && s'.clock == 12
      && !s'.token && !SignalInFlight(s') && !(exists a :: IsRunStep(a) && Enabled(s', a))
  {
    acts := before;
    acts := Next(s, acts, Sample(10));
    acts := Next(s, acts, Tick(5));
    acts := Next(s, acts, Arm);
    acts := Next(s, acts, Tick(7));
    SelectStepsExactlyWhen(Run(s, acts));
  }

  // ---- and due entries are popped ------------------------------------------------------------------------

  /** With an entry due, Run pops everything due within any four of its steps taken in a row, whichever way its
      select falls: at once, or after taking one token, sampling again and arming. */
  lemma DuePoppedWithinFour(s: State, a1: Action, a2: Action, a3: Action, a4: Action)
    requires Inv(s) && s.run.Armed? && SomethingDue(s)
    requires IsRunStep(a1) && IsRunStep(a2) && IsRunStep(a3) && IsRunStep(a4)
    requires var s1 := Effect(s, a1); var s2 := Effect(s1, a2);
             Enabled(s, a1) && Enabled(s1, a2) && Enabled(s2, a3) && Enabled(Effect(s2, a3), a4)
    ensures a1.TimerFires? || a4.TimerFires?
  {
    if a1.TakeToken? {
      var s1 := Effect(s, a1);
      assert s1.plan == s.plan && s1.plan != map[];
      assert a2.Sample?;
      var s2 := Effect(s1, a2);
      assert s2.run.wait == 0 && a3.Arm?;
      var s3 := Effect(s2, a3);
      assert s3.run.deadline == s3.clock && !s3.token;
    }
  }

  lemma SomeDrain(plan: Plan, now: int) returns (due: seq<string>)
    ensures Drains(plan, now, due)
  {
    due := [];
    while exists id :: id in Without(plan, due) && plan[id] <= now
      invariant Draining(plan, now, due)
      decreases |Without(plan, due)|
    {
      var rest := Without(plan, due);
      var id := Earliest(rest);
      DrainOne(plan, now, due, id);
      due := due + [id];
    }
    DrainEnds(plan, now, due);
  }

  lemma {:induction false} Earliest(plan: Plan) returns (id: string)
    requires plan != map[]
    ensures id in plan && forall k :: k in plan ==> plan[id] <= plan[k]
    decreases |plan|
  {
    var one :| one in plan;
    id := one;
    var rest := plan - {one};
    assert forall k :: k in plan ==> k == one || (k in rest && rest[k] == plan[k]);
    if rest != map[] {
      var other := Earliest(rest);
      if plan[other] < plan[one] {
        id := other;
      }
    }
  }
}
