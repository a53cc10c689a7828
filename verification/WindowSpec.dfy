/** The sliding window on values: the live slots of the ring buffer, oldest first, against an
    unbounded log of every admission ever made. */
module WindowSpec {
  import opened Arithmetic

  datatype WindowConfig = WindowConfig(enabled: bool, duration: int, maxRequests: int, bufferSize: int)

  datatype WindowState = WindowState(duration: int, maxRequests: int, live: seq<int>)

  function New(cfg: WindowConfig): WindowState {
    WindowState(cfg.duration, cfg.maxRequests, [])
  }

  /** Drops the leading timestamps at or before cutoff, stopping at the first later one. */
  function Compact(live: seq<int>, cutoff: int): seq<int> {
    if live == [] || live[0] > cutoff then live else Compact(live[1..], cutoff)
  }

  function Cleanup(w: WindowState, now: int): WindowState {
    w.(live := Compact(w.live, now - w.duration))
  }

  predicate Admits(w: WindowState, now: int) {
    |Compact(w.live, now - w.duration)| < w.maxRequests
  }

  function Allow(w: WindowState, now: int): WindowState {
    var swept := Cleanup(w, now);
    if Admits(w, now) then swept.(live := swept.live + [now]) else swept
  }

  // ---- runs -------------------------------------------------------------------------------

  datatype WindowOp = Request(at: int) | Sweep(at: int)

  /** Everything a run shows: the final window, the admissions in order, one decision per request. */
  datatype WindowRun = WindowRun(w: WindowState, log: seq<int>, decisions: seq<bool>)

  function Step(r: WindowRun, op: WindowOp): WindowRun {
    match op
    case Request(at) =>
      var ok := Admits(r.w, at);
      WindowRun(Allow(r.w, at), if ok then r.log + [at] else r.log, r.decisions + [ok])
    case Sweep(at) => r.(w := Cleanup(r.w, at))
  }

  function Exec(cfg: WindowConfig, ops: seq<WindowOp>): WindowRun {
    if ops == [] then WindowRun(New(cfg), [], [])
    else Step(Exec(cfg, ops[..|ops| - 1]), ops[|ops| - 1])
  }

  predicate Nondecreasing(ops: seq<WindowOp>) {
    forall i, j :: 0 <= i < j < |ops| ==> ops[i].at <= ops[j].at
  }

  // ---- the unbounded reference ------------------------------------------------------------

  /** How many logged timestamps lie in (lo, hi]. */
  function Count(log: seq<int>, lo: int, hi: int): nat {
    if log == [] then 0 else (if lo < log[0] <= hi then 1 else 0) + Count(log[1..], lo, hi)
  }

  /** The logged timestamps after lo, in order. */
  function After(log: seq<int>, lo: int): seq<int> {
    if log == [] then [] else (if lo < log[0] then [log[0]] else []) + After(log[1..], lo)
  }

  datatype LogRun = LogRun(log: seq<int>, decisions: seq<bool>)

  /** A limiter that keeps every admission and ignores sweeps. */
  function LogStep(cfg: WindowConfig, r: LogRun, op: WindowOp): LogRun {
    match op
    case Request(at) =>
      var ok := Count(r.log, at - cfg.duration, at) < cfg.maxRequests;
      LogRun(if ok then r.log + [at] else r.log, r.decisions + [ok])
    case Sweep(_) => r
  }

  function LogExec(cfg: WindowConfig, ops: seq<WindowOp>): LogRun {
    if ops == [] then LogRun([], []) else LogStep(cfg, LogExec(cfg, ops[..|ops| - 1]), ops[|ops| - 1])
  }

  // ---- refinement -------------------------------------------------------------------------

  /** Nondecreasing, starting no earlier than lo and ending no later than hi. */
  predicate Ascends(lo: int, log: seq<int>, hi: int)
    decreases log
  {
    if log == [] then lo <= hi else lo <= log[0] && Ascends(log[0], log[1..], hi)
  }

  ghost predicate Sorted(log: seq<int>, latest: int) {
    log == [] || Ascends(log[0], log, latest)
  }

  lemma {:induction false} AscendsAppend(lo: int, log: seq<int>, hi: int, t: int)
    requires Ascends(lo, log, hi) && hi <= t
    ensures Ascends(lo, log + [t], t)
    ensures Ascends(lo, log, t)
    decreases log
  {
    if log == [] {
      assert ([] + [t])[1..] == [];
    } else {
      AscendsAppend(log[0], log[1..], hi, t);
      assert (log + [t])[1..] == log[1..] + [t];
    }
  }

  lemma {:induction false} SweepTwice(live: seq<int>, c: int, c': int)
    requires c <= c'
    ensures Compact(Compact(live, c), c') == Compact(live, c')
  {
    if live != [] && live[0] <= c {
      SweepTwice(live[1..], c, c');
    }
  }

  lemma {:induction false} SweepAppend(live: seq<int>, c: int, t: int)
    ensures Compact(live + [t], c) == Compact(Compact(live, c) + [t], c)
  {
    if live != [] && live[0] <= c {
      SweepAppend(live[1..], c, t);
      assert (live + [t])[1..] == live[1..] + [t];
    }
  }

  lemma {:induction false} AllCounted(lo: int, log: seq<int>, hi: int, c: int)
    requires Ascends(lo, log, hi) && c < lo
    ensures Count(log, c, hi) == |log| && After(log, c) == log
    ensures lo <= hi
    decreases log
  {
    if log != [] {
      AllCounted(log[0], log[1..], hi, c);
    }
  }

  lemma {:induction false} SweptCounts(lo: int, log: seq<int>, hi: int, c: int)
    requires Ascends(lo, log, hi)
    ensures Compact(log, c) == After(log, c)
    ensures |Compact(log, c)| == Count(log, c, hi)
    decreases log
  {
    if log != [] {
      if log[0] > c {
        AllCounted(log[0], log, hi, c);
      } else {
        SweptCounts(log[0], log[1..], hi, c);
      }
    }
  }

  /** Swept to `latest`, the live slots and the whole log come to the same thing. */
  ghost predicate Tracks(w: WindowState, log: seq<int>, latest: int) {
    && Compact(w.live, latest - w.duration) == Compact(log, latest - w.duration)
    && Sorted(log, latest)
  }

  lemma SweptIsRecentLog(w: WindowState, log: seq<int>, latest: int, now: int)
    requires Tracks(w, log, latest) && latest <= now
    ensures Cleanup(w, now).live == Compact(log, now - w.duration) == After(log, now - w.duration)
    ensures |Cleanup(w, now).live| == Count(log, now - w.duration, now)
    ensures Sorted(log, now)
  {
    SweepTwice(w.live, latest - w.duration, now - w.duration);
    SweepTwice(log, latest - w.duration, now - w.duration);
    if log != [] {
      AscendsAppend(log[0], log, latest, now);
      SweptCounts(log[0], log, now, now - w.duration);
    }
  }

  ghost predicate MatchesLog(cfg: WindowConfig, r: WindowRun, l: LogRun, latest: int) {
    && r.w.duration == cfg.duration && r.w.maxRequests == cfg.maxRequests
    && Tracks(r.w, r.log, latest)
    && r.log == l.log && r.decisions == l.decisions
  }

  lemma StepMatches(cfg: WindowConfig, r: WindowRun, l: LogRun, op: WindowOp, latest: int)
    requires MatchesLog(cfg, r, l, latest) && latest <= op.at
    ensures MatchesLog(cfg, Step(r, op), LogStep(cfg, l, op), op.at)
  {
    var cutoff := op.at - cfg.duration;
    SweptIsRecentLog(r.w, r.log, latest, op.at);
    SweepTwice(r.w.live, cutoff, cutoff);
    if op.Request? && Admits(r.w, op.at) {
      SweepAppend(r.log, cutoff, op.at);
      if r.log == [] {
        assert Ascends(op.at, [op.at], op.at);
      } else {
        AscendsAppend(r.log[0], r.log, latest, op.at);
      }
    }
  }

  lemma MatchesLater(cfg: WindowConfig, r: WindowRun, l: LogRun, latest: int, latest': int)
    requires MatchesLog(cfg, r, l, latest) && latest <= latest'
    ensures MatchesLog(cfg, r, l, latest')
  {
    SweptIsRecentLog(r.w, r.log, latest, latest');
  }

  ghost predicate AllBefore(ops: seq<WindowOp>, latest: int) {
    forall i :: 0 <= i < |ops| ==> ops[i].at <= latest
  }

  lemma FrontOrdered(ops: seq<WindowOp>)
    requires Nondecreasing(ops) && ops != []
    ensures Nondecreasing(ops[..|ops| - 1])
    ensures AllBefore(ops[..|ops| - 1], ops[|ops| - 1].at)
  {
  }

  lemma {:induction false} ExecMatches(cfg: WindowConfig, ops: seq<WindowOp>, latest: int)
    requires Nondecreasing(ops) && AllBefore(ops, latest)
    ensures MatchesLog(cfg, Exec(cfg, ops), LogExec(cfg, ops), latest)
  {
    if ops != [] {
      var front, op := ops[..|ops| - 1], ops[|ops| - 1];
      FrontOrdered(ops);
      ExecMatches(cfg, front, op.at);
      StepMatches(cfg, Exec(cfg, front), LogExec(cfg, front), op, op.at);
      MatchesLater(cfg, Exec(cfg, ops), LogExec(cfg, ops), op.at, latest);
    }
  }

  /** The ring-buffer window decides exactly as the unbounded log does, wherever sweeps are placed,
      and what it still counts at any later time is exactly the log's last W of time, in order. */
  lemma RefinesUnboundedLog(cfg: WindowConfig, ops: seq<WindowOp>, now: int)
    requires Nondecreasing(ops) && AllBefore(ops, now)
    ensures Exec(cfg, ops).decisions == LogExec(cfg, ops).decisions
    ensures Exec(cfg, ops).log == LogExec(cfg, ops).log
    ensures Cleanup(Exec(cfg, ops).w, now).live == After(Exec(cfg, ops).log, now - cfg.duration)
    ensures Admits(Exec(cfg, ops).w, now)
        <==> Count(Exec(cfg, ops).log, now - cfg.duration, now) < cfg.maxRequests
  {
    ExecMatches(cfg, ops, now);
    SweptIsRecentLog(Exec(cfg, ops).w, Exec(cfg, ops).log, now, now);
  }

  lemma {:induction false} SweptHead(live: seq<int>, cutoff: int)
    ensures var rest := Compact(live, cutoff); rest == [] || rest[0] > cutoff
  {
    if live != [] && live[0] <= cutoff {
      SweptHead(live[1..], cutoff);
    }
  }

  /** Every request and every sweep drops what has expired, a refused request too: right after it the ring holds exactly
      the log's last W of time. */
  lemma HoldsOnlyRecent(cfg: WindowConfig, ops: seq<WindowOp>)
    requires Nondecreasing(ops) && ops != [] && cfg.duration > 0
    ensures var r := Exec(cfg, ops); r.w.live == After(r.log, ops[|ops| - 1].at - cfg.duration)
  {
    var front, op := ops[..|ops| - 1], ops[|ops| - 1];
    FrontOrdered(ops);
    ExecMatches(cfg, front, op.at);
    SweepsFirst(Exec(cfg, front), op);
    ExecMatches(cfg, ops, op.at);
    hide Exec;
    hide LogExec;
    SweptIsRecentLog(Exec(cfg, ops).w, Exec(cfg, ops).log, op.at, op.at);
  }

  lemma SweepsFirst(r: WindowRun, op: WindowOp)
    requires r.w.duration > 0
    ensures Cleanup(Step(r, op).w, op.at).live == Step(r, op).w.live
  {
    SweptHead(r.w.live, op.at - r.w.duration);
  }

  // ---- the limit itself -------------------------------------------------------------------

  lemma {:induction false} CountWidens(lo: int, log: seq<int>, latest: int, a: int, w: int)
    requires Ascends(lo, log, latest) && latest <= a + w
    ensures Count(log, a, a + w) <= Count(log, latest - w, latest)
    ensures lo <= latest
    decreases log
  {
    if log != [] {
      CountWidens(log[0], log[1..], latest, a, w);
    }
  }

  lemma {:induction false} CountAppend(log: seq<int>, t: int, lo: int, hi: int)
    ensures Count(log + [t], lo, hi) == Count(log, lo, hi) + if lo < t <= hi then 1 else 0
  {
    if log == [] {
      assert ([] + [t])[1..] == [];
    } else {
      CountAppend(log[1..], t, lo, hi);
      assert (log + [t])[1..] == log[1..] + [t];
    }
  }

  lemma StepWithinLimit(cfg: WindowConfig, r: WindowRun, l: LogRun, op: WindowOp, a: int)
    requires MatchesLog(cfg, r, l, op.at)
    requires Count(r.log, a, a + cfg.duration) <= Max(cfg.maxRequests, 0)
    ensures Count(Step(r, op).log, a, a + cfg.duration) <= Max(cfg.maxRequests, 0)
  {
    if op.Request? && Admits(r.w, op.at) {
      SweptIsRecentLog(r.w, r.log, op.at, op.at);
      CountAppend(r.log, op.at, a, a + cfg.duration);
      if a < op.at <= a + cfg.duration && r.log != [] {
        CountWidens(r.log[0], r.log, op.at, a, cfg.duration);
      }
    }
  }

  /** No interval (a, a + W] ever holds more than maxRequests admissions. */
  lemma {:induction false} NeverOverLimit(cfg: WindowConfig, ops: seq<WindowOp>, a: int)
    requires Nondecreasing(ops)
    ensures Count(Exec(cfg, ops).log, a, a + cfg.duration) <= Max(cfg.maxRequests, 0)
  {
    if ops != [] {
      var front, op := ops[..|ops| - 1], ops[|ops| - 1];
      FrontOrdered(ops);
      NeverOverLimit(cfg, front, a);
      ExecMatches(cfg, front, op.at);
      StepWithinLimit(cfg, Exec(cfg, front), LogExec(cfg, front), op, a);
    }
  }
}
