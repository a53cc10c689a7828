/** The schedule on values: a map from ids to times, and what one drain of the due ids does to it. */
module SchedulerSpec {
  import opened Wrappers

  const HOUR := 3600 * 1_000_000_000

  type Plan = map<string, int>

  /** A callback's answer for an id and the current time: when to fire again, if at all. */
  type OnDue = (string, int) -> Option<int>

  /** due lists every id whose time has come, each once, in order of time, and no other. */
  ghost predicate Drains(plan: Plan, now: int, due: seq<string>) {
    && (forall i :: 0 <= i < |due| ==> due[i] in plan && plan[due[i]] <= now)
    && (forall id :: id in plan && plan[id] <= now ==> id in due)
    && (forall i, j :: 0 <= i < j < |due| ==> due[i] != due[j] && plan[due[i]] <= plan[due[j]])
  }

  function Ids(due: seq<string>): set<string> {
    set id | id in due
  }

  function Without(plan: Plan, due: seq<string>): Plan {
    plan - Ids(due)
  }

  /** Part of a drain: due ids, each once, in order, none later than any id that is left. */
  ghost predicate Draining(plan: Plan, now: int, due: seq<string>) {
    && (forall i :: 0 <= i < |due| ==> due[i] in plan && plan[due[i]] <= now)
    && (forall i, j :: 0 <= i < j < |due| ==> due[i] != due[j] && plan[due[i]] <= plan[due[j]])
    && (forall i, id :: 0 <= i < |due| && id in Without(plan, due) ==> plan[due[i]] <= plan[id])
  }

  lemma DrainOne(plan: Plan, now: int, due: seq<string>, id: string)
    requires Draining(plan, now, due) && id in Without(plan, due) && plan[id] <= now
    requires forall k :: k in Without(plan, due) ==> plan[id] <= plan[k]
    ensures Draining(plan, now, due + [id])
    ensures Without(plan, due + [id]) == Without(plan, due) - {id}
  {
    assert forall k :: k in due + [id] <==> k in due || k == id;
  }

  lemma DrainEnds(plan: Plan, now: int, due: seq<string>)
    requires Draining(plan, now, due)
    requires forall k :: k in Without(plan, due) ==> plan[k] > now
    ensures Drains(plan, now, due)
  {
    assert forall k :: k in plan && k !in due ==> k in Without(plan, due);
  }

  function Answer(plan: Plan, id: string, next: Option<int>): Plan {
    if next.Some? then plan[id := next.value] else plan
  }

  /** The plan after each drained id has been answered in turn. */
  function Reschedule(plan: Plan, due: seq<string>, now: int, onDue: OnDue): Plan {
    if due == [] then plan
    else Answer(Reschedule(plan, due[..|due| - 1], now, onDue), due[|due| - 1], onDue(due[|due| - 1], now))
  }

  /** A pass leaves the entries not yet due as they were, and every due id either at the time its callback
      gave or gone, whatever order ties were drained in and even when a callback names a time already past. */
  lemma PassLeaves(plan: Plan, now: int, due: seq<string>, onDue: OnDue)
    requires Drains(plan, now, due)
    ensures Reschedule(Without(plan, due), due, now, onDue)
         == map id | id in plan && (plan[id] > now || onDue(id, now).Some?)
              :: if plan[id] > now then plan[id] else onDue(id, now).value
  {
    var kept := Without(plan, due);
    RescheduleOf(kept, due, now, onDue);
    assert forall id :: id in due ==> id in plan && plan[id] <= now;
  }

  lemma {:induction false} RescheduleOf(plan: Plan, due: seq<string>, now: int, onDue: OnDue)
    requires forall id :: id in due ==> id !in plan
    ensures forall id :: id in Reschedule(plan, due, now, onDue) <==> id in plan || (id in due && onDue(id, now).Some?)
    ensures forall id :: id in Reschedule(plan, due, now, onDue) ==>
      Reschedule(plan, due, now, onDue)[id] == (if id in plan then plan[id] else onDue(id, now).value)
  {
    if due != [] {
      var front, last := due[..|due| - 1], due[|due| - 1];
      assert due == front + [last];
      RescheduleOf(plan, front, now, onDue);
    }
  }
}
