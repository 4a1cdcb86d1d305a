// What a planned sequence of interface calls does to the driver's observable
// state: the bus log, the bus budget, and the display's power flag.
module Trace {
  import opened Command
  import opened Errors
  import opened Interface

  /** Observable state: bus log and budget, and the `is_display_on` flag. */
  datatype Snap = Snap(log: seq<Event>, budget: nat, on: bool)

  /** The power flag is assigned `on` once `at` calls have succeeded. */
  datatype Switch = Switch(at: nat, on: bool)

  /**
   * The calls an operation makes when none fails, where (if anywhere) it
   * assigns the power flag, and what it returns after the last call.
   */
  datatype Plan = Plan(events: seq<Event>, switch: Option<Switch>, stop: Outcome)
  {
    predicate WellFormed()
    {
      switch.Some? ==> switch.value.at <= |events|
    }

    /** Sequential composition with `?`: `next` runs only after success. */
    function Then(next: Plan): Plan
    {
      if stop.Failed? then this
      else
        Plan(events + next.events,
             if next.switch.Some? then Some(Switch(|events| + next.switch.value.at, next.switch.value.on))
             else switch,
             next.stop)
    }
  }

  /** No calls, success. */
  function Skip(): Plan { Plan([], None, Done) }

  /** No calls, fail with `e`: a validation error. */
  function Halt(e: Error): Plan { Plan([], None, Failed(e)) }

  /** No calls; the power flag becomes `on`. */
  function Assign(on: bool): Plan { Plan([], Some(Switch(0, on)), Done) }

  /** These calls in order, then success. */
  function Calls(es: seq<Event>): Plan { Plan(es, None, Done) }

  function Min(a: nat, b: nat): nat { if a < b then a else b }

  /**
   * Running plan `p` from `s`: the calls within the budget are logged, the
   * flag is assigned if its point was reached, and the result is the plan's
   * own outcome, or the interface error if some call failed.
   */
  function Run(p: Plan, s: Snap): (Snap, Outcome)
  {
    var n := Min(s.budget, |p.events|);
    var on := if p.switch.Some? && p.switch.value.at <= s.budget then p.switch.value.on else s.on;
    (Snap(s.log + p.events[..n], s.budget - n, on),
     if s.budget < |p.events| then Failed(Interface) else p.stop)
  }

  /** Plans without calls: `Skip` changes nothing, `Assign` only the flag, `Halt` only the result. */
  lemma RunNoCalls(s: Snap, on: bool, e: Error)
    ensures Run(Skip(), s) == (s, Done)
    ensures Run(Assign(on), s) == (s.(on := on), Done)
    ensures Run(Halt(e), s) == (s, Failed(e))
  {
    assert s.log + [] == s.log;
  }

  /** Two call blocks in a row are one block. */
  lemma CallsThen(a: seq<Event>, b: seq<Event>)
    ensures Calls(a).Then(Calls(b)) == Calls(a + b)
  {
  }

  /** A composition begins with the calls of its first part. */
  lemma ThenPrefix(p: Plan, q: Plan)
    ensures p.events <= p.Then(q).events
  {
  }

  lemma PrefixTrans(a: seq<Event>, b: seq<Event>, c: seq<Event>)
    requires a <= b && b <= c
    ensures a <= c
  {
    assert c[..|a|] == b[..|a|];
  }

  /** With enough budget a plan logs all its calls and returns its own outcome. */
  lemma RunComplete(p: Plan, s: Snap)
    requires p.WellFormed() && |p.events| <= s.budget
    ensures Run(p, s).0.log == s.log + p.events
    ensures Run(p, s).0.budget == s.budget - |p.events|
    ensures Run(p, s).0.on == if p.switch.Some? then p.switch.value.on else s.on
    ensures Run(p, s).1 == p.stop
  {
    assert p.events[..|p.events|] == p.events;
  }

  /** A failing call leaves a strict prefix of the calls in the log. */
  lemma RunInterrupted(p: Plan, s: Snap)
    requires s.budget < |p.events|
    ensures Run(p, s).1 == Failed(Interface)
    ensures Run(p, s).0.log == s.log + p.events[..s.budget]
    ensures Run(p, s).0.budget == 0
  {
  }

  /**
   * Running a composition is running the first part and, if it succeeded,
   * the second from where the first left off.
   */
  lemma RunThen(p: Plan, q: Plan, s: Snap)
    requires p.WellFormed() && q.WellFormed()
    requires p.switch.None? || q.switch.None?
    ensures p.Then(q).WellFormed()
    ensures Run(p.Then(q), s) == (var (m, o) := Run(p, s); if o.Done? then Run(q, m) else (m, o))
  {
    if p.stop.Done? {
      if s.budget >= |p.events| {
        RunThenComplete(p, q, s);
      } else {
        RunThenCut(p, q, s);
      }
    }
  }

  /** The first part completes: the second runs from where it left off. */
  lemma RunThenComplete(p: Plan, q: Plan, s: Snap)
    requires p.WellFormed() && q.WellFormed()
    requires p.switch.None? || q.switch.None?
    requires p.stop.Done? && |p.events| <= s.budget
    ensures Run(p.Then(q), s) == Run(q, Run(p, s).0)
  {
    var n := Min(s.budget, |p.events| + |q.events|);
    assert p.events[..|p.events|] == p.events;
    assert (p.events + q.events)[..n] == p.events + q.events[..n - |p.events|];
    var m := Run(p, s).0;
    assert m == Snap(s.log + p.events, s.budget - |p.events|,
                     if p.switch.Some? && p.switch.value.at <= s.budget then p.switch.value.on else s.on);
    assert n - |p.events| == Min(m.budget, |q.events|);
    assert Run(p.Then(q), s).0.log == Run(q, m).0.log;
    assert Run(p.Then(q), s).0.budget == Run(q, m).0.budget;
    assert Run(p.Then(q), s).0.on == Run(q, m).0.on;
  }

  /** A call of the first part fails: the second part sends nothing. */
  lemma RunThenCut(p: Plan, q: Plan, s: Snap)
    requires p.WellFormed() && q.WellFormed()
    requires p.switch.None? || q.switch.None?
    requires p.stop.Done? && s.budget < |p.events|
    ensures Run(p.Then(q), s) == Run(p, s)
  {
    var n := Min(s.budget, |p.events| + |q.events|);
    assert (p.events + q.events)[..n] == p.events[..n];
  }

  /**
   * One `?` step: from the state and outcome after `p`, running `q` only on
   * success gives the state and outcome after `p.Then(q)`.
   */
  lemma ThenStep(p: Plan, q: Plan, s0: Snap, m: Snap, o: Outcome, m2: Snap, o2: Outcome)
    requires p.WellFormed() && q.WellFormed()
    requires p.switch.None? || q.switch.None?
    requires (m, o) == Run(p, s0)
    requires o.Done? ==> (m2, o2) == Run(q, m)
    requires !o.Done? ==> (m2, o2) == (m, o)
    ensures (m2, o2) == Run(p.Then(q), s0)
  {
    RunThen(p, q, s0);
  }

  /** Composition is associative. */
  lemma ThenAssoc(p: Plan, q: Plan, r: Plan)
    ensures p.Then(q).Then(r) == p.Then(q.Then(r))
  {
    if p.stop.Done? && q.stop.Done? {
      assert p.events + q.events + r.events == p.events + (q.events + r.events);
    }
  }
}
