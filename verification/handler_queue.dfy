/**
 * The service's main-thread handler as a queue of posted runnables: `removeCallbacks`
 * drops every queued instance of a runnable, `postDelayed` appends one more. Applying a
 * callback's effects to the queue shows which timers are armed afterwards.
 */
module HandlerQueue {
  import opened Optional
  import opened Session
  import opened Engine

  datatype Posted = Posted(task: Task, delay: Delay)

  type Queue = seq<Posted>

  /** The number of queued instances of `t`. */
  function Count(q: Queue, t: Task): nat {
    if |q| == 0 then 0
    else (if q[|q| - 1].task == t then 1 else 0) + Count(q[..|q| - 1], t)
  }

  /** `removeCallbacks(t)`: every instance of `t` goes, everything else stays in order. */
  function Remove(q: Queue, t: Task): (r: Queue)
    ensures forall x :: x in r <==> x in q && x.task != t
    ensures Count(r, t) == 0
    ensures forall u :: u != t ==> Count(r, u) == Count(q, u)
  {
    if |q| == 0 then []
    else
      var rest := Remove(q[..|q| - 1], t);
      assert forall x :: x in q <==> x in q[..|q| - 1] || x == q[|q| - 1];
      if q[|q| - 1].task == t then rest
      else
        assert (rest + [q[|q| - 1]])[..|rest|] == rest;
        rest + [q[|q| - 1]]
  }

  /** The queue after the handler-side effects of a callback; dialog effects leave it alone. */
  function Apply(q: Queue, effects: seq<Effect>): Queue
    decreases |effects|
  {
    if |effects| == 0 then q
    else
      var q' := match effects[0]
        case Cancel(t) => Remove(q, t)
        case Post(t, d) => q + [Posted(t, d)]
        case _ => q;
      Apply(q', effects[1..])
  }

  lemma CountAppend(q: Queue, x: Posted, t: Task)
    ensures Count(q + [x], t) == Count(q, t) + (if x.task == t then 1 else 0)
  {
    assert (q + [x])[..|q|] == q;
  }

  /** Effects apply one after another. */
  lemma {:induction false} ApplyAppend(q: Queue, a: seq<Effect>, b: seq<Effect>)
    ensures Apply(q, a + b) == Apply(Apply(q, a), b)
    decreases |a|
  {
    if |a| > 0 {
      assert (a + b)[0] == a[0];
      assert (a + b)[1..] == a[1..] + b;
      var q' := match a[0]
        case Cancel(t) => Remove(q, t)
        case Post(t, d) => q + [Posted(t, d)]
        case _ => q;
      ApplyAppend(q', a[1..], b);
    } else {
      assert a + b == b;
    }
  }

  /**
   * Effects that neither cancel nor post `t` leave its queued instances alone.
   */
  lemma {:induction false} ApplyOther(q: Queue, effects: seq<Effect>, t: Task)
    requires forall e :: e in effects ==> !Schedules(e, t)
    ensures Count(Apply(q, effects), t) == Count(q, t)
    decreases |effects|
  {
    if |effects| > 0 {
      assert effects[0] in effects;
      assert forall e :: e in effects[1..] ==> e in effects;
      match effects[0]
      case Cancel(u) =>
        ApplyOther(Remove(q, u), effects[1..], t);
      case Post(u, d) =>
        CountAppend(q, Posted(u, d), t);
        ApplyOther(q + [Posted(u, d)], effects[1..], t);
      case _ =>
        ApplyOther(q, effects[1..], t);
    }
  }

  /** Cancelling and re-posting `t` leaves exactly one instance of it. */
  lemma RepostLeavesOne(q: Queue, t: Task, d: Delay, u: Task)
    ensures Count(Apply(q, [Cancel(t), Post(t, d)]), t) == 1
    ensures u != t ==> Count(Apply(q, [Cancel(t), Post(t, d)]), u) == Count(q, u)
  {
    var q1 := Remove(q, t);
    assert Apply(q, [Cancel(t), Post(t, d)]) == Apply(q1, [Post(t, d)]);
    assert Apply(q1, [Post(t, d)]) == Apply(q1 + [Posted(t, d)], []);
    CountAppend(q1, Posted(t, d), t);
    CountAppend(q1, Posted(t, d), u);
  }

  /**
   * A window event while a session runs supersedes every queued step evaluation: exactly
   * one remains; the first event of a session also arms exactly one dead-man timer.
   */
  lemma EventSupersedesSteps(q: Queue, pf: Platform, p: Prefs, ev: Option<Event>)
    ensures var r := OnEvent(pf, p, ev);
      r.effects != [] ==> Count(Apply(q, r.effects), StepTask) == 1
    ensures var r := OnEvent(pf, p, ev);
      r.effects != [] && p.state == Idle ==> Count(Apply(q, r.effects), TimeoutTask) == 1
    ensures var r := OnEvent(pf, p, ev);
      r.effects == [] ==> Apply(q, r.effects) == q
  {
    var r := OnEvent(pf, p, ev);
    var a := [Cancel(TimeoutTask), Post(TimeoutTask, TimeoutDelay)];
    if r.effects == [Cancel(StepTask), Post(StepTask, Immediately)] {
      RepostLeavesOne(q, StepTask, Immediately, TimeoutTask);
    } else if r.effects == a + [Cancel(StepTask), Post(StepTask, InitialDelay)] {
      ApplyAppend(q, a, [Cancel(StepTask), Post(StepTask, InitialDelay)]);
      RepostLeavesOne(q, TimeoutTask, TimeoutDelay, StepTask);
      RepostLeavesOne(Apply(q, a), StepTask, InitialDelay, TimeoutTask);
    }
  }

  /**
   * A step evaluation posts without cancelling, so evaluations stack up: one more step
   * per scheduled continuation.
   */
  lemma ScheduledStepsStack(q: Queue)
    ensures Count(Apply(q, [Post(StepTask, StepDelay)]), StepTask) == Count(q, StepTask) + 1
  {
    CountAppend(q, Posted(StepTask, StepDelay), StepTask);
    assert Apply(q, [Post(StepTask, StepDelay)]) == Apply(q + [Posted(StepTask, StepDelay)], []);
  }

  /** Connecting queues exactly one restart check and leaves every other runnable alone. */
  lemma ConnectPostsRecovery(q: Queue)
    ensures Count(Apply(q, OnServiceConnected()), RecoveryTask) == Count(q, RecoveryTask) + 1
    ensures forall t :: t != RecoveryTask ==> Count(Apply(q, OnServiceConnected()), t) == Count(q, t)
  {
    var e := OnServiceConnected()[0];
    assert e in OnServiceConnected();
    assert OnServiceConnected() == [e];
    assert Apply(q, [e]) == Apply(q + [Posted(RecoveryTask, e.delay)], []);
    forall t
      ensures Count(Apply(q, [e]), t) == Count(q, t) + (if t == RecoveryTask then 1 else 0)
    {
      CountAppend(q, Posted(RecoveryTask, e.delay), t);
    }
  }

  /** A step evaluation leaves the dead-man timer exactly as it found it. */
  lemma StepLeavesTimeout(q: Queue, pf: Platform, p: Prefs)
    ensures Count(Apply(q, ProcessNextStep(pf, p).effects), TimeoutTask) == Count(q, TimeoutTask)
  {
    ApplyOther(q, ProcessNextStep(pf, p).effects, TimeoutTask);
  }

  /** Whichever timer ends the session first takes the other out of the queue. */
  lemma TimersCancelEachOther(q: Queue, p: Prefs)
    ensures Count(Apply(q, CloseFires(p).effects), TimeoutTask) == 0
    ensures Count(Apply(q, TimeoutFires(p).effects), CloseTask) == 0
  {
    var q1 := Remove(q, TimeoutTask);
    assert Apply(q, CloseFires(p).effects) == Apply(q1, [Back]);
    assert Apply(q1, [Back]) == Apply(q1, []);
    assert Apply(q, TimeoutFires(p).effects) == Apply(Remove(q, CloseTask), []);
  }

  /** The restart check never arms the dead-man timer. */
  lemma RecoveryLeavesTimeout(q: Queue, pf: Platform, p: Prefs)
    ensures Count(Apply(q, RecoveryFires(pf, p).effects), TimeoutTask) == Count(q, TimeoutTask)
  {
    ApplyOther(q, RecoveryFires(pf, p).effects, TimeoutTask);
  }
}
