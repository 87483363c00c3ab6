/**
 The application: the resources the interrupt tasks own, the timer task that
 advances the commutation once per TIM4 update, and the button task, which
 shares nothing with it. Every hardware call and counter update a task makes
 is an `Event`, so the order in which a task makes them can be stated.
 */
module App {
  import opened Channel
  import opened Pwm

  /**
   The task-local resources: the step counter `frame`, the `PWM` driver, the
   TIM4 update flag, and the two pending bits the button task clears (EXTI
   line 10 and the pin's own interrupt-pending bit).
   */
  datatype Local = Local(frame: nat, pwm: Driver, timerPending: bool, extiPending: bool, buttonPending: bool)

  /** What `init` hands to the tasks: `frame` starts at 0, no interrupt is pending yet. */
  function Init(bridge: Bridge, maxDuty: nat): (r: Local)
    ensures r.frame == 0
    ensures r.pwm == New(bridge, maxDuty) && r.pwm.steps == Build(maxDuty)
    ensures !r.timerPending && !r.extiPending && !r.buttonPending
  {
    Local(0, New(bridge, maxDuty), false, false, false)
  }

  /** One action of a task. */
  datatype Event =
    | Hal(op: Op)            // a call on an output pair, made by `set_step`
    | AdvanceFrame           // `*frame += 1`
    | ClearTimeout           // acknowledging the TIM4 update interrupt
    | UnpendExti             // clearing EXTI line 10
    | ClearButtonPending     // clearing the button pin's pending bit

  function Effect(s: Local, e: Event): (r: Local)
    ensures e != ClearTimeout ==> r.timerPending == s.timerPending
  {
    match e
    case Hal(op) => s.(pwm := s.pwm.(bridge := Perform(s.pwm.bridge, op)))
    case AdvanceFrame => s.(frame := s.frame + 1)
    case ClearTimeout => s.(timerPending := false)
    case UnpendExti => s.(extiPending := false)
    case ClearButtonPending => s.(buttonPending := false)
  }

  /** The actions `es`, made one after the other. */
  function Exec(s: Local, es: seq<Event>): Local
    decreases |es|
  {
    if |es| == 0 then s else Exec(Effect(s, es[0]), es[1..])
  }

  lemma {:induction false} ExecAppend(s: Local, xs: seq<Event>, ys: seq<Event>)
    ensures Exec(s, xs + ys) == Exec(Exec(s, xs), ys)
    decreases |xs|
  {
    if |xs| == 0 {
      assert xs + ys == ys;
    } else {
      assert (xs + ys)[1..] == xs[1..] + ys;
      ExecAppend(Effect(s, xs[0]), xs[1..], ys);
    }
  }

  /** As long as the timer is not acknowledged, its update flag stays as it was. */
  lemma {:induction false} ExecKeepsTimerPending(s: Local, es: seq<Event>)
    requires forall i :: 0 <= i < |es| ==> es[i] != ClearTimeout
    ensures Exec(s, es).timerPending == s.timerPending
    decreases |es|
  {
    if |es| > 0 {
      ExecKeepsTimerPending(Effect(s, es[0]), es[1..]);
    }
  }

  function Lift(ops: seq<Op>): (es: seq<Event>)
    ensures |es| == |ops|
    ensures forall i :: 0 <= i < |es| ==> es[i] == Hal(ops[i])
  {
    if |ops| == 0 then [] else [Hal(ops[0])] + Lift(ops[1..])
  }

  /** The output-pair calls of a task change the driver's pairs as `Run` does, and nothing else. */
  lemma {:induction false} ExecLift(s: Local, ops: seq<Op>)
    ensures Exec(s, Lift(ops)) == s.(pwm := s.pwm.(bridge := Run(s.pwm.bridge, ops)))
    decreases |ops|
  {
    if |ops| > 0 {
      var s' := Effect(s, Hal(ops[0]));
      assert Lift(ops)[1..] == Lift(ops[1..]);
      ExecLift(s', ops[1..]);
    }
  }

  /** The actions of `timer_tick`: `set_step(frame)`, then the increment, then the acknowledge. */
  function TickEvents(s: Local): seq<Event> {
    Lift(StepOps(s.pwm.steps[s.frame % StepCount])) + [AdvanceFrame, ClearTimeout]
  }

  /**
   `timer_tick`: applies the entry selected by the counter as it was before the
   call, advances the counter by exactly one, acknowledges the timer, and
   leaves the button's pending bits alone.
   */
  function Tick(s: Local): (r: Local)
    ensures r.frame == s.frame + 1
    ensures r.pwm == SetStep(s.pwm, s.frame)
    ensures r.pwm.bridge == Output(s.pwm.steps[s.frame % StepCount])
    ensures !r.timerPending
    ensures r.extiPending == s.extiPending && r.buttonPending == s.buttonPending
  {
    var ops := StepOps(s.pwm.steps[s.frame % StepCount]);
    ExecAppend(s, Lift(ops), [AdvanceFrame, ClearTimeout]);
    ExecLift(s, ops);
    RunStepOps(s.pwm.bridge, s.pwm.steps[s.frame % StepCount]);
    var applied := Exec(s, Lift(ops));
    assert Exec(applied, [AdvanceFrame, ClearTimeout]) == Exec(Effect(applied, AdvanceFrame), [ClearTimeout]);
    Exec(s, TickEvents(s))
  }

  /**
   The acknowledge is the last action of a tick and the only one: six output
   calls come first, then the counter increment. Until the acknowledge the
   update flag is untouched, and when it is made the step is fully applied and
   the counter already advanced.
   */
  lemma TickAcknowledgesLast(s: Local)
    ensures |TickEvents(s)| == 8
    ensures forall i :: 0 <= i < 6 ==> TickEvents(s)[i].Hal?
    ensures TickEvents(s)[6] == AdvanceFrame && TickEvents(s)[7] == ClearTimeout
    ensures forall i :: 0 <= i < 8 ==> Exec(s, TickEvents(s)[..i]).timerPending == s.timerPending
    ensures var before := Exec(s, TickEvents(s)[..7]);
      before.frame == Tick(s).frame && before.pwm == Tick(s).pwm
  {
    var es := TickEvents(s);
    forall i | 0 <= i < 8
      ensures Exec(s, es[..i]).timerPending == s.timerPending
    {
      ExecKeepsTimerPending(s, es[..i]);
    }
    assert es == es[..7] + [ClearTimeout];
    ExecAppend(s, es[..7], [ClearTimeout]);
  }

  /** `n` timer interrupts in a row. */
  function Ticks(s: Local, n: nat): Local {
    if n == 0 then s else Tick(Ticks(s, n - 1))
  }

  /**
   After `n` ticks the counter has advanced by `n`, the table is unchanged and,
   once at least one tick has run, the pairs drive the entry selected by the
   counter before the last tick.
   */
  lemma {:induction false} TicksAdvance(s: Local, n: nat)
    ensures Ticks(s, n).frame == s.frame + n
    ensures Ticks(s, n).pwm.steps == s.pwm.steps
    ensures 1 <= n ==> Ticks(s, n).pwm.bridge == Output(s.pwm.steps[(s.frame + n - 1) % StepCount])
    ensures 1 <= n ==> !Ticks(s, n).timerPending
    ensures Ticks(s, n).extiPending == s.extiPending && Ticks(s, n).buttonPending == s.buttonPending
  {
    if n > 0 {
      TicksAdvance(s, n - 1);
    }
  }

  /** From reset: after `n` ticks `frame` is `n` and the last entry applied is entry `(n - 1) mod 6`. */
  lemma RunFromReset(bridge: Bridge, maxDuty: nat, n: nat)
    ensures Ticks(Init(bridge, maxDuty), n).frame == n
    ensures 1 <= n ==> Ticks(Init(bridge, maxDuty), n).pwm.bridge == Output(Build(maxDuty)[(n - 1) % StepCount])
  {
    TicksAdvance(Init(bridge, maxDuty), n);
  }

  /** The outputs repeat with period six: six more ticks change nothing but the counter. */
  lemma SixTicksPeriodic(s: Local, n: nat)
    requires 1 <= n
    ensures Ticks(s, n + StepCount) == Ticks(s, n).(frame := Ticks(s, n).frame + StepCount)
  {
    var a, b := Ticks(s, n), Ticks(s, n + StepCount);
    TicksAdvance(s, n);
    TicksAdvance(s, n + StepCount);
    var i := s.frame + n - 1;
    assert (i + StepCount) % StepCount == i % StepCount;
    assert b.pwm.bridge == a.pwm.bridge;
    assert b.pwm == a.pwm;
  }

  /**
   The first tick after reset with a maximum duty of 8499: u floats, v is
   driven at 4249 and w at 1.
   */
  lemma FirstTickAtMaxDuty8499(bridge: Bridge)
    ensures Tick(Init(bridge, 8499)).pwm.bridge == Bridge(State(0, false), State(4249, true), State(1, true))
  {
  }

  /** A tick at counter 5 applies entry 5, and the next applies entry 0, not a seventh entry. */
  lemma WrapsToFirstEntry(s: Local)
    requires s.frame % StepCount == 5
    ensures Tick(s).pwm.bridge == Output(s.pwm.steps[5])
    ensures Tick(Tick(s)).pwm.bridge == Output(s.pwm.steps[0])
  {
    assert (s.frame + 1) % StepCount == 0;
  }

  /** `button_click`: clears the two pending bits and touches neither `frame` nor the driver nor the timer. */
  function ButtonClick(s: Local): (r: Local)
    ensures r.frame == s.frame && r.pwm == s.pwm && r.timerPending == s.timerPending
    ensures !r.extiPending && !r.buttonPending
  {
    Exec(s, [UnpendExti, ClearButtonPending])
  }

  /** The two tasks share no state: a click between ticks does not change what the ticks do. */
  lemma {:induction false} ButtonIndependent(s: Local, n: nat)
    ensures Ticks(ButtonClick(s), n) == ButtonClick(Ticks(s, n))
  {
    if n > 0 {
      ButtonIndependent(s, n - 1);
    }
  }

  /** The width of `usize` on the Cortex-M4 the firmware targets. */
  const UsizeModulus: nat := 0x1_0000_0000

  /** `timer_tick` built without overflow checks: `*frame += 1` wraps at the width of `usize`. */
  function WrappingTick(s: Local): (r: Local)
    requires s.frame < UsizeModulus
    ensures r.frame < UsizeModulus
    ensures r.frame == (s.frame + 1) % UsizeModulus
    ensures s.frame + 1 == UsizeModulus ==> r.frame == 0
    ensures r.pwm == SetStep(s.pwm, s.frame)
    ensures r.pwm.bridge == Output(s.pwm.steps[s.frame % StepCount])
    ensures !r.timerPending
    ensures r.extiPending == s.extiPending && r.buttonPending == s.buttonPending
    ensures s.frame + 1 < UsizeModulus ==> r == Tick(s)
  {
    Tick(s).(frame := (s.frame + 1) % UsizeModulus)
  }

  /** `n` timer interrupts in a row in a build without overflow checks. */
  function WrappingTicks(s: Local, n: nat): (r: Local)
    requires s.frame < UsizeModulus
    ensures r.frame < UsizeModulus
  {
    if n == 0 then s else WrappingTick(WrappingTicks(s, n - 1))
  }

  /**
   With the wrapping counter, after `n` ticks `frame` is `(frame0 + n) mod 2^32`
   and, once at least one tick has run, the pairs drive the entry selected by
   the wrapped counter before the last tick, `((frame0 + n - 1) mod 2^32) mod 6`.
   */
  lemma {:induction false} WrappingTicksAdvance(s: Local, n: nat)
    requires s.frame < UsizeModulus
    ensures WrappingTicks(s, n).frame == (s.frame + n) % UsizeModulus
    ensures WrappingTicks(s, n).pwm.steps == s.pwm.steps
    ensures 1 <= n ==> WrappingTicks(s, n).pwm.bridge
                       == Output(s.pwm.steps[((s.frame + n - 1) % UsizeModulus) % StepCount])
  {
    if n > 0 {
      WrappingTicksAdvance(s, n - 1);
      var a := s.frame + n - 1;
      var q := a / UsizeModulus;
      assert a == q * UsizeModulus + a % UsizeModulus;
      assert a + 1 == q * UsizeModulus + (a % UsizeModulus + 1);
    }
  }

  /**
   At the wrap the counter goes from residue 3 to residue 0, so the tick after
   entry 3 applies entry 0 instead of entry 4: entries 4 and 5 are skipped,
   while the unbounded counter of `Tick` applies entry 4.
   */
  lemma WrapSkipsSteps(s: Local, maxDuty: nat)
    requires s.frame == UsizeModulus - 1
    requires s.pwm.steps == Build(maxDuty)
    ensures Tick(s).pwm.bridge == Output(Build(maxDuty)[3])
    ensures WrappingTick(WrappingTick(s)).pwm.bridge == Output(Build(maxDuty)[0])
    ensures Tick(Tick(s)).pwm.bridge == Output(Build(maxDuty)[4])
    ensures WrappingTick(WrappingTick(s)).pwm.bridge != Tick(Tick(s)).pwm.bridge
  {
    assert s.frame % StepCount == 3;
    assert WrappingTick(s).frame == 0;
    assert (s.frame + 1) % StepCount == 4;
    assert Output(Build(maxDuty)[0]).w != Output(Build(maxDuty)[4]).w;
  }
}
