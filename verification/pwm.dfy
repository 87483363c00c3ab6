/**
 The `PWM` driver: the six-entry commutation table built from the timer's
 maximum duty, and `set_step`, which writes one entry of the table to the
 three output pairs and floats every pair whose duty is zero.
 */
module Pwm {
  import opened Channel

  /** One commutation step: the duties of phases u, v and w. */
  datatype Triple = Triple(u: nat, v: nat, w: nat) {
    function At(p: Phase): nat {
      match p
      case U => u
      case V => v
      case W => w
    }
  }

  /** Steps in one electrical revolution. */
  const StepCount: nat := 6

  /** The fixed-size array `[(u16, u16, u16); 6]`. */
  type Table = t: seq<Triple> | |t| == StepCount
    witness [Triple(0, 0, 0), Triple(0, 0, 0), Triple(0, 0, 0),
             Triple(0, 0, 0), Triple(0, 0, 0), Triple(0, 0, 0)]

  /** The high duty: half the maximum duty, rounded down. */
  function High(maxDuty: nat): nat {
    maxDuty / 2
  }

  /** The low duty. */
  const Low: nat := 1

  /**
   The table `PWM::new` builds. Every duty is one of 0, `Low` or `High`, and
   none exceeds the maximum duty as long as that maximum is at least 1.
   */
  function Build(maxDuty: nat): (t: Table)
    ensures forall k, p :: 0 <= k < |t| ==> t[k].At(p) in {0, Low, High(maxDuty)}
    ensures 1 <= maxDuty ==> forall k, p :: 0 <= k < |t| ==> t[k].At(p) <= maxDuty
  {
    var h, l := High(maxDuty), Low;
    [Triple(0, h, l),
     Triple(l, h, 0),
     Triple(l, 0, h),
     Triple(0, l, h),
     Triple(h, l, 0),
     Triple(h, 0, l)]
  }

  // An independent description of the six-step waveform: in step k one
  // phase is driven high, one returns the current at the low duty and the
  // third floats. Phases are numbered u = 0, v = 1, w = 2.

  ghost function PhaseOf(i: nat): Phase {
    if i % 3 == 0 then U else if i % 3 == 1 then V else W
  }

  /** The phase carrying the high duty in step `k`: v, v, w, w, u, u. */
  ghost function Driven(k: nat): Phase {
    PhaseOf(k / 2 + 1)
  }

  /** The phase carrying the low duty in step `k`: w, u, u, v, v, w. */
  ghost function Returning(k: nat): Phase {
    PhaseOf((k + 1) / 2 + 2)
  }

  /** The phase left at zero duty in step `k`: u, w, v, u, w, v. */
  ghost function Floating(k: nat): Phase {
    PhaseOf(2 * k)
  }

  /** The step the six-step waveform prescribes for step `k`. */
  ghost function SixStep(maxDuty: nat, k: nat): Triple {
    Triple(Level(maxDuty, k, U), Level(maxDuty, k, V), Level(maxDuty, k, W))
  }

  ghost function Level(maxDuty: nat, k: nat, p: Phase): nat {
    if p == Driven(k) then High(maxDuty) else if p == Returning(k) then Low else 0
  }

  /** In every step the driven, returning and floating phases are three different phases. */
  lemma RolesDistinct(k: nat)
    ensures Driven(k) != Returning(k)
    ensures Driven(k) != Floating(k)
    ensures Returning(k) != Floating(k)
  {
    var j := k % 6;
    assert k / 2 == 3 * (k / 6) + j / 2;
    assert (k + 1) / 2 == 3 * (k / 6) + (j + 1) / 2;
    assert 2 * k == 3 * (4 * (k / 6)) + 2 * j;
    assert j == 0 || j == 1 || j == 2 || j == 3 || j == 4 || j == 5;
  }

  /** The table `Build` produces is the six-step waveform, entry by entry. */
  lemma BuildIsSixStep(maxDuty: nat)
    ensures forall k :: 0 <= k < StepCount ==> Build(maxDuty)[k] == SixStep(maxDuty, k)
  {
  }

  /**
   Every step holds the duties 0, `High` and `Low` once each; with a maximum
   duty of at least 2 exactly one of them is zero, the floating phase's.
   */
  lemma StepShape(maxDuty: nat, k: nat)
    requires k < StepCount
    ensures var s := Build(maxDuty)[k]; multiset{s.u, s.v, s.w} == multiset{0, High(maxDuty), Low}
    ensures 2 <= maxDuty ==> forall p :: Build(maxDuty)[k].At(p) == 0 <==> p == Floating(k)
  {
    BuildIsSixStep(maxDuty);
    RolesDistinct(k);
  }

  /** The phases a step enables: those with a nonzero duty. */
  function Active(s: Triple): (ps: set<Phase>)
    ensures forall p :: p in ps <==> s.At(p) > 0
  {
    set p | p in {U, V, W} && s.At(p) > 0
  }

  /**
   With a maximum duty of at least 2 every step enables exactly two pairs,
   the driven and the returning one; below that the high duty is zero and
   only the returning pair is enabled.
   */
  lemma ActivePairs(maxDuty: nat, k: nat)
    requires k < StepCount
    ensures 2 <= maxDuty ==> Active(Build(maxDuty)[k]) == {Driven(k), Returning(k)}
    ensures 2 <= maxDuty ==> |Active(Build(maxDuty)[k])| == 2
    ensures maxDuty < 2 ==> Active(Build(maxDuty)[k]) == {Returning(k)}
  {
    BuildIsSixStep(maxDuty);
    RolesDistinct(k);
  }

  /**
   The second half of the revolution mirrors the first: step k + 3 floats the
   same phase as step k and swaps the duties of the two others.
   */
  lemma HalfTurnSwaps(maxDuty: nat, k: nat)
    requires k < 3
    ensures var s, s' := Build(maxDuty)[k], Build(maxDuty)[k + 3];
      && s'.At(Floating(k)) == 0 == s.At(Floating(k))
      && s'.At(Driven(k)) == s.At(Returning(k))
      && s'.At(Returning(k)) == s.At(Driven(k))
  {
    BuildIsSixStep(maxDuty);
    RolesDistinct(k);
    assert Floating(k + 3) == Floating(k);
    assert Driven(k + 3) == Returning(k);
    assert Returning(k + 3) == Driven(k);
  }

  /** The `PWM` struct: the three output pairs and the table. */
  datatype Driver = Driver(bridge: Bridge, steps: Table)

  /** `PWM::new`: takes the output pairs as they are and builds the table from the maximum duty. */
  function New(bridge: Bridge, maxDuty: nat): (d: Driver)
    ensures d.bridge == bridge
    ensures d.steps == Build(maxDuty)
    ensures 1 <= maxDuty ==> forall k, p :: 0 <= k < StepCount ==> d.steps[k].At(p) <= maxDuty
  {
    Driver(bridge, Build(maxDuty))
  }

  /** The calls for one phase: write its duty, then enable it if the duty is nonzero and disable it otherwise. */
  function PhaseOps(p: Phase, duty: nat): seq<Op> {
    [SetDuty(p, duty), if duty > 0 then Enable(p) else Disable(p)]
  }

  /**
   The calls `set_step` issues for step `s`: per phase, in the order u, v, w,
   a duty write carrying that phase's own duty followed by an enable exactly
   when that duty is nonzero and a disable otherwise.
   */
  function StepOps(s: Triple): (ops: seq<Op>)
    ensures |ops| == 2 * |Order|
    ensures forall i :: 0 <= i < |ops| ==> ops[i].phase == Order[i / 2]
    ensures forall i :: 0 <= i < |ops| && i % 2 == 0 ==> ops[i] == SetDuty(Order[i / 2], s.At(Order[i / 2]))
    ensures forall i :: 0 <= i < |ops| && i % 2 == 1 ==> !ops[i].SetDuty? && (ops[i].Enable? <==> s.At(Order[i / 2]) > 0)
  {
    PhaseOps(U, s.u) + PhaseOps(V, s.v) + PhaseOps(W, s.w)
  }

  /** The output a step drives: each pair at its duty, enabled exactly when that duty is nonzero. */
  function Output(s: Triple): Bridge {
    Bridge(State(s.u, s.u > 0), State(s.v, s.v > 0), State(s.w, s.w > 0))
  }

  lemma RunPhaseOps(b: Bridge, p: Phase, duty: nat)
    ensures Run(b, PhaseOps(p, duty)) == b.With(p, State(duty, duty > 0))
  {
    var ops := PhaseOps(p, duty);
    var b1 := Perform(b, ops[0]);
    var b2 := Perform(b1, ops[1]);
    assert ops[1..][1..] == [];
    assert Run(b, ops) == Run(b1, ops[1..]) == Run(b2, ops[1..][1..]) == b2;
    BridgeExt(b2, b.With(p, State(duty, duty > 0)));
  }

  /** Issuing the calls of a step leaves the bridge at that step's output, whatever it held before. */
  lemma {:induction false} RunStepOps(b: Bridge, s: Triple)
    ensures Run(b, StepOps(s)) == Output(s)
  {
    var b1 := Run(b, PhaseOps(U, s.u));
    var b2 := Run(b1, PhaseOps(V, s.v));
    RunAppend(b, PhaseOps(U, s.u), PhaseOps(V, s.v));
    RunAppend(b, PhaseOps(U, s.u) + PhaseOps(V, s.v), PhaseOps(W, s.w));
    RunPhaseOps(b, U, s.u);
    RunPhaseOps(b1, V, s.v);
    RunPhaseOps(b2, W, s.w);
  }

  /**
   `PWM::set_step`: selects entry `step mod 6`. Afterwards every pair holds
   that entry's duty for its own phase and is enabled exactly when the duty is
   nonzero, regardless of its previous state; the table is not modified.
   */
  function SetStep(d: Driver, step: nat): (r: Driver)
    ensures r.steps == d.steps
    ensures forall p :: r.bridge.At(p).duty == d.steps[step % StepCount].At(p)
    ensures forall p :: r.bridge.At(p).enabled <==> d.steps[step % StepCount].At(p) > 0
  {
    var s := d.steps[step % StepCount];
    RunStepOps(d.bridge, s);
    d.(bridge := Run(d.bridge, StepOps(s)))
  }

  /** Only the residue of the step number matters: steps s and s + 6k drive the same output. */
  lemma SetStepModular(d: Driver, step: nat, k: nat)
    ensures SetStep(d, step + StepCount * k) == SetStep(d, step)
  {
    assert (step + StepCount * k) % StepCount == step % StepCount;
  }

  /** The output of `set_step` does not depend on what the pairs held before. */
  lemma SetStepForgetsPast(d: Driver, e: Driver, step: nat)
    requires d.steps == e.steps
    ensures SetStep(d, step) == SetStep(e, step)
  {
    var r, r' := SetStep(d, step), SetStep(e, step);
    assert r.bridge.At(U) == r'.bridge.At(U);
    assert r.bridge.At(V) == r'.bridge.At(V);
    assert r.bridge.At(W) == r'.bridge.At(W);
  }
}
