/**
 The three complementary PWM output pairs of the advanced timer, reduced to what
 the commutation engine can change: the duty last written to a pair and whether
 the pair's outputs are enabled. The HAL calls `set_duty`, `enable` and `disable`
 become the operations `Op`, and a sequence of them is executed by `Run`.
 */
module Channel {

  /** The three motor phases, one output pair each. */
  datatype Phase = U | V | W

  /** The order in which the driver writes the phases. */
  const Order: seq<Phase> := [U, V, W]

  /** What one output pair holds. */
  datatype State = State(duty: nat, enabled: bool)

  /** The three output pairs together. */
  datatype Bridge = Bridge(u: State, v: State, w: State) {

    function At(p: Phase): State {
      match p
      case U => u
      case V => v
      case W => w
    }

    /** This bridge with the pair of phase `p` replaced by `s`. */
    function With(p: Phase, s: State): (r: Bridge)
      ensures r.At(p) == s
      ensures forall q :: q != p ==> r.At(q) == At(q)
    {
      match p
      case U => this.(u := s)
      case V => this.(v := s)
      case W => this.(w := s)
    }
  }

  /** Two bridges are equal when every phase's pair is. */
  lemma BridgeExt(a: Bridge, b: Bridge)
    requires forall p :: a.At(p) == b.At(p)
    ensures a == b
  {
    assert a.At(U) == b.At(U) && a.At(V) == b.At(V) && a.At(W) == b.At(W);
  }

  /** One call into the HAL on one output pair. */
  datatype Op = SetDuty(phase: Phase, duty: nat) | Enable(phase: Phase) | Disable(phase: Phase)

  /** The effect of one HAL call: it touches its own pair and no other. */
  function Perform(b: Bridge, op: Op): (r: Bridge)
    ensures forall q :: q != op.phase ==> r.At(q) == b.At(q)
    ensures op.SetDuty? ==> r.At(op.phase) == State(op.duty, b.At(op.phase).enabled)
    ensures !op.SetDuty? ==> r.At(op.phase) == State(b.At(op.phase).duty, op.Enable?)
  {
    match op
    case SetDuty(p, d) => b.With(p, b.At(p).(duty := d))
    case Enable(p) => b.With(p, b.At(p).(enabled := true))
    case Disable(p) => b.With(p, b.At(p).(enabled := false))
  }

  /** The HAL calls `ops`, issued one after the other. */
  function Run(b: Bridge, ops: seq<Op>): Bridge
    decreases |ops|
  {
    if |ops| == 0 then b else Run(Perform(b, ops[0]), ops[1..])
  }

  /** Issuing `xs` and then `ys` is issuing their concatenation. */
  lemma {:induction false} RunAppend(b: Bridge, xs: seq<Op>, ys: seq<Op>)
    ensures Run(b, xs + ys) == Run(Run(b, xs), ys)
    decreases |xs|
  {
    if |xs| == 0 {
      assert xs + ys == ys;
    } else {
      assert (xs + ys)[1..] == xs[1..] + ys;
      RunAppend(Perform(b, xs[0]), xs[1..], ys);
    }
  }

  /** A pair that no call names keeps its state. */
  lemma {:induction false} RunFrames(b: Bridge, ops: seq<Op>, p: Phase)
    requires forall i :: 0 <= i < |ops| ==> ops[i].phase != p
    ensures Run(b, ops).At(p) == b.At(p)
    decreases |ops|
  {
    if |ops| > 0 {
      RunFrames(Perform(b, ops[0]), ops[1..], p);
    }
  }
}
