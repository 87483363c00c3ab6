# Six-step commutation engine of the B-G431B-ESC1 firmware, in Dafny

The firmware drives a three-phase bridge with open-loop six-step commutation.
`PWM::new` builds a table of six duty triples `(u, v, w)` from the timer's
maximum duty. The high duty is `h = max_duty / 2` and the low duty is `l = 1`.
`PWM::set_step(step)` writes entry `step % 6` to the three complementary
output pairs. Each pair gets its duty and is then enabled when that duty is
nonzero and disabled (floated) when it is zero. This happens in the order u,
v, w. The TIM4 interrupt task `timer_tick` calls `set_step(frame)`,
increments `frame` and acknowledges the timer. The button task only clears
its own pending bits.

The model is pure and functional:

- `channel.dfy` (module `Channel`) models an output pair as a record
  `State(duty, enabled)` and the three pairs as a `Bridge`. It models the
  HAL calls `set_duty`, `enable` and `disable` as operations `Op`. `Run`
  executes a sequence of them.
- `pwm.dfy` (module `Pwm`) holds the table (`Build`) and an independent
  description of the six-step waveform: in step `k`, one phase is `Driven`
  at `h`, one is `Returning` at `l` and one is `Floating`. It also holds the
  calls `set_step` makes (`StepOps`) and `SetStep`.
- `app.dfy` (module `App`) holds the task-local resources (`Local`), the
  actions of the tasks as an `Event` trace, `Tick`, `Ticks` (n interrupts in
  a row) and `ButtonClick`.

Two facts about the code shape the model:

- `PWM::new` accepts any maximum duty, including 0. With a maximum of 0 or
  1, `h` is 0 and each step enables one pair only (`Pwm.ActivePairs`).
- The code builds one table shape, the two-phase high/low/zero one.

## Model

| member | source | states |
|---|---|---|
| Channel.Perform | src/pwm.rs:29-47 | `set_duty` changes only the duty of its own pair, and `enable`/`disable` change only the enable flag of their own pair; the other two pairs are untouched |
| Channel.RunFrames | src/pwm.rs:29-48 | a pair that none of the issued calls names keeps its state |
| Pwm.Build | src/pwm.rs:14-23 | the table has exactly 6 entries, each duty is 0, `l = 1` or `h = max_duty / 2`, and no duty exceeds `max_duty` when `max_duty >= 1` |
| Pwm.BuildIsSixStep | src/pwm.rs:16-23 | entry k of the table is the six-step waveform: `h` on the driven phase (v, v, w, w, u, u), `l` on the returning phase (w, u, u, v, v, w), 0 on the other |
| Pwm.RolesDistinct | src/pwm.rs:16-23 | in every step the driven, returning and floating phases are three different phases |
| Pwm.StepShape | src/pwm.rs:16-23 | every entry holds 0, `h` and `l` once each (as a multiset); when `max_duty >= 2`, a phase's duty is 0 exactly when it is the floating phase |
| Pwm.ActivePairs | src/pwm.rs:16-23 | when `max_duty >= 2`, every entry has exactly two nonzero phases (driven and returning); below 2, only the returning phase is nonzero |
| Pwm.HalfTurnSwaps | src/pwm.rs:17-22 | for k in 0..2, entry k+3 has its zero on the same phase as entry k, and the two nonzero duties swapped |
| Pwm.New | src/pwm.rs:13-25 | the driver keeps the pairs as given, its table is the one `Build` describes, and every table duty is at most `max_duty` when `max_duty >= 1` |
| Pwm.StepOps | src/pwm.rs:28-48 | `set_step` makes six calls, two per phase in the order u, v, w: a duty write carrying that phase's own duty, then `enable` exactly when that duty is > 0 and `disable` otherwise |
| Pwm.RunStepOps | src/pwm.rs:29-48 | after those calls each pair holds its entry's duty and is enabled iff the duty is > 0, whatever the pairs held before |
| Pwm.SetStep | src/pwm.rs:27-49 | `set_step` leaves the table unchanged; each pair's duty is its component of entry `step % 6`, and the pair is enabled iff that component is > 0 |
| Pwm.SetStepModular | src/pwm.rs:28 | `set_step(s)` and `set_step(s + 6k)` give identical results |
| Pwm.SetStepForgetsPast | src/pwm.rs:29-48 | two drivers with the same table end in the same state after `set_step(s)`, whatever their pairs held before |
| App.Init | src/main.rs:74-92 | the resources `init` hands over: `frame` is 0, the driver is `PWM::new` of the given pairs and maximum duty, and no interrupt is pending |
| App.Tick | src/main.rs:96-101 | a tick applies `set_step` with the old `frame`, increments `frame` by exactly 1, clears the timer flag, and leaves the button's pending bits alone |
| App.TickAcknowledgesLast | src/main.rs:98-100 | a tick's actions are six pair calls, then the increment, then the acknowledge; the acknowledge is the last action and the only one, so the timer flag is untouched until it; when it happens the step is fully applied and `frame` already advanced |
| App.TicksAdvance | src/main.rs:98-99 | after n ticks, `frame` has grown by n and the table is unchanged; for n >= 1, the pairs drive entry `(frame0 + n - 1) % 6` |
| App.RunFromReset | src/main.rs:89-99 | starting from `frame: 0`, after n ticks `frame == n`; for n >= 1, the last entry applied is `(n - 1) % 6` |
| App.SixTicksPeriodic | src/main.rs:96-101 | after at least one tick, six more ticks change nothing but `frame` (which grows by 6); the outputs have period 6 |
| App.FirstTickAtMaxDuty8499 | src/pwm.rs:14-17 | with `max_duty = 8499`, the first tick drives u = (0, disabled), v = (4249, enabled), w = (1, enabled) |
| App.WrapsToFirstEntry | src/pwm.rs:28 | a tick at a counter ≡ 5 applies entry 5, and the next tick applies entry 0 |
| App.ButtonClick | src/main.rs:103-108 | the button task clears its two pending bits and leaves `frame`, the driver and the timer flag unchanged |
| App.ButtonIndependent | src/main.rs:95-108 | a button click before n ticks gives the same state as one after them: the two tasks share no state |
| App.WrappingTick | src/main.rs:96-101 | in a build without overflow checks, `frame` becomes `(frame + 1) mod 2^32`, so it becomes 0 at 2^32 - 1. The tick still applies `set_step` with the old `frame`, clears the timer flag and keeps the button bits. Before the wrap it agrees with `Tick` |
| App.WrappingTicksAdvance | src/main.rs:98-99 | with the wrapping counter, after n ticks `frame == (frame0 + n) mod 2^32`, the table is unchanged and, for n >= 1, the pairs drive entry `((frame0 + n - 1) mod 2^32) mod 6` |
| App.WrapSkipsSteps | src/main.rs:98-99 | at `frame = 2^32 - 1` the tick applies entry 3; with the wrapping counter the next tick applies entry 0, where the unbounded counter applies entry 4 |

## Left out

- Peripheral bring-up in `init` (clocks, GPIO alternate functions, the TIM1 prescaler, period, dead time and center-aligned mode, and the 150 Hz TIM4 timer) is hardware configuration done through the HAL. The model takes its results as parameters: the initial state of the pairs and `max_duty`.
- The value `get_max_duty()` returns for the configured period is not modelled. `max_duty` is a natural-number parameter, and the range bound assumes it is at least 1.
- Duties are `u16` in the source. They are unbounded naturals here. No value can overflow, because every duty is 0, 1 or `max_duty / 2`.
- The HAL's register writes behind `set_duty`, `enable` and `disable` are not modelled. Only their effect on the duty and enable flag of one pair is.
- RTIC dispatch, interrupt priorities, preemption and `defmt` logging are not modelled. Ticks and clicks are sequential calls.
- The idle loop is not modelled: it has no logic.
- App.Init: the TIM4 update flag and the two button pending bits start clear. The source does not set them: they are hardware flags, and clearing them at reset is an assumption of the model.
- App.Tick: `frame` is an unbounded natural. It does not model the panic that a build with overflow checks raises at `*frame += 1` once `frame` reaches the maximum `usize`. The wrapping behaviour of a build without those checks is modelled separately, by `App.WrappingTick`.

## Findings

| source | as written | input that shows it | evidently intended | confidence | as-written member | corrected member |
|---|---|---|---|---|---|---|
| src/main.rs:99 | `frame: usize` is incremented with no bound. On the 32-bit target, a build without overflow checks wraps from 2^32 - 1 to 0. Because 2^32 ≡ 4 (mod 6), the step residue jumps from 3 to 0 and entries 4 and 5 are skipped once every 2^32 ticks (about 331 days at 150 Hz). A build with overflow checks panics and halts there instead. | `frame = 2^32 - 1`, followed by two ticks | every tick applies the entry after the previous one, `(i + 1) mod 6`, with no end | medium, not executed | App.WrappingTick, App.WrappingTicksAdvance, App.WrapSkipsSteps | App.Tick, App.TicksAdvance |
