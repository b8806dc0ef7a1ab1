/**
 * The heartbeat LED: a software PWM run by a periodic timer task. Each tick drives the pin
 * and advances a counter over a 500-tick period; at the end of every period the brightness
 * level moves by 3 towards the current direction, bouncing between 1 and 100.
 */
module Heartbeat {
  import opened Bits

  const HEARTRATE: int := 3
  const HEARTBEAT_PWM_TICKS: int := 500
  const HEARTBEAT_MIN_BRIGHTNESS: int := 1
  const HEARTBEAT_MAX_BRIGHTNESS: int := 100

  /** The static state of the PWM task: `heartbeat_counter`, `heartbeat_level`, `beat_direction`. */
  datatype Beat = Beat(counter: int, level: int, rising: bool)

  const Start := Beat(0, 0, false)

  predicate Inv(b: Beat)
  {
    0 <= b.counter < HEARTBEAT_PWM_TICKS && 0 <= b.level <= HEARTBEAT_MAX_BRIGHTNESS
  }

  /** The counter reaches the period length on this tick. */
  predicate Wraps(b: Beat)
  {
    b.counter + 1 >= HEARTBEAT_PWM_TICKS
  }

  /** The level would leave [1, 100] on this wrap and is clamped instead. */
  predicate Clamps(b: Beat)
  {
    if b.rising then b.level + HEARTRATE > HEARTBEAT_MAX_BRIGHTNESS
    else b.level - HEARTRATE < HEARTBEAT_MIN_BRIGHTNESS
  }

  /** The state change of one tick while the heartbeat is enabled. */
  function Step(b: Beat): (r: Beat)
    ensures Inv(b) ==> Inv(r)
    ensures r.counter == if Wraps(b) then 0 else b.counter + 1
    ensures !Wraps(b) ==> r.level == b.level && r.rising == b.rising
    ensures Wraps(b) && Inv(b) ==> HEARTBEAT_MIN_BRIGHTNESS <= r.level <= HEARTBEAT_MAX_BRIGHTNESS
    ensures r.rising != b.rising <==> Wraps(b) && Clamps(b)
    ensures Wraps(b) && Clamps(b) ==>
      r.level == if b.rising then HEARTBEAT_MAX_BRIGHTNESS else HEARTBEAT_MIN_BRIGHTNESS
    ensures Wraps(b) && !Clamps(b) ==>
      r.level == if b.rising then b.level + HEARTRATE else b.level - HEARTRATE
  {
    var counter := b.counter + 1;
    if counter < HEARTBEAT_PWM_TICKS then b.(counter := counter)
    else if b.rising then
      if b.level + HEARTRATE > HEARTBEAT_MAX_BRIGHTNESS then Beat(0, HEARTBEAT_MAX_BRIGHTNESS, false)
      else Beat(0, b.level + HEARTRATE, true)
    else
      if b.level - HEARTRATE < HEARTBEAT_MIN_BRIGHTNESS then Beat(0, HEARTBEAT_MIN_BRIGHTNESS, true)
      else Beat(0, b.level - HEARTRATE, false)
  }

  /** The level driven on the heartbeat pin by a tick from state b; low lights the LED. */
  function PinLevel(b: Beat): bool
  {
    b.counter > b.level
  }

  /** The state after k enabled ticks. */
  function Run(b: Beat, k: nat): Beat
    decreases k
  {
    if k == 0 then b else Step(Run(b, k - 1))
  }

  /**
   * From the initial state, after k enabled ticks the counter is k mod 500; the level stays
   * 0 during the first period and lies in [1, 100] from the first wrap on.
   */
  lemma {:induction false} RunFromStart(k: nat)
    ensures Inv(Run(Start, k))
    ensures Run(Start, k).counter == k % HEARTBEAT_PWM_TICKS
    ensures k < HEARTBEAT_PWM_TICKS ==> Run(Start, k).level == 0 && !Run(Start, k).rising
    ensures k >= HEARTBEAT_PWM_TICKS ==>
      HEARTBEAT_MIN_BRIGHTNESS <= Run(Start, k).level <= HEARTBEAT_MAX_BRIGHTNESS
  {
    if k > 0 {
      RunFromStart(k - 1);
      var b := Run(Start, k - 1);
      assert Run(Start, k) == Step(b);
      CounterAdvance(k);
    }
  }

  /** The period counter of tick k follows from that of tick k - 1. */
  lemma CounterAdvance(k: nat)
    requires k > 0
    ensures (k - 1) % HEARTBEAT_PWM_TICKS == HEARTBEAT_PWM_TICKS - 1 ==> k % HEARTBEAT_PWM_TICKS == 0
    ensures (k - 1) % HEARTBEAT_PWM_TICKS < HEARTBEAT_PWM_TICKS - 1 ==>
      k % HEARTBEAT_PWM_TICKS == (k - 1) % HEARTBEAT_PWM_TICKS + 1
  {
    var q, r := (k - 1) / HEARTBEAT_PWM_TICKS, (k - 1) % HEARTBEAT_PWM_TICKS;
    if r == HEARTBEAT_PWM_TICKS - 1 {
      ModUnique(k, HEARTBEAT_PWM_TICKS, q + 1, 0);
    } else {
      ModUnique(k, HEARTBEAT_PWM_TICKS, q, r + 1);
    }
  }

  /** `heartbeat_enabled` together with the static state of the PWM task. */
  class Heartbeat {
    var enabled: bool
    var counter: int
    var level: int
    var rising: bool
    /** Every level driven on HEARTBEAT_PIN. */
    ghost var pin: seq<bool>

    ghost function State(): Beat
      reads this
    {
      Beat(counter, level, rising)
    }

    ghost predicate Valid()
      reads this
    {
      Inv(State())
    }

    constructor ()
      ensures Valid() && !enabled && State() == Start && pin == []
    {
      enabled := false;
      counter, level, rising := 0, 0, false;
      pin := [];
    }

    /** `TIMER_0_task1_cb`: the one-shot task that turns the heartbeat on. */
    method EnableTask()
      requires Valid()
      modifies this
      ensures Valid() && enabled && State() == old(State()) && pin == old(pin)
    {
      enabled := true;
    }

    /** `TIMER_0_task2_cb`: one PWM tick; nothing happens while the heartbeat is disabled. */
    method Tick()
      requires Valid()
      modifies this
      ensures Valid() && enabled == old(enabled)
      ensures !old(enabled) ==> State() == old(State()) && pin == old(pin)
      ensures old(enabled) ==> State() == Step(old(State())) && pin == old(pin) + [PinLevel(old(State()))]
    {
      if enabled {
        pin := pin + [counter > level];
        counter := counter + 1;
        if counter >= HEARTBEAT_PWM_TICKS {
          counter := 0;
          if rising {
            level := level + HEARTRATE;
            if level > HEARTBEAT_MAX_BRIGHTNESS {
              rising := false;
              level := HEARTBEAT_MAX_BRIGHTNESS;
            }
          } else {
            level := level - HEARTRATE;
            if level < HEARTBEAT_MIN_BRIGHTNESS {
              rising := true;
              level := HEARTBEAT_MIN_BRIGHTNESS;
            }
          }
        }
      }
    }
  }
}
