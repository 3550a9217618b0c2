/** The time controller of engine/src/time_control/time_controller.rs: it
    turns the active time mode and the clocks into a millisecond budget for
    the current move, and answers whether the search must stop. The wall
    clock is the explicit parameter `now` (milliseconds since the epoch), and
    the shared atomic `stop` flag is a plain field. */
module TimeControl {
  import opened Chess

  const U128_MODULUS: int := 0x1_0000_0000_0000_0000_0000_0000_0000_0000

  /** The values of a Rust `u128`. */
  type U128 = x: int | 0 <= x < U128_MODULUS

  /** The time modes the controller distinguishes: a fixed time per move, a
      share of the side to move's clock, no limit, and depth-only search. */
  datatype TimeMode = MoveTime | WOrBTime | Infinite | DepthOnly

  /** `TimeMode::is_finite`: the modes that carry a deadline. */
  predicate IsFinite(mode: TimeMode) {
    mode == MoveTime || mode == WOrBTime
  }

  /** The clock fields of the search parameters that `setup` reads. */
  datatype SearchParams = SearchParams(moveTime: U128, wTime: U128, bTime: U128)

  /** Rust's `as u128` on a signed integer: two's-complement wrap-around. */
  function AsU128(x: int): (r: U128)
    ensures 0 <= x < U128_MODULUS ==> r == x
    ensures -U128_MODULUS <= x < 0 ==> r == x + U128_MODULUS
    ensures (x - r) % U128_MODULUS == 0
  {
    x % U128_MODULUS
  }

  /** The budget `setup` computes: the fixed move time, or the side to move's
      clock divided by the configured divisor, or nothing for the other modes. */
  function PlayTime(mode: TimeMode, params: SearchParams, turn: Color, divisor: nat): (t: U128)
    requires mode == WOrBTime ==> divisor > 0
    ensures mode == MoveTime ==> t == params.moveTime
    ensures mode == WOrBTime ==> t * divisor <= (if turn == White then params.wTime else params.bTime)
    ensures mode == WOrBTime ==> (if turn == White then params.wTime else params.bTime) < (t + 1) * divisor
    ensures !IsFinite(mode) ==> t == 0
  {
    match mode
    case MoveTime => params.moveTime
    case WOrBTime =>
      if turn == White then params.wTime / divisor else params.bTime / divisor
    case _ => 0
  }

  class TimeController {
    var timeMode: TimeMode
    var playTime: U128
    var stop: bool
    var startTime: int

    /** `Default::default`: no deadline, no budget, not stopped, started now. */
    constructor Default(now: int)
      ensures timeMode == Infinite && playTime == 0 && !stop && startTime == now
    {
      timeMode := Infinite;
      playTime := 0;
      stop := false;
      startTime := now;
    }

    /** `start`: records the current time. */
    method Start(now: int)
      modifies this`startTime
      ensures startTime == now
      ensures forall t :: Elapsed(t) == t - now
    {
      startTime := now;
    }

    /** `setup`: computes the budget from the controller's own time mode (not
        from the parameters), then starts the clock. The mode and the stop flag
        are left alone. */
    method Setup(params: SearchParams, turn: Color, divisor: nat, now: int)
      requires timeMode == WOrBTime ==> divisor > 0
      modifies this`playTime, this`startTime
      ensures playTime == PlayTime(timeMode, params, turn, divisor)
      ensures startTime == now
      ensures forall t :: Elapsed(t) == t - now
    {
      playTime := PlayTime(timeMode, params, turn, divisor);
      Start(now);
    }

    /** `elapsed`: milliseconds since the clock was started. */
    function Elapsed(now: int): (e: int)
      reads this
      ensures startTime + e == now
    {
      now - startTime
    }

    /** `is_time_up`: a set stop flag wins; a mode without deadline never runs
        out; otherwise the budget is spent once the elapsed time, read as a
        `u128`, strictly exceeds it. */
    predicate IsTimeUp(now: int)
      reads this
      ensures stop ==> IsTimeUp(now)
      ensures !stop && !IsFinite(timeMode) ==> !IsTimeUp(now)
      ensures !stop && IsFinite(timeMode) && 0 <= Elapsed(now) < U128_MODULUS ==>
        (IsTimeUp(now) <==> Elapsed(now) > playTime)
      ensures !stop && IsFinite(timeMode) && -U128_MODULUS <= Elapsed(now) < 0 ==>
        (IsTimeUp(now) <==> Elapsed(now) + U128_MODULUS > playTime)
    {
      if stop then true
      else if !IsFinite(timeMode) then false
      else AsU128(Elapsed(now)) > playTime
    }
  }

  /** Once the budget is spent it stays spent while the clock moves forward. */
  lemma TimeUpIsStable(tc: TimeController, now: int, later: int)
    requires tc.startTime <= now <= later < tc.startTime + U128_MODULUS
    requires tc.IsTimeUp(now)
    ensures tc.IsTimeUp(later)
  {
  }

  /** Right after `setup` the budget is not yet spent: zero elapsed time never
      exceeds it. */
  lemma NotUpAtStart(tc: TimeController)
    requires !tc.stop
    ensures !tc.IsTimeUp(tc.startTime)
  {
  }

  /** Elapsing exactly the budget is not enough: the comparison is strict. */
  lemma ExactBudgetIsNotUp(tc: TimeController)
    requires !tc.stop && IsFinite(tc.timeMode)
    ensures !tc.IsTimeUp(tc.startTime + tc.playTime)
    ensures tc.IsTimeUp(tc.startTime + tc.playTime + 1) <==> tc.playTime + 1 < U128_MODULUS
  {
  }

  /** A controller in its default state (no deadline, not stopped) is never
      out of time, whatever the clock says. */
  lemma DefaultNeverTimeUp(tc: TimeController, now: int)
    requires tc.timeMode == Infinite && tc.playTime == 0 && !tc.stop
    ensures !tc.IsTimeUp(now)
  {
  }

  /** When the wall clock steps back past the start, the negative elapsed time
      wraps to a huge `u128` and a finite-mode search is reported out of time. */
  lemma ClockStepBackIsTimeUp(tc: TimeController, now: int)
    requires !tc.stop && IsFinite(tc.timeMode)
    requires tc.startTime - 0x8000_0000_0000_0000 <= now < tc.startTime
    requires tc.playTime < U128_MODULUS - 0x8000_0000_0000_0000
    ensures tc.IsTimeUp(now)
  {
  }

  /** A positive multiple of a natural number is at least that number. */
  lemma MultipleAtLeast(t: nat, d: nat)
    requires d > 0
    ensures t <= t * d
  {
  }

  /** With a share of the clock, the budget never exceeds the side to move's
      remaining time, and a divisor of 1 spends all of it. */
  lemma PlayTimeWithinClock(params: SearchParams, turn: Color, divisor: nat)
    requires divisor > 0
    ensures PlayTime(WOrBTime, params, turn, divisor) <= (if turn == White then params.wTime else params.bTime)
    ensures divisor == 1 ==> PlayTime(WOrBTime, params, turn, divisor) == (if turn == White then params.wTime else params.bTime)
  {
    var t := PlayTime(WOrBTime, params, turn, divisor);
    var clock := if turn == White then params.wTime else params.bTime;
    assert t * divisor <= clock;
    MultipleAtLeast(t, divisor);
    if divisor == 1 {
      assert clock < t + 1;
    }
  }
}
