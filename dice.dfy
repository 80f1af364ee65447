/** The die program of main.c: face classification from one accelerometer
    reading, the LED target table written by `ledOn`/`ledOff`, and the
    1 kHz timer interrupt that fades, renders six software-PWM channels onto
    port 2 and counts milliseconds. */
module DiceMain {
  import opened Bits

  const ACC_MAX := 255          // accelerometer reading at 1 g
  const ACC_TRESH := 55         // margin below 1 g that still selects a face
  const PWM_FADE := 20          // the fader counter runs 0..PWM_FADE
  const CHANNELS := 6
  const LED_LEVEL := 10         // brightness `ledOn` gives the selected LED
  const PWM_PERIOD := 16        // `cycle` runs 0..PWM_PERIOD-1
  const TIMER_WRAP := 0x1_0000_0000  // `timer` is a 32-bit unsigned long
  const NO_FACE := 6

  /** `int acc[3]`: X, Y and Z after offset correction. */
  type Reading = s: seq<int> | |s| == 3 witness [0, 0, 0]

  /***** Face classification (readFace) *****/

  /** Test `k` of the classification chain: test 2a asks whether axis `a`
      is above the threshold, test 2a+1 whether it is below its negation. */
  predicate Qualifies(acc: Reading, k: nat)
    requires k < CHANNELS
  {
    var v := acc[k / 2];
    if k % 2 == 0 then v > ACC_MAX - ACC_TRESH else v < -(ACC_MAX - ACC_TRESH)
  }

  /** `readFace` on a reading passed in rather than fetched from the sensor.
      The result is the first test of the chain that passes, or NO_FACE. */
  function ReadFace(acc: Reading): (face: nat)
    ensures face <= NO_FACE
    ensures face < NO_FACE ==> Qualifies(acc, face)
    ensures forall k :: 0 <= k < face && k < CHANNELS ==> !Qualifies(acc, k)
    ensures face == NO_FACE <==> forall k :: 0 <= k < CHANNELS ==> !Qualifies(acc, k)
  {
    if acc[0] > ACC_MAX - ACC_TRESH then assert Qualifies(acc, 0); 0
    else if acc[0] < -(ACC_MAX - ACC_TRESH) then assert Qualifies(acc, 1); 1
    else if acc[1] > ACC_MAX - ACC_TRESH then assert Qualifies(acc, 2); 2
    else if acc[1] < -(ACC_MAX - ACC_TRESH) then assert Qualifies(acc, 3); 3
    else if acc[2] > ACC_MAX - ACC_TRESH then assert Qualifies(acc, 4); 4
    else if acc[2] < -(ACC_MAX - ACC_TRESH) then assert Qualifies(acc, 5); 5
    else 6
  }

  /** The threshold tests are strict: a reading whose every axis lies in
      [-200, 200], the bounds included, selects no face. */
  lemma ThresholdIsStrict(acc: Reading)
    requires forall a :: 0 <= a < 3 ==> -(ACC_MAX - ACC_TRESH) <= acc[a] <= ACC_MAX - ACC_TRESH
    ensures ReadFace(acc) == NO_FACE
  {
    forall k | 0 <= k < CHANNELS ensures !Qualifies(acc, k) {
      assert 0 <= k / 2 < 3;
    }
  }

  /** Once a test passes, the later tests are ignored: any reading on which
      the tests up to the deciding one come out the same gets the same
      face. */
  lemma EarlierTestsDecide(a: Reading, b: Reading)
    requires ReadFace(a) < NO_FACE
    requires forall k :: 0 <= k <= ReadFace(a) ==> Qualifies(a, k) == Qualifies(b, k)
    ensures ReadFace(b) == ReadFace(a)
  {
  }

  /** In particular the axes after the one the deciding test reads are
      ignored: any reading equal on axes 0..face/2 gets the same face. */
  lemma EarlierAxesDecide(a: Reading, b: Reading)
    requires ReadFace(a) < NO_FACE
    requires forall i :: 0 <= i <= ReadFace(a) / 2 ==> a[i] == b[i]
    ensures ReadFace(b) == ReadFace(a)
  {
    var f := ReadFace(a);
    forall k | 0 <= k <= f ensures Qualifies(b, k) == Qualifies(a, k) {
      assert b[k / 2] == a[k / 2];
    }
    EarlierTestsDecide(a, b);
  }

  /** Every one of the seven results occurs for some reading. */
  lemma EveryFaceReachable(f: nat)
    requires f <= NO_FACE
    ensures exists acc: Reading :: ReadFace(acc) == f
  {
    var v := ACC_MAX - ACC_TRESH + 1;
    var acc: Reading :=
      if f == 0 then [v, 0, 0] else if f == 1 then [-v, 0, 0]
      else if f == 2 then [0, v, 0] else if f == 3 then [0, -v, 0]
      else if f == 4 then [0, 0, v] else if f == 5 then [0, 0, -v]
      else [0, 0, 0];
    assert ReadFace(acc) == f;
  }

  /***** LED fader and software PWM (TIMER0_A0_ISR) *****/

  /** The state the timer interrupt reads and writes, apart from the port:
      the targets `pwm[6]`, the `pwm_fade` switch, the interrupt's statics
      (`_pwm[6]` as `level`, `fader`, `cycle`) and the millisecond `timer`. */
  datatype PwmState = PwmState(target: seq<int>, level: seq<int>, fade: bool,
                               fader: int, cycle: int, timer: int)

  /** The ranges the program keeps: six channels, brightness 0..LED_LEVEL,
      the counters within their periods, `timer` within 32 bits. */
  predicate Inv(s: PwmState) {
    |s.target| == CHANNELS && |s.level| == CHANNELS &&
    0 <= s.fader <= PWM_FADE && 0 <= s.cycle < PWM_PERIOD &&
    0 <= s.timer < TIMER_WRAP &&
    forall k :: 0 <= k < CHANNELS ==>
      0 <= s.target[k] <= LED_LEVEL && 0 <= s.level[k] <= LED_LEVEL
  }

  /** One fade step: `if (_pwm < pwm) _pwm++; if (_pwm > pwm) _pwm--;`.
      It moves the level exactly one unit toward the target, or keeps it. */
  function Slew(level: int, target: int): (r: int)
    ensures level < target ==> r == level + 1
    ensures level > target ==> r == level - 1
    ensures level == target ==> r == level
  {
    var up := if level < target then level + 1 else level;
    if up > target then up - 1 else up
  }

  /** The new `_pwm[k]` of one interrupt. */
  function ChannelLevel(s: PwmState, k: nat): int
    requires Inv(s) && k < CHANNELS
  {
    if s.fade then
      if s.fader >= PWM_FADE then Slew(s.level[k], s.target[k]) else s.level[k]
    else s.target[k]
  }

  /** The port after the channel loop has handled channels n-1 down to 0:
      each bit k < n is on exactly when `level[k] > cycle`; bits n..7 keep
      their value. */
  function Render(out: Byte, level: seq<int>, cycle: int, n: nat): Byte
    requires n <= CHANNELS && |level| == CHANNELS
    decreases n
  {
    if n == 0 then out
    else Render(SetBit(out, n - 1, level[n - 1] > cycle), level, cycle, n - 1)
  }

  lemma {:induction false} RenderBits(out: Byte, level: seq<int>, cycle: int, n: nat)
    requires n <= CHANNELS && |level| == CHANNELS
    ensures forall k :: 0 <= k < n ==> Bit(Render(out, level, cycle, n), k) == (level[k] > cycle)
    ensures forall k :: n <= k < 8 ==> Bit(Render(out, level, cycle, n), k) == Bit(out, k)
    decreases n
  {
    if n > 0 {
      RenderBits(SetBit(out, n - 1, level[n - 1] > cycle), level, cycle, n - 1);
    }
  }

  /** The six new `_pwm` values of one interrupt. */
  function NextLevels(s: PwmState): (r: seq<int>)
    requires Inv(s)
    ensures |r| == CHANNELS
    ensures forall k :: 0 <= k < CHANNELS ==> 0 <= r[k] <= LED_LEVEL
    ensures forall k :: 0 <= k < CHANNELS ==> r[k] == ChannelLevel(s, k)
  {
    seq(CHANNELS, k requires 0 <= k < CHANNELS => ChannelLevel(s, k))
  }

  /** The three cases of the channel loop: with fading off every level is
      copied from its target; with fading on the levels stay put until
      `fader` reaches PWM_FADE, and then each takes one step. */
  lemma NextLevelsCases(s: PwmState)
    requires Inv(s)
    ensures !s.fade ==> NextLevels(s) == s.target
    ensures s.fade && s.fader < PWM_FADE ==> NextLevels(s) == s.level
    ensures s.fade && s.fader == PWM_FADE ==>
      forall k :: 0 <= k < CHANNELS ==> NextLevels(s)[k] == Slew(s.level[k], s.target[k])
  {
    var r := NextLevels(s);
    if !s.fade {
      assert forall k :: 0 <= k < CHANNELS ==> r[k] == s.target[k];
    } else if s.fader < PWM_FADE {
      assert forall k :: 0 <= k < CHANNELS ==> r[k] == s.level[k];
    }
  }

  /** One run of the timer interrupt, less its effect on the port. */
  function TickSpec(s: PwmState): (r: PwmState)
    requires Inv(s)
    ensures Inv(r)
    ensures r.target == s.target && r.fade == s.fade
    ensures r.level == NextLevels(s)
  {
    var fader := if s.fader + 1 > PWM_FADE then 0 else s.fader + 1;
    var cycle := if s.cycle + 1 == PWM_PERIOD then 0 else s.cycle + 1;
    PwmState(s.target, NextLevels(s), s.fade, fader, cycle, (s.timer + 1) % TIMER_WRAP)
  }

  /** P2OUT after one run of the timer interrupt from `s` with the port at
      `out`: the channel loop's bit updates for the new levels. */
  function TickPort(s: PwmState, out: Byte): Byte
    requires Inv(s)
  {
    Render(out, NextLevels(s), s.cycle, |s.level|)
  }

  /** After one interrupt, bit k of the six LED channels is on exactly when
      the channel's new level exceeds the old `cycle`; bits 6 and 7 are left
      alone. */
  lemma TickPortBits(s: PwmState, out: Byte)
    requires Inv(s)
    ensures forall k :: 0 <= k < CHANNELS ==>
      Bit(TickPort(s, out), k) == (TickSpec(s).level[k] > s.cycle)
    ensures forall k :: CHANNELS <= k < 8 ==> Bit(TickPort(s, out), k) == Bit(out, k)
  {
    RenderBits(out, NextLevels(s), s.cycle, |s.level|);
  }

  /** Levels and port bits that match the channel loop's results channel by
      channel are TickSpec's levels and TickPort's port. */
  lemma ChannelsDone(s: PwmState, out: Byte, level: seq<int>, port: Byte)
    requires Inv(s) && |level| == CHANNELS
    requires forall k :: 0 <= k < CHANNELS ==> level[k] == ChannelLevel(s, k)
    requires forall k :: 0 <= k < 8 ==>
      Bit(port, k) == if k < CHANNELS then level[k] > s.cycle else Bit(out, k)
    ensures level == NextLevels(s) && port == TickPort(s, out)
  {
    assert level == NextLevels(s);
    TickPortBits(s, out);
    SameBits(port, TickPort(s, out));
  }

  /** The counters of one interrupt: `fader` wraps after 20, `cycle` after
      15, `timer` after 2^32 - 1. */
  lemma TickCounters(s: PwmState)
    requires Inv(s)
    ensures TickSpec(s).fader == (s.fader + 1) % (PWM_FADE + 1)
    ensures TickSpec(s).cycle == (s.cycle + 1) % PWM_PERIOD
    ensures TickSpec(s).timer == (s.timer + 1) % TIMER_WRAP
  {
  }

  /** `n` consecutive interrupts with no write to the targets in between. */
  function Ticks(s: PwmState, n: nat): (r: PwmState)
    requires Inv(s)
    ensures Inv(r)
  {
    if n == 0 then s else TickSpec(Ticks(s, n - 1))
  }

  /** `n` fade steps toward `target`. */
  function SlewN(level: int, target: int, n: nat): int {
    if n == 0 then level else Slew(SlewN(level, target, n - 1), target)
  }

  function Abs(x: int): nat { if x < 0 then -x else x }

  /** After `n` fade steps the level is `n` units closer to the target, or
      on it, and never on the far side of it. */
  lemma {:induction false} SlewNApproaches(level: int, target: int, n: nat)
    ensures Abs(SlewN(level, target, n) - target) ==
            if Abs(level - target) <= n then 0 else Abs(level - target) - n
    ensures level <= target ==> level <= SlewN(level, target, n) <= target
    ensures level >= target ==> target <= SlewN(level, target, n) <= level
  {
    if n > 0 {
      SlewNApproaches(level, target, n - 1);
    }
  }

  /** `fader` after `n` interrupts counts modulo 21; the targets and the
      fade switch stay. */
  lemma {:induction false} TicksFader(s: PwmState, n: nat)
    requires Inv(s)
    ensures Ticks(s, n).fader == (s.fader + n) % (PWM_FADE + 1)
    ensures Ticks(s, n).target == s.target && Ticks(s, n).fade == s.fade
  {
    if n > 0 {
      TicksFader(s, n - 1);
      TickCounters(Ticks(s, n - 1));
      DivSucc(s.fader + n - 1, PWM_FADE + 1);
    } else {
      DivModUnique(s.fader, PWM_FADE + 1, 0, s.fader);
    }
  }

  /** `cycle` after `n` interrupts counts modulo 16, `timer` modulo 2^32. */
  lemma {:induction false} TicksCounters(s: PwmState, n: nat)
    requires Inv(s)
    ensures Ticks(s, n).cycle == (s.cycle + n) % PWM_PERIOD
    ensures Ticks(s, n).timer == (s.timer + n) % TIMER_WRAP
  {
    if n > 0 {
      TicksCounters(s, n - 1);
      TickCounters(Ticks(s, n - 1));
      DivSucc(s.cycle + n - 1, PWM_PERIOD);
      DivSucc(s.timer + n - 1, TIMER_WRAP);
    } else {
      DivModUnique(s.cycle, PWM_PERIOD, 0, s.cycle);
      DivModUnique(s.timer, TIMER_WRAP, 0, s.timer);
    }
  }

  /** With fading on, each channel takes one fade step every 21 interrupts:
      after `n` interrupts it has taken (fader + n) / 21 of them. */
  lemma {:induction false} TicksFade(s: PwmState, n: nat, k: nat)
    requires Inv(s) && s.fade && k < CHANNELS
    ensures Ticks(s, n).level[k] ==
            SlewN(s.level[k], s.target[k], (s.fader + n) / (PWM_FADE + 1))
  {
    if n > 0 {
      TicksFade(s, n - 1, k);
      TicksFader(s, n - 1);
      FadeStepN(Ticks(s, n - 1), k, s.level[k], s.target[k], s.fader + n - 1);
    }
  }

  /** The inductive step of the above, for the state `p` reached after
      `x - fader` interrupts. */
  lemma FadeStepN(p: PwmState, k: nat, l: int, t: int, x: nat)
    requires Inv(p) && p.fade && k < CHANNELS
    requires p.level[k] == SlewN(l, t, x / (PWM_FADE + 1)) && p.target[k] == t
    requires p.fader == x % (PWM_FADE + 1)
    ensures TickSpec(p).level[k] == SlewN(l, t, (x + 1) / (PWM_FADE + 1))
  {
    FadeStep(p, k);
    DivSucc(x, PWM_FADE + 1);
    if p.fader == PWM_FADE {
      SlewNSucc(l, t, x / (PWM_FADE + 1));
    }
  }

  lemma SlewNSucc(level: int, target: int, n: nat)
    ensures SlewN(level, target, n + 1) == Slew(SlewN(level, target, n), target)
  {
  }

  /** One interrupt with fading on: a channel takes its fade step exactly
      when `fader` has reached PWM_FADE. */
  lemma FadeStep(p: PwmState, k: nat)
    requires Inv(p) && p.fade && k < CHANNELS
    ensures TickSpec(p).level[k] ==
            if p.fader == PWM_FADE then Slew(p.level[k], p.target[k]) else p.level[k]
  {
  }

  /** With fading on and the targets left alone, every displayed level has
      reached its target after 21 * LED_LEVEL + PWM_FADE interrupts. */
  lemma FadeConverges(s: PwmState, n: nat)
    requires Inv(s) && s.fade
    requires n >= (PWM_FADE + 1) * LED_LEVEL + PWM_FADE
    ensures Ticks(s, n).level == s.target
  {
    var r := Ticks(s, n);
    forall k | 0 <= k < CHANNELS ensures r.level[k] == s.target[k] {
      TicksFade(s, n, k);
      assert (s.fader + n) / (PWM_FADE + 1) >= LED_LEVEL;
      SlewNApproaches(s.level[k], s.target[k], (s.fader + n) / (PWM_FADE + 1));
    }
  }

  /** The PWM channels and the globals of main.c that feed them. */
  class Pwm {
    const pwm: array<int>      // `pwm[6]`: target brightness per LED
    const level: array<int>    // `_pwm[6]`: brightness currently shown
    var pwmFade: bool          // `pwm_fade != 0`
    var fader: int
    var cycle: int
    var timer: int
    var p2out: Byte            // the port register P2OUT

    /** Inv, stated on the arrays and fields themselves. */
    ghost predicate Valid()
      reads this`fader, this`cycle, this`timer, pwm, level
      ensures Valid() ==> Inv(State())
    {
      pwm.Length == CHANNELS && level.Length == CHANNELS && pwm != level &&
      0 <= fader <= PWM_FADE && 0 <= cycle < PWM_PERIOD && 0 <= timer < TIMER_WRAP &&
      (forall k :: 0 <= k < CHANNELS ==> 0 <= pwm[k] <= LED_LEVEL) &&
      (forall k :: 0 <= k < CHANNELS ==> 0 <= level[k] <= LED_LEVEL)
    }

    ghost function State(): PwmState
      reads this`pwmFade, this`fader, this`cycle, this`timer, pwm, level
    {
      PwmState(pwm[..], level[..], pwmFade, fader, cycle, timer)
    }

    /** Zero-initialised statics and globals, and `P2OUT = 0x00`. */
    constructor ()
      ensures Valid() && fresh(pwm) && fresh(level)
      ensures State() == PwmState([0, 0, 0, 0, 0, 0], [0, 0, 0, 0, 0, 0],
                                  false, 0, 0, 0)
      ensures p2out == 0
    {
      pwm := new int[CHANNELS](_ => 0);
      level := new int[CHANNELS](_ => 0);
      pwmFade, fader, cycle, timer, p2out := false, 0, 0, 0, 0;
      new;
      assert pwm[..] == [0, 0, 0, 0, 0, 0] && level[..] == [0, 0, 0, 0, 0, 0];
    }

    /** `ledOn`: the LED numbered `led` gets LED_LEVEL, every other 0; an
        `led` outside 0..5 (NO_FACE) leaves all six dark. */
    method LedOn(led: int)
      requires Valid()
      modifies pwm
      ensures Valid()
      ensures forall k :: 0 <= k < CHANNELS ==> pwm[k] == if k == led then LED_LEVEL else 0
      ensures !(0 <= led < CHANNELS) ==> forall k :: 0 <= k < CHANNELS ==> pwm[k] == 0
      ensures level[..] == old(level[..])
    {
      var i := CHANNELS;
      while i > 0
        invariant 0 <= i <= CHANNELS
        invariant forall k :: i <= k < CHANNELS ==> pwm[k] == if k == led then LED_LEVEL else 0
        invariant forall k :: 0 <= k < i ==> 0 <= pwm[k] <= LED_LEVEL
      {
        i := i - 1;
        if led == i {
          pwm[i] := LED_LEVEL;
        } else {
          pwm[i] := 0;
        }
      }
    }

    /** `ledOff`: all six targets become 0; nothing else changes. */
    method LedOff()
      requires Valid()
      modifies pwm
      ensures Valid()
      ensures forall k :: 0 <= k < CHANNELS ==> pwm[k] == 0
      ensures level[..] == old(level[..])
    {
      var i := CHANNELS;
      while i > 0
        invariant 0 <= i <= CHANNELS
        invariant forall k :: i <= k < CHANNELS ==> pwm[k] == 0
        invariant forall k :: 0 <= k < i ==> 0 <= pwm[k] <= LED_LEVEL
      {
        i := i - 1;
        pwm[i] := 0;
      }
    }

    /** One pass of main's loop body, `pwm_fade = 1; ledOn(readFace());`,
        with the reading passed in. */
    method MainLoopBody(acc: Reading)
      requires Valid()
      modifies this`pwmFade, pwm
      ensures Valid() && pwmFade
      ensures forall k :: 0 <= k < CHANNELS ==>
        (pwm[k] != 0 <==> k == ReadFace(acc)) && (pwm[k] != 0 ==> pwm[k] == LED_LEVEL)
      ensures level[..] == old(level[..])
    {
      pwmFade := true;
      var face := ReadFace(acc);
      LedOn(face);
    }

    /** The timer interrupt: fade or copy each channel, render it onto its
        port bit, then advance `fader`, `cycle` and `timer`. */
    method Tick()
      requires Valid()
      modifies this, level
      ensures Valid()
      ensures State() == TickSpec(old(State()))
      ensures p2out == TickPort(old(State()), old(p2out))
      ensures timer == (old(timer) + 1) % TIMER_WRAP
    {
      UpdateChannels();
      AdvanceCounters();
    }

    /** The counter updates at the end of the timer interrupt. */
    method AdvanceCounters()
      requires Valid()
      modifies this`fader, this`cycle, this`timer
      ensures Valid()
      ensures fader == if old(fader) + 1 > PWM_FADE then 0 else old(fader) + 1
      ensures cycle == if old(cycle) + 1 == PWM_PERIOD then 0 else old(cycle) + 1
      ensures timer == (old(timer) + 1) % TIMER_WRAP
    {
      fader := fader + 1;
      cycle := cycle + 1;
      if fader > PWM_FADE { fader := 0; }
      if cycle == PWM_PERIOD { cycle := 0; }
      timer := (timer + 1) % TIMER_WRAP;
    }

    /** The channel loop of the timer interrupt, channels 5 down to 0. */
    method UpdateChannels()
      requires Valid()
      modifies this`p2out, level
      ensures Valid()
      ensures level[..] == NextLevels(old(State()))
      ensures p2out == TickPort(old(State()), old(p2out))
    {
      ghost var s := State();
      ghost var out := p2out;
      var i := CHANNELS;
      while i > 0
        invariant 0 <= i <= CHANNELS && Valid()
        invariant forall k :: 0 <= k < CHANNELS ==>
          level[k] == if k < i then s.level[k] else ChannelLevel(s, k)
        invariant forall k :: 0 <= k < 8 ==>
          Bit(p2out, k) == if i <= k < CHANNELS then level[k] > s.cycle else Bit(out, k)
      {
        i := i - 1;
        FadeChannel(i);
        p2out := SetBit(p2out, i, level[i] > cycle);
      }
      ChannelsDone(s, out, level[..], p2out);
    }

    /** The fader part of the channel loop for channel `i`: a fade step on
        every 21st interrupt while fading, a plain copy of the target
        otherwise. */
    method FadeChannel(i: nat)
      requires Valid() && i < CHANNELS
      modifies level
      ensures Valid()
      ensures level[i] == ChannelLevel(old(State()), i)
      ensures forall k :: 0 <= k < CHANNELS && k != i ==> level[k] == old(level[k])
    {
      if pwmFade {
        if fader >= PWM_FADE {
          if level[i] < pwm[i] { level[i] := level[i] + 1; }
          if level[i] > pwm[i] { level[i] := level[i] - 1; }
        }
      } else {
        level[i] := pwm[i];
      }
    }
  }
}
