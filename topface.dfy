/** The second die variant of toomemoryconsuming.h: its face classifier
    `getTopFace` over the ADC sample `acc[3]`, and the ADC completion handler
    `accEvent` that adds the per-axis offsets to that sample in place. */
module TooMemoryConsuming {
  import opened Bits

  const ACC_TRESH := 80
  const ACC_OFFX := 0
  const ACC_OFFY := 0
  const ACC_OFFZ := 0
  const AX := 0
  const AY := 1
  const AZ := 2

  /** `int16_t acc[3]`. */
  type Sample = s: seq<int> | |s| == 3 witness [0, 0, 0]

  /** The seven `return` statements of `getTopFace`, named by the test
      that leads to each (toomemoryconsuming.h lines 70 to 76 in order):
      Z low, Y high, X high, X low, Y high a second time, Z high, and the
      final fall-through. */
  datatype Exit = ZLow | YHigh | XHigh | XLow | YHighAgain | ZHigh | FallThrough

  /** The `return` that `getTopFace` reaches on `acc`. Each exit is reached
      exactly when its own test holds and every earlier test failed; the
      second Y test (line 74) is never reached, because it repeats the
      first (line 71). */
  function TopFaceExit(acc: Sample): (e: Exit)
    ensures e == ZLow <==> acc[AZ] < ACC_TRESH
    ensures e == YHigh <==> acc[AZ] >= ACC_TRESH && acc[AY] > ACC_TRESH
    ensures e == XHigh <==>
      acc[AZ] >= ACC_TRESH && acc[AY] <= ACC_TRESH && acc[AX] > ACC_TRESH
    ensures e == XLow <==>
      acc[AZ] >= ACC_TRESH && acc[AY] <= ACC_TRESH && acc[AX] < ACC_TRESH
    ensures e != YHighAgain
    ensures e == ZHigh <==>
      acc[AX] == ACC_TRESH && acc[AY] <= ACC_TRESH && acc[AZ] > ACC_TRESH
    ensures e == FallThrough <==>
      acc[AX] == ACC_TRESH && acc[AY] <= ACC_TRESH && acc[AZ] == ACC_TRESH
  {
    if acc[AZ] < ACC_TRESH then ZLow
    else if acc[AY] > ACC_TRESH then YHigh
    else if acc[AX] > ACC_TRESH then XHigh
    else if acc[AX] < ACC_TRESH then XLow
    else if acc[AY] > ACC_TRESH then YHighAgain
    else if acc[AZ] > ACC_TRESH then ZHigh
    else FallThrough
  }

  /** The value each `return` gives back. */
  function ExitValue(e: Exit): nat {
    match e
    case ZLow => 0 case YHigh => 1 case XHigh => 2 case XLow => 3
    case YHighAgain => 4 case ZHigh => 5 case FallThrough => 0
  }

  /** `getTopFace`. */
  function GetTopFace(acc: Sample): (face: nat)
    ensures face <= 5 && face != 4
    ensures acc[AZ] < ACC_TRESH ==> face == 0
    ensures face == 0 <==>
      acc[AZ] < ACC_TRESH ||
      (acc[AX] == ACC_TRESH && acc[AY] <= ACC_TRESH && acc[AZ] == ACC_TRESH)
    ensures face == 1 <==> acc[AZ] >= ACC_TRESH && acc[AY] > ACC_TRESH
    ensures face == 2 <==>
      acc[AZ] >= ACC_TRESH && acc[AY] <= ACC_TRESH && acc[AX] > ACC_TRESH
    ensures face == 3 <==>
      acc[AZ] >= ACC_TRESH && acc[AY] <= ACC_TRESH && acc[AX] < ACC_TRESH
    ensures face == 5 <==>
      acc[AX] == ACC_TRESH && acc[AY] <= ACC_TRESH && acc[AZ] > ACC_TRESH
  {
    ExitValue(TopFaceExit(acc))
  }

  /** Exactly the values 0, 1, 2, 3 and 5 occur. */
  lemma ReachableFaces(f: nat)
    ensures (exists acc: Sample :: GetTopFace(acc) == f) <==> f in {0, 1, 2, 3, 5}
  {
    if f in {0, 1, 2, 3, 5} {
      var acc: Sample :=
        if f == 0 then [0, 0, 0] else if f == 1 then [0, 81, 80]
        else if f == 2 then [81, 0, 80] else if f == 3 then [0, 0, 80]
        else [80, 0, 81];
      assert GetTopFace(acc) == f;
    }
  }

  /** The offset-corrected sample store of the ADC handler. */
  class Accelerometer {
    const acc: array<int>

    ghost predicate Valid()
      reads this, acc
    {
      acc.Length == 3 && forall a :: 0 <= a < 3 ==> InInt16(acc[a])
    }

    constructor ()
      ensures Valid() && fresh(acc) && acc[..] == [0, 0, 0]
    {
      acc := new int[3](_ => 0);
      new;
      assert acc[..] == [0, 0, 0];
    }

    /** `accEvent`: each axis gains its ACC_OFF constant, stored back into
        an `int16_t`. All three constants are 0, so the sample is left as
        the ADC delivered it. */
    method AccEvent()
      requires Valid()
      modifies acc
      ensures Valid()
      ensures acc[AX] == Wrap16(old(acc[AX]) + ACC_OFFX)
      ensures acc[AY] == Wrap16(old(acc[AY]) + ACC_OFFY)
      ensures acc[AZ] == Wrap16(old(acc[AZ]) + ACC_OFFZ)
      ensures acc[..] == old(acc[..])
    {
      acc[AX] := Wrap16(acc[AX] + ACC_OFFX);
      acc[AY] := Wrap16(acc[AY] + ACC_OFFY);
      acc[AZ] := Wrap16(acc[AZ] + ACC_OFFZ);
    }
  }
}
