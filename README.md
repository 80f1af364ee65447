# MSP430 accelerometer die, modelled in Dafny

The firmware is an electronic die on an MSP430. An ADXL345 accelerometer on
the USI SPI port gives the orientation. Six LEDs on port 2 show the face that
points up. A 1 kHz timer interrupt fades the LEDs and drives them by software
PWM. A second, unfinished variant of the program reads the accelerometer
through the ADC instead.

The model has four modules:

- `Bits` (`bits.dfy`) holds the machine-level helpers. It defines 8-bit port
  and bus bytes, single-bit set and clear on them (`SetBit`), and the 16-bit
  two's-complement `int` of the MSP430 C compilers (`Wrap16`).
- `DiceMain` (`dice.dfy`) models main.c:
  - `readFace` is a pure classifier of one reading.
  - The class `Pwm` holds the global target table `pwm[6]`, the `pwm_fade`
    switch, the interrupt's statics (`_pwm[6]`, `fader`, `cycle`), the
    millisecond `timer` and the port register `P2OUT`. The methods `LedOn`,
    `LedOff` and `Tick` change that state with loops, as the C does.
  - `Tick` is proved against the pure step `TickSpec` and port function
    `TickPort`. Lemmas about `Ticks`, the n-fold step, give the long-run
    behaviour: the counters' periods, one slew step every 21 ticks, and
    convergence to the targets.
- `TooMemoryConsuming` (`topface.dfy`) models toomemoryconsuming.h:
  - `getTopFace` is modelled together with the `return` each input reaches,
    which shows that face 4 is never returned.
  - The ADC handler `accEvent` adds the offsets in place.
- `Adxl345` (`adxl345.dfy`) models adxl345.c:
  - the SPI command byte;
  - reads and writes framed by chip select;
  - the little-endian decoding of the three axes, less their offsets;
  - the offset table set by `ADXL345Init` and `ADXL345Calibrate`.

  The SPI bus is the class `Bus`:
  - `spiTransfer` is an abstract byte source, where the k-th transfer
    returns `miso[k]`;
  - every chip-select edge and every transfer is appended to a trace.

Integer widths follow the MSP430:

- `int` is 16 bits wide. The decoded axes and the offsets wrap as `Wrap16`
  states.
- `unsigned long timer` is 32 bits wide and wraps modulo 2^32.
- The `char` counters and brightness values stay in 0..20 in every reachable
  state, so their width never matters.

## Model

| member | source | states |
|---|---|---|
| Bits.SetBit | main.c:184-187 | `P2OUT \|= (1 << i)` or `P2OUT &= ~(1 << i)`: bit i becomes `on` and the other seven bits keep their value. |
| Bits.Wrap16 | adxl345.c:82-84 | The value a 16-bit `int` holds after a store: always in -32768..32767, and equal to the stored value when that value already fits. |
| DiceMain.Qualifies | main.c:37-62 | The six tests of `readFace` by index: test 2a is axis a above 200, test 2a+1 is axis a below -200. |
| DiceMain.ReadFace | main.c:32-67 | The result is in 0..6. A face below 6 passes its own test and every earlier test fails. 6 comes back exactly when no test passes. |
| DiceMain.ThresholdIsStrict | main.c:37-62 | A reading whose axes all lie in -200..200 selects no face: the threshold ACC_MAX - ACC_TRESH = 200 is strict on both sides. |
| DiceMain.EarlierTestsDecide | main.c:37-63 | Two readings on which every test up to the first one passed comes out the same select the same face, whatever the later tests give. |
| DiceMain.EarlierAxesDecide | main.c:37-63 | Two readings equal on the axes up to the one the deciding test reads select the same face, whatever the later axes hold. |
| DiceMain.EveryFaceReachable | main.c:37-66 | Every result 0..6 occurs for some reading. |
| DiceMain.Slew | main.c:176-177 | One fade step moves the level one unit toward the target, or leaves it when it is already equal. |
| DiceMain.NextLevels | main.c:172-182 | There are six new levels, each in 0..10. |
| DiceMain.NextLevelsCases | main.c:172-182 | The levels after one interrupt are as follows. With fading off, each level is copied from its target. With fading on and `fader` below 20, the levels are unchanged. With fading on and `fader` at 20, each level is slewed one unit. |
| DiceMain.ChannelLevel | main.c:174-181 | The new `_pwm[k]`: the target when fading is off; with fading on, one Slew step when `fader` has reached 20, else the old level. NextLevels and NextLevelsCases state its effect over all six channels. |
| DiceMain.Render | main.c:172-188 | The port after the channel loop has set or cleared bits n-1 down to 0, each from `level[k] > cycle`. RenderBits states its bits. |
| DiceMain.RenderBits | main.c:184-187 | After the channel loop has run over channels 0..n-1, bit k of the port for each such channel is set iff its level exceeds `cycle`. Bits n..7 keep their old value. |
| DiceMain.TickSpec | main.c:165-197 | One interrupt keeps the state invariant. The targets and the fade switch are unchanged, and the levels become NextLevels. |
| DiceMain.TickPort | main.c:172-188 | P2OUT after one interrupt: Render of the new levels against the old `cycle`. TickPortBits states its bits. |
| DiceMain.TickPortBits | main.c:184-187 | After one interrupt, bit k of P2OUT for k in 0..5 is set iff the new level of channel k exceeds the old `cycle`. Bits 6 and 7 are untouched. |
| DiceMain.ChannelsDone | main.c:172-188 | Levels and port bits that agree channel by channel with the loop's results are NextLevels and TickPort. |
| DiceMain.Ticks | main.c:165-197 | Any number of interrupts keeps the counters and levels within their ranges. |
| DiceMain.TicksFader | main.c:190-192 | After n interrupts, `fader` is (fader + n) mod 21. The targets and `pwm_fade` are unchanged. |
| DiceMain.TicksCounters | main.c:191-196 | After n interrupts, `cycle` is (cycle + n) mod 16 and `timer` is (timer + n) mod 2^32. |
| DiceMain.SlewN | main.c:174-178 | n successive fade steps toward a fixed target. SlewNApproaches states where they end. |
| DiceMain.SlewNApproaches | main.c:174-178 | n fade steps bring a level n units closer to its target, or onto it, without overshooting. |
| DiceMain.TicksFade | main.c:174-178 | With fading on, the level after n interrupts has taken one fade step for each time `fader` has reached 20, which is (fader + n) / 21 steps. |
| DiceMain.FadeStepN | main.c:174-178 | If a level has taken x / 21 fade steps while `fader` is x mod 21, then after one more interrupt it has taken (x + 1) / 21. |
| DiceMain.FadeConverges | main.c:174-178 | With fading on, every level equals its target after at most 21 * 10 + 20 interrupts. |
| DiceMain.Pwm.constructor | main.c:24-26 | The globals of main.c:24-26 and the interrupt's statics of main.c:167-169 (`fader`, `_pwm`, `cycle`) start at zero, and P2OUT at 0x00 as main.c:108 sets it. |
| DiceMain.Pwm.LedOn | main.c:72-78 | `pwm[led]` becomes 10 and every other entry 0. For `led` outside 0..5 all six become 0. The levels are untouched. |
| DiceMain.Pwm.LedOff | main.c:80-85 | All six `pwm` entries become 0. Nothing else changes. |
| DiceMain.Pwm.MainLoopBody | main.c:122-123 | `pwm_fade` is set and only the LED of ReadFace(reading) gets a target, of 10. With no face, all LEDs are off. |
| DiceMain.Pwm.Tick | main.c:165-197 | The new state is TickSpec of the old one and P2OUT is TickPort of the old state and port. The `timer` increases by one modulo 2^32. |
| DiceMain.Pwm.AdvanceCounters | main.c:190-196 | `fader` wraps to 0 after 20, `cycle` after 15, and `timer` increases by one modulo 2^32. The invariant is kept. |
| DiceMain.Pwm.UpdateChannels | main.c:172-188 | The channel loop leaves the levels at NextLevels and the port at TickPort. |
| DiceMain.Pwm.FadeChannel | main.c:174-181 | Channel i is faded or copied as NextLevels says. The other channels are untouched. |
| TooMemoryConsuming.TopFaceExit | toomemoryconsuming.h:68-77 | Each `return` is reached exactly when its own test holds and every earlier test has failed. The `return 4` at line 74 is never reached. |
| TooMemoryConsuming.GetTopFace | toomemoryconsuming.h:68-77 | The result is in 0..5 and never 4. Z below 80 always gives 0. Each face comes back iff its condition holds. For 5 the condition is X equal to 80, Y at most 80 and Z above 80. A final 0 needs X = Z = 80 and Y at most 80. |
| TooMemoryConsuming.ReachableFaces | toomemoryconsuming.h:70-76 | A face is returned for some sample exactly when it is one of 0, 1, 2, 3, 5. |
| TooMemoryConsuming.Accelerometer.constructor | toomemoryconsuming.h:55 | The global sample starts at zero. |
| TooMemoryConsuming.Accelerometer.AccEvent | toomemoryconsuming.h:154-157 | Each axis gains its ACC_OFF constant, as an `int16_t`. Since all three constants are 0, the sample is unchanged. |
| Adxl345.Command | adxl345.c:64-68 | The read bit 0x80 is always set. The register bits are the address's. The multi-byte bit 0x40 is set iff more than one byte is asked for, or if the address already had it. |
| Adxl345.CommandRoundTrip | adxl345.c:66-68 | For any register address below 0x40, the device sees a read of that register, multi-byte exactly when `num > 1`. |
| Adxl345.WriteTrace | adxl345.c:57-62 | The bus activity of a write from transfer number c: CS low, the address transfer, the data transfer, CS high. WriteIsFramed states what it sends. |
| Adxl345.ReadTrace | adxl345.c:64-77 | The bus activity of a read from transfer number c: CS low, the command transfer, `num` dummy transfers, CS high. ReadIsFramed states what it sends. |
| Adxl345.Received | adxl345.c:73-75 | The n bytes received from transfer `from` on are the device's bytes for those transfers, in order. |
| Adxl345.Dummies | adxl345.c:73-75 | The data phase of a read: n transfers of 0x00, each with the device's byte for its transfer number, as DummiesAt states. |
| Adxl345.DummiesAt | adxl345.c:73-75 | The data phase of a read is n transfers, each sending 0x00 and getting back the device's byte for its transfer number. |
| Adxl345.FrameOf | adxl345.c:58-61 | Transfers between CS low and CS high form a framed exchange that sends exactly their bytes. |
| Adxl345.ReadTransfers | adxl345.c:66-75 | A read makes 1 + num transfers: the command byte, then zero bytes. |
| Adxl345.WriteIsFramed | adxl345.c:57-62 | A write lowers CS, makes exactly two transfers, address then data, and raises CS. |
| Adxl345.ReadIsFramed | adxl345.c:64-77 | A read lowers CS, sends the command byte and then `num` zero bytes, and raises CS. |
| Adxl345.DecodeAxis | adxl345.c:82-84 | The register pair read as unsigned bytes, high byte second, stored in a 16-bit `int`. The result is a 16-bit value; DecodeEncode and EncodeDecode prove it inverts the device's encoding. |
| Adxl345.DecodeEncode | adxl345.c:82-84 | Decoding the register pair of any 16-bit value gives that value back. |
| Adxl345.DecodeIsPattern | adxl345.c:82-84 | The decoded value is the 16-bit pattern of the pair, less 2^16 when bit 15 is set. |
| Adxl345.PatternBytes | adxl345.c:82-84 | The low and high bytes of the pattern are the low and high register. |
| Adxl345.EncodeDecode | adxl345.c:82-84 | Every register pair is the encoding of the value it decodes to: the little-endian decoding is a bijection. |
| Adxl345.AxisReading | adxl345.c:82-84 | One axis: the decoded pair less its offset, wrapped to 16 bits. AxisUndo, AxisReread and AxisRecalibrated state what it gives back. |
| Adxl345.AccReading | adxl345.c:79-85 | Three axes, each a 16-bit value. |
| Adxl345.AccReadingUndo | adxl345.c:82-84 | Adding each offset back to its axis gives the decoding of its register pair, DATAX0/DATAX1 for X and so on. |
| Adxl345.CalibratedOffsets | adxl345.c:87-90 | The offsets `ADXL345Calibrate` leaves: the reading taken under the old offsets, with 256 taken off Z in 16-bit arithmetic. CalibrateThenRead states what a re-read then gives. |
| Adxl345.CalibrateThenRead | adxl345.c:87-90 | Reading the calibration sample again under the offsets that calibration leaves gives the old offsets, with 256 added on Z. |
| Adxl345.AxisUndo | adxl345.c:82-84 | Adding an axis' offset back to its reading, in 16-bit arithmetic, gives the decoded pair. |
| Adxl345.AxisRecalibrated | adxl345.c:82-89 | Reading an axis under the offset that its reading under `o`, less `g`, gives, yields `o + g` in 16-bit arithmetic. |
| Adxl345.AxisReread | adxl345.c:82-88 | A reading taken as the offset reads the old offset back. |
| Adxl345.DecodeAxisSignedChar | adxl345.c:82 | The value of the decode expression when plain `char` is signed. The low byte's sign fill is ORed into the high byte. |
| Adxl345.SignedCharDecode | adxl345.c:82-84 | With a signed `char`, the decode is right for a low byte below 0x80. Otherwise it yields the low byte alone, as a negative number. |
| Adxl345.SignedCharAgrees | adxl345.c:82-84 | The signed-`char` decode agrees with the unsigned one exactly when the low byte is below 0x80 or the high byte is 0xFF. |
| Adxl345.SignedCharCounterexample | adxl345.c:82 | The register pair (0x80, 0x00) holds +128. With a signed `char` it reads -128. |
| Adxl345.Bus.constructor | adxl345.c:22-27 | The bus starts with no transfers made and an empty trace. |
| Adxl345.Bus.Select | adxl345.c:58 | `P1OUT &= ~CS` appends a chip-select-low event. |
| Adxl345.Bus.Deselect | adxl345.c:61 | `P1OUT \|= CS` appends a chip-select-high event. |
| Adxl345.Bus.Exchange | adxl345.c:22-27 | `spiTransfer` returns the device's next byte and records the exchange. |
| Adxl345.Driver.constructor | adxl345.c:17 | The global offset table starts at zero. |
| Adxl345.Driver.Write | adxl345.c:57-62 | The bus records exactly the write trace: CS low, address, data, CS high. |
| Adxl345.Driver.Read | adxl345.c:64-77 | The bus records the read trace. `data[k]` receives the k-th byte clocked out after the command, for k < num. Entries at or beyond `num` are untouched. |
| Adxl345.Driver.Receive | adxl345.c:72-75 | `num` dummy transfers are made, and `data[k]` receives the k-th byte returned. Entries at or beyond `num` are untouched. |
| Adxl345.Driver.ReadAcc | adxl345.c:79-85 | Six bytes are read from DATAX0. `data[0..2]` become AccReading of those bytes under the old offsets, even when `data` is the offset table itself. |
| Adxl345.Driver.StoreAxes | adxl345.c:82-84 | `data[0..2]` become AccReading of the six bytes under the old offsets, each axis reading its offset before the store. |
| Adxl345.Driver.Init | adxl345.c:29-55 | 0 is written to DATA_FORMAT, then the offsets become (16, -1, -36). |
| Adxl345.Driver.Calibrate | adxl345.c:87-90 | The offsets become the reading taken under the old offsets, with 256 less on Z. The bus records one read of six bytes from DATAX0, and the transfer count grows by seven. |

## Left out

- Peripheral and clock set-up is not modelled: watchdog, clocks, port directions, timer and USI registers, and ADXL345 interrupt pins. This includes the two port writes of `ADXL345Init` that touch chip select before the bus is set up, `P1OUT &= ~(MASK)` (adxl345.c:31) and `P1OUT |= CS` (adxl345.c:34), so `Driver.Init`'s trace starts with the DATA_FORMAT write. It is register configuration with no behaviour of its own.
- `spiTransfer`'s busy-wait on the USI flag is not modelled. The bus is a byte source `miso` plus a trace, and the electrical SPI timing is outside the model.
- The infinite `while (1)` loops of both `main` functions, the low-power and interrupt intrinsics, and the call sequence of main.c:114-115 are left out. One pass of the loop body is `MainLoopBody`, and the interrupt is an atomic `Tick`. Interleavings of the interrupt with the main loop are concurrency and are not modelled.
- The `ADXL345Write(POWER_CTL, ...)` call in `main` is an instance of `Driver.Write`. Its effect on the device is not modelled.
- Commented-out code is not modelled: the OFF/ROLLING/FACE state machine in main.c, the PWM block and ADC trigger of `timerUpdate`, and `ledInit`'s empty loop. The statement `i += led[0].bit` has no observable effect and is not modelled either.
- The `led[]` port/bit table of toomemoryconsuming.h holds hardware addresses, not behaviour.
- adxl345.h is not part of this model beyond the two register addresses used, DATA_FORMAT (0x31) and DATAX0 (0x32).
- DiceMain.ReadFace takes the reading as a parameter. The call to `ADXL345ReadAcc` inside `readFace` is `Driver.ReadAcc`, and the two are not composed in one method.
- Adxl345.Driver.Read requires `num <= data.Length`. A call that overruns the buffer is undefined in C and is outside the model.
- Adxl345.AccReading and the driver use the unsigned reading of the bytes, `DecodeAxis`. The signed-`char` reading is modelled separately under Findings.

## Findings

| source | as written | input that shows it | evidently intended | confidence | as-written member | corrected member |
|---|---|---|---|---|---|---|
| adxl345.c:82-84 | `(read[1] << 8) \| read[0]` on a plain `char` buffer. When the compiler treats plain `char` as signed, a low byte of 0x80 or more is sign-extended, and the OR sets the whole high byte. | DATAX0 = 0x80, DATAX1 = 0x00 (X = +128) decodes to -128 | the little-endian 16-bit value of the register pair, bytes taken unsigned | not executed; depends on the signedness of plain `char` | Adxl345.SignedCharCounterexample | Adxl345.DecodeEncode |
