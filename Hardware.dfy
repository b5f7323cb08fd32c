/**
 * An in-memory register bank standing in for the memory-mapped peripherals
 * that the keypad and LCD drivers touch, plus a ghost trace of what reached
 * the outside world: bytes latched into the LCD and requested delays.
 */
module Hardware {

  /** A C `char` on this target: plain `char` is unsigned under the ARM
      procedure call standard, so every value lies in 0..255. */
  type Char8 = c: char | c as int < 256

  /** One observable effect of the drivers. */
  datatype Event =
    | Instr(code: int)      // an instruction byte latched by the LCD (RS low on the falling edge of E)
    | Data(ch: Char8)       // a character latched by the LCD (RS high on the falling edge of E)
    | WaitUs(us: nat)       // delay_us(us)
    | WaitMs(ms: nat)       // delay_ms(ms)

  /**
   * The registers used by both drivers. Each field holds the last value
   * written; clock gating, the NVIC and the write-one-to-clear behaviour of
   * EXTI PR are not modelled. GPIOC is shared: the keypad uses pins 0..7,
   * the LCD control lines RS, RW and E are pins 8, 9 and 10.
   */
  class Registers {
    var rccAHB1ENR: bv32
    var rccAPB2ENR: bv32
    var gpioaMODER: bv32
    var gpioaODR: bv32
    var gpiocMODER: bv32
    var gpiocPUPDR: bv32
    var gpiocODR: bv32
    var syscfgEXTICR1: bv32
    var extiIMR: bv32
    var extiRTSR: bv32
    var extiPR: bv32
    var nvicISER0: bv32
    ghost var trace: seq<Event>

    /** A bank whose registers all read zero, with nothing yet observed. */
    constructor ()
      ensures rccAHB1ENR == 0 && rccAPB2ENR == 0
      ensures gpioaMODER == 0 && gpioaODR == 0
      ensures gpiocMODER == 0 && gpiocPUPDR == 0 && gpiocODR == 0
      ensures syscfgEXTICR1 == 0 && extiIMR == 0 && extiRTSR == 0 && extiPR == 0
      ensures nvicISER0 == 0
      ensures trace == []
    {
      rccAHB1ENR, rccAPB2ENR := 0, 0;
      gpioaMODER, gpioaODR := 0, 0;
      gpiocMODER, gpiocPUPDR, gpiocODR := 0, 0, 0;
      syscfgEXTICR1, extiIMR, extiRTSR, extiPR := 0, 0, 0, 0;
      nvicISER0 := 0;
      trace := [];
    }

    /** delay_us: blocks for at least `us` microseconds; only recorded. */
    method DelayUs(us: nat)
      modifies this`trace
      ensures trace == old(trace) + [WaitUs(us)]
    {
      trace := trace + [WaitUs(us)];
    }

    /** delay_ms: blocks for at least `ms` milliseconds; only recorded. */
    method DelayMs(ms: nat)
      modifies this`trace
      ensures trace == old(trace) + [WaitMs(ms)]
    {
      trace := trace + [WaitMs(ms)];
    }
  }
}
