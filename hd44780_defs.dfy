/** Constants of the HD44780 driver header: the PCF8574 pin masks, the
    HD44780 instruction opcodes and their flags, the 20x4 DDRAM row table
    and the two-valued ON/OFF state. */
module HD44780Defs {

  // Bus configuration
  const SLAVE_ADDRESS: bv8 := 0x4E
  const BUS_FREQ: nat := 100000

  // PCF8574 pins P0..P3 wired to the LCD control lines
  const RS: bv8 := 0x01
  const RW: bv8 := 0x02
  const E: bv8 := 0x04
  const BACKLIGHT: bv8 := 0x08
  const NO_BACKLIGHT: bv8 := 0x00

  // Display geometry
  const MAX_ROWS: nat := 4
  const MAX_COLUMNS: nat := 20

  // First DDRAM address of each row, indexed by row
  const STARTADR_ROW_0: bv8 := 0x00
  const STARTADR_ROW_1: bv8 := 0x40
  const STARTADR_ROW_2: bv8 := 0x14
  const STARTADR_ROW_3: bv8 := 0x54
  const ROW_START: seq<bv8> := [STARTADR_ROW_0, STARTADR_ROW_1, STARTADR_ROW_2, STARTADR_ROW_3]

  // Instruction opcodes
  const START_INIT: bv8 := 0x30
  const CLEAR_LCD: bv8 := 0x01
  const RETURN_HOME: bv8 := 0x02
  const ENTRY_MODE_SET: bv8 := 0x04
  const DISPLAY_CONTROL: bv8 := 0x08
  const CURSOR_SHIFT: bv8 := 0x10
  const FUNCTION_SET: bv8 := 0x20
  const SET_CGRAM_ADDR: bv8 := 0x40
  const SET_DRAM_ADDRESS: bv8 := 0x80
  const OPCODES: seq<bv8> := [CLEAR_LCD, RETURN_HOME, ENTRY_MODE_SET, DISPLAY_CONTROL,
                              CURSOR_SHIFT, FUNCTION_SET, SET_CGRAM_ADDR, SET_DRAM_ADDRESS]

  // Display control flags
  const DISPLAY_ON: bv8 := 0x04
  const DISPLAY_OFF: bv8 := 0x00
  const CURSOR_ON: bv8 := 0x02
  const CURSOR_OFF: bv8 := 0x00
  const BLINK_ON: bv8 := 0x01
  const BLINK_OFF: bv8 := 0x00

  // Display/cursor shift flags
  const DISPLAY_MOVE: bv8 := 0x08
  const CURSOR_MOVE: bv8 := 0x00
  const MOVE_RIGHT: bv8 := 0x04
  const MOVE_LEFT: bv8 := 0x00

  // Function set flags
  const FOUR_BITMODE: bv8 := 0x00
  const TWO_LINE: bv8 := 0x08
  const ONE_LINE: bv8 := 0x00
  const FIVE_BY_8_DOTS: bv8 := 0x00
  const FIVE_BY_10_DOTS: bv8 := 0x04

  // Entry mode flags
  const DECREMENT: bv8 := 0x00
  const INCREMENT: bv8 := 0x02
  const ENTRY_SHIFT_INCREMENT: bv8 := 0x01
  const ENTRY_SHIFT_DECREMENT: bv8 := 0x00

  /** The ON/OFF argument of the three display-control toggles. */
  datatype State = On | Off

  /** A byte with exactly one bit set. */
  predicate SingleBit(b: bv8) {
    b != 0 && b & (b - 1) == 0
  }

  /** The four control masks are distinct single bits of the low nibble, so
      OR-ing any of them into a byte never disturbs the nibble held in bits 4-7. */
  lemma ControlMasksKeepDataNibble(nibble: bv8)
    ensures SingleBit(RS) && SingleBit(RW) && SingleBit(E) && SingleBit(BACKLIGHT)
    ensures RS & RW == 0 && RS & E == 0 && RS & BACKLIGHT == 0
    ensures RW & E == 0 && RW & BACKLIGHT == 0 && E & BACKLIGHT == 0
    ensures (RS | RW | E | BACKLIGHT) & 0xF0 == 0
    ensures ((nibble & 0xF0) | RS | RW | E | BACKLIGHT) & 0xF0 == nibble & 0xF0
  {
  }

  /** The three display-control flags are distinct single bits below the
      DISPLAY_CONTROL opcode, and every OFF value is zero. */
  lemma DisplayFlagsBelowOpcode()
    ensures SingleBit(DISPLAY_ON) && SingleBit(CURSOR_ON) && SingleBit(BLINK_ON)
    ensures DISPLAY_ON & CURSOR_ON == 0 && DISPLAY_ON & BLINK_ON == 0 && CURSOR_ON & BLINK_ON == 0
    ensures DISPLAY_ON < DISPLAY_CONTROL && CURSOR_ON < DISPLAY_CONTROL && BLINK_ON < DISPLAY_CONTROL
    ensures DISPLAY_OFF == 0 && CURSOR_OFF == 0 && BLINK_OFF == 0
  {
  }

  /** The eight instruction opcodes are pairwise distinct single bits, and the
      flags the driver combines with an opcode all lie below that opcode. */
  lemma OpcodesArePowersOfTwo()
    ensures forall i :: 0 <= i < |OPCODES| ==> SingleBit(OPCODES[i])
    ensures forall i, j :: 0 <= i < j < |OPCODES| ==> OPCODES[i] & OPCODES[j] == 0
    ensures FOUR_BITMODE | TWO_LINE | FIVE_BY_8_DOTS < FUNCTION_SET
    ensures FUNCTION_SET | FOUR_BITMODE | TWO_LINE | FIVE_BY_8_DOTS == 0x28
    ensures INCREMENT | ENTRY_SHIFT_DECREMENT < ENTRY_MODE_SET
    ensures ENTRY_MODE_SET | INCREMENT | ENTRY_SHIFT_DECREMENT == 0x06
    ensures DISPLAY_ON | CURSOR_ON | BLINK_ON < DISPLAY_CONTROL
    ensures DISPLAY_CONTROL | DISPLAY_ON | CURSOR_OFF | BLINK_OFF == 0x0C
  {
  }

  /** DDRAM address of column `col` of row `row` in the 20x4 table. */
  function RowAddress(row: nat, col: int): int
    requires row < |ROW_START|
  {
    ROW_START[row] as int + col
  }

  /** With 20 columns per row the four rows occupy pairwise disjoint DDRAM
      address ranges, all below the SET_DRAM_ADDRESS bit. */
  lemma RowRangesDisjoint()
    ensures |ROW_START| == MAX_ROWS
    ensures forall r :: 0 <= r < MAX_ROWS ==> ROW_START[r] as int + MAX_COLUMNS <= SET_DRAM_ADDRESS as int
    ensures forall r1, r2, c1, c2 ::
              0 <= r1 < MAX_ROWS && 0 <= r2 < MAX_ROWS && r1 != r2 &&
              0 <= c1 < MAX_COLUMNS && 0 <= c2 < MAX_COLUMNS ==>
                RowAddress(r1, c1) != RowAddress(r2, c2)
  {
  }
}
