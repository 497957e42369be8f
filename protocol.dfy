/** The pure part of the driver: how one HD44780 command or data byte is
    packed into the four PCF8574 output bytes of a 4-bit transfer, what a
    logical driver step looks like on the bus, and the fixed command lists
    of init, clear and the display-control toggles. */
module Protocol {
  import opened HD44780Defs

  datatype Option<T> = None | Some(value: T)

  /** What an observer of the driver sees: one I2C write transaction of the
      given bytes, or a busy-wait of the given number of milliseconds. */
  datatype Event = Tx(bytes: seq<bv8>) | Delay(ms: nat)

  /** A logical driver step: an instruction byte (RS low), a data byte
      (RS high) or a settle delay. */
  datatype Op = Command(cmd: bv8) | Data(data: bv8) | Wait(ms: nat)

  const NUL: bv8 := 0

  /** The high nibble of a byte, left in bits 4-7. */
  function HighNibble(b: bv8): bv8 {
    b & 0xF0
  }

  /** The low nibble of a byte, moved up into bits 4-7. */
  function LowNibble(b: bv8): bv8 {
    (b << 4) & 0xF0
  }

  /** The four expander bytes that clock `value` into the controller in 4-bit
      mode: high nibble with E high, the same with E low, then the low nibble
      likewise. Backlight is held on; RS is set exactly for data bytes.
      FrameLines states what the bytes carry. */
  function Frame(value: bv8, rs: bool): (f: seq<bv8>)
    ensures |f| == 4
  {
    var ctl := if rs then BACKLIGHT | RS else BACKLIGHT;
    [HighNibble(value) | ctl | E, (HighNibble(value) | ctl) & !E,
     LowNibble(value) | ctl | E, (LowNibble(value) | ctl) & !E]
  }

  /** What the four bytes of a frame put on the LCD lines. */
  lemma FrameLines(value: bv8, rs: bool)
    // the data lines carry the high then the low nibble: together they give `value` back
    ensures var f := Frame(value, rs); (f[0] & 0xF0) | (f[2] >> 4) == value
    ensures var f := Frame(value, rs); f[0] & 0xF0 == f[1] & 0xF0 && f[2] & 0xF0 == f[3] & 0xF0
    // enable pulse: E high then low for each nibble, and nothing else changes in between
    ensures var f := Frame(value, rs); f[0] & E == E && f[1] & E == 0 && f[2] & E == E && f[3] & E == 0
    ensures var f := Frame(value, rs); f[1] == f[0] & !E && f[3] == f[2] & !E
    // control lines: backlight always on, R/W always low (write), RS exactly for data
    ensures var f := Frame(value, rs); forall i :: 0 <= i < 4 ==>
              f[i] & BACKLIGHT == BACKLIGHT && f[i] & RW == 0 && (f[i] & RS == RS <==> rs)
  {
  }

  /** The transaction of an instruction byte, written out byte by byte. */
  lemma CommandFrameBytes(addressByte: bv8, cmd: bv8)
    ensures [addressByte] + Frame(cmd, false) ==
              [addressByte,
               (cmd & 0xF0) | BACKLIGHT | E, ((cmd & 0xF0) | BACKLIGHT) & !E,
               ((cmd << 4) & 0xF0) | BACKLIGHT | E, (((cmd << 4) & 0xF0) | BACKLIGHT) & !E]
  {
  }

  /** The transaction of a data byte, written out byte by byte. */
  lemma DataFrameBytes(addressByte: bv8, data: bv8)
    ensures [addressByte] + Frame(data, true) ==
              [addressByte,
               (data & 0xF0) | BACKLIGHT | RS | E, ((data & 0xF0) | BACKLIGHT | RS) & !E,
               ((data << 4) & 0xF0) | BACKLIGHT | RS | E, (((data << 4) & 0xF0) | BACKLIGHT | RS) & !E]
  {
  }

  /** Data and command frames of the same byte differ only in the RS line. */
  lemma DataFrameIsCommandFrameWithRS(value: bv8)
    ensures forall i :: 0 <= i < 4 ==>
              Frame(value, true)[i] == Frame(value, false)[i] | RS &&
              Frame(value, false)[i] == Frame(value, true)[i] & !RS
  {
  }

  /** The bus event a logical step produces, given the address byte that
      starts every transaction. */
  function Encode(addressByte: bv8, op: Op): (ev: Event)
    ensures ev.Delay? <==> op.Wait?
    ensures op.Wait? ==> ev.ms == op.ms
  {
    match op
    case Command(c) => Tx([addressByte] + Frame(c, false))
    case Data(d) => Tx([addressByte] + Frame(d, true))
    case Wait(ms) => Delay(ms)
  }

  /** Every instruction or data step is one transaction of exactly five
      bytes: the address byte, then the frame of the byte with RS low for an
      instruction and high for data. */
  lemma EncodeTransaction(addressByte: bv8, op: Op)
    requires !op.Wait?
    ensures var ev := Encode(addressByte, op);
            ev.Tx? && |ev.bytes| == 5 && ev.bytes[0] == addressByte &&
            ev.bytes[1..] == Frame(if op.Command? then op.cmd else op.data, op.Data?)
  {
    var ev := Encode(addressByte, op);
    assert ev.bytes[1..] == ev.bytes[1..5];
  }

  /** Reads a bus event back as a logical step; None when the bytes are not
      a well-formed transaction for this address. */
  function Decode(addressByte: bv8, ev: Event): (r: Option<Op>)
    ensures r.Some? ==> Encode(addressByte, r.value) == ev
  {
    match ev
    case Delay(ms) => Some(Wait(ms))
    case Tx(b) =>
      if |b| != 5 || b[0] != addressByte then None
      else
        var value := (b[1] & 0xF0) | (b[3] >> 4);
        var op := if b[1] & RS == RS then Data(value) else Command(value);
        if Encode(addressByte, op) == ev then Some(op) else None
  }

  /** Every step survives the trip onto the bus and back. */
  lemma DecodeEncode(addressByte: bv8, op: Op)
    ensures Decode(addressByte, Encode(addressByte, op)) == Some(op)
  {
    match op
    case Command(c) =>
      FrameLines(c, false);
    case Data(d) =>
      FrameLines(d, true);
    case Wait(_) =>
  }

  /** The bus trace of a list of steps: one event per step, in order. */
  function EncodeOps(addressByte: bv8, ops: seq<Op>): (t: seq<Event>)
    ensures |t| == |ops|
  {
    seq(|ops|, i requires 0 <= i < |ops| => Encode(addressByte, ops[i]))
  }

  /** Reads a whole bus trace back as steps. */
  function DecodeOps(addressByte: bv8, t: seq<Event>): (r: Option<seq<Op>>)
    ensures r.Some? ==> |r.value| == |t|
  {
    if t == [] then Some([])
    else
      match Decode(addressByte, t[0])
      case None => None
      case Some(op) =>
        match DecodeOps(addressByte, t[1..])
        case None => None
        case Some(rest) => Some([op] + rest)
  }

  lemma {:induction false} DecodeEncodeOps(addressByte: bv8, ops: seq<Op>)
    ensures DecodeOps(addressByte, EncodeOps(addressByte, ops)) == Some(ops)
  {
    if ops != [] {
      var t := EncodeOps(addressByte, ops);
      assert t[1..] == EncodeOps(addressByte, ops[1..]);
      DecodeEncode(addressByte, ops[0]);
      DecodeEncodeOps(addressByte, ops[1..]);
      assert ops == [ops[0]] + ops[1..];
    }
  }

  lemma {:induction false} EncodeDecodeOps(addressByte: bv8, t: seq<Event>)
    requires DecodeOps(addressByte, t).Some?
    ensures EncodeOps(addressByte, DecodeOps(addressByte, t).value) == t
  {
    if t != [] {
      EncodeDecodeOps(addressByte, t[1..]);
      var ops := DecodeOps(addressByte, t).value;
      assert ops[1..] == DecodeOps(addressByte, t[1..]).value;
      assert t == [t[0]] + t[1..];
    }
  }

  /** Encoding distributes over concatenation of step lists. */
  lemma EncodeOpsAppend(addressByte: bv8, a: seq<Op>, b: seq<Op>)
    ensures EncodeOps(addressByte, a + b) == EncodeOps(addressByte, a) + EncodeOps(addressByte, b)
  {
  }

  /** The DDRAM base address of a row; rows outside the table fall back to row 0. */
  function RowBase(row: int): (b: bv8)
    ensures 0 <= row < |ROW_START| ==> b == ROW_START[row]
    ensures !(0 <= row < |ROW_START|) ==> b == ROW_START[0]
  {
    if row == 0 then STARTADR_ROW_0
    else if row == 1 then STARTADR_ROW_1
    else if row == 2 then STARTADR_ROW_2
    else if row == 3 then STARTADR_ROW_3
    else STARTADR_ROW_0
  }

  /** The C conversion of an int to an unsigned char: the low eight bits of
      its two's-complement form, which is its value modulo 256. */
  function ToByte(n: int): bv8 {
    (n % 0x100) as bv8
  }

  /** A value below 128 survives the narrowing unchanged. */
  lemma ToByteSmall(n: int)
    requires 0 <= n < 0x80
    ensures ToByte(n) as int == n && ToByte(n) < 0x80
  {
    assert n % 0x100 == n;
  }

  /** SET_DRAM_ADDRESS applied to a DDRAM address: bit 7 set, and a 7-bit
      address kept unchanged in the low seven bits. */
  function DramCommand(address: bv8): (c: bv8)
    ensures c & SET_DRAM_ADDRESS == SET_DRAM_ADDRESS
    ensures address < 0x80 ==> c & 0x7F == address
  {
    SET_DRAM_ADDRESS | address
  }

  /** The SET_DRAM_ADDRESS instruction for (row, col): the row's base address
      plus `col`, narrowed to the byte the instruction is sent as. */
  function CursorCommand(row: int, col: int): (c: bv8)
    ensures c & SET_DRAM_ADDRESS == SET_DRAM_ADDRESS
  {
    DramCommand(ToByte(RowBase(row) as int + col))
  }

  /** Inside the 20x4 geometry the instruction carries the table address of
      (row, col); any other row addresses column `col` of row 0. */
  lemma CursorAddress(row: int, col: int)
    requires 0 <= col < MAX_COLUMNS
    ensures 0 <= row < MAX_ROWS ==> (CursorCommand(row, col) & 0x7F) as int == RowAddress(row, col)
    ensures !(0 <= row < MAX_ROWS) ==> CursorCommand(row, col) == CursorCommand(0, col)
  {
    if 0 <= row < MAX_ROWS {
      var n := RowBase(row) as int + col;
      assert n == RowAddress(row, col) && 0 <= n < 0x80;
      ToByteSmall(n);
      assert CursorCommand(row, col) & 0x7F == ToByte(n);
    }
  }

  /** Inside the 20x4 geometry distinct positions give distinct commands. */
  lemma CursorCommandInjective(r1: int, c1: int, r2: int, c2: int)
    requires 0 <= r1 < MAX_ROWS && 0 <= c1 < MAX_COLUMNS
    requires 0 <= r2 < MAX_ROWS && 0 <= c2 < MAX_COLUMNS
    ensures CursorCommand(r1, c1) == CursorCommand(r2, c2) <==> r1 == r2 && c1 == c2
  {
    CursorAddress(r1, c1);
    CursorAddress(r2, c2);
    if CursorCommand(r1, c1) == CursorCommand(r2, c2) {
      var low := CursorCommand(r1, c1) & 0x7F;
      assert low as int == RowAddress(r1, c1) && low as int == RowAddress(r2, c2);
      if r1 != r2 {
        RowRangesDisjoint();
        assert false;
      }
    }
  }

  /** The column is not checked: column 20 of row 0 is the first cell of
      row 2, and a negative column reaches back into the row before. */
  lemma CursorColumnUnchecked()
    ensures CursorCommand(0, MAX_COLUMNS as int) == CursorCommand(2, 0)
    ensures CursorCommand(1, -1) == SET_DRAM_ADDRESS | 0x3F
    ensures CursorCommand(7, 5) == CursorCommand(0, 5)
  {
  }

  /** The display-control byte after switching the bit `flag` to `state`. */
  function WithFlag(cmd: bv8, flag: bv8, state: State): (r: bv8)
    ensures r & flag == (if state == On then flag else 0)
    ensures r & !flag == cmd & !flag
  {
    match state
    case On => cmd | flag
    case Off => cmd & !flag
  }

  /** A toggle changes the byte in its own bit at most, and in that bit
      exactly when the bit did not already have the requested value. */
  lemma WithFlagChangesOneBit(cmd: bv8, flag: bv8, state: State)
    requires SingleBit(flag)
    ensures WithFlag(cmd, flag, state) ^ cmd == 0 || WithFlag(cmd, flag, state) ^ cmd == flag
    ensures WithFlag(cmd, flag, state) != cmd <==> (cmd & flag == flag) != (state == On)
  {
  }

  /** Repeating a toggle with the same state changes nothing. */
  lemma WithFlagIdempotent(cmd: bv8, flag: bv8, state: State)
    ensures WithFlag(WithFlag(cmd, flag, state), flag, state) == WithFlag(cmd, flag, state)
  {
  }

  /** Toggles of different flags commute. */
  lemma WithFlagCommutes(cmd: bv8, f: bv8, s: State, g: bv8, t: State)
    requires f & g == 0
    ensures WithFlag(WithFlag(cmd, f, s), g, t) == WithFlag(WithFlag(cmd, g, t), f, s)
  {
  }

  /** Switching the display off and then blink on: the two DISPLAY_CONTROL
      commands sent differ in the BLINK bit only, and both keep the display off. */
  lemma DisplayOffThenBlinkOn(cmd: bv8)
    ensures var a := DISPLAY_CONTROL | WithFlag(cmd, DISPLAY_ON, Off);
            var b := DISPLAY_CONTROL | WithFlag(WithFlag(cmd, DISPLAY_ON, Off), BLINK_ON, On);
            (a ^ b) & !BLINK_ON == 0 && a & DISPLAY_ON == 0 && b & DISPLAY_ON == 0 &&
            b & BLINK_ON == BLINK_ON
  {
  }

  /** The characters of a C string: everything before the first NUL. */
  function UntilNul(s: seq<bv8>): (t: seq<bv8>)
    ensures t <= s
    ensures NUL !in t
    ensures |t| < |s| <==> NUL in s
    ensures |t| < |s| ==> s[|t|] == NUL
  {
    if s == [] || s[0] == NUL then [] else [s[0]] + UntilNul(s[1..])
  }

  /** One data step per character, in order. */
  function DataOps(text: seq<bv8>): (ops: seq<Op>)
    ensures |ops| == |text|
    ensures forall i :: 0 <= i < |text| ==> ops[i] == Data(text[i])
  {
    if text == [] then [] else [Data(text[0])] + DataOps(text[1..])
  }

  /** Writing two texts one after the other is writing their concatenation. */
  lemma {:induction false} DataOpsAppend(a: seq<bv8>, b: seq<bv8>)
    ensures DataOps(a + b) == DataOps(a) + DataOps(b)
  {
    if a != [] {
      assert (a + b)[1..] == a[1..] + b;
      DataOpsAppend(a[1..], b);
    }
  }

  /** Extending the written prefix of `s` by one character adds one data step. */
  lemma WriteOneMore(s: seq<bv8>, i: nat)
    requires i < |s|
    ensures DataOps(s[..i + 1]) == DataOps(s[..i]) + [Data(s[i])]
  {
    assert s[..i + 1] == s[..i] + [s[i]];
    DataOpsAppend(s[..i], [s[i]]);
  }

  /** A scan of a NUL-terminated `s` that has not reached a NUL is still inside the text. */
  lemma UntilNulBeforeEnd(s: seq<bv8>, i: nat)
    requires NUL in s && i <= |UntilNul(s)| && i < |s| && s[i] != NUL
    ensures i < |UntilNul(s)|
  {
  }

  /** A scan of `s` that stops at its first NUL has passed exactly the text. */
  lemma UntilNulAtEnd(s: seq<bv8>, i: nat)
    requires i <= |UntilNul(s)| && i < |s| && s[i] == NUL
    ensures UntilNul(s) == s[..i]
  {
    var t := UntilNul(s);
    assert forall j :: 0 <= j < |t| ==> s[j] == t[j];
    assert |t| == i;
  }

  /** The display-control byte that init leaves in place: display on, cursor and blink off. */
  const INIT_DISPLAY_CMD: bv8 := DISPLAY_CONTROL | DISPLAY_ON | CURSOR_OFF | BLINK_OFF

  /** The wake-up phase of HD44780_TWI_init: the power-on wait, then
      START_INIT three times, each followed by its settle time. */
  const InitWakeUpOps: seq<Op> := [
    Wait(50),
    Command(START_INIT), Wait(6),
    Command(START_INIT), Wait(2),
    Command(START_INIT), Wait(11)
  ]

  /** The configuration phase: 4-bit mode, then function set (two lines,
      5x8 dots) and display off. */
  const InitConfigOps: seq<Op> := [
    Command(FUNCTION_SET | FOUR_BITMODE),
    Command(FUNCTION_SET | FOUR_BITMODE | TWO_LINE | FIVE_BY_8_DOTS), Wait(2),
    Command(DISPLAY_CONTROL | DISPLAY_OFF | CURSOR_OFF | BLINK_OFF), Wait(2)
  ]

  /** The final phase: clear, entry mode, then the display switched on. */
  const InitFinishOps: seq<Op> := [
    Command(CLEAR_LCD), Wait(4),
    Command(ENTRY_MODE_SET | INCREMENT | ENTRY_SHIFT_DECREMENT), Wait(2),
    Command(INIT_DISPLAY_CMD)
  ]

  /** The steps of HD44780_TWI_init, after the transport is set up. */
  const InitOps: seq<Op> := InitWakeUpOps + InitConfigOps + InitFinishOps

  /** The steps of HD44780_TWI_lcd_clear. */
  const ClearOps: seq<Op> := [Command(CLEAR_LCD), Wait(2)]

  /** The steps of a display-control toggle once the new byte is known. */
  function ToggleOps(displayCmd: bv8): (ops: seq<Op>)
    ensures |ops| == 2 && ops[1] == Wait(4)
    ensures ops[0].Command? && ops[0].cmd & DISPLAY_CONTROL == DISPLAY_CONTROL
    ensures ops[0].cmd & !DISPLAY_CONTROL == displayCmd & !DISPLAY_CONTROL
  {
    [Command(DISPLAY_CONTROL | displayCmd), Wait(4)]
  }


  /** Init waits 50 ms, sends START_INIT three times followed by 6, 2 and
      11 ms, switches to 4-bit mode with no delay after it, then sends
      function set, display off, clear and entry mode with 2, 2, 4 and 2 ms
      after them, and ends with display on and no delay; no data byte. */
  lemma InitSequence()
    ensures InitOps == [
              Wait(50),
              Command(0x30), Wait(6), Command(0x30), Wait(2), Command(0x30), Wait(11),
              Command(0x20),
              Command(0x28), Wait(2), Command(0x08), Wait(2), Command(0x01), Wait(4),
              Command(0x06), Wait(2),
              Command(0x0C)]
    ensures forall i :: 0 <= i < |InitOps| ==> !InitOps[i].Data?
    ensures INIT_DISPLAY_CMD == 0x0C
  {
  }

  /** Clear sends CLEAR_LCD and then waits 2 ms; init waits 4 ms after the same instruction. */
  lemma ClearSequence()
    ensures ClearOps == [Command(0x01), Wait(2)]
    ensures InitOps[12] == ClearOps[0] && InitOps[13] == Wait(4)
  {
  }

  /** Sending one more character of `s` adds that character's data
      transaction to the bus trace. */
  lemma SendOneMore(addressByte: bv8, s: seq<bv8>, i: nat)
    requires i < |s|
    ensures EncodeOps(addressByte, DataOps(s[..i + 1])) ==
              EncodeOps(addressByte, DataOps(s[..i])) + [Encode(addressByte, Data(s[i]))]
  {
    WriteOneMore(s, i);
    EncodeOpsAppend(addressByte, DataOps(s[..i]), [Data(s[i])]);
  }

  /** A two-step list appended to a trace, one event at a time. */
  lemma EncodePairStepwise(addressByte: bv8, start: seq<Event>, x: Op, y: Op)
    ensures start + EncodeOps(addressByte, [x, y]) ==
              start + [Encode(addressByte, x)] + [Encode(addressByte, y)]
  {
  }

  /** The wake-up trace appended to a trace, one event at a time. */
  lemma WakeUpStepwise(addressByte: bv8, start: seq<Event>)
    ensures start + EncodeOps(addressByte, InitWakeUpOps) ==
              start + [Delay(50)] +
              [Encode(addressByte, Command(START_INIT))] + [Delay(6)] +
              [Encode(addressByte, Command(START_INIT))] + [Delay(2)] +
              [Encode(addressByte, Command(START_INIT))] + [Delay(11)]
  {
  }

  /** The configuration trace appended to a trace, one event at a time. */
  lemma ConfigStepwise(addressByte: bv8, start: seq<Event>)
    ensures start + EncodeOps(addressByte, InitConfigOps) ==
              start +
              [Encode(addressByte, Command(FUNCTION_SET | FOUR_BITMODE))] +
              [Encode(addressByte, Command(FUNCTION_SET | FOUR_BITMODE | TWO_LINE | FIVE_BY_8_DOTS))] + [Delay(2)] +
              [Encode(addressByte, Command(DISPLAY_CONTROL | DISPLAY_OFF | CURSOR_OFF | BLINK_OFF))] + [Delay(2)]
  {
  }

  /** The final trace appended to a trace, one event at a time. */
  lemma FinishStepwise(addressByte: bv8, start: seq<Event>)
    ensures start + EncodeOps(addressByte, InitFinishOps) ==
              start +
              [Encode(addressByte, Command(CLEAR_LCD))] + [Delay(4)] +
              [Encode(addressByte, Command(ENTRY_MODE_SET | INCREMENT | ENTRY_SHIFT_DECREMENT))] + [Delay(2)] +
              [Encode(addressByte, Command(INIT_DISPLAY_CMD))]
  {
  }

  /** The init trace is the three phase traces one after the other. */
  lemma InitTracePhases(addressByte: bv8, start: seq<Event>)
    ensures start + EncodeOps(addressByte, InitOps) ==
              start + EncodeOps(addressByte, InitWakeUpOps) + EncodeOps(addressByte, InitConfigOps) +
              EncodeOps(addressByte, InitFinishOps)
  {
    EncodeOpsAppend(addressByte, InitWakeUpOps + InitConfigOps, InitFinishOps);
    EncodeOpsAppend(addressByte, InitWakeUpOps, InitConfigOps);
  }
}
