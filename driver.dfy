/** The driver proper: the global transmit buffer and display-control byte,
    and the public operations that fill the buffer and hand it to the I2C
    transport. The transport and the busy-wait delays are observed through
    a ghost trace of bus events. */
module HD44780Twi {
  import opened HD44780Defs
  import opened Protocol

  class Driver {
    /** First byte of every transaction: the slave address 0x4E with the
        write direction in the R/W bit. */
    const addressByte: bv8
    /** The transport's transmit buffer (TWI_BUFFER_SIZE bytes). */
    const messageBuf: array<bv8>
    /** The display-control byte last sent or about to be sent. */
    var displayCMD: bv8
    /** Everything the transport and the delays have seen so far. */
    ghost var trace: seq<Event>

    /** The buffer holds a whole transaction and the address byte carries
        the slave address. */
    ghost predicate Valid() {
      messageBuf.Length >= 5 && addressByte & 0xFE == SLAVE_ADDRESS
    }

    /** The driver's globals as the program starts. `rwField` is the value of
        TWI_WRITE shifted to the R/W bit, defined by the transport; only bit 0
        may be set. */
    constructor (bufferSize: nat, rwField: bv8)
      requires bufferSize >= 5 && rwField & 0xFE == 0
      ensures Valid() && fresh(messageBuf)
      ensures messageBuf.Length == bufferSize && addressByte == SLAVE_ADDRESS | rwField
      ensures forall i :: 0 <= i < bufferSize ==> messageBuf[i] == 0
      ensures displayCMD == 0 && trace == []
    {
      addressByte := SLAVE_ADDRESS | rwField;
      messageBuf := new bv8[bufferSize](_ => 0);
      displayCMD := 0;
      trace := [];
    }

    /** The transport call: the first five bytes of the buffer go out as one
        write transaction. */
    method Transmit()
      requires Valid()
      modifies this`trace
      ensures trace == old(trace) + [Tx(messageBuf[..5])]
    {
      trace := trace + [Tx(messageBuf[..5])];
    }

    /** A busy-wait of `ms` milliseconds. */
    method DelayMs(ms: nat)
      modifies this`trace
      ensures trace == old(trace) + [Delay(ms)]
    {
      trace := trace + [Delay(ms)];
    }

    /** Sends one instruction byte (RS low) as a single 5-byte transaction. */
    method SendCmd(cmd: bv8)
      requires Valid()
      modifies this`trace, messageBuf
      ensures trace == old(trace) + [Encode(addressByte, Command(cmd))]
      ensures messageBuf[..5] == [addressByte] + Frame(cmd, false)
      ensures messageBuf[5..] == old(messageBuf[5..])
    {
      var highNib := cmd & 0xF0;
      var lowNib := (cmd << 4) & 0xF0;
      var b1 := highNib | BACKLIGHT | E;
      var b2 := (highNib | BACKLIGHT) & !E;
      var b3 := lowNib | BACKLIGHT | E;
      var b4 := (lowNib | BACKLIGHT) & !E;
      messageBuf[1] := b1;
      messageBuf[2] := b2;
      messageBuf[3] := b3;
      messageBuf[4] := b4;
      messageBuf[0] := addressByte;
      assert messageBuf[..5] == [addressByte, b1, b2, b3, b4];
      CommandFrameBytes(addressByte, cmd);
      Transmit();
    }

    /** Sends one data byte (RS high) as a single 5-byte transaction. */
    method SendData(data: bv8)
      requires Valid()
      modifies this`trace, messageBuf
      ensures trace == old(trace) + [Encode(addressByte, Data(data))]
      ensures messageBuf[..5] == [addressByte] + Frame(data, true)
      ensures messageBuf[5..] == old(messageBuf[5..])
    {
      var highNib := data & 0xF0;
      var lowNib := (data << 4) & 0xF0;
      var b1 := highNib | BACKLIGHT | RS | E;
      var b2 := (highNib | BACKLIGHT | RS) & !E;
      var b3 := lowNib | BACKLIGHT | RS | E;
      var b4 := (lowNib | BACKLIGHT | RS) & !E;
      messageBuf[1] := b1;
      messageBuf[2] := b2;
      messageBuf[3] := b3;
      messageBuf[4] := b4;
      messageBuf[0] := addressByte;
      assert messageBuf[..5] == [addressByte, b1, b2, b3, b4];
      DataFrameBytes(addressByte, data);
      Transmit();
    }

    /** Brings the controller from power-on into 4-bit, 2-line mode with the
        display on and cursor and blink off. */
    method Init()
      requires Valid()
      modifies this`displayCMD, this`trace, messageBuf
      ensures displayCMD == INIT_DISPLAY_CMD
      ensures trace == old(trace) + EncodeOps(addressByte, InitOps)
      ensures messageBuf[..5] == [addressByte] + Frame(INIT_DISPLAY_CMD, false)
      ensures messageBuf[5..] == old(messageBuf[5..])
    {
      InitTracePhases(addressByte, trace);
      WakeUpStepwise(addressByte, trace);
      DelayMs(50);
      SendCmd(START_INIT);
      DelayMs(6);
      SendCmd(START_INIT);
      DelayMs(2);
      SendCmd(START_INIT);
      DelayMs(11);

      ConfigStepwise(addressByte, trace);
      SendCmd(FUNCTION_SET | FOUR_BITMODE);

      SendCmd(FUNCTION_SET | FOUR_BITMODE | TWO_LINE | FIVE_BY_8_DOTS);
      DelayMs(2);

      displayCMD := DISPLAY_CONTROL | DISPLAY_OFF | CURSOR_OFF | BLINK_OFF;
      SendCmd(displayCMD);
      DelayMs(2);

      FinishStepwise(addressByte, trace);
      SendCmd(CLEAR_LCD);
      DelayMs(4);

      SendCmd(ENTRY_MODE_SET | INCREMENT | ENTRY_SHIFT_DECREMENT);
      DelayMs(2);

      displayCMD := DISPLAY_CONTROL | DISPLAY_ON | CURSOR_OFF | BLINK_OFF;
      SendCmd(displayCMD);
    }

    /** Clears the display. */
    method LcdClear()
      requires Valid()
      modifies this`trace, messageBuf
      ensures trace == old(trace) + EncodeOps(addressByte, ClearOps)
      ensures messageBuf[..5] == [addressByte] + Frame(CLEAR_LCD, false)
      ensures messageBuf[5..] == old(messageBuf[5..])
    {
      EncodePairStepwise(addressByte, trace, Command(CLEAR_LCD), Wait(2));
      SendCmd(CLEAR_LCD);
      DelayMs(2);
    }

    /** Moves the DDRAM address to (row, col); an unknown row means row 0. */
    method SetCursor(row: int, col: int)
      requires Valid()
      modifies this`trace, messageBuf
      ensures trace == old(trace) + [Encode(addressByte, Command(CursorCommand(row, col)))]
      ensures messageBuf[..5] == [addressByte] + Frame(CursorCommand(row, col), false)
      ensures messageBuf[5..] == old(messageBuf[5..])
    {
      if row == 0 {
        assert CursorCommand(row, col) == SET_DRAM_ADDRESS | ToByte(STARTADR_ROW_0 as int + col);
        SendCmd(SET_DRAM_ADDRESS | ToByte(STARTADR_ROW_0 as int + col));
      } else if row == 1 {
        assert CursorCommand(row, col) == SET_DRAM_ADDRESS | ToByte(STARTADR_ROW_1 as int + col);
        SendCmd(SET_DRAM_ADDRESS | ToByte(STARTADR_ROW_1 as int + col));
      } else if row == 2 {
        assert CursorCommand(row, col) == SET_DRAM_ADDRESS | ToByte(STARTADR_ROW_2 as int + col);
        SendCmd(SET_DRAM_ADDRESS | ToByte(STARTADR_ROW_2 as int + col));
      } else if row == 3 {
        assert CursorCommand(row, col) == SET_DRAM_ADDRESS | ToByte(STARTADR_ROW_3 as int + col);
        SendCmd(SET_DRAM_ADDRESS | ToByte(STARTADR_ROW_3 as int + col));
      } else {
        assert CursorCommand(row, col) == SET_DRAM_ADDRESS | ToByte(STARTADR_ROW_0 as int + col);
        SendCmd(SET_DRAM_ADDRESS | ToByte(STARTADR_ROW_0 as int + col));
      }
    }

    /** Writes the characters of the C string `s` up to its terminating NUL,
        one data transaction each. */
    method SendString(s: seq<bv8>)
      requires Valid()
      requires NUL in s
      modifies this`trace, messageBuf
      ensures trace == old(trace) + EncodeOps(addressByte, DataOps(UntilNul(s)))
      ensures s[0] == NUL ==> trace == old(trace)
      ensures UntilNul(s) == [] ==> messageBuf[..] == old(messageBuf[..])
      ensures UntilNul(s) != [] ==>
                messageBuf[..5] == [addressByte] + Frame(UntilNul(s)[|UntilNul(s)| - 1], true)
      ensures messageBuf[5..] == old(messageBuf[5..])
    {
      var i := 0;
      while s[i] != NUL
        invariant 0 <= i <= |UntilNul(s)|
        invariant trace == old(trace) + EncodeOps(addressByte, DataOps(s[..i]))
        invariant i == 0 ==> messageBuf[..] == old(messageBuf[..])
        invariant 0 < i ==> messageBuf[..5] == [addressByte] + Frame(s[i - 1], true)
        invariant messageBuf[5..] == old(messageBuf[5..])
        decreases |s| - i
      {
        UntilNulBeforeEnd(s, i);
        SendOneMore(addressByte, s, i);
        SendData(s[i]);
        i := i + 1;
      }
      UntilNulAtEnd(s, i);
    }

    /** Switches the display on or off, keeping cursor and blink as they are. */
    method DisplayOnOff(state: State)
      requires Valid()
      modifies this`displayCMD, this`trace, messageBuf
      ensures displayCMD == WithFlag(old(displayCMD), DISPLAY_ON, state)
      ensures trace == old(trace) + EncodeOps(addressByte, ToggleOps(displayCMD))
      ensures messageBuf[..5] == [addressByte] + Frame(DISPLAY_CONTROL | displayCMD, false)
      ensures messageBuf[5..] == old(messageBuf[5..])
    {
      match state {
        case On => displayCMD := displayCMD | DISPLAY_ON;
        case Off => displayCMD := displayCMD & !DISPLAY_ON;
      }
      EncodePairStepwise(addressByte, trace, Command(DISPLAY_CONTROL | displayCMD), Wait(4));
      SendCmd(DISPLAY_CONTROL | displayCMD);
      DelayMs(4);
    }

    /** Switches the cursor on or off, keeping display and blink as they are. */
    method CursorOnOff(state: State)
      requires Valid()
      modifies this`displayCMD, this`trace, messageBuf
      ensures displayCMD == WithFlag(old(displayCMD), CURSOR_ON, state)
      ensures trace == old(trace) + EncodeOps(addressByte, ToggleOps(displayCMD))
      ensures messageBuf[..5] == [addressByte] + Frame(DISPLAY_CONTROL | displayCMD, false)
      ensures messageBuf[5..] == old(messageBuf[5..])
    {
      match state {
        case On => displayCMD := displayCMD | CURSOR_ON;
        case Off => displayCMD := displayCMD & !CURSOR_ON;
      }
      EncodePairStepwise(addressByte, trace, Command(DISPLAY_CONTROL | displayCMD), Wait(4));
      SendCmd(DISPLAY_CONTROL | displayCMD);
      DelayMs(4);
    }

    /** Switches cursor blinking on or off, keeping display and cursor as they are. */
    method CursorBlinkingOnOff(state: State)
      requires Valid()
      modifies this`displayCMD, this`trace, messageBuf
      ensures displayCMD == WithFlag(old(displayCMD), BLINK_ON, state)
      ensures trace == old(trace) + EncodeOps(addressByte, ToggleOps(displayCMD))
      ensures messageBuf[..5] == [addressByte] + Frame(DISPLAY_CONTROL | displayCMD, false)
      ensures messageBuf[5..] == old(messageBuf[5..])
    {
      match state {
        case On => displayCMD := displayCMD | BLINK_ON;
        case Off => displayCMD := displayCMD & !BLINK_ON;
      }
      EncodePairStepwise(addressByte, trace, Command(DISPLAY_CONTROL | displayCMD), Wait(4));
      SendCmd(DISPLAY_CONTROL | displayCMD);
      DelayMs(4);
    }
  }

  /** A client: init, cursor home, then "A=". What the transport sees reads
      back as exactly the init steps, one SET_DRAM_ADDRESS for address 0 and
      two data steps. */
  method InitHomeAndWrite(d: Driver)
    requires d.Valid()
    modifies d, d.messageBuf
    ensures d.displayCMD == INIT_DISPLAY_CMD
    ensures exists sent :: d.trace == old(d.trace) + sent &&
              DecodeOps(d.addressByte, sent) == Some(InitOps + [Command(0x80), Data(0x41), Data(0x3D)])
  {
    d.Init();
    d.SetCursor(0, 0);
    d.SendString([0x41, 0x3D, 0x00]);
    assert UntilNul([0x41, 0x3D, 0x00]) == [0x41, 0x3D];
    ghost var text: seq<bv8> := [0x41, 0x3D];
    ghost var home := [Command(CursorCommand(0, 0))];
    EncodeOpsAppend(d.addressByte, InitOps, home);
    EncodeOpsAppend(d.addressByte, InitOps + home, DataOps(text));
    ghost var steps := InitOps + home + DataOps(text);
    ghost var sent := EncodeOps(d.addressByte, steps);
    assert d.trace == old(d.trace) + sent;
    DecodeEncodeOps(d.addressByte, steps);
    assert CursorCommand(0, 0) == 0x80;
    assert DataOps(text) == [Data(0x41), Data(0x3D)];
    assert steps == InitOps + [Command(0x80), Data(0x41), Data(0x3D)];
  }

  /** A client: display off, then blink on. Two toggles go out, the second
      carrying the blink bit set and both carrying the display bit clear. */
  method DisplayOffThenBlink(d: Driver)
    requires d.Valid()
    modifies d, d.messageBuf
    ensures d.displayCMD == WithFlag(WithFlag(old(d.displayCMD), DISPLAY_ON, Off), BLINK_ON, On)
    ensures d.displayCMD & DISPLAY_ON == 0 && d.displayCMD & BLINK_ON == BLINK_ON
    ensures d.trace == old(d.trace) + EncodeOps(d.addressByte,
              ToggleOps(WithFlag(old(d.displayCMD), DISPLAY_ON, Off)) + ToggleOps(d.displayCMD))
  {
    d.DisplayOnOff(Off);
    ghost var off := d.displayCMD;
    d.CursorBlinkingOnOff(On);
    DisplayOffThenBlinkOn(old(d.displayCMD));
    EncodeOpsAppend(d.addressByte, ToggleOps(off), ToggleOps(d.displayCMD));
  }
}
