# HD44780 over PCF8574 (I2C) LCD driver — Dafny model

This project models the AVR driver `HD44780-TWI` for an HD44780 character
LCD that is wired to a PCF8574 I2C port expander. The display runs in 4-bit
mode: every instruction or character byte is split into a high and a low
nibble. Each nibble is written to the expander twice, first with the enable
line E high and then with E low. The backlight line is held on throughout,
and RS selects instruction (low) or data (high). The four expander bytes go
out in one I2C write transaction, preceded by the slave address byte
(0x4E with the write bit).

The model has three modules:

- `HD44780Defs` (`hd44780_defs.dfy`) holds the constants of the driver
  header. These are the expander pin masks, the instruction opcodes and
  their flags, the row start addresses of the 20x4 DDRAM layout, and the
  ON/OFF state. Lemmas about the constants state that the pin masks are
  disjoint single bits below the data nibble, and that the opcodes are
  distinct powers of two with every flag combined with them lying below
  them. They also state that the four rows cover disjoint address ranges.
- `Protocol` (`protocol.dfy`) holds the pure parts:
  - `Frame` packs one byte into the four expander bytes.
  - `Encode` gives the bus event of one logical step. A step is an
    instruction, a data byte or a wait. `Decode` reads an event back.
    `EncodeOps` and `DecodeOps` do the same for whole step lists, and both
    directions of the round trip are proved.
  - The cursor instruction is built from the row table and narrowed to a
    byte as the C code does.
  - `WithFlag` is the display-control byte update.
  - `UntilNul` gives the text of a C string.
  - The fixed step lists of init, clear and the toggles.
- `HD44780Twi` (`driver.dfy`) is the driver itself, as a class `Driver`:
  - The global transmit buffer `messageBuf` is an `array<bv8>`, which the
    send functions write in place.
  - The global display-control byte is the field `displayCMD`.
  - A ghost `trace` records what the I2C transport and the busy-wait
    delays see: `Tx(bytes)` for each transaction and `Delay(ms)` for each
    `_delay_ms`.

  Every public function is a method that states two things. First, the
  events it appends to the trace, as the encoding of its step list. Second,
  what it leaves in the buffer and in `displayCMD`. The round trip
  `DecodeEncodeOps` then says that the bus output of any run reads back as
  exactly its steps. `InitHomeAndWrite` shows this for init, cursor home
  and a two-character string.

The address byte is `0x4E | (TWI_WRITE << TWI_RW_BIT)`. The transport's
header that defines `TWI_WRITE` and `TWI_RW_BIT` is not part of this model.
So the constructor takes the shifted R/W field as a parameter, and the
class invariant `Valid` only fixes bits 7..1 of the address byte to 0x4E.
This is the 7-bit address plus R/W bit layout of section 3.1.10 of the NXP
I2C-bus specification UM10204. The buffer size `TWI_BUFFER_SIZE` is also a
constructor parameter, and must be at least 5.

The HD44780U datasheet's 4-bit "Initializing by Instruction" procedure
writes the switch to 4-bit mode as a single nibble. This code instead sends
0x30 three times and 0x20 once, each as a full two-nibble instruction
through `send_cmd` (`HD44780-TWI.c:56-64`). The model follows the code.
The comment at `HD44780-TWI.c:102` mentions an error state, but every
function of the driver returns `void` and no transport result is checked,
so the model has no error path.

## Model

| member | source | states |
|---|---|---|
| HD44780Defs.ControlMasksKeepDataNibble | HD44780_I2C/HD44780-TWI.h:16-74 | RS, RW, E and BACKLIGHT are pairwise disjoint single bits inside bits 0-3, so OR-ing them into a byte never changes the nibble in bits 4-7 |
| HD44780Defs.DisplayFlagsBelowOpcode | HD44780_I2C/HD44780-TWI.h:39-51 | DISPLAY_ON, CURSOR_ON and BLINK_ON are distinct single bits below the DISPLAY_CONTROL opcode; every OFF value is 0 |
| HD44780Defs.OpcodesArePowersOfTwo | HD44780_I2C/HD44780-TWI.h:36-71 | the eight opcodes are pairwise disjoint powers of two; the flags combined with FUNCTION_SET, ENTRY_MODE_SET and DISPLAY_CONTROL lie below them, giving 0x28, 0x06 and 0x0C |
| HD44780Defs.RowRangesDisjoint | HD44780_I2C/HD44780-TWI.h:20-29 | with 20 columns the four rows occupy pairwise disjoint DDRAM address ranges, all below 0x80 |
| Protocol.Frame | HD44780_I2C/HD44780-TWI.c:154-159 | one byte becomes exactly four expander bytes |
| Protocol.FrameLines | HD44780_I2C/HD44780-TWI.c:154-159 | nibble round trip: the high nibble of byte 1 joined with byte 3 shifted down gives the input back; bytes 1 and 2, and bytes 3 and 4, carry the same nibble; E is high in bytes 1 and 3 and low in bytes 2 and 4; bytes 2 and 4 are bytes 1 and 3 with E cleared; backlight is set and R/W clear in all four; RS is set in all four exactly for data |
| Protocol.CommandFrameBytes | HD44780_I2C/HD44780-TWI.c:154-161 | the instruction transaction is the address byte followed by the four bytes `send_cmd` computes |
| Protocol.DataFrameBytes | HD44780_I2C/HD44780-TWI.c:135-142 | the data transaction is the address byte followed by the four bytes `send_data` computes |
| Protocol.DataFrameIsCommandFrameWithRS | HD44780_I2C/HD44780-TWI.c:137-140 | the data and instruction frames of the same byte differ only in RS |
| Protocol.Encode | HD44780_I2C/HD44780-TWI.c:142-143 | a wait becomes a delay of the same length, and an instruction or data byte becomes a transaction |
| Protocol.EncodeTransaction | HD44780_I2C/HD44780-TWI.c:161-162 | every instruction or data step is one transaction of exactly 5 bytes: the address byte, then the frame of the byte, with RS low for instructions and high for data |
| Protocol.Decode | HD44780_I2C/HD44780-TWI.c:154-162 | whatever an event decodes to encodes back to that event |
| Protocol.DecodeEncode | HD44780_I2C/HD44780-TWI.c:154-162 | every step decodes back from its bus event |
| Protocol.EncodeOps | HD44780_I2C/HD44780-TWI.c:143 | a step list gives one bus event per step |
| Protocol.DecodeOps | HD44780_I2C/HD44780-TWI.c:143 | a decoded trace has one step per event |
| Protocol.DecodeEncodeOps | HD44780_I2C/HD44780-TWI.c:150-163 | the bus trace of any step list decodes to exactly that list |
| Protocol.EncodeDecodeOps | HD44780_I2C/HD44780-TWI.c:150-163 | any decodable trace is the encoding of what it decodes to |
| Protocol.EncodeOpsAppend | HD44780_I2C/HD44780-TWI.c:143 | the trace of two step lists in a row is their traces in a row |
| Protocol.RowBase | HD44780_I2C/HD44780-TWI.c:106-124 | rows 0-3 map to the start addresses 0x00, 0x40, 0x14, 0x54; every other row, negative ones included, maps to row 0's |
| Protocol.ToByteSmall | HD44780_I2C/HD44780-TWI.c:109 | an address below 0x80 passes the conversion to the `char` argument unchanged |
| Protocol.DramCommand | HD44780_I2C/HD44780-TWI.c:109 | SET_DRAM_ADDRESS OR-ed with an address sets bit 7 and keeps a 7-bit address in bits 0-6 |
| Protocol.CursorCommand | HD44780_I2C/HD44780-TWI.c:104-125 | the cursor instruction always has bit 7 set |
| Protocol.CursorAddress | HD44780_I2C/HD44780-TWI.c:104-125 | for 0 <= col < 20, rows 0-3 give an instruction whose low 7 bits are the table address of (row, col); any other row gives the instruction of row 0 |
| Protocol.CursorCommandInjective | HD44780_I2C/HD44780-TWI.c:104-125 | inside the 20x4 geometry two positions give the same instruction exactly when they are the same position |
| Protocol.CursorColumnUnchecked | HD44780_I2C/HD44780-TWI.c:104-125 | the column is not range-checked: column 20 of row 0 addresses the first cell of row 2, and column -1 of row 1 addresses 0x3F |
| Protocol.WithFlag | HD44780_I2C/HD44780-TWI.c:184-192 | after the update the flag bit is set for ON and clear for OFF, and every other bit is as before |
| Protocol.WithFlagChangesOneBit | HD44780_I2C/HD44780-TWI.c:184-192 | a toggle changes at most its own bit, and changes it exactly when that bit did not already have the requested value |
| Protocol.WithFlagIdempotent | HD44780_I2C/HD44780-TWI.c:184-192 | repeating a toggle with the same state leaves the byte unchanged |
| Protocol.WithFlagCommutes | HD44780_I2C/HD44780-TWI.c:182-232 | toggles of different flags commute |
| Protocol.DisplayOffThenBlinkOn | HD44780_I2C/HD44780-TWI.c:182-232 | display off followed by blink on sends two DISPLAY_CONTROL instructions that differ only in the blink bit, both with the display bit clear |
| Protocol.UntilNul | HD44780_I2C/HD44780-TWI.c:172-175 | the text of a C string is a prefix without NUL; it is shorter than the string exactly when the string holds a NUL, which then follows the text |
| Protocol.DataOps | HD44780_I2C/HD44780-TWI.c:172-175 | a text gives one data step per character, in order |
| Protocol.DataOpsAppend | HD44780_I2C/HD44780-TWI.c:172-175 | writing two texts in a row is writing their concatenation |
| Protocol.WriteOneMore | HD44780_I2C/HD44780-TWI.c:174 | sending one more character adds exactly its data step |
| Protocol.SendOneMore | HD44780_I2C/HD44780-TWI.c:174 | sending one more character adds exactly its data transaction to the trace |
| Protocol.UntilNulBeforeEnd | HD44780_I2C/HD44780-TWI.c:172 | a scan that has not reached a NUL is still inside the text |
| Protocol.UntilNulAtEnd | HD44780_I2C/HD44780-TWI.c:172 | a scan that stops at the first NUL has passed exactly the text |
| Protocol.ToggleOps | HD44780_I2C/HD44780-TWI.c:194-195 | a toggle sends one DISPLAY_CONTROL instruction that carries the display-control byte in its other bits, followed by a 4 ms wait |
| Protocol.InitSequence | HD44780_I2C/HD44780-TWI.c:53-85 | init waits 50 ms; sends 0x30 three times with 6, 2 and 11 ms after them; sends 0x20 with no wait; sends 0x28, 0x08, 0x01 and 0x06 with 2, 2, 4 and 2 ms after them; ends with 0x0C and no wait; it sends no data byte, and the display-control byte it leaves is 0x0C |
| Protocol.ClearSequence | HD44780_I2C/HD44780-TWI.c:91-95 | clear sends 0x01 and then waits 2 ms, where init waits 4 ms after the same instruction |
| Protocol.EncodePairStepwise | HD44780_I2C/HD44780-TWI.c:93-94 | the trace of a two-step list is its two events appended one at a time |
| Protocol.WakeUpStepwise | HD44780_I2C/HD44780-TWI.c:53-61 | the wake-up trace is the power-on delay, then three START_INIT transactions each followed by its delay |
| Protocol.ConfigStepwise | HD44780_I2C/HD44780-TWI.c:64-73 | the configuration trace is the 4-bit, function-set and display-off transactions with their delays |
| Protocol.FinishStepwise | HD44780_I2C/HD44780-TWI.c:76-85 | the final trace is the clear, entry-mode and display-on transactions with their delays |
| Protocol.InitTracePhases | HD44780_I2C/HD44780-TWI.c:47-86 | the init trace is the wake-up, configuration and final traces in a row |
| HD44780Twi.Driver.constructor | HD44780_I2C/HD44780-TWI.c:40-41 | the globals as the program starts: a buffer of the given size filled with zeros, as a file-scope C array is, `displayCMD` 0, nothing sent yet |
| HD44780Twi.Driver.Transmit | HD44780_I2C/HD44780-TWI.c:143 | the first five buffer bytes go out as one transaction |
| HD44780Twi.Driver.DelayMs | HD44780_I2C/HD44780-TWI.c:53 | a busy-wait appends its delay to the trace |
| HD44780Twi.Driver.SendCmd | HD44780_I2C/HD44780-TWI.c:150-163 | appends exactly one event, the instruction's transaction; leaves the address byte and the instruction frame in buffer bytes 0-4 and the rest of the buffer unchanged |
| HD44780Twi.Driver.SendData | HD44780_I2C/HD44780-TWI.c:131-144 | appends exactly one event, the data transaction; leaves the address byte and the data frame in buffer bytes 0-4 and the rest of the buffer unchanged |
| HD44780Twi.Driver.Init | HD44780_I2C/HD44780-TWI.c:47-86 | appends exactly the encoding of the init step list; leaves `displayCMD` equal to 0x0C and the display-on instruction in the buffer |
| HD44780Twi.Driver.LcdClear | HD44780_I2C/HD44780-TWI.c:91-95 | appends exactly the clear instruction and a 2 ms delay |
| HD44780Twi.Driver.SetCursor | HD44780_I2C/HD44780-TWI.c:104-125 | appends exactly one transaction, the cursor instruction for (row, col) |
| HD44780Twi.Driver.SendString | HD44780_I2C/HD44780-TWI.c:170-177 | appends one data transaction per character before the first NUL, in order, and nothing for an empty string; the buffer ends holding the last character's frame, or is untouched; `displayCMD` is not touched |
| HD44780Twi.Driver.DisplayOnOff | HD44780_I2C/HD44780-TWI.c:182-196 | sets or clears the display bit of `displayCMD` and keeps the others; then appends the DISPLAY_CONTROL instruction carrying the new byte and a 4 ms delay |
| HD44780Twi.Driver.CursorOnOff | HD44780_I2C/HD44780-TWI.c:201-214 | sets or clears the cursor bit of `displayCMD` and keeps the others; then appends the DISPLAY_CONTROL instruction carrying the new byte and a 4 ms delay |
| HD44780Twi.Driver.CursorBlinkingOnOff | HD44780_I2C/HD44780-TWI.c:219-232 | sets or clears the blink bit of `displayCMD` and keeps the others; then appends the DISPLAY_CONTROL instruction carrying the new byte and a 4 ms delay |
| HD44780Twi.InitHomeAndWrite | HD44780_I2C/HD44780-TWI.c:47-86 | after init, cursor home and writing "A=", what reached the bus decodes to exactly the init steps, then instruction 0x80, then data 0x41 and 0x3D; `displayCMD` is 0x0C |
| HD44780Twi.DisplayOffThenBlink | HD44780_I2C/HD44780-TWI.c:182-232 | display off then blink on leaves `displayCMD` with the display bit clear and the blink bit set, and appends exactly the two toggle transactions with their 4 ms delays, the first carrying the byte with the display bit cleared |

## Left out

- The I2C transport is not modelled. This covers `TWI_Master_Initialise`, `sei()` and the interrupt-driven `TWI_Start_Transceiver_With_Data`, and `TWI_Master.h` is not part of this model. A transmit appends the five bytes to the ghost trace, and the transport's busy state and errors are not modelled.
- `TWI_WRITE << TWI_RW_BIT` is a constructor parameter, because its definition is not part of this model. Only its address part, 0x4E, is fixed.
- `TWI_BUFFER_SIZE` is a constructor parameter of at least 5, for the same reason.
- Real timing is not modelled. `_delay_ms` is a busy-wait, and the trace records only its millisecond argument.
- The enable-pulse width is not modelled. It relies on I2C bus latency, which is not modelled.
- `HD44780_I2C/main.c` is a demonstration program and is not part of this model. It contains port-register writes, an endless loop and `itoa`.
- The effect of the instructions on the display (DDRAM contents, cursor position) is not modelled. So properties such as "clearing twice is the same as clearing once" are not stated.
- `State_t` is a two-valued datatype. The C enum can hold other integers, which the `switch` in each toggle would ignore.
- `send_string` takes the characters as a byte sequence that must contain a NUL, which is what a C string is. Pointer aliasing between the string and the driver's buffer is not modelled.
- Protocol.CursorAddress: addresses are stated only for 0 <= col < 20. For other columns the model reduces `base + col` modulo 256, as the narrowing to `char` does on avr-gcc. On the AVR target `int` is 16 bits, so `base + col` overflows, which is undefined behaviour, for `col` near 32767; the model's `col` is unbounded and takes the wrap-around result there (see `Protocol.ToByte` and `Protocol.CursorColumnUnchecked`). The model also follows avr-gcc for the signed `char` argument and for `cmd << 4` on a negative `char` (`HD44780-TWI.c:155`): it works on the byte's bit pattern.
- HD44780Twi.Driver.Init: the postcondition does not mention `TWI_Master_Initialise` and `sei()`. These are transport set-up calls and are left out above.
