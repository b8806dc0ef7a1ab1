# Scoreboard firmware: asynchronous I2C slave driver and digit display

A Dafny model of the firmware of a seven-segment scoreboard digit. The board is an I2C
slave: the bus master sends one command byte per digit (0–9 shows the digit, 0xFF blanks it,
any other byte is ignored), and the board answers on an address set by three jumpers.

The model covers two parts:

- **The asynchronous I2C slave driver** (`start/hal/src/hal_i2c_s_async.c`). This is the
  descriptor with its transmit buffer, length and cursor (`tx_por`), its receive ring
  buffer and its four optional callbacks. It has three handlers that the hardware layer
  calls: byte requested, byte received and error. It has a non-blocking `read`/`write`
  facade. Its control operations are `init`, `set_addr`, `register_callback`, the two byte
  counters and the receive flush.
- **The application** (`start/main.c`). This covers the digit-to-segment table
  (`show_digit`), the jumper address (`get_address`), the heartbeat LED's software PWM
  (`TIMER_0_task2_cb`), `setup_iic` and one iteration of the main loop's command filter.

Files and modules:

| file | module | contents |
|---|---|---|
| common.dfy | Common | `uint8_t`/`uint16_t`, the framework's status codes, `Option`, `Min` |
| bits.dfy | Bits | C's `&` and bit tests over naturals, with their meaning proved (`a & 2^k`, `a & (2^k-1) == a % 2^k`) |
| ringbuffer.dfy | RingBuffers | the receive ring buffer as a bounded FIFO that overwrites the oldest byte when full (class `RingBuffer`, pure `FifoPut`) |
| transmit.dfy | Transmit | the transmit path as a pure state machine (`TxState`, `TxEvent`) and the whole-transfer lemmas |
| i2c_slave.dfy | I2cSlave | the descriptor class `Descriptor`, proved against `Transmit` and `RingBuffers` |
| seven_segment.dfy | SevenSegment | `show_digit`'s masks and pin levels, checked against the digit glyphs of the wiring picture |
| heartbeat.dfy | Heartbeat | the heartbeat PWM state machine (pure `Step`, class `Heartbeat`) |
| firmware.dfy | Firmware | `get_address`, `setup_iic` and one main-loop iteration |

State that the driver keeps in hardware is ghost state of `Descriptor`:

- `bound`: the driver's handlers and I/O functions are installed;
- `hwAddress`: the last address programmed;
- `irqEnabled`: the enabled interrupt sources;
- `presented`: a log of every byte handed to the transmitter;
- `trace`: a log of callback invocations.

The addressing mode reported by the hardware is the constant `tenBitAddressing`. A
callback is a handler number. An invocation appends `Invoked(kind, handler, seen)` to `trace`, where `seen` is what the callback finds in the descriptor: the queued received bytes, the cursor and the length.

Details of the code that the model follows:

- `write` does not assign `tx_por`. The cursor is 0 on acceptance only because a
  non-busy descriptor is always at 0/0. `Descriptor.Write` proves this from the descriptor
  invariant.
- `i2c_s_async_abort_tx` only delegates to the hardware layer. It does not reset the
  cursor or the length.
- `init` `ASSERT`s a non-zero ring-buffer length. The model assumes that `ringbuffer_init` rejects only a zero size. `Descriptor.Init` does not take the `ASSERT` as a precondition, so the `ERR_INVALID_ARG` path of lines 70-72 stays reachable.
- `read` and `write` do not return an error for a missing buffer or a zero length. They
  `ASSERT`, so these are preconditions here.
- When the ring buffer accepts the storage but the hardware init fails, `init` returns the
  hardware status. The ring buffer has already been re-initialised by then.
- The tx-pending and tx-complete slots share one interrupt enable. Clearing either one
  disables the transmit interrupt, even when the other slot is still registered.

## Model

| member | source | states |
|---|---|---|
| I2cSlave.Descriptor.constructor | start/hal/include/hal_i2c_s_async.h:89-97 | a descriptor before init: no callbacks, no transmit buffer, length and cursor 0, unbound ring buffer |
| I2cSlave.Descriptor.Init | start/hal/src/hal_i2c_s_async.c:63-90 | zero ring-buffer size gives ERR_INVALID_ARG and changes nothing; a failing hardware init returns its status and leaves the descriptor as it was, with the ring buffer re-initialised; success binds the handlers and leaves the transmitter idle (cursor == length == 0) with an empty ring buffer of the given capacity |
| I2cSlave.ProgrammedAddress | start/hal/src/hal_i2c_s_async.c:129-133 | 7-bit mode programs `address & 0x7F`, proved equal to `address % 128`; 10-bit mode programs the address unmasked; an address below 128 is unchanged |
| I2cSlave.ProgrammedAddressExamples | start/hal/src/hal_i2c_s_async.c:129-133 | 0x55 stays 0x55 and 0x182 becomes 0x02 in 7-bit mode; 0x182 stays unmasked in 10-bit mode |
| I2cSlave.Descriptor.SetAddr | start/hal/src/hal_i2c_s_async.c:125-134 | the hardware address becomes `ProgrammedAddress(address, mode)`; binding, transport state, callbacks, interrupt enables and logs are unchanged |
| I2cSlave.SetIrq | start/hal/src/hal_i2c_s_async.c:147-159 | setting an interrupt source's enable changes only that source and makes it equal to the requested state |
| I2cSlave.Descriptor.RegisterCallback | start/hal/src/hal_i2c_s_async.c:139-166 | each of the four kinds stores func only in its own slot and sets its source's enable to `func != NULL`; tx-pending and tx-complete both drive the TX source; an unknown kind returns ERR_INVALID_DATA and changes nothing |
| I2cSlave.Descriptor.GetBytesReceived | start/hal/src/hal_i2c_s_async.c:183-188 | the number of unread received bytes, at most the ring-buffer capacity |
| I2cSlave.Descriptor.GetBytesSent | start/hal/src/hal_i2c_s_async.c:193-198 | returns `tx_por`, which is below the armed length, or 0 when idle |
| I2cSlave.Descriptor.FlushRxBuffer | start/hal/src/hal_i2c_s_async.c:203-208 | the ring buffer is empty afterwards, whatever it held; its capacity is kept |
| I2cSlave.Descriptor.Tx | start/hal/src/hal_i2c_s_async.c:245-262 | the new cursor and length are `TxEvent` of the old ones; a byte is presented only on a Present step; tx-pending is called (if registered) only when idle, and tx-complete only on completion, after the cursor and length are already back at 0/0, which is the state both callbacks see; callbacks, buffer and enables are unchanged |
| I2cSlave.Descriptor.ByteReceived | start/hal/src/hal_i2c_s_async.c:269-278 | the byte is put into the ring buffer, then the rx callback is invoked exactly once if registered; the callback sees the queue after the put, with the new byte as its newest entry; no transmit state changes |
| I2cSlave.Descriptor.Error | start/hal/src/hal_i2c_s_async.c:285-292 | only the error callback is invoked, if registered, on the unchanged driver state; no driver state changes |
| I2cSlave.Descriptor.Read | start/hal/src/hal_i2c_s_async.c:303-320 | copies exactly `min(num, length)` bytes into `buf[0..]` in FIFO order, removes them from the ring buffer, leaves the rest of buf untouched and returns that count (possibly 0) |
| I2cSlave.Descriptor.Write | start/hal/src/hal_i2c_s_async.c:332-347 | when `tx_por != tx_buffer_length` returns ERR_BUSY and keeps buffer, length, cursor and hardware log; otherwise arms buf/length at cursor 0, presents `buf[0]` and returns length |
| I2cSlave.TransmitScenario | start/hal/src/hal_i2c_s_async.c:245-262 | on an idle descriptor with tx-complete and tx-pending registered, write([0x10,0x20,0x30], 3) and four tx events present exactly those three bytes, end idle, and call tx-complete once and then tx-pending once, each seeing an idle transmitter; the write returns 3 |
| Transmit.BusyIffArmed | start/hal/src/hal_i2c_s_async.c:338-340 | under the cursor invariant, the busy test `tx_por != tx_buffer_length` holds exactly when a buffer is armed (length != 0) |
| Transmit.TxEvent | start/hal/src/hal_i2c_s_async.c:249-261 | one tx event keeps `tx_por < tx_buffer_length` or 0/0; when idle it only asks for data and changes nothing; otherwise it presents the next byte in index order, or after the last one completes and returns to 0/0 |
| Transmit.TxDrain | start/hal/src/hal_i2c_s_async.c:253-260 | from any armed state, the remaining `length - por` events present the bytes after the cursor in order, then complete exactly once and return to idle |
| Transmit.TransmitSequence | start/hal/src/hal_i2c_s_async.c:245-262 | after write(buf, n), n tx events send `buf[0..n-1]` in order (buf[0] by the write itself), tx-complete is due exactly once (at the n-th event), and the final state is idle, so a following write is accepted |
| Transmit.IdleRunPending | start/hal/src/hal_i2c_s_async.c:249-252 | with nothing armed, any number of tx events only ask for data: no byte is presented, no completion is due, the state is unchanged |
| Transmit.ThreeByteExample | start/hal/src/hal_i2c_s_async.c:245-262 | write([0x10,0x20,0x30], 3): cursor 1, 2, then reset with completion; a further event finds nothing armed |
| RingBuffers.FifoPut | start/hal/src/hal_i2c_s_async.c:273 | a put appends the byte and, when the buffer is full, drops only the oldest unread byte (the result is the newest `capacity` bytes) |
| RingBuffers.PutAllKeepsNewest | start/hal/src/hal_i2c_s_async.c:273 | after any sequence of puts, the buffer holds the newest `capacity` bytes ever put, oldest first |
| RingBuffers.PutAllWithinCapacity | start/hal/src/hal_i2c_s_async.c:273 | without overflow nothing is lost and arrival order is kept |
| RingBuffers.PutAllOverflow | start/hal/src/hal_i2c_s_async.c:273 | putting capacity + k bytes into an empty buffer leaves exactly the last capacity bytes, in order |
| RingBuffers.OverflowExample | start/hal/src/hal_i2c_s_async.c:273 | capacity 4 given 0x41..0x45 holds 0x42..0x45 |
| RingBuffers.RingBuffer.constructor | start/hal/include/hal_i2c_s_async.h:93 | an unbound ring buffer: capacity 0, empty |
| RingBuffers.RingBuffer.Init | start/hal/src/hal_i2c_s_async.c:70-72 | a zero size is rejected with ERR_INVALID_ARG and changes nothing; otherwise the buffer is empty with the given capacity |
| RingBuffers.RingBuffer.Num | start/hal/src/hal_i2c_s_async.c:187 | the number of unread bytes, at most the capacity; `read` takes it once at line 312 |
| RingBuffers.RingBuffer.Put | start/hal/src/hal_i2c_s_async.c:273 | the contents become `FifoPut` of the old contents |
| RingBuffers.RingBuffer.Get | start/hal/src/hal_i2c_s_async.c:316 | the oldest byte moves into `dst[i]` and leaves the buffer; an empty buffer gives ERR_NOT_FOUND and changes nothing |
| RingBuffers.RingBuffer.Flush | start/hal/src/hal_i2c_s_async.c:207 | the buffer is empty afterwards with the same capacity |
| Bits.BitAndSingleBit | start/main.c:155-161 | `m & 2^k` is nonzero exactly when bit k of m is set |
| Bits.BitAndLowMask | start/hal/src/hal_i2c_s_async.c:130 | `a & (2^k - 1) == a % 2^k` |
| SevenSegment.ShowDigit | start/main.c:67-162 | seven levels; a digit 0–9 drives the levels of the digit table (segments A..G), any other byte drives every segment low |
| SevenSegment.SegmentMask | start/main.c:71-153 | every mask fits in 7 bits; the mask is nonzero exactly for the commands 0–9, so any other value (0xFF included) gives 0 |
| SevenSegment.SegmentLevels | start/main.c:155-161 | seven pin levels, A..G; each is high exactly when its bit (A = 0x01 … G = 0x40) is set in the mask |
| SevenSegment.DigitLevels | start/main.c:71-161 | the pin levels `show_digit` drives for each digit 0–9 |
| SevenSegment.GlyphAt | start/main.c:7-15 | the level table agrees, position by position, with the glyphs drawn with the wiring picture's segment places |
| SevenSegment.ShowDigitDrawsGlyph | start/main.c:71-161 | each digit command lights exactly the segments of that digit's glyph, given the wiring of segments A..G |
| SevenSegment.ShowDigitBlanksOthers | start/main.c:150-161 | any value above 9, including IIC_COMMAND_OFF (0xFF), drives every segment low |
| SevenSegment.EightAndOne | start/main.c:81-140 | EIGHT is mask 0x7F with all seven segments lit; ONE is mask 0x60 (F and G) |
| Firmware.GetAddress | start/main.c:165-198 | returns `0x10 + (ADDR1?1:0) + (ADDR2?2:0) + (ADDR3?4:0)`; it lies in [0x10, 0x17]; bits 0..2 read back the three jumpers; the 7-bit mask leaves it unchanged |
| Firmware.Firmware.constructor | start/main.c:221-237 | after `led_init` every segment pin is low; `cmd_byte` starts at 0 (main.c:308) |
| Firmware.Firmware.SetupIic | start/main.c:212-219 | the error and tx-complete callbacks are installed and their interrupt sources enabled, adding exactly DeviceError and DeviceTx to the enables; the strapped address (below 128) is programmed unchanged; transmit state, receive buffer, logs and other slots are unchanged |
| Firmware.Firmware.PollOnce | start/main.c:308-328 | one loop iteration: with no byte queued nothing changes (the ring buffer keeps its capacity in every case); otherwise one byte is consumed, and the display shows it exactly when it is 0–9 or 0xFF; any other byte leaves the display unchanged |
| Heartbeat.Step | start/main.c:263-279 | the counter stays in [0, 500) and wraps to 0 on reaching 500; the level changes only on a wrap, stays in [0, 100] and is in [1, 100] after any wrap; the direction flips exactly when the level is clamped, to 100 when rising or to 1 when falling |
| Heartbeat.RunFromStart | start/main.c:255-279 | from the initial statics, after k enabled ticks the counter is k mod 500; the level is 0 through the first period and in [1, 100] from the first wrap on |
| Heartbeat.Heartbeat.constructor | start/main.c:239-257 | heartbeat disabled; counter, level 0; direction falling |
| Heartbeat.Heartbeat.EnableTask | start/main.c:242-246 | the one-shot task sets `heartbeat_enabled` and changes nothing else |
| Heartbeat.Heartbeat.Tick | start/main.c:249-281 | while disabled nothing changes; while enabled the pin is driven to `counter > level` (low lights the LED) and the state becomes `Step` of the old state |

## Left out

- `i2c_s_async_deinit`, `enable`, `disable` and `get_status`. Each only calls the hardware layer, which is not part of this model.
- `i2c_s_async_get_version`. It returns a constant.
- `i2c_s_async_get_io_descriptor`. It hands out the descriptor's embedded I/O descriptor, whose `read` and `write` are modelled directly as `Descriptor.Read` and `Descriptor.Write`. The I/O descriptor itself is not modelled.
- `i2c_s_async_abort_tx`. It only delegates to the hardware layer and changes no driver state.
- The return codes of the hardware layer's `set_address`, `set_irq_state` and `write_byte`. They are not modelled. The only hardware status modelled is that of `_i2c_s_async_init`, given to `Init` as a parameter.
- I2cSlave.Descriptor.SetAddr: returns no status, because `i2c_s_async_set_addr` only passes on the hardware layer's return code.
- I2cSlave.Descriptor.Init: leaves the ghost hardware state (address, interrupt enables) unchanged, because what `_i2c_s_async_init` does to the hardware is not part of this model.
- The ring buffer's implementation (`utils_ringbuffer` is not part of this model). It is a bounded FIFO with the overwrite-oldest policy. Only a zero size is rejected. The storage array and its aliasing are not modelled.
- Critical sections and interrupt preemption. The model is sequential: each handler runs to completion between facade calls.
- What user callbacks do. This includes a tx-pending callback that calls `write` from inside the handler, and the register writes in `I2C_0_error` and `I2C_0_tx_complete`. A call is only recorded in the trace, together with the state it observes.
- The GPIO accesses: pin directions and the jumper probing in `get_address`, whose sensed levels are inputs. The segment and heartbeat pin writes are kept as levels.
- The timer task setup, `atmel_start_init` and the endless `while (1)`. One loop iteration is modelled (`PollOnce`).
- The 32-bit width of C `int` in the heartbeat. Under the invariant, the values stay within [-3, 500], so no wrap-around can occur.
- The 16-bit width of `tx_por`. Because `tx_por < tx_buffer_length <= 0xFFFF`, `++tx_por` cannot wrap.
- The status-code values come from the framework's err_codes.h, which is not part of this model: ERR_BUSY -4, ERR_NOT_FOUND -10, ERR_INVALID_ARG -13. The header documents ERR_INVALID_DATA as -1.
