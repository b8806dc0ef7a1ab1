/**
 * The application: the bus address read from the ADDR jumpers, the I2C slave setup, and
 * one iteration of the main loop, which polls the driver for a command byte and updates
 * the display.
 */
module Firmware {
  import opened Common
  import opened Bits
  import opened I2cSlave
  import opened SevenSegment

  const IIC_BASE_ADDRESS: Byte := 0x10

  /** The callbacks `setup_iic` installs, `I2C_0_error` and `I2C_0_tx_complete`. */
  const I2C_0_ERROR_HANDLER: Handler := 1
  const I2C_0_TX_COMPLETE_HANDLER: Handler := 2

  /**
   * `get_address`, with the levels sensed on the three jumper inputs given: the offset has
   * ADDR1 in bit 0, ADDR2 in bit 1 and ADDR3 in bit 2, added to the base address 0x10.
   */
  method GetAddress(addr1: bool, addr2: bool, addr3: bool) returns (address: Byte)
    ensures address == IIC_BASE_ADDRESS + (if addr1 then 1 else 0) + (if addr2 then 2 else 0)
                                        + (if addr3 then 4 else 0)
    ensures IIC_BASE_ADDRESS <= address <= IIC_BASE_ADDRESS + 7
    ensures Bit(address, 0) == addr1 && Bit(address, 1) == addr2 && Bit(address, 2) == addr3
    ensures ProgrammedAddress(address, false) == address
  {
    var offset: Byte := 0;
    if addr1 {
      offset := offset + 1;
    }
    if addr2 {
      offset := offset + 2;
    }
    if addr3 {
      offset := offset + 4;
    }
    address := IIC_BASE_ADDRESS + offset;
    assert Bit(address, 2) == Bit(address / 2 / 2, 0);
  }

  /** The command bytes the main loop hands to `show_digit`: the digits and the off command. */
  predicate CommandAccepted(cmd: Byte)
  {
    cmd <= NINE || cmd == IIC_COMMAND_OFF
  }

  /** The globals of the application that the main loop works on. */
  class Firmware {
    const i2c: Descriptor
    /** `cmd_byte`, which the driver reads into. */
    const cmdByte: array<Byte>
    /** The levels of the segment pins A..G. */
    var segments: seq<bool>

    ghost predicate Valid()
      reads this, i2c, i2c.rx
    {
      i2c.Valid() && i2c.bound && cmdByte.Length == 1 && |segments| == 7
    }

    /** After `led_init`: every segment pin low, and `cmd_byte` 0. */
    constructor (i2c: Descriptor)
      requires i2c.Valid() && i2c.bound
      ensures Valid() && this.i2c == i2c && fresh(cmdByte)
      ensures cmdByte[0] == 0 && segments == [false, false, false, false, false, false, false]
    {
      this.i2c := i2c;
      cmdByte := new Byte[1](_ => 0);
      segments := [false, false, false, false, false, false, false];
    }

    /** `setup_iic`: install the error and tx-complete callbacks and program the address. */
    method SetupIic(address: Byte)
      requires Valid()
      modifies i2c
      ensures Valid()
      ensures i2c.hwAddress == ProgrammedAddress(address, i2c.tenBitAddressing)
      ensures address < 128 ==> i2c.hwAddress == address
      ensures i2c.cbs == old(i2c.cbs).(error := Some(I2C_0_ERROR_HANDLER), tx := Some(I2C_0_TX_COMPLETE_HANDLER))
      ensures i2c.irqEnabled == old(i2c.irqEnabled) + {DeviceError, DeviceTx}
      ensures i2c.txBuffer == old(i2c.txBuffer)
      ensures i2c.txBufferLength == old(i2c.txBufferLength) && i2c.txPor == old(i2c.txPor)
      ensures i2c.presented == old(i2c.presented) && i2c.trace == old(i2c.trace)
      ensures i2c.rx.capacity == old(i2c.rx.capacity) && i2c.rx.contents == old(i2c.rx.contents)
    {
      var st := i2c.RegisterCallback(I2C_S_ERROR, Some(I2C_0_ERROR_HANDLER));
      st := i2c.RegisterCallback(I2C_S_TX_COMPLETE, Some(I2C_0_TX_COMPLETE_HANDLER));
      i2c.SetAddr(address);
    }

    /**
     * One iteration of the main loop: read at most one byte; when one was read and it is a
     * digit or the off command, show it; otherwise the display keeps what it showed.
     */
    method PollOnce()
      requires Valid()
      modifies this, cmdByte, i2c.rx
      ensures Valid()
      ensures i2c.rx.capacity == old(i2c.rx.capacity)
      ensures var q := old(i2c.rx.contents);
        if q == [] then
          && segments == old(segments) && cmdByte[0] == old(cmdByte[0]) && i2c.rx.contents == []
        else
          && cmdByte[0] == q[0] && i2c.rx.contents == q[1..]
          && segments == if CommandAccepted(q[0]) then ShowDigit(q[0]) else old(segments)
    {
      var n := i2c.Read(cmdByte, 1);
      if n != 0 {
        if CommandAccepted(cmdByte[0]) {
          segments := ShowDigit(cmdByte[0]);
        }
      }
    }
  }
}
