/**
 * The asynchronous I2C slave driver: the descriptor, its control operations, the three
 * handlers the hardware layer calls on its events, and the byte-stream read/write facade.
 *
 * The hardware layer underneath is abstracted as ghost state of the descriptor: whether the
 * driver's handlers are installed, the programmed address, the enabled interrupt sources and
 * the log of every byte handed to the transmitter. User callbacks are identified by a
 * number; invoking one appends an entry to a ghost trace.
 */
module I2cSlave {
  import opened Common
  import opened Bits
  import opened RingBuffers
  import opened Transmit

  /** A non-NULL callback function, identified by a number. */
  type Handler = nat

  // enum i2c_s_async_callback_type
  const I2C_S_ERROR: int := 0
  const I2C_S_TX_PENDING: int := 1
  const I2C_S_TX_COMPLETE: int := 2
  const I2C_S_RX_COMPLETE: int := 3

  datatype CallbackKind = ErrorCb | TxPendingCb | TxCompleteCb | RxCompleteCb

  /** struct i2c_s_async_callbacks: four independently nullable slots. */
  datatype Callbacks = Callbacks(error: Option<Handler>, txPending: Option<Handler>,
                                 tx: Option<Handler>, rx: Option<Handler>)

  const NoCallbacks := Callbacks(None, None, None, None)

  /** Interrupt sources of the hardware layer (I2C_S_DEVICE_*). */
  datatype IrqSource = DeviceError | DeviceTx | DeviceRxComplete

  /** What a callback finds in the descriptor when it is called: the queued received bytes and the cursor and length. */
  datatype Observed = Observed(rxQueued: seq<Byte>, txPor: nat, txLength: nat)

  /** One call of a user callback, with the descriptor state it observes. */
  datatype Invocation = Invoked(kind: CallbackKind, handler: Handler, seen: Observed)

  /** Calling the callback in a slot, if one is registered, on the state seen. */
  function Fire(slot: Option<Handler>, kind: CallbackKind, seen: Observed): seq<Invocation>
  {
    match slot
    case None => []
    case Some(h) => [Invoked(kind, h, seen)]
  }

  /** `_i2c_s_async_set_irq_state(src, on)` */
  function SetIrq(enabled: set<IrqSource>, src: IrqSource, on: bool): (r: set<IrqSource>)
    ensures (src in r) == on
    ensures forall other :: other != src ==> (other in r <==> other in enabled)
  {
    if on then enabled + {src} else enabled - {src}
  }

  /**
   * The address handed to the hardware for a requested one: in 7-bit mode only the low
   * seven bits (`address & 0x7F`), in 10-bit mode the address unmasked.
   */
  function ProgrammedAddress(address: Uint16, tenBit: bool): (r: Uint16)
    ensures tenBit ==> r == address
    ensures !tenBit ==> r == address % 128
    ensures r <= address
    ensures address < 128 ==> r == address
  {
    if !tenBit then
      assert Pow2(7) == 128;
      BitAndLowMask(address, 7, 0x7F);
      var low := BitAnd(address, 0x7F);
      assert low == address % 128;
      if address < 128 then
        ModUnique(address, 128, 0, address);
        low
      else low
    else address
  }

  lemma ProgrammedAddressExamples()
    ensures ProgrammedAddress(0x55, false) == 0x55
    ensures ProgrammedAddress(0x182, false) == 0x02
    ensures ProgrammedAddress(0x182, true) == 0x182
  {
  }

  /** struct i2c_s_async_descriptor together with the hardware state it drives. */
  class Descriptor {
    /** The hardware's addressing mode, as `_i2c_s_async_is_10bit_addressing_on` reports it. */
    const tenBitAddressing: bool
    const rx: RingBuffer
    var cbs: Callbacks
    /** Borrowed, not copied: the caller keeps ownership of the bytes being sent. */
    var txBuffer: array?<Byte>
    var txBufferLength: Uint16
    /** Index of the byte currently being shifted out. */
    var txPor: Uint16

    ghost var bound: bool
    ghost var hwAddress: Uint16
    ghost var irqEnabled: set<IrqSource>
    ghost var presented: seq<Byte>
    ghost var trace: seq<Invocation>

    ghost predicate Valid()
      reads this, rx
    {
      && rx.Valid()
      && ((txBufferLength == 0 && txPor == 0)
          || (txPor < txBufferLength && txBuffer != null && txBufferLength <= txBuffer.Length))
      && (bound ==> rx.capacity >= 1)
    }

    /** The transmit state machine as a value. */
    ghost function TxView(): TxState
      reads this, txBuffer
    {
      TxState(if txBuffer == null then [] else txBuffer[..], txBufferLength, txPor)
    }

    /** A zero-initialised descriptor, before `i2c_s_async_init`. */
    constructor (tenBitAddressing: bool)
      ensures Valid() && !bound && fresh(rx)
      ensures this.tenBitAddressing == tenBitAddressing
      ensures cbs == NoCallbacks && txBuffer == null && txBufferLength == 0 && txPor == 0
      ensures rx.capacity == 0 && rx.contents == []
      ensures hwAddress == 0 && irqEnabled == {} && presented == [] && trace == []
    {
      this.tenBitAddressing := tenBitAddressing;
      rx := new RingBuffer();
      cbs := NoCallbacks;
      txBuffer := null;
      txBufferLength := 0;
      txPor := 0;
      bound := false;
      hwAddress := 0;
      irqEnabled := {};
      presented := [];
      trace := [];
    }

    /**
     * `i2c_s_async_init`: bind the receive ring buffer, then the hardware (whose status is
     * hwStatus), then install the handlers and make the transmitter idle.
     */
    method Init(rxBufferLength: Uint16, hwStatus: int) returns (status: int)
      requires Valid()
      modifies this, rx
      ensures Valid()
      ensures rxBufferLength == 0 ==>
        && status == ERR_INVALID_ARG && unchanged(this)
        && rx.capacity == old(rx.capacity) && rx.contents == old(rx.contents)
      ensures rxBufferLength != 0 ==> rx.capacity == rxBufferLength && rx.contents == []
      ensures rxBufferLength != 0 && hwStatus != ERR_NONE ==> status == hwStatus && unchanged(this)
      ensures rxBufferLength != 0 && hwStatus == ERR_NONE ==>
        && status == ERR_NONE && bound && txPor == 0 && txBufferLength == 0
        && cbs == old(cbs) && txBuffer == old(txBuffer) && hwAddress == old(hwAddress)
        && irqEnabled == old(irqEnabled) && presented == old(presented) && trace == old(trace)
    {
      var rbStatus := rx.Init(rxBufferLength);
      if rbStatus != ERR_NONE {
        return ERR_INVALID_ARG;
      }
      if hwStatus != ERR_NONE {
        return hwStatus;
      }
      bound := true;
      txPor := 0;
      txBufferLength := 0;
      status := ERR_NONE;
    }

    /** `i2c_s_async_set_addr` */
    method SetAddr(address: Uint16)
      requires Valid()
      modifies this
      ensures Valid() && bound == old(bound)
      ensures hwAddress == ProgrammedAddress(address, tenBitAddressing)
      ensures cbs == old(cbs) && txBuffer == old(txBuffer) && txBufferLength == old(txBufferLength)
      ensures txPor == old(txPor) && irqEnabled == old(irqEnabled)
      ensures presented == old(presented) && trace == old(trace)
    {
      if !tenBitAddressing {
        hwAddress := BitAnd(address, 0x7F);
        return;
      }
      hwAddress := address;
    }

    /**
     * `i2c_s_async_register_callback`: store func in the slot for kind and enable that
     * slot's interrupt source exactly when func is not NULL. The tx-pending and tx-complete
     * slots share one source. An unknown kind changes nothing.
     */
    method RegisterCallback(kind: int, func: Option<Handler>) returns (status: int)
      requires Valid()
      modifies this
      ensures Valid() && bound == old(bound)
      ensures txBuffer == old(txBuffer) && txBufferLength == old(txBufferLength) && txPor == old(txPor)
      ensures hwAddress == old(hwAddress) && presented == old(presented) && trace == old(trace)
      ensures !(I2C_S_ERROR <= kind <= I2C_S_RX_COMPLETE) ==>
        status == ERR_INVALID_DATA && cbs == old(cbs) && irqEnabled == old(irqEnabled)
      ensures kind == I2C_S_ERROR ==>
        && status == ERR_NONE && cbs == old(cbs).(error := func)
        && irqEnabled == SetIrq(old(irqEnabled), DeviceError, func.Some?)
      ensures kind == I2C_S_TX_PENDING ==>
        && status == ERR_NONE && cbs == old(cbs).(txPending := func)
        && irqEnabled == SetIrq(old(irqEnabled), DeviceTx, func.Some?)
      ensures kind == I2C_S_TX_COMPLETE ==>
        && status == ERR_NONE && cbs == old(cbs).(tx := func)
        && irqEnabled == SetIrq(old(irqEnabled), DeviceTx, func.Some?)
      ensures kind == I2C_S_RX_COMPLETE ==>
        && status == ERR_NONE && cbs == old(cbs).(rx := func)
        && irqEnabled == SetIrq(old(irqEnabled), DeviceRxComplete, func.Some?)
    {
      if kind == I2C_S_ERROR {
        cbs := cbs.(error := func);
        irqEnabled := SetIrq(irqEnabled, DeviceError, func.Some?);
      } else if kind == I2C_S_TX_PENDING {
        cbs := cbs.(txPending := func);
        irqEnabled := SetIrq(irqEnabled, DeviceTx, func.Some?);
      } else if kind == I2C_S_TX_COMPLETE {
        cbs := cbs.(tx := func);
        irqEnabled := SetIrq(irqEnabled, DeviceTx, func.Some?);
      } else if kind == I2C_S_RX_COMPLETE {
        cbs := cbs.(rx := func);
        irqEnabled := SetIrq(irqEnabled, DeviceRxComplete, func.Some?);
      } else {
        return ERR_INVALID_DATA;
      }
      status := ERR_NONE;
    }

    /** `i2c_s_async_get_bytes_received`: the number of received bytes not yet read. */
    method GetBytesReceived() returns (n: int)
      requires Valid()
      ensures n == |rx.contents| && 0 <= n <= rx.capacity
    {
      n := rx.Num();
    }

    /** `i2c_s_async_get_bytes_sent`: the index reached in the armed buffer, 0 when idle. */
    method GetBytesSent() returns (n: int)
      requires Valid()
      ensures n == txPor
      ensures 0 <= n && (n < txBufferLength || (n == 0 && txBufferLength == 0))
    {
      n := txPor;
    }

    /** `i2c_s_async_flush_rx_buffer` */
    method FlushRxBuffer() returns (status: int)
      requires Valid()
      modifies rx
      ensures Valid()
      ensures status == ERR_NONE && rx.contents == [] && rx.capacity == old(rx.capacity)
    {
      status := rx.Flush();
    }

    /**
     * `i2c_s_async_tx`: the hardware asks for the next byte. With nothing armed the
     * tx-pending callback is called; otherwise the cursor advances and either the next byte
     * is handed to the hardware or, after the last one, the transmitter returns to idle and
     * the tx-complete callback is called.
     */
    method Tx()
      requires Valid() && bound
      modifies this
      ensures Valid() && bound
      ensures TxView() == TxEvent(old(TxView())).next
      ensures presented == old(presented) +
        (match TxEvent(old(TxView())).action
         case Present(b) => [b]
         case _ => [])
      ensures trace == old(trace) +
        (match TxEvent(old(TxView())).action
         case Pending => Fire(cbs.txPending, TxPendingCb, Observed(rx.contents, 0, 0))
         case Complete => Fire(cbs.tx, TxCompleteCb, Observed(rx.contents, 0, 0))
         case Present(_) => [])
      ensures txBuffer == old(txBuffer) && cbs == old(cbs) && hwAddress == old(hwAddress)
      ensures irqEnabled == old(irqEnabled)
    {
      if txBufferLength == 0 {
        trace := trace + Fire(cbs.txPending, TxPendingCb, Observed(rx.contents, txPor, txBufferLength));
      } else {
        txPor := txPor + 1;
        if txPor != txBufferLength {
          presented := presented + [txBuffer[txPor]];
        } else {
          txPor := 0;
          txBufferLength := 0;
          trace := trace + Fire(cbs.tx, TxCompleteCb, Observed(rx.contents, txPor, txBufferLength));
        }
      }
    }

    /** `i2c_s_async_byte_received`: queue the byte, then call the rx callback once. */
    method ByteReceived(data: Byte)
      requires Valid() && bound
      modifies this, rx
      ensures Valid() && bound
      ensures rx.capacity == old(rx.capacity)
      ensures rx.contents == FifoPut(old(rx.contents), rx.capacity, data)
      ensures trace == old(trace) + Fire(cbs.rx, RxCompleteCb, Observed(rx.contents, txPor, txBufferLength))
      ensures cbs.rx.Some? ==> trace[|trace| - 1].seen.rxQueued[|rx.contents| - 1] == data
      ensures cbs == old(cbs) && txBuffer == old(txBuffer) && txBufferLength == old(txBufferLength)
      ensures txPor == old(txPor) && hwAddress == old(hwAddress) && irqEnabled == old(irqEnabled)
      ensures presented == old(presented)
    {
      rx.Put(data);
      trace := trace + Fire(cbs.rx, RxCompleteCb, Observed(rx.contents, txPor, txBufferLength));
    }

    /** `i2c_s_async_error`: only the error callback is called; no driver state changes. */
    method Error()
      requires Valid() && bound
      modifies this
      ensures Valid() && bound
      ensures trace == old(trace) + Fire(cbs.error, ErrorCb, Observed(rx.contents, txPor, txBufferLength))
      ensures cbs == old(cbs) && txBuffer == old(txBuffer) && txBufferLength == old(txBufferLength)
      ensures txPor == old(txPor) && hwAddress == old(hwAddress) && irqEnabled == old(irqEnabled)
      ensures presented == old(presented)
    {
      trace := trace + Fire(cbs.error, ErrorCb, Observed(rx.contents, txPor, txBufferLength));
    }

    /**
     * `i2c_s_async_read`: take the number of queued bytes once, then move
     * min(that number, length) of them, oldest first, into buf.
     */
    method Read(buf: array<Byte>, length: Uint16) returns (wasRead: nat)
      requires Valid() && bound
      requires 0 < length <= buf.Length
      modifies buf, rx
      ensures Valid()
      ensures wasRead == Min(|old(rx.contents)|, length)
      ensures buf[..wasRead] == old(rx.contents)[..wasRead]
      ensures buf[wasRead..] == old(buf[wasRead..])
      ensures rx.contents == old(rx.contents)[wasRead..] && rx.capacity == old(rx.capacity)
    {
      ghost var q := rx.contents;
      ghost var b := buf[..];
      wasRead := 0;
      var num := rx.Num();
      while wasRead < num && wasRead < length
        invariant wasRead <= num && wasRead <= length && num == |q|
        invariant rx.Valid() && rx.capacity == old(rx.capacity)
        invariant rx.contents == q[wasRead..]
        invariant buf[..wasRead] == q[..wasRead]
        invariant buf[wasRead..] == b[wasRead..]
      {
        ghost var pre := buf[..];
        var st := rx.Get(buf, wasRead);
        assert buf[..] == pre[wasRead := q[wasRead]];
        assert buf[wasRead + 1..] == pre[wasRead + 1..];
        assert pre[wasRead + 1..] == pre[wasRead..][1..] && b[wasRead + 1..] == b[wasRead..][1..];
        assert buf[..wasRead + 1] == buf[..wasRead] + [q[wasRead]];
        wasRead := wasRead + 1;
      }
    }

    /**
     * `i2c_s_async_write`: refused with ERR_BUSY while a transmission is in progress;
     * otherwise arm buf[0..length-1] and hand buf[0] to the hardware.
     */
    method Write(buf: array<Byte>, length: Uint16) returns (r: int)
      requires Valid() && bound
      requires 0 < length <= buf.Length
      modifies this
      ensures Valid() && bound
      ensures old(txPor != txBufferLength) ==>
        && r == ERR_BUSY && txBuffer == old(txBuffer) && txBufferLength == old(txBufferLength)
        && txPor == old(txPor) && presented == old(presented)
      ensures old(txPor == txBufferLength) ==>
        && r == length && txBuffer == buf && txBufferLength == length && txPor == 0
        && presented == old(presented) + [buf[0]]
        && TxView() == TxState(buf[..], length, 0)
      ensures cbs == old(cbs) && hwAddress == old(hwAddress) && irqEnabled == old(irqEnabled)
      ensures trace == old(trace)
    {
      if txPor != txBufferLength {
        return ERR_BUSY;
      }
      txBuffer := buf;
      txBufferLength := length;
      presented := presented + [txBuffer[0]];
      r := length;
    }
  }

  /**
   * The end-to-end transmit scenario on an idle, bound descriptor whose tx-complete slot
   * holds handler 1 and whose tx-pending slot holds handler 2: write([0x10, 0x20, 0x30], 3),
   * three transmit events (cursor 1, 2, then idle with tx-complete) and a fourth one that
   * finds nothing armed and calls tx-pending.
   */
  method TransmitScenario(d: Descriptor) returns (n: int)
    requires d.Valid() && d.bound && d.txBufferLength == 0
    requires d.cbs.tx == Some(1) && d.cbs.txPending == Some(2)
    modifies d
    ensures n == 3
    ensures d.Valid() && d.txPor == 0 && d.txBufferLength == 0
    ensures d.presented == old(d.presented) + [0x10, 0x20, 0x30]
    ensures d.trace == old(d.trace) +
      [Invoked(TxCompleteCb, 1, Observed(d.rx.contents, 0, 0)), Invoked(TxPendingCb, 2, Observed(d.rx.contents, 0, 0))]
  {
    n := SendThree(d);
    d.Tx();
  }

  /** write([0x10, 0x20, 0x30], 3) on an idle descriptor, then the three events that drain it. */
  method SendThree(d: Descriptor) returns (n: int)
    requires d.Valid() && d.bound && d.txBufferLength == 0 && d.cbs.tx == Some(1)
    modifies d
    ensures n == 3
    ensures d.Valid() && d.bound && d.txPor == 0 && d.txBufferLength == 0 && d.cbs == old(d.cbs)
    ensures d.presented == old(d.presented) + [0x10, 0x20, 0x30]
    ensures d.trace == old(d.trace) + [Invoked(TxCompleteCb, 1, Observed(d.rx.contents, 0, 0))]
  {
    var buf := new Byte[3];
    buf[0], buf[1], buf[2] := 0x10, 0x20, 0x30;
    n := d.Write(buf, 3);
    d.Tx();
    assert d.txPor == 1 && d.presented == old(d.presented) + [0x10, 0x20];
    d.Tx();
    d.Tx();
  }
}
