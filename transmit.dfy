/**
 * The transmit path of the I2C slave driver as a state machine on values: the armed buffer,
 * its length (`tx_buffer_length`) and the cursor of the byte being shifted out (`tx_por`).
 */
module Transmit {
  import opened Common

  datatype TxState = TxState(buffer: seq<Byte>, length: nat, por: nat)

  /** The cursor never passes the length; they are equal only in the idle state 0/0. */
  predicate TxValid(s: TxState)
  {
    (s.length == 0 && s.por == 0) || (s.por < s.length <= |s.buffer|)
  }

  /** No transmission armed. */
  predicate Idle(s: TxState)
  {
    s.length == 0 && s.por == 0
  }

  /** The condition under which a write is refused with ERR_BUSY. */
  predicate Busy(s: TxState)
  {
    s.por != s.length
  }

  lemma BusyIffArmed(s: TxState)
    requires TxValid(s)
    ensures Busy(s) <==> !Idle(s)
    ensures Busy(s) <==> s.length != 0
  {
  }

  /** What one transmit event does besides updating the state. */
  datatype TxAction =
    | Pending        // nothing armed: the tx-pending callback is due
    | Present(b: Byte)  // the next byte is handed to the hardware
    | Complete       // the whole buffer is out: the tx-complete callback is due

  datatype TxOutcome = TxOutcome(next: TxState, action: TxAction)

  /** The hardware has shifted out the current byte and asks for the next one. */
  function TxEvent(s: TxState): (o: TxOutcome)
    requires TxValid(s)
    ensures TxValid(o.next) && o.next.buffer == s.buffer
    ensures Idle(s) ==> o == TxOutcome(s, Pending)
    ensures o.action.Pending? <==> Idle(s)
    ensures o.action.Complete? <==> s.length != 0 && s.por + 1 == s.length
    ensures o.action.Complete? ==> Idle(o.next)
    ensures o.action.Present? ==>
      o.next == s.(por := s.por + 1) && o.next.por < s.length && o.action.b == s.buffer[s.por + 1]
  {
    if s.length == 0 then TxOutcome(s, Pending)
    else if s.por + 1 != s.length then TxOutcome(s.(por := s.por + 1), Present(s.buffer[s.por + 1]))
    else TxOutcome(s.(por := 0, length := 0), Complete)
  }

  /** k successive transmit events: the final state and the actions in order. */
  function TxRun(s: TxState, k: nat): (r: (TxState, seq<TxAction>))
    requires TxValid(s)
    ensures TxValid(r.0) && r.0.buffer == s.buffer && |r.1| == k
    decreases k
  {
    if k == 0 then (s, [])
    else
      var o := TxEvent(s);
      var rest := TxRun(o.next, k - 1);
      (rest.0, [o.action] + rest.1)
  }

  /** Presenting each byte of bs in turn. */
  function Presents(bs: seq<Byte>): (acts: seq<TxAction>)
    ensures |acts| == |bs|
    ensures forall i :: 0 <= i < |bs| ==> acts[i] == Present(bs[i])
  {
    if bs == [] then [] else [Present(bs[0])] + Presents(bs[1..])
  }

  /** The bytes handed to the hardware by a sequence of actions. */
  function Sent(acts: seq<TxAction>): seq<Byte>
  {
    if acts == [] then []
    else (if acts[0].Present? then [acts[0].b] else []) + Sent(acts[1..])
  }

  /** How many times the tx-complete callback is due in a sequence of actions. */
  function Completions(acts: seq<TxAction>): nat
  {
    if acts == [] then 0 else (if acts[0].Complete? then 1 else 0) + Completions(acts[1..])
  }

  lemma {:induction false} SentOfPresents(bs: seq<Byte>)
    ensures Sent(Presents(bs)) == bs
    ensures Completions(Presents(bs)) == 0
  {
    if bs != [] {
      SentOfPresents(bs[1..]);
      assert Presents(bs)[1..] == Presents(bs[1..]);
    }
  }

  lemma {:induction false} SentAppend(a: seq<TxAction>, b: seq<TxAction>)
    ensures Sent(a + b) == Sent(a) + Sent(b)
    ensures Completions(a + b) == Completions(a) + Completions(b)
  {
    if a != [] {
      SentAppend(a[1..], b);
      assert (a + b)[1..] == a[1..] + b;
    } else {
      assert a + b == b;
    }
  }

  /**
   * From an armed state, the remaining length - por events present the bytes after the
   * cursor in index order and the last one completes, returning to idle.
   */
  lemma {:induction false} TxDrain(s: TxState)
    requires TxValid(s) && s.length != 0
    ensures TxRun(s, s.length - s.por) ==
            (TxState(s.buffer, 0, 0), Presents(s.buffer[s.por + 1..s.length]) + [Complete])
    decreases s.length - s.por
  {
    var o := TxEvent(s);
    if s.por + 1 == s.length {
      assert TxRun(o.next, 0) == (o.next, []);
      assert o.action == Complete;
      assert [o.action] + [] == [Complete];
      assert TxRun(s, 1) == (o.next, [Complete]);
      assert s.buffer[s.por + 1..s.length] == [];
      assert Presents([]) + [Complete] == [Complete];
    } else {
      TxDrain(o.next);
      var tail := s.buffer[s.por + 2..s.length];
      assert s.buffer[s.por + 1..s.length] == [s.buffer[s.por + 1]] + tail;
      assert Presents(s.buffer[s.por + 1..s.length]) == [Present(s.buffer[s.por + 1])] + Presents(tail);
      var rest := TxRun(o.next, s.length - s.por - 1);
      assert rest == (TxState(s.buffer, 0, 0), Presents(tail) + [Complete]);
      assert TxRun(s, s.length - s.por) == (rest.0, [o.action] + rest.1);
      assert [o.action] + (Presents(tail) + [Complete]) == ([Present(s.buffer[s.por + 1])] + Presents(tail)) + [Complete];
    }
  }

  /**
   * A write of n >= 1 bytes (which hands buf[0] to the hardware itself) followed by n
   * transmit events sends buf[0..n-1] in order, completes exactly once, at the n-th event,
   * and leaves the transport idle, so that the next write is accepted.
   */
  lemma TransmitSequence(buf: seq<Byte>, n: nat)
    requires 1 <= n <= |buf|
    ensures var r := TxRun(TxState(buf, n, 0), n);
      && r.0 == TxState(buf, 0, 0) && !Busy(r.0)
      && [buf[0]] + Sent(r.1) == buf[..n]
      && Completions(r.1) == 1
      && r.1[n - 1] == Complete
      && forall i :: 0 <= i < n - 1 ==> r.1[i] == Present(buf[i + 1])
  {
    var s := TxState(buf, n, 0);
    TxDrain(s);
    var r := TxRun(s, n);
    var acts := Presents(buf[1..n]) + [Complete];
    assert r == (TxState(buf, 0, 0), acts);
    SentAppend(Presents(buf[1..n]), [Complete]);
    SentOfPresents(buf[1..n]);
    assert Sent([Complete]) == [] && Completions([Complete]) == 1;
    assert [buf[0]] + buf[1..n] == buf[..n];
    assert [buf[0]] + Sent(r.1) == buf[..n];
    assert Completions(r.1) == 1;
    assert r.1[n - 1] == Complete;
    assert forall i :: 0 <= i < n - 1 ==> r.1[i] == Present(buf[i + 1]);
  }

  /** With nothing armed, every transmit event only asks for data and changes nothing. */
  lemma {:induction false} IdleRunPending(s: TxState, k: nat)
    requires Idle(s)
    ensures TxRun(s, k).0 == s
    ensures forall i :: 0 <= i < k ==> TxRun(s, k).1[i] == Pending
    ensures Sent(TxRun(s, k).1) == [] && Completions(TxRun(s, k).1) == 0
    decreases k
  {
    if k > 0 {
      IdleRunPending(s, k - 1);
      var rest := TxRun(s, k - 1).1;
      assert TxRun(s, k).1 == [Pending] + rest;
    }
  }

  /** The scenario write([0x10, 0x20, 0x30], 3): cursors 1, 2, then idle with tx-complete, then tx-pending. */
  lemma ThreeByteExample()
    ensures TxEvent(TxState([0x10, 0x20, 0x30], 3, 0)) == TxOutcome(TxState([0x10, 0x20, 0x30], 3, 1), Present(0x20))
    ensures TxEvent(TxState([0x10, 0x20, 0x30], 3, 1)) == TxOutcome(TxState([0x10, 0x20, 0x30], 3, 2), Present(0x30))
    ensures TxEvent(TxState([0x10, 0x20, 0x30], 3, 2)) == TxOutcome(TxState([0x10, 0x20, 0x30], 0, 0), Complete)
    ensures TxEvent(TxState([0x10, 0x20, 0x30], 0, 0)).action == Pending
  {
  }
}
