/**
 The loopback UART. The device keeps two fixed 16 KiB buffers with lengths; the
 specification is a TX record and an RX queue of bytes.
 */
module UartModel {
  import opened Words
  import opened Platform
  import opened PerfModel
  import opened IntcModel

  const UART_TXDATA_OFF := 0x00
  const UART_RXDATA_OFF := 0x04
  const UART_STATUS_OFF := 0x08
  const UART_CTRL_OFF := 0x0C
  const UART_BAUDDIV_OFF := 0x10

  const FIFO_SIZE := 16384

  datatype UartState = UartState(latency: u32, ctrl: u32, bauddiv: u32, txdata: byte, rxdata: byte,
                                 busy: int, rxValid: bool, stuck: bool,
                                 tx: seq<byte>, rx: seq<byte>)

  /** Appending saturates: what does not fit is dropped. */
  function Saturate(q: seq<byte>, p: seq<byte>): seq<byte> {
    Take(q + p, FIFO_SIZE)
  }

  /** Bytes handed to the stream are recorded on TX and reappear on RX. */
  function Append(u: UartState, p: seq<byte>): UartState {
    u.(tx := Saturate(u.tx, p), rx := Saturate(u.rx, p))
  }

  /** The bytes a drain of n really takes from the RX queue. */
  function Drained(u: UartState, n: nat): seq<byte> {
    Take(u.rx, n)
  }

  function AfterDrain(u: UartState, n: nat): UartState {
    u.(rx := u.rx[|Drained(u, n)|..])
  }

  /** What a drain of n delivers: short reads are padded with zeros. */
  function Delivered(u: UartState, n: nat): (b: seq<byte>)
    ensures |b| == n
  {
    Drained(u, n) + Zeros(n - |Drained(u, n)|)
  }

  function StatusWord(u: UartState): u32 {
    (if u.busy > 0 then 1 else 2) + (if u.rxValid then 4 else 0)
  }

  function ReadUart(u: UartState, off: u32): (UartState, Option<u32>) {
    if off == UART_RXDATA_OFF then (u.(rxValid := false), Some(u.rxdata))
    else if off == UART_STATUS_OFF then (u, Some(StatusWord(u)))
    else if off == UART_CTRL_OFF then (u, Some(u.ctrl))
    else if off == UART_BAUDDIV_OFF then (u, Some(u.bauddiv))
    else (u, None)
  }

  /** The countdown a transmission starts with: the latency, reinterpreted as int32_t. */
  function StartBusy(latency: u32): int {
    if latency > 0 then ToInt32(latency) else 1
  }

  function WriteUart(u: UartState, off: u32, v: u32): (UartState, WriteStatus) {
    if off == UART_TXDATA_OFF then
      if Bit0(u.ctrl) then (u.(txdata := v % 0x100, busy := StartBusy(u.latency)), Ok)
      else (u, Disabled)
    else if off == UART_CTRL_OFF then (u.(ctrl := v), Ok)
    else if off == UART_BAUDDIV_OFF then (u.(bauddiv := v), Ok)
    else (u, BusFault)
  }

  /** The byte in flight leaves the transmitter on this tick. */
  predicate Completes(u: UartState) {
    u.busy == 1 && !u.stuck
  }

  /** One tick; on completion the byte loops back and line 0 is raised. */
  function UartTick(u: UartState): UartState {
    if Completes(u) then Append(u.(busy := 0, rxdata := u.txdata, rxValid := true), [u.txdata])
    else if u.busy > 0 && !u.stuck then u.(busy := u.busy - 1)
    else u
  }

  function UartReset(u: UartState): UartState {
    UartState(u.latency, 0, 0, 0, 0, 0, false, false, [], [])
  }

  class Uart {
    const latency: u32
    const perf: Perf
    const intc: Intc
    var ctrl: u32
    var bauddiv: u32
    var txdata: byte
    var rxdata: byte
    var busy: int
    var rxValid: bool
    var stuck: bool
    const txFifo: array<byte>
    var txLen: nat
    const rxFifo: array<byte>
    var rxLen: nat

    ghost predicate Valid()
      reads this
    {
      && txFifo.Length == FIFO_SIZE && txLen <= FIFO_SIZE
      && rxFifo.Length == FIFO_SIZE && rxLen <= FIFO_SIZE
      && txFifo != rxFifo
    }

    function State(): UartState
      requires Valid()
      reads this, txFifo, rxFifo
    {
      UartState(latency, ctrl, bauddiv, txdata, rxdata, busy, rxValid, stuck, txFifo[..txLen], rxFifo[..rxLen])
    }

    constructor (latency: u32, perf: Perf, intc: Intc)
      ensures Valid() && fresh(txFifo) && fresh(rxFifo)
      ensures this.latency == latency && this.perf == perf && this.intc == intc
      ensures State() == UartState(latency, 0, 0, 0, 0, 0, false, false, [], [])
    {
      this.latency, this.perf, this.intc := latency, perf, intc;
      txFifo := new byte[FIFO_SIZE](_ => 0);
      rxFifo := new byte[FIFO_SIZE](_ => 0);
      ctrl, bauddiv, txdata, rxdata, busy := 0, 0, 0, 0, 0;
      rxValid, stuck := false, false;
      txLen, rxLen := 0, 0;
    }

    method Reset()
      requires Valid()
      modifies this
      ensures Valid() && State() == UartReset(old(State()))
    {
      ctrl, bauddiv, txdata, rxdata, busy := 0, 0, 0, 0, 0;
      rxValid, stuck := false, false;
      txLen, rxLen := 0, 0;
    }

    /** Copies as much of the payload as fits behind the first len bytes of the buffer. */
    static method Store(fifo: array<byte>, len: nat, payload: array<byte>) returns (newLen: nat)
      requires len <= fifo.Length == FIFO_SIZE && payload != fifo
      modifies fifo
      ensures newLen <= FIFO_SIZE && fifo[..newLen] == Saturate(old(fifo[..len]), payload[..])
    {
      var space := if len < FIFO_SIZE then FIFO_SIZE - len else 0;
      var n := if payload.Length < space then payload.Length else space;
      if n > 0 {
        forall i | 0 <= i < n {
          fifo[len + i] := payload[i];
        }
      }
      newLen := len + n;
    }

    method DmaTxAppend(payload: array<byte>)
      requires Valid() && payload != txFifo && payload != rxFifo
      modifies this, txFifo, rxFifo
      ensures Valid() && State() == Append(old(State()), payload[..])
    {
      var len := payload.Length;
      if len == 0 {
        return;
      }
      txLen := Store(txFifo, txLen, payload);
      rxLen := Store(rxFifo, rxLen, payload);
    }

    method DmaRxDrain(out: array<byte>)
      requires Valid() && out != txFifo && out != rxFifo
      modifies this, rxFifo, out
      ensures Valid() && State() == AfterDrain(old(State()), out.Length)
      ensures out[..] == Delivered(old(State()), out.Length)
    {
      var len := out.Length;
      if len == 0 {
        return;
      }
      var n := if len < rxLen then len else rxLen;
      if n > 0 {
        forall i | 0 <= i < n {
          out[i] := rxFifo[i];
        }
        forall i | 0 <= i < rxLen - n {
          rxFifo[i] := rxFifo[n + i];
        }
        rxLen := rxLen - n;
      }
      if n < len {
        forall i | n <= i < len {
          out[i] := 0;
        }
      }
    }

    method Read(off: u32) returns (r: Option<u32>)
      requires Valid()
      modifies this
      ensures Valid() && (State(), r) == ReadUart(old(State()), off)
    {
      if off == UART_TXDATA_OFF { return None; }
      if off == UART_RXDATA_OFF {
        rxValid := false;
        var v: u32 := rxdata;
        return Some(v);
      }
      if off == UART_STATUS_OFF {
        var s := 0;
        if busy > 0 { s := s + 1; } else { s := s + 2; }
        if rxValid { s := s + 4; }
        return Some(s);
      }
      if off == UART_CTRL_OFF { return Some(ctrl); }
      if off == UART_BAUDDIV_OFF { return Some(bauddiv); }
      return None;
    }

    method Write(off: u32, v: u32) returns (r: WriteStatus)
      requires Valid()
      modifies this, perf
      ensures Valid() && (State(), r) == WriteUart(old(State()), off, v)
      ensures perf.State() == Count(old(perf.State()), if r.Disabled? then STALL else NOTHING)
    {
      if off == UART_TXDATA_OFF {
        if !Bit0(ctrl) {
          perf.CountStall(1);
          return Disabled;
        }
        txdata := v % 0x100;
        busy := if latency > 0 then ToInt32(latency) else 1;
        return Ok;
      }
      if off == UART_CTRL_OFF {
        ctrl := v;
        return Ok;
      }
      if off == UART_BAUDDIV_OFF {
        bauddiv := v;
        return Ok;
      }
      return BusFault;
    }

    method Step()
      requires Valid() && intc.Valid()
      modifies this, txFifo, rxFifo, intc
      ensures Valid() && State() == UartTick(old(State()))
      ensures intc.Valid()
      ensures intc.State() == if Completes(old(State())) then Raise(old(intc.State()), IRQ_UART) else old(intc.State())
    {
      if busy > 0 {
        if stuck {
          return;
        }
        busy := busy - 1;
        if busy == 0 {
          rxdata := txdata;
          rxValid := true;
          var b := new byte[] [txdata];
          assert b[..] == [txdata];
          DmaTxAppend(b);
          intc.RaiseLine(IRQ_UART);
        }
      }
    }
  }
}
