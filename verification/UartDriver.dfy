/** The firmware's polled UART driver. */
module UartDriverModel {
  import opened Words
  import opened Platform
  import opened SocModel
  import opened Hal

  const UART_OK := 0
  const UART_ERR_DISABLED := -1
  const UART_ERR_TIMEOUT := -2
  const POLLS := 1000

  /** Up to n status reads, until TX_EMPTY is seen. */
  function Poll(s: SocState, n: nat): (SocState, bool)
    decreases n
  {
    if n == 0 then (s, false)
    else
      var (s1, st) := HalRead(s, UART_STATUS);
      if Bit1(st) then (s1, true) else Poll(s1, n - 1)
  }

  function WriteByte(s: SocState, b: byte): (SocState, int) {
    var (s1, ctrl) := HalRead(s, UART_CTRL);
    if !Bit0(ctrl) then (s1, UART_ERR_DISABLED)
    else
      var (s2, ready) := Poll(s1, POLLS);
      if !ready then (s2, UART_ERR_TIMEOUT) else (HalWrite(s2, UART_TXDATA, b), UART_OK)
  }

  /** None is the driver's TIMEOUT: nothing received. */
  function ReadByte(s: SocState): (SocState, Option<byte>) {
    var (s1, st) := HalRead(s, UART_STATUS);
    if !Bit2(st) then (s1, None)
    else
      var (s2, v) := HalRead(s1, UART_RXDATA);
      (s2, Some(v % 0x100))
  }

  method ReceiveByte(soc: Soc) returns (r: Option<byte>)
    requires soc.Valid()
    modifies soc.Repr()
    ensures soc.Valid() && (soc.State(), r) == ReadByte(old(soc.State()))
  {
    hide HalRead, Bit2;
    var st := ReadReg(soc, UART_STATUS);
    if !Bit2(st) {
      return None;
    }
    var v := ReadReg(soc, UART_RXDATA);
    return Some(v % 0x100);
  }

  method SendByte(soc: Soc, b: byte) returns (rc: int)
    requires soc.Valid()
    modifies soc.Repr()
    ensures soc.Valid() && (soc.State(), rc) == WriteByte(old(soc.State()), b)
  {
    hide HalRead, HalWrite, Bit0, Bit1;
    var ctrl := ReadReg(soc, UART_CTRL);
    if !Bit0(ctrl) {
      return UART_ERR_DISABLED;
    }
    ghost var s1 := soc.State();
    var i := 0;
    while i < POLLS
      invariant soc.Valid() && 0 <= i < POLLS
      invariant Poll(s1, POLLS) == Poll(soc.State(), POLLS - i)
    {
      var st := ReadReg(soc, UART_STATUS);
      if Bit1(st) {
        break;
      }
      if i == POLLS - 1 {
        return UART_ERR_TIMEOUT;
      }
      i := i + 1;
    }
    WriteReg(soc, UART_TXDATA, b);
    return UART_OK;
  }
}
