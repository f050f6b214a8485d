/**
 The driver and the engine validate a transfer with separate code. They agree on
 every table, and on the VLAB tables what they accept has a short description.
 */
module Validators {
  import opened Words
  import opened Regions
  import opened Platform
  import opened DmaModel
  import opened DmaDriverModel

  /** The driver's error number for an engine error code. */
  function DriverCode(code: u32): int {
    if code == ERR_UNSUPPORTED then DMA_ERR_UNSUPPORTED else 0 - code as int
  }

  /** The tables of an engine, as the driver would hold them. */
  function SharedTables(c: DmaConfig): Tables {
    Tables(c.regions, Some(c.caps), c.periphs)
  }

  lemma EndpointKinds(c: DmaConfig, addr: u32, len: u32)
    requires c.periphs.Some?
    ensures var k := EndpointClass(c, addr, len);
            match Classify(SharedTables(c), addr, len)
            case Unmapped => k == -1
            case Incapable => k == -2
            case Memory => k == 0
            case Fifo(i) => k == 1 && i == PeriphFind(c.periphs, addr)
  {
  }

  /** For every region table, FIFO table (or none) and capabilities, the driver answers the code
      that corresponds to the engine's verdict on the same transfer. */
  lemma ValidatorsAgree(c: DmaConfig, src: u32, dst: u32, len: u32)
    ensures Check(SharedTables(c), src, dst, len) == DriverCode(Verdict(c, src, dst, len))
    ensures Verdict(c, src, dst, len) <= ERR_UNSUPPORTED
  {
    if c.periphs.Some? {
      EndpointKinds(c, src, len);
      EndpointKinds(c, dst, len);
    }
  }

  /** The driver without capabilities checks neither alignment nor direction, the engine then uses defaults. They still
      agree exactly on empty transfers, and on aligned ones that are memory to memory or refused for an endpoint. */
  lemma AgreementWithoutCaps(c: DmaConfig, src: u32, dst: u32, len: u32)
    requires c.caps == CapsOrDefault(None)
    ensures var s, d := EndpointClass(c, src, len), EndpointClass(c, dst, len);
            var aligned := len % 4 == 0 && src % 4 == 0 && dst % 4 == 0;
            var refused := s < 0 || d < 0 || WrongRole(c, src, true) || WrongRole(c, dst, false);
            (Check(Tables(c.regions, None, c.periphs), src, dst, len) == DriverCode(Verdict(c, src, dst, len)))
              <==> (len == 0 || (aligned && (refused || (s == 0 && d == 0))))
  {
    if c.periphs.Some? {
      EndpointKinds(c, src, len);
      EndpointKinds(c, dst, len);
    }
  }

  predicate InSram(addr: u32, len: u32) {
    SRAM_BASE <= addr && addr + len <= SRAM_BASE + SRAM_SIZE
  }

  predicate IsVlab(c: DmaConfig) {
    c.regions == VlabMap() && c.periphs == Some(VlabPeriphs()) && c.caps == VlabCaps()
  }

  /** The transfers VLAB accepts: word-aligned, 4 to 16384 bytes, SRAM to SRAM, SRAM to uart-tx
      or uart-rx to SRAM. */
  predicate VlabTransfer(src: u32, dst: u32, len: u32) {
    && 0 < len <= 16384 && len % 4 == 0 && src % 4 == 0 && dst % 4 == 0
    && VlabEnds(src, dst, len)
  }

  predicate VlabEnds(src: u32, dst: u32, len: u32) {
    || (InSram(src, len) && InSram(dst, len))
    || (InSram(src, len) && dst == UART_TXDATA)
    || (src == UART_RXDATA && InSram(dst, len))
  }

  lemma VlabFifos(addr: u32)
    ensures PeriphFind(Some(VlabPeriphs()), addr)
         == if addr == UART_TXDATA then 0 else if addr == UART_RXDATA then 1 else -1
  {
  }

  lemma VlabClass(c: DmaConfig, addr: u32, len: u32)
    requires IsVlab(c) && len > 0
    ensures var k := EndpointClass(c, addr, len);
            if addr == UART_TXDATA || addr == UART_RXDATA then k == 1
            else (k == 0 <==> InSram(addr, len)) && k <= 0
  {
    VlabFifos(addr);
    var m := VlabMap();
    var k := FindRegion(m, addr, len);
    if k < 0 {
      assert !Contains(m[1], addr, len);
    } else {
      assert Contains(m[k], addr, len);
    }
  }

  lemma VlabEndpoints(c: DmaConfig, src: u32, dst: u32, len: u32)
    requires IsVlab(c) && len > 0
    ensures EndpointVerdict(c, src, dst, len) == ERR_NONE <==> VlabEnds(src, dst, len)
  {
    VlabClass(c, src, len);
    VlabClass(c, dst, len);
    VlabFifos(src);
    VlabFifos(dst);
  }

  /** On VLAB the engine accepts exactly those transfers; the driver, by agreement, the same. */
  lemma VlabAccepts(c: DmaConfig, src: u32, dst: u32, len: u32)
    requires IsVlab(c)
    ensures Verdict(c, src, dst, len) == ERR_NONE <==> VlabTransfer(src, dst, len)
    ensures Check(VlabTables(), src, dst, len) == DMA_OK <==> VlabTransfer(src, dst, len)
  {
    hide EndpointVerdict;
    ValidatorsAgree(c, src, dst, len);
    if len > 0 {
      VlabEndpoints(c, src, dst, len);
    }
  }
}
