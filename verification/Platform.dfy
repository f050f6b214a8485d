/**
 The VLAB platform tables: register addresses, memory map, DMA capabilities
 and DMA-capable FIFOs.
 */
module Platform {
  import opened Words
  import opened Regions

  const ROM_BASE: u32 := 0x0000_0000
  const ROM_SIZE: u32 := 16384
  const SRAM_BASE: u32 := 0x1000_0000
  const SRAM_SIZE: u32 := 65536
  const UART_BASE: u32 := 0x2000_0000
  const TIMER_BASE: u32 := 0x2000_1000
  const DMA_BASE: u32 := 0x2000_2000
  const INTC_BASE: u32 := 0x2000_3000
  const PERF_BASE: u32 := 0x2000_4000

  const UART_TXDATA: u32 := 0x2000_0000
  const UART_RXDATA: u32 := 0x2000_0004
  const UART_STATUS: u32 := 0x2000_0008
  const UART_CTRL: u32 := 0x2000_000C
  const UART_BAUDDIV: u32 := 0x2000_0010

  const TIMER_CTRL: u32 := 0x2000_1000
  const TIMER_LOAD: u32 := 0x2000_1004
  const TIMER_VALUE: u32 := 0x2000_1008
  const TIMER_IRQ_STATUS: u32 := 0x2000_100C
  const TIMER_IRQ_CLEAR: u32 := 0x2000_1010

  const DMA_SRC: u32 := 0x2000_2000
  const DMA_DST: u32 := 0x2000_2004
  const DMA_LEN: u32 := 0x2000_2008
  const DMA_CTRL: u32 := 0x2000_200C
  const DMA_STATUS: u32 := 0x2000_2010
  const DMA_IRQ_CLEAR: u32 := 0x2000_2014
  const DMA_ERR_CODE: u32 := 0x2000_2018

  const INTC_ENABLE: u32 := 0x2000_3000
  const INTC_PENDING: u32 := 0x2000_3004
  const INTC_ACK: u32 := 0x2000_3008
  const INTC_CLEAR: u32 := 0x2000_300C
  const INTC_ACTIVE: u32 := 0x2000_3010

  const PERF_CYCLES: u32 := 0x2000_4000
  const PERF_MEM_ACC: u32 := 0x2000_4004
  const PERF_DMA_BYTES: u32 := 0x2000_4008
  const PERF_IRQ_COUNT: u32 := 0x2000_400C
  const PERF_STALLS: u32 := 0x2000_4010
  const PERF_CTRL: u32 := 0x2000_4014

  const IRQ_UART := 0
  const IRQ_TIMER := 1
  const IRQ_DMA := 2

  function VlabMap(): seq<Region> {
    [Region(ROM_BASE, ROM_SIZE, Rom),
     Region(SRAM_BASE, SRAM_SIZE, Sram),
     Region(UART_BASE, 4096, Mmio),
     Region(TIMER_BASE, 4096, Mmio),
     Region(DMA_BASE, 4096, Mmio),
     Region(INTC_BASE, 4096, Mmio),
     Region(PERF_BASE, 4096, Mmio)]
  }

  function VlabCaps(): Caps {
    Caps(4, 16384, true, true, true)
  }

  function VlabPeriphs(): seq<PeriphEp> {
    [PeriphEp(UART_TXDATA, 2), PeriphEp(UART_RXDATA, 1)]
  }
}
