/** Register access as the firmware sees it: through the bus, where a faulting read gives 0. */
module Hal {
  import opened Words
  import opened SocModel

  function HalRead(s: SocState, addr: u32): (SocState, u32) {
    var (s', r) := BusRead(s, addr);
    (s', if r.Some? then r.value else 0)
  }

  function HalWrite(s: SocState, addr: u32, v: u32): SocState {
    BusWrite(s, addr, v).0
  }

  lemma ReadOp(s: SocState, addr: u32)
    ensures HalRead(s, addr).0 == Exec(s, Rd(addr))
  {
    hide BusRead;
  }

  lemma WriteOp(s: SocState, addr: u32, v: u32)
    ensures HalWrite(s, addr, v) == Exec(s, Wr(addr, v))
  {
    hide BusWrite;
  }

  method ReadReg(soc: Soc, addr: u32) returns (v: u32)
    requires soc.Valid()
    modifies soc.Repr()
    ensures soc.Valid() && (soc.State(), v) == HalRead(old(soc.State()), addr)
  {
    var r := soc.Read(addr);
    v := if r.Some? then r.value else 0;
  }

  method WriteReg(soc: Soc, addr: u32, v: u32)
    requires soc.Valid()
    modifies soc.Repr()
    ensures soc.Valid() && soc.State() == HalWrite(old(soc.State()), addr, v)
  {
    var _ := soc.Write(addr, v);
  }
}
