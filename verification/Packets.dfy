/** Packets as the multiplexer sees them: header type and id, and the body. */
module Packets {

  /** Unsigned 32-bit numbers. */
  const U32_SIZE: nat := 0x1_0000_0000
  const U32_MAX: nat := U32_SIZE - 1

  type u32 = n: nat | n < U32_SIZE

  const PT_UNDEFINED: u32 := 0
  const PT_ENUMERATE: u32 := 1
  const PT_CALL: u32 := 2
  const PT_RETURN: u32 := 3
  const PT_RETURN_FAIL_CALL: u32 := 4
  const PT_RETURN_ENUMERATE: u32 := 5
  const PT_COUNT: u32 := 6
  const INVALID_ID: u32 := 0

  /** `wantsReturn` is the send_return flag that the callee reads from the body
      of a call; for an enumerate packet it says that the size field is zero,
      which is what makes the callee answer. */
  datatype Packet = Packet(ptype: u32, id: u32, wantsReturn: bool, body: seq<int>)

  /** Types that are queued as incoming calls. */
  predicate IsCall(p: Packet) {
    PT_UNDEFINED < p.ptype <= PT_CALL
  }

  /** Types that are stored as responses; the field can hold values that no peer sends. */
  predicate IsResponse(p: Packet) {
    PT_CALL < p.ptype
  }

  /** Types that a waiting call accepts as its response. */
  predicate IsReturn(p: Packet) {
    PT_RETURN <= p.ptype < PT_COUNT
  }

  /** `r` is a response that handling the call `c` may produce. */
  predicate Answers(c: Packet, r: Packet) {
    && r.id == c.id
    && (c.ptype == PT_ENUMERATE ==> r.ptype == PT_RETURN_ENUMERATE)
    && (c.ptype == PT_CALL ==> r.ptype == PT_RETURN || r.ptype == PT_RETURN_FAIL_CALL)
  }

  /** Whether handling `c` writes a response: an id of zero means nobody waits. */
  predicate MustAnswer(c: Packet) {
    c.wantsReturn && c.id != INVALID_ID
  }
}
