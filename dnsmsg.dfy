/**
 * The parts of a DNS message (miekg/dns `dns.Msg`) that the proxy reads or
 * writes. Wire encoding, record TTLs and classes are not modelled.
 */
module DnsMsg {
  import opened Wrappers

  newtype byte = x: int | 0 <= x < 256

  /** An IPv4 (4 bytes) or IPv6 (16 bytes) address, as `net.IP`. */
  type IP = seq<byte>

  /**
   * One answer record: A (section 3.4.1 of RFC 1035), AAAA (section 2.1 of
   * RFC 3596), CNAME (section 3.3.1 of RFC 1035), or any other type.
   */
  datatype Record =
    | A(a: IP)
    | AAAA(aaaa: IP)
    | CNAME(target: string)
    | Other(rrtype: nat)

  datatype Question = Question(name: string, qtype: nat)

  /**
   * A DNS message. `udpSize` is the payload size advertised in the EDNS0 OPT
   * record (section 6.2.3 of RFC 6891), `None` when the message carries no OPT
   * record; `compress` is the library's flag asking for name compression when
   * the message is written.
   */
  datatype Msg = Msg(
    id: nat,
    response: bool,
    recursionDesired: bool,
    question: seq<Question>,
    answer: seq<Record>,
    udpSize: Option<nat>,
    compress: bool)

  predicate IsAddress(r: Record) {
    r.A? || r.AAAA?
  }

  function AddressOf(r: Record): IP
    requires IsAddress(r)
  {
    if r.A? then r.a else r.aaaa
  }

  /**
   * `new(dns.Msg).SetReply(req)`: an empty response that mirrors the request's
   * id, recursion-desired bit and first question.
   */
  function EmptyReply(req: Msg): Msg {
    Msg(
      id := req.id,
      response := true,
      recursionDesired := req.recursionDesired,
      question := if |req.question| > 0 then [req.question[0]] else [],
      answer := [],
      udpSize := None,
      compress := false)
  }
}
