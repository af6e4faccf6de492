# better-chinadns core, modelled in Dafny

This project models the request-handling core of better-chinadns. It is a DNS proxy that
defeats path-based DNS pollution in three steps:
- It races a *trusted* and an *untrusted* group of upstream resolvers.
- It classifies the first reply with IP-blacklist and domestic-CIDR heuristics.
- When that reply looks suspect, it cross-checks it against the other group's reply.

It also models the small helpers of the `chinadns` command. Everything is checked by the
Dafny verifier. Nothing is compiled or executed.

Files and modules:

- `wrappers.dfy` (`Wrappers`): `Option` and `Result`.
- `dnsmsg.dfy` (`DnsMsg`): the parts of a DNS message the core touches.
  - The answer records are A (section 3.4.1 of RFC 1035), AAAA (section 2.1 of RFC 3596),
    CNAME (section 3.3.1 of RFC 1035) and any other type.
  - The message also carries the id, RD bit, questions, EDNS0 UDP size (RFC 6891) and
    compression flag.
  - `EmptyReply` is `new(dns.Msg).SetReply(req)`.
- `classifier.dfy` (`Classifier`): `processReply`, `processUntrustedAnswer` and
  `processTrustedAnswer`, written as pure, total decision functions.
  - The wait on the other group's channel is an input `other: Option<Msg>`. `Some(m)` means
    that group's reply arrived first. `None` means the request context ended first.
  - The nested call that the source makes with a nil channel is the call with `None`.
  - A `Decision` records the reply chosen, the blacklist/CIDR membership tests made (in
    order), and how many times the classifier waited. This is what makes "no lookup" and
    "at most two hops" statable.
- `race.dfy` (`Race`): `lookupInServers` as an event-driven class `Coordinator`.
  - State: the next server index, the permits in the `queryNext` buffer, the in-flight
    lookups (the WaitGroup), lookups blocked on a full permit buffer, the single-slot result
    channel, and the context's cancelled flag.
  - Events, one method each: the loop taking a permit, a tick or the context's end; a
    lookup succeeding or failing; the request receiving from the result channel; outside
    cancellation; and `wg.Wait()` returning.
- `serve.dfy` (`Serve`): `normalizeRequest` and `Serve`.
  - The two coordinators and the `select`s become a `Schedule` input: what each group's
    result slot ends up holding, which ready event the first `select` takes, and whether the
    other group's reply beats the context when the classifier waits.
  - `Served` specifies one request. The method `Serve` writes to a `ResponseWriter` and is
    proved to write exactly the reply `Served` gives, exactly once, for any schedule in which
    the first `select` returns.
- `strings.dfy` (`Strings`): `strings.Split` on one character, joining with a separator,
  and `strings.Index`, with round-trip lemmas.
- `cmd.dfy` (`ChinaDnsCmd`): `resolverAddrs.Set` / `.String`, `trimLocPrefix` and the
  back-off loop of `runUntilCanceled`.

The IP blacklist, the domestic CIDR table, the domain blacklist and the polluted-domain list
are opaque predicates, given as function-typed fields of `Policy` and `Config`.
`net.SplitHostPort` is an uninterpreted function parameter (`Splitter`).

## Model

| member | source | states |
|---|---|---|
| `Classifier.Representative` | dns.go:136-152 | Result is `Some(ip)` only when `ip` is the address of an A/AAAA record preceded solely by CNAMEs; `None` only when no such record exists |
| `Classifier.ScanAnswer` | dns.go:135-152 | The source's scan loop (A/AAAA return at once, a non-final CNAME is skipped, a final CNAME or any other record ends the scan) computes `Representative` |
| `Classifier.ProcessReply` | dns.go:131-153 | Result reply is `rep` or the other group's reply. There are at most two waits. With no other reply available the result is `rep` with at most one wait. Without a representative address there are no lookups and no wait |
| `Classifier.ProcessUntrustedAnswer` | dns.go:155-184 | Accepted at once (no wait, reply `rep`, lookups exactly blacklist then CIDR) iff the address is off the blacklist and domestic. The blacklist is always consulted first. When suspect, the result is the trusted reply if it arrives and `rep` if it does not |
| `Classifier.ProcessTrustedAnswer` | dns.go:186-220 | Accepted at once iff off the blacklist and either bidirectional mode is off or the address is not domestic. With bidirectional off and no blacklist hit, the only lookup is the blacklist (no CIDR test). When suspect, the result is the untrusted reply if it arrives and `rep` if it does not |
| `Classifier.FirstAddressDecides` | dns.go:136-141 | For an answer of CNAMEs, then an address record, then anything, the verdict is the rule applied to that address; later records are never inspected |
| `Classifier.RepresentativeAfterCnames` | dns.go:136-145 | The representative of CNAMEs, an address record and any suffix is that record's address |
| `Classifier.UnclassifiedReplyKept` | dns.go:135-152 | An answer that is CNAMEs followed by nothing (empty, or a CNAME last) or by another record type is returned unchanged, with no lookup and no wait |
| `Classifier.NoRepresentative` | dns.go:142-152 | Such answers have no representative address |
| `Classifier.CrossCheckUsesOtherReply` | dns.go:177-219 | After a suspect verdict with the other reply `m` available, the result is `m` as classified once by the opposite rule with no fallback. The waits add one and the lookups concatenate |
| `Race.Coordinator.Start` | dns.go:17-27 | An empty list returns at once, cancelled, with nothing admitted. Otherwise the permit buffer (capacity `len(servers)`) holds one permit and nothing has run |
| `Race.Coordinator.StartWithSpareSlot` | dns.go:26-27 | The corrected start: the same initial state with buffer capacity `len(servers)+1` |
| `Race.Coordinator.AdmitByPermit` | dns.go:49-55 | Consumes one permit and admits exactly the next server in list order (the admission log stays `servers[..next]`). The loop ends after the last server. The result slot and the context are untouched |
| `Race.Coordinator.AdmitByTick` | dns.go:49-58 | Like `AdmitByPermit`, but no permit is consumed |
| `Race.Coordinator.Admit` | dns.go:54-55 | Starting a lookup adds exactly the next index to the WaitGroup and advances the loop |
| `Race.Coordinator.ObserveCancel` | dns.go:50-52 | A done context ends the admission loop |
| `Race.Coordinator.Cancel` | dns.go:107-110 | Cancellation is monotonic and keeps a deadlocked coordinator deadlocked |
| `Race.Coordinator.Succeed` | dns.go:40-45 | The non-blocking send stores the reply iff the slot is empty; a waiting reply is never replaced; the context is cancelled. Once the request has taken a reply, a later success stores one that nobody receives |
| `Race.Coordinator.Take` | dns.go:102-105 | The request receives the waiting reply once: it gets exactly the stored reply, the slot empties, and no second receive is possible (the classifier's later wait reads the other group's channel, dns.go:177-178, 213-214) |
| `Race.Coordinator.Fail` | dns.go:34-37 | A failure only adds one permit. If the buffer is full, the send blocks and the lookup stays counted. This can only happen once the loop has exited, and never with the spare slot |
| `Race.Coordinator.Join` | dns.go:62 | `wg.Wait()` returns only when the loop is done and no lookup is in flight; the deferred cancel then runs |
| `Race.TickAdmittedFailureDeadlocks` | dns.go:26-37 | One server, admitted by the ticker, whose lookup fails: the permit is not delivered and the coordinator is deadlocked |
| `Race.SpareSlotTickAdmittedFailureReturns` | dns.go:26-62 | The same events with the spare slot: the permit is delivered and the coordinator returns |
| `Race.SpareSlotNeverDeadlocks` | dns.go:26-62 | A valid coordinator with the spare slot is never deadlocked on its permit buffer |
| `Serve.NormalizeRequest` | dns.go:124-129 | RD is forced on. Unless TCP-only, the UDP size is `uint16(UDPMaxSize)`: within 16 bits, and equal to the setting when that fits. Nothing else changes |
| `Serve.Select` | dns.go:102-108 | A reply is taken only from a slot holding one. No reply is taken only when the context event wins or both slots are empty. The preferred ready reply is the one taken |
| `Serve.Served` | dns.go:66-122 | Blacklisted name: empty reply mirroring the request, nothing started, no lookups. Otherwise trusted is always started and untrusted iff the name is not polluted; for a polluted name only the trusted reply can be served. A compressed reply is one of the raced replies with `Compress = true`; any other reply is an empty mirror of the request. For a name not blacklisted, the reply taken by the first `select` decides: none gives the empty mirror of the normalized request; a reply from either group gives exactly `processReply`'s decision under that group's rule (with the other group's reply when it beats the context), compressed, with its lookups |
| `Serve.Serve` | dns.go:66-122 | Given a schedule in which the first `select` returns, the handler writes exactly one message, the reply `Served` specifies, and reports which coordinators it started |
| `Serve.NoResolversEmptyReply` | dns.go:107-118 | With both resolver lists empty, the reply is the empty, uncompressed mirror |
| `Serve.DomesticUntrustedReplyServed` | dns.go:163-172 | An untrusted reply whose first address is clean and domestic is served as is, even if the trusted reply is available |
| `Serve.ForeignUntrustedReplyReplaced` | dns.go:174-179 | An untrusted reply whose first address is clean and foreign is replaced by the trusted reply when that arrives in time |
| `Strings.SplitOn` | cmd/chinadns/main.go:68 | `strings.Split`: at least one piece, none containing the separator |
| `Strings.JoinSplit` | cmd/chinadns/main.go:68 | Joining the pieces of a split with the separator gives back the original text |
| `Strings.SplitCount` | cmd/chinadns/main.go:68 | A split has one more piece than the text has separators |
| `Strings.SplitJoin` | cmd/chinadns/main.go:53-64 | Splitting a join of separator-free pieces gives the pieces back |
| `Strings.JoinSnoc` | cmd/chinadns/main.go:60-62 | Appending a piece to a non-empty join adds exactly one separator |
| `Strings.IndexFrom` | cmd/chinadns/main.go:119 | Returns the first occurrence at or after `from`, or `None` when there is none |
| `ChinaDnsCmd.NormalizeAddrs` | cmd/chinadns/main.go:68-79 | On success there is one entry per piece, in order. A piece that splits is kept verbatim; a "missing port" piece becomes `host:53`. Success iff every piece is accepted. On failure the error is that of the first piece whose error is not "missing port" |
| `ChinaDnsCmd.ResolverAddrs.Set` | cmd/chinadns/main.go:67-80 | The in-place loop yields exactly `NormalizeAddrs` of the comma-separated pieces and stores it. On error, the first error is returned and the list is unchanged |
| `ChinaDnsCmd.SetFailsAt` | cmd/chinadns/main.go:70-75 | The first rejected piece decides the error returned |
| `ChinaDnsCmd.SetSucceeds` | cmd/chinadns/main.go:69-79 | When every piece is accepted, the result is the accepted pieces in order |
| `ChinaDnsCmd.ResolverAddrs.String` | cmd/chinadns/main.go:50-65 | The builder loop yields the shown entries (bare host when the port is 53, else verbatim) joined by single commas, with no trailing comma; "" for no entries; when no shown entry holds a comma, splitting at commas recovers them |
| `ChinaDnsCmd.BareHostsRoundTrip` | cmd/chinadns/main.go:50-80 | A flag value of bare hosts, each of which the splitter reads back from `host:53`, is accepted by `Set` and rendered back identically by `String` |
| `ChinaDnsCmd.TrimLocPrefix` | cmd/chinadns/main.go:118-124 | Returns the text after the first "gochinadns/" when that text occurs in `s`, and `s` unchanged otherwise |
| `ChinaDnsCmd.RunUntilCanceled` | cmd/chinadns/main.go:82-110 | Every wait is within [100ms, 16s]. The wait after a success and the first wait are exactly 100ms. After a failure the wait is the previous one doubled, saturating at 16s. `f` runs once more than the number of completed waits |

## Findings

| source | as written | input that shows it | evidently intended | confidence | as-written member | corrected member |
|---|---|---|---|---|---|---|
| dns.go:26-36 | `queryNext` has capacity `len(servers)` but receives the seed permit plus one permit per failed lookup | One resolver. The stagger ticker fires before the first `select`, and Go picks the tick over the ready seed permit. That lookup then fails: its send finds the one-slot buffer full after the loop has exited, so it blocks forever and `wg.Wait()` never returns | Capacity `len(servers)+1`, so a failure's permit send never blocks | not executed; needs a stagger interval shorter than the time from dns.go:24 to dns.go:50; medium | `Race.TickAdmittedFailureDeadlocks` | `Race.SpareSlotTickAdmittedFailureReturns` |

The invariant kept by every `Coordinator` event is:

    permits + |inFlight| + (len(servers) - next) <= len(servers) + 1

It shows that a send can block only after the admission loop has exited. From then on nothing
drains the buffer. This is why the blocked state is permanent, and why one spare slot removes
it (`Race.Coordinator.Fail`, `Race.SpareSlotNeverDeadlocks`).

Consequences and details the model keeps:
- `lookupInServers` waits for all its lookups before it returns (dns.go:62). The finding above
  is a way in which it never returns.
- When the name is polluted, only the trusted coordinator runs and `ucancel` is called at
  once (dns.go:95-99). If that coordinator deadlocks as above, `tctx` is never cancelled, so
  the joiner goroutine never cancels `ctx` (dns.go:85-89). A coordinator of capacity
  `len(servers)` blocks only after every one of its lookups has failed, so it never stored a
  reply: the first `select` (dns.go:102-108) waits forever and nothing is written to the
  client.
- A name that is not polluted hangs the same way when the first reply is suspect and the
  other group's coordinator is the one that deadlocked: the classifier's wait on that group's
  channel or `ctx` (dns.go:177-182 for a suspect untrusted reply, dns.go:213-218 for a
  suspect trusted reply) never ends, because `ctx` is never cancelled.
- On a blacklisted name, the code mirrors the request *before* `normalizeRequest`. On the
  fallback empty reply, it mirrors the normalized request. `Served` keeps the two apart.
- The first `select` in `Serve` may take the context's end even when a reply is already in a
  slot, because Go chooses at random among ready cases. `Arrival.ContextFirst` allows this.

## Left out

- Goroutines, `sync.WaitGroup`, the ticker, context trees and the joiner goroutine are not
  modelled as concurrency. They become events of `Race.Coordinator` and the `Schedule` input
  of `Serve`. `Serve` does not instantiate the two coordinators: their slot contents are
  inputs.
- `Serve.Serve`: writing exactly one message assumes both coordinators return or store a
  reply. The `Schedule` input always allows `ContextFirst`, so the model does not capture the
  request that hangs when a coordinator deadlocks (see Findings).
- `Serve.Served` and `Serve.Serve` require a non-empty question section. The source reads
  `req.Question[0]` unguarded (dns.go:72); the DNS server library's default accept function
  rejects requests with no question before the handler runs, and it is not part of this model.
- The timing of the stagger ticker is not modelled. A tick may be taken at any loop
  iteration.
- `Classifier.ProcessReply`: the `other` input does not distinguish a nil channel from a
  context that ends before the other reply. Both give `None`, which is what the code does
  with them.
- miekg/dns: `req.Copy`, `WriteMsg` and wire encoding are not modelled.
  - `SetReply` is reduced to id, response bit, RD bit and first question. The opcode,
    CD bit and rcode are not modelled.
  - `setUDPSize` is reduced to setting the EDNS0 UDP size; its body is not part of this
    model.
- `IPBlacklist.Contains`, `ChinaCIDR.Contains`, `DomainBlacklist.Contain` and
  `DomainPolluted.Contain` are opaque predicates. Their errors are only logged, and the
  boolean they return is what the predicates stand for.
- `lookup`, `s.Lookup` and `s.lookupNormal` are network I/O. Their outcomes are the
  `Succeed`/`Fail` events and the `Schedule` slot contents.
- Logging, `questionString` and the round-trip-time measurement are not modelled.
- `net.SplitHostPort` is a parameter (`Splitter`), so its IPv6 bracket rules are not
  modelled. `net.JoinHostPort` is modelled with its bracketing of hosts that contain a colon.
- `getFunctionName` (reflection and `runtime`), `main`, flag parsing and `init` are not
  modelled. This includes the float conversion of the delay flag.
- The panic recovery in `runUntilCanceled` is not modelled separately. A panicking `f` behaves like an
  `f` that returned an error: `gap` is not reset.
- The option setters and `NewClient` in client.go are configuration plumbing and are not
  modelled.
