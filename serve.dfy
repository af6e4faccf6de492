/**
 * `Serve` and `normalizeRequest` of dns.go: the per-request orchestration that
 * short-circuits blacklisted names, races the trusted and (unless the name is
 * polluted) the untrusted resolver group, classifies the first reply, and
 * writes exactly one reply.
 *
 * The two coordinators and the three-way `select` become inputs: what each
 * group's result slot ends up holding, which ready event the `select` takes,
 * and whether the other group's reply beats the request context when the
 * classifier waits for it.
 */
module Serve {
  import opened Wrappers
  import opened DnsMsg
  import opened Classifier
  import opened Race

  /** The server settings `Serve` reads; the domain lists are opaque tests. */
  datatype Config = Config(
    trustedServers: seq<Resolver>,
    untrustedServers: seq<Resolver>,
    domainBlacklist: string -> bool,
    domainPolluted: string -> bool,
    policy: Policy,
    tcpOnly: bool,
    udpMaxSize: int)

  /** Which event the `select` of dns.go:102-108 takes when it has a choice. */
  datatype Arrival = UntrustedFirst | TrustedFirst | ContextFirst

  /**
   * The environment of one request: the reply each group's coordinator would
   * place in its result slot if started (`None` when all its lookups fail or
   * it is cancelled first), which event wins the first `select`, and whether
   * the other group's reply arrives before the context ends when the
   * classifier waits for it.
   */
  datatype Schedule = Schedule(
    untrustedRace: Option<Msg>,
    trustedRace: Option<Msg>,
    first: Arrival,
    otherInTime: bool)

  /**
   * What one request does: the reply written, whether each coordinator was
   * started, and the membership tests the classifier made.
   */
  datatype Outcome = Outcome(
    reply: Msg,
    untrustedStarted: bool,
    trustedStarted: bool,
    lookups: seq<Lookup>)

  /** The event the first `select` takes. */
  datatype Pick = FromUntrusted(rep: Msg) | FromTrusted(rep: Msg) | NoReply

  /**
   * `normalizeRequest`: recursion is forced on and, unless the server is
   * TCP-only, the EDNS0 UDP payload size is set to the configured size
   * truncated to 16 bits (`uint16(s.UDPMaxSize)`); nothing else changes.
   */
  function NormalizeRequest(cfg: Config, req: Msg): (r: Msg)
    ensures r.recursionDesired
    ensures cfg.tcpOnly ==> r.udpSize == req.udpSize
    ensures !cfg.tcpOnly ==> r.udpSize.Some? && 0 <= r.udpSize.value < 0x1_0000
    ensures !cfg.tcpOnly && 0 <= cfg.udpMaxSize < 0x1_0000 ==> r.udpSize == Some(cfg.udpMaxSize)
    ensures r.(recursionDesired := req.recursionDesired, udpSize := req.udpSize) == req
  {
    var rd := req.(recursionDesired := true);
    if cfg.tcpOnly then rd else rd.(udpSize := Some(cfg.udpMaxSize % 0x1_0000))
  }

  /**
   * The slot of a coordinator that was started: empty when its list is empty,
   * since `lookupInServers` then returns before any lookup.
   */
  function RaceResult(servers: seq<Resolver>, raced: Option<Msg>): Option<Msg> {
    if |servers| == 0 then None else raced
  }

  /**
   * The first `select`: a reply can be taken only if its slot holds one; the
   * context ends only once both coordinators have returned, so with no reply
   * in either slot the context is what the `select` takes.
   */
  function Select(u: Option<Msg>, t: Option<Msg>, first: Arrival): (p: Pick)
    ensures p.FromUntrusted? ==> u == Some(p.rep)
    ensures p.FromTrusted? ==> t == Some(p.rep)
    ensures p.NoReply? <==> first.ContextFirst? || (u.None? && t.None?)
    ensures first.UntrustedFirst? && u.Some? ==> p.FromUntrusted?
    ensures first.TrustedFirst? && t.Some? ==> p.FromTrusted?
  {
    match first
    case ContextFirst => NoReply
    case UntrustedFirst =>
      if u.Some? then FromUntrusted(u.value) else if t.Some? then FromTrusted(t.value) else NoReply
    case TrustedFirst =>
      if t.Some? then FromTrusted(t.value) else if u.Some? then FromUntrusted(u.value) else NoReply
  }

  /** The slot the untrusted coordinator fills, if it is started at all. */
  function UntrustedSlot(cfg: Config, name: string, sched: Schedule): Option<Msg> {
    if cfg.domainPolluted(name) then None else RaceResult(cfg.untrustedServers, sched.untrustedRace)
  }

  /**
   * What `Serve` does with one request. A blacklisted name gets an empty
   * reply mirroring the request and starts nothing. Otherwise the trusted
   * coordinator always starts and the untrusted one exactly when the name is
   * not polluted, and then only a trusted reply can be written. The reply
   * the first `select` takes is classified by its group's rule, with the
   * other group's slot as fallback, and the verdict is written marked for
   * compression; when the context wins instead, the empty reply mirroring
   * the normalized request is written.
   */
  function Served(cfg: Config, req: Msg, sched: Schedule): (o: Outcome)
    requires |req.question| > 0
    ensures cfg.domainBlacklist(req.question[0].name) ==>
      o.reply == EmptyReply(req) && !o.untrustedStarted && !o.trustedStarted && o.lookups == []
    ensures !cfg.domainBlacklist(req.question[0].name) ==>
      o.trustedStarted && o.untrustedStarted == !cfg.domainPolluted(req.question[0].name)
    ensures cfg.domainPolluted(req.question[0].name) && o.reply.compress ==>
      sched.trustedRace.Some? && o.reply == sched.trustedRace.value.(compress := true)
    ensures o.reply.compress ==>
      exists m :: m in [UntrustedSlot(cfg, req.question[0].name, sched), RaceResult(cfg.trustedServers, sched.trustedRace)]
        && m.Some? && o.reply == m.value.(compress := true)
    ensures !cfg.domainBlacklist(req.question[0].name) ==>
      var u := UntrustedSlot(cfg, req.question[0].name, sched);
      var t := RaceResult(cfg.trustedServers, sched.trustedRace);
      match Select(u, t, sched.first)
      case NoReply =>
        o.reply == EmptyReply(NormalizeRequest(cfg, req))
      case FromUntrusted(rep) =>
        var d := ProcessReply(cfg.policy, UntrustedRule, rep, if sched.otherInTime then t else None);
        o.reply == d.reply.(compress := true) && o.lookups == d.lookups
      case FromTrusted(rep) =>
        var d := ProcessReply(cfg.policy, TrustedRule, rep, if sched.otherInTime then u else None);
        o.reply == d.reply.(compress := true) && o.lookups == d.lookups
    ensures !o.reply.compress ==>
      o.reply.answer == [] && o.reply.response && o.reply.id == req.id && o.reply.question == [req.question[0]]
      && o.lookups == []
  {
    var name := req.question[0].name;
    if cfg.domainBlacklist(name) then
      Outcome(EmptyReply(req), false, false, [])
    else
      var polluted := cfg.domainPolluted(name);
      var u := UntrustedSlot(cfg, name, sched);
      var t := RaceResult(cfg.trustedServers, sched.trustedRace);
      match Select(u, t, sched.first)
      case FromUntrusted(rep) =>
        var d := ProcessReply(cfg.policy, UntrustedRule, rep, if sched.otherInTime then t else None);
        Outcome(d.reply.(compress := true), !polluted, true, d.lookups)
      case FromTrusted(rep) =>
        var d := ProcessReply(cfg.policy, TrustedRule, rep, if sched.otherInTime then u else None);
        Outcome(d.reply.(compress := true), !polluted, true, d.lookups)
      case NoReply =>
        Outcome(EmptyReply(NormalizeRequest(cfg, req)), !polluted, true, [])
  }

  /** The transport side of one DNS exchange: the messages written to it. */
  class ResponseWriter {
    var sent: seq<Msg>

    constructor ()
      ensures sent == []
    {
      sent := [];
    }

    /** `w.WriteMsg(m)`. */
    method WriteMsg(m: Msg)
      modifies this
      ensures sent == old(sent) + [m]
    {
      sent := sent + [m];
    }
  }

  /**
   * `Serve`: every path writes exactly one reply, the one `Served` describes,
   * and reports which coordinators it started.
   */
  method Serve(cfg: Config, req: Msg, sched: Schedule, w: ResponseWriter)
    returns (untrustedStarted: bool, trustedStarted: bool)
    requires |req.question| > 0
    modifies w
    ensures w.sent == old(w.sent) + [Served(cfg, req, sched).reply]
    ensures untrustedStarted == Served(cfg, req, sched).untrustedStarted
    ensures trustedStarted == Served(cfg, req, sched).trustedStarted
  {
    var name := req.question[0].name;
    if cfg.domainBlacklist(name) {
      var reply := EmptyReply(req);
      w.WriteMsg(reply);
      untrustedStarted, trustedStarted := false, false;
      return;
    }

    var nreq := NormalizeRequest(cfg, req);
    trustedStarted := true;
    var t := RaceResult(cfg.trustedServers, sched.trustedRace);
    var u: Option<Msg> := None;
    if !cfg.domainPolluted(name) {
      untrustedStarted := true;
      u := RaceResult(cfg.untrustedServers, sched.untrustedRace);
    } else {
      // ucancel(): the untrusted coordinator is never started
      untrustedStarted := false;
    }
    assert u == UntrustedSlot(cfg, name, sched);

    var reply: Option<Msg> := None;
    match Select(u, t, sched.first) {
      case FromUntrusted(rep) =>
        var d := ProcessReply(cfg.policy, UntrustedRule, rep, if sched.otherInTime then t else None);
        reply := Some(d.reply);
      case FromTrusted(rep) =>
        var d := ProcessReply(cfg.policy, TrustedRule, rep, if sched.otherInTime then u else None);
        reply := Some(d.reply);
      case NoReply =>
        // the context ended first; `reply` stays nil
    }
    // cancel(): the request context ends here, stopping both coordinators

    var out: Msg;
    if reply.Some? {
      out := reply.value.(compress := true);
    } else {
      out := EmptyReply(nreq);
    }
    w.WriteMsg(out);
  }

  /**
   * With both resolver lists empty no reply can arrive, whatever the
   * schedule, and the reply is the empty one mirroring the request.
   */
  lemma NoResolversEmptyReply(cfg: Config, req: Msg, sched: Schedule)
    requires |req.question| > 0
    requires cfg.trustedServers == [] && cfg.untrustedServers == []
    ensures Served(cfg, req, sched).reply.answer == []
    ensures !Served(cfg, req, sched).reply.compress
  {
  }

  /**
   * An untrusted reply whose first address is clean and domestic is written
   * as it is, even when the trusted reply is available in time.
   */
  lemma DomesticUntrustedReplyServed(cfg: Config, req: Msg, sched: Schedule, rep: Msg, ip: IP)
    requires |req.question| > 0
    requires !cfg.domainBlacklist(req.question[0].name) && !cfg.domainPolluted(req.question[0].name)
    requires |cfg.untrustedServers| > 0
    requires sched.untrustedRace == Some(rep) && sched.first.UntrustedFirst?
    requires |rep.answer| > 0 && rep.answer[0] == A(ip)
    requires !cfg.policy.ipBlacklist(ip) && cfg.policy.chinaCIDR(ip)
    ensures Served(cfg, req, sched).reply == rep.(compress := true)
  {
  }

  /**
   * An untrusted reply whose first address is foreign and clean is replaced
   * by the trusted reply when that arrives in time, whatever the trusted
   * rule would say of it: the second hop has no fallback.
   */
  lemma ForeignUntrustedReplyReplaced(cfg: Config, req: Msg, sched: Schedule, rep: Msg, ip: IP, trep: Msg)
    requires |req.question| > 0
    requires !cfg.domainBlacklist(req.question[0].name) && !cfg.domainPolluted(req.question[0].name)
    requires |cfg.untrustedServers| > 0 && |cfg.trustedServers| > 0
    requires sched.untrustedRace == Some(rep) && sched.first.UntrustedFirst?
    requires sched.trustedRace == Some(trep) && sched.otherInTime
    requires |rep.answer| > 0 && rep.answer[0] == A(ip)
    requires !cfg.policy.ipBlacklist(ip) && !cfg.policy.chinaCIDR(ip)
    ensures Served(cfg, req, sched).reply == trep.(compress := true)
  {
  }
}
