/**
 * The answer classifier of dns.go: `processReply` picks the representative
 * address of a reply, and `processUntrustedAnswer` / `processTrustedAnswer`
 * decide whether to keep the reply or to wait for the other resolver group's
 * reply and classify that one instead.
 *
 * The `select` on the other group's channel becomes an input `other`:
 * `Some(m)` when that group's reply `m` arrives before the request context is
 * done, `None` when the context is done first. The nested call that the source
 * makes with a nil channel is the call with `other == None`.
 */
module Classifier {
  import opened Wrappers
  import opened DnsMsg

  /** Which trust-specific rule `processReply` applies to the address it finds. */
  datatype Rule = UntrustedRule | TrustedRule

  /**
   * The server settings the rules consult. The IP blacklist and the domestic
   * CIDR table are opaque membership tests; when a lookup reports an error,
   * the error is logged and the boolean it returns is used.
   */
  datatype Policy = Policy(
    ipBlacklist: IP -> bool,
    chinaCIDR: IP -> bool,
    bidirectional: bool)

  /** One membership test performed while classifying. */
  datatype Lookup = BlacklistLookup(ip: IP) | CidrLookup(ip: IP)

  /**
   * What classification returns: the chosen reply, the membership tests it
   * made in order, and how many times it waited on the other group's channel
   * (or, in the nested call, on the context alone).
   */
  datatype Decision = Decision(reply: Msg, lookups: seq<Lookup>, waits: nat)

  predicate AllCname(rs: seq<Record>) {
    forall i :: 0 <= i < |rs| ==> rs[i].CNAME?
  }

  /**
   * The address `processReply` hands to the rule: the first A or AAAA record,
   * provided only CNAME records come before it. A CNAME in last position, an
   * empty answer or any other record reached first yields `None`.
   */
  function Representative(answer: seq<Record>): (r: Option<IP>)
    ensures r.Some? ==>
      exists k :: 0 <= k < |answer| && AllCname(answer[..k]) && IsAddress(answer[k]) && AddressOf(answer[k]) == r.value
    ensures r.None? ==>
      forall k :: 0 <= k < |answer| && AllCname(answer[..k]) ==> !IsAddress(answer[k])
  {
    if |answer| == 0 then None
    else match answer[0]
      case A(ip) =>
        assert AllCname(answer[..0]);
        Some(ip)
      case AAAA(ip) =>
        assert AllCname(answer[..0]);
        Some(ip)
      case CNAME(_) =>
        var r := Representative(answer[1..]);
        assert forall k :: 0 <= k < |answer| - 1 ==> answer[..k + 1] == [answer[0]] + answer[1..][..k];
        assert r.None? ==> forall k :: 0 < k < |answer| && AllCname(answer[..k]) ==> AllCname(answer[1..][..k - 1]);
        r
      case Other(_) =>
        assert forall k :: 0 < k < |answer| ==> !AllCname(answer[..k]) by {
          forall k | 0 < k < |answer| ensures !AllCname(answer[..k]) {
            assert answer[..k][0] == answer[0];
          }
        }
        None
  }

  /**
   * The scan loop of `processReply` as written: A and AAAA return at once, a
   * CNAME is skipped unless it is the last record, anything else ends the scan.
   */
  method ScanAnswer(answer: seq<Record>) returns (r: Option<IP>)
    ensures r == Representative(answer)
  {
    var i := 0;
    while i < |answer|
      invariant 0 <= i <= |answer|
      invariant Representative(answer) == Representative(answer[i..])
    {
      match answer[i]
      case A(ip) =>
        return Some(ip);
      case AAAA(ip) =>
        return Some(ip);
      case CNAME(_) =>
        if i < |answer| - 1 {
          assert answer[i..][1..] == answer[i + 1..];
          i := i + 1;
        } else {
          return None;
        }
      case Other(_) =>
        return None;
    }
    return None;
  }

  function Opposite(rule: Rule): Rule {
    if rule.UntrustedRule? then TrustedRule else UntrustedRule
  }

  /**
   * `processReply`: classify the representative address with `rule`, or keep
   * `rep` untouched, with no lookups, when there is none. The result is always
   * `rep` or the other group's reply; the other group is waited for at most
   * twice in all, and with no other reply available the result is `rep`.
   */
  function ProcessReply(p: Policy, rule: Rule, rep: Msg, other: Option<Msg>): (d: Decision)
    ensures d.reply == rep || (other.Some? && d.reply == other.value)
    ensures d.waits <= 2
    ensures other.None? ==> d.reply == rep && d.waits <= 1
    ensures Representative(rep.answer).None? ==> d.lookups == [] && d.waits == 0
    decreases if other.Some? then 1 else 0, 2
  {
    match Representative(rep.answer)
    case None => Decision(rep, [], 0)
    case Some(ip) =>
      if rule.UntrustedRule? then ProcessUntrustedAnswer(p, rep, ip, other)
      else ProcessTrustedAnswer(p, rep, ip, other)
  }

  /**
   * `processUntrustedAnswer`: an address from an untrusted resolver is kept at
   * once exactly when it is off the IP blacklist and inside the domestic CIDR
   * set. Otherwise the trusted reply, if it arrives, is classified by the
   * trusted rule with no further fallback; if it does not, `rep` is kept.
   */
  function ProcessUntrustedAnswer(p: Policy, rep: Msg, ip: IP, trusted: Option<Msg>): (d: Decision)
    ensures d.waits == 0 <==> !p.ipBlacklist(ip) && p.chinaCIDR(ip)
    ensures |d.lookups| >= 1 && d.lookups[0] == BlacklistLookup(ip)
    ensures d.waits == 0 ==> d.reply == rep && d.lookups == [BlacklistLookup(ip), CidrLookup(ip)]
    ensures trusted.None? ==> d.reply == rep && d.waits <= 1
    ensures trusted.Some? && d.waits > 0 ==> d.reply == trusted.value
    ensures d.waits <= 2
    decreases if trusted.Some? then 1 else 0, 1
  {
    var hit := p.ipBlacklist(ip);
    if !hit && p.chinaCIDR(ip) then
      Decision(rep, [BlacklistLookup(ip), CidrLookup(ip)], 0)
    else
      var checked := if hit then [BlacklistLookup(ip)] else [BlacklistLookup(ip), CidrLookup(ip)];
      match trusted
      case Some(t) =>
        var d := ProcessReply(p, TrustedRule, t, None);
        Decision(d.reply, checked + d.lookups, d.waits + 1)
      case None =>
        Decision(rep, checked, 1)
  }

  /**
   * `processTrustedAnswer`: an address from a trusted resolver is kept at once
   * exactly when it is off the IP blacklist and either bidirectional mode is off
   * or the address is outside the domestic CIDR set; with bidirectional mode
   * off the CIDR set is never consulted. Otherwise the untrusted reply, if it
   * arrives, is classified by the untrusted rule with no further fallback; if
   * it does not, `rep` is kept.
   */
  function ProcessTrustedAnswer(p: Policy, rep: Msg, ip: IP, untrusted: Option<Msg>): (d: Decision)
    ensures d.waits == 0 <==> !p.ipBlacklist(ip) && (!p.bidirectional || !p.chinaCIDR(ip))
    ensures |d.lookups| >= 1 && d.lookups[0] == BlacklistLookup(ip)
    ensures d.waits == 0 ==> d.reply == rep
    ensures !p.bidirectional && !p.ipBlacklist(ip) ==> d.lookups == [BlacklistLookup(ip)]
    ensures untrusted.None? ==> d.reply == rep && d.waits <= 1
    ensures untrusted.Some? && d.waits > 0 ==> d.reply == untrusted.value
    ensures d.waits <= 2
    decreases if untrusted.Some? then 1 else 0, 1
  {
    var hit := p.ipBlacklist(ip);
    if !hit && !p.bidirectional then
      Decision(rep, [BlacklistLookup(ip)], 0)
    else if !hit && !p.chinaCIDR(ip) then
      Decision(rep, [BlacklistLookup(ip), CidrLookup(ip)], 0)
    else
      var checked := if hit then [BlacklistLookup(ip)] else [BlacklistLookup(ip), CidrLookup(ip)];
      match untrusted
      case Some(u) =>
        var d := ProcessReply(p, UntrustedRule, u, None);
        Decision(d.reply, checked + d.lookups, d.waits + 1)
      case None =>
        Decision(rep, checked, 1)
  }

  /** The rule `processReply` applies, selected by `rule`. */
  function ProcessAnswer(p: Policy, rule: Rule, rep: Msg, ip: IP, other: Option<Msg>): Decision {
    if rule.UntrustedRule? then ProcessUntrustedAnswer(p, rep, ip, other)
    else ProcessTrustedAnswer(p, rep, ip, other)
  }

  /**
   * The first address record after a run of CNAMEs decides the verdict:
   * whatever records follow it are never looked at.
   */
  lemma {:induction false} FirstAddressDecides(p: Policy, rule: Rule, rep: Msg, other: Option<Msg>,
                                               pre: seq<Record>, rec: Record, post: seq<Record>)
    requires rep.answer == pre + [rec] + post
    requires AllCname(pre) && IsAddress(rec)
    ensures ProcessReply(p, rule, rep, other) == ProcessAnswer(p, rule, rep, AddressOf(rec), other)
  {
    RepresentativeAfterCnames(pre, rec, post);
  }

  lemma {:induction false} RepresentativeAfterCnames(pre: seq<Record>, rec: Record, post: seq<Record>)
    requires AllCname(pre) && IsAddress(rec)
    ensures Representative(pre + [rec] + post) == Some(AddressOf(rec))
  {
    if pre != [] {
      assert (pre + [rec] + post)[1..] == pre[1..] + [rec] + post;
      RepresentativeAfterCnames(pre[1..], rec, post);
    }
  }

  /**
   * A reply whose answer is a run of CNAMEs followed by nothing (an empty
   * answer, or a CNAME in last position) or by a record that is neither an
   * address nor a CNAME is returned unchanged, with no lookup and no wait.
   */
  lemma {:induction false} UnclassifiedReplyKept(p: Policy, rule: Rule, rep: Msg, other: Option<Msg>,
                                                 pre: seq<Record>, rest: seq<Record>)
    requires rep.answer == pre + rest
    requires AllCname(pre)
    requires rest == [] || rest[0].Other?
    ensures ProcessReply(p, rule, rep, other) == Decision(rep, [], 0)
  {
    NoRepresentative(pre, rest);
  }

  lemma {:induction false} NoRepresentative(pre: seq<Record>, rest: seq<Record>)
    requires AllCname(pre)
    requires rest == [] || rest[0].Other?
    ensures Representative(pre + rest) == None
  {
    if pre == [] {
      assert pre + rest == rest;
    } else {
      assert (pre + rest)[1..] == pre[1..] + rest;
      NoRepresentative(pre[1..], rest);
    }
  }

  /**
   * A suspect verdict with the other group's reply `m` available yields `m`,
   * classified once more by the opposite rule with no fallback; its lookups
   * follow the first round's.
   */
  lemma CrossCheckUsesOtherReply(p: Policy, rule: Rule, rep: Msg, m: Msg)
    requires ProcessReply(p, rule, rep, None).waits > 0
    ensures var d := ProcessReply(p, rule, rep, Some(m));
            var second := ProcessReply(p, Opposite(rule), m, None);
            d.reply == m && d.reply == second.reply && d.waits == second.waits + 1
            && d.lookups == ProcessReply(p, rule, rep, None).lookups + second.lookups
  {
  }
}
