/**
 * `lookupInServers` of dns.go as an event-driven state machine. One
 * coordinator races the resolvers of one trust class: it admits them strictly
 * in list order, each when an escalation permit is taken from the `queryNext`
 * buffer or when the stagger ticker fires, leaves the loop when its `select`
 * takes the context's end, and hands the first successful reply to a single-slot result channel.
 *
 * The goroutines become events, each a method: the loop's `select` taking a
 * permit, a tick or the context's end; a lookup finishing with a reply or with
 * an error; the request receiving from the result channel; the context being
 * cancelled from outside; and `wg.Wait()` returning.
 */
module Race {
  import opened Wrappers
  import opened DnsMsg

  /** One upstream resolver; the core uses its address only in log lines. */
  datatype Resolver = Resolver(addr: string)

  class Coordinator {
    /** The resolvers of one trust class, in priority order. */
    const servers: seq<Resolver>
    /** Capacity of the `queryNext` permit buffer. */
    const capacity: nat

    /** Index of the server the loop admits next. */
    var next: nat
    /** Permits waiting in the `queryNext` buffer. */
    var permits: nat
    /** Indices of admitted lookups whose goroutine has not finished (the WaitGroup). */
    var inFlight: set<nat>
    /** Failed lookups blocked on a send to a full `queryNext` buffer. */
    var blocked: set<nat>
    /** The single-slot result channel. */
    var result: Option<Msg>
    /** Whether the request has already received from the result channel. */
    var taken: bool
    /** Whether the coordinator's context is done. */
    var cancelled: bool
    /** Whether the admission loop has exited. */
    var loopDone: bool
    /** Whether `lookupInServers` has returned. */
    var returned: bool
    /** The resolvers admitted so far, in admission order. */
    ghost var admitted: seq<Resolver>

    ghost predicate Valid()
      reads this
    {
      && next <= |servers|
      && admitted == servers[..next]
      && (forall k :: k in inFlight ==> k < next)
      && |inFlight| <= next
      && blocked <= inFlight
      // every permit in the buffer, every lookup still running and every
      // server not yet admitted accounts for at most one send to `queryNext`,
      // and the buffer started with one permit
      && permits + |inFlight| + (|servers| - next) <= |servers| + 1
      && permits <= capacity
      && (capacity == |servers| || capacity == |servers| + 1)
      // a permit send can block only once the loop has exited, and then
      // nothing takes permits out of the buffer again
      && (blocked != {} ==> permits == capacity && loopDone)
      && (!loopDone ==> next < |servers| && !returned)
      && (returned ==> loopDone && inFlight == {} && cancelled)
      && (result.Some? ==> cancelled)
      && (|servers| == 0 ==> returned)
    }

    /**
     * A coordinator that no event can move forward: the loop has exited, so
     * nothing takes permits any more, the buffer is full, and every lookup
     * still counted by the WaitGroup is blocked sending a permit, so
     * `wg.Wait()` never returns.
     */
    predicate Deadlocked()
      reads this
    {
      loopDone && !returned && inFlight != {} && inFlight <= blocked && permits == capacity
    }

    /**
     * `lookupInServers` as written (dns.go:17-27): an empty list returns at
     * once (cancelling the context) without any lookup; otherwise the permit
     * buffer has room for `len(servers)` permits and starts with one.
     */
    constructor Start(servers: seq<Resolver>)
      ensures Valid()
      ensures this.servers == servers && capacity == |servers|
      ensures next == 0 && admitted == [] && inFlight == {} && blocked == {} && result == None && !taken
      ensures |servers| == 0 ==> returned && cancelled && loopDone && permits == 0
      ensures |servers| > 0 ==> permits == 1 && !cancelled && !loopDone && !returned
    {
      this.servers := servers;
      capacity := |servers|;
      next := 0;
      admitted := [];
      inFlight := {};
      blocked := {};
      result := None;
      taken := false;
      if |servers| == 0 {
        permits := 0;
        cancelled, loopDone, returned := true, true, true;
      } else {
        permits := 1;
        cancelled, loopDone, returned := false, false, false;
      }
    }

    /**
     * The same start with one more slot in the permit buffer, room for the
     * initial permit plus one per server; no send to it can then block.
     */
    constructor StartWithSpareSlot(servers: seq<Resolver>)
      ensures Valid()
      ensures this.servers == servers && capacity == |servers| + 1
      ensures next == 0 && admitted == [] && inFlight == {} && blocked == {} && result == None && !taken
      ensures |servers| == 0 ==> returned && cancelled && loopDone && permits == 0
      ensures |servers| > 0 ==> permits == 1 && !cancelled && !loopDone && !returned
    {
      this.servers := servers;
      capacity := |servers| + 1;
      next := 0;
      admitted := [];
      inFlight := {};
      blocked := {};
      result := None;
      taken := false;
      if |servers| == 0 {
        permits := 0;
        cancelled, loopDone, returned := true, true, true;
      } else {
        permits := 1;
        cancelled, loopDone, returned := false, false, false;
      }
    }

    /**
     * The loop's `select` takes a permit: the next server in list order is
     * admitted and its lookup starts. After the last server the loop exits.
     */
    method AdmitByPermit() returns (index: nat)
      requires Valid() && !loopDone && permits > 0
      modifies this
      ensures Valid()
      ensures index == old(next) && next == old(next) + 1
      ensures admitted == old(admitted) + [servers[index]]
      ensures permits == old(permits) - 1 && inFlight == old(inFlight) + {index}
      ensures loopDone == (next == |servers|)
      ensures blocked == old(blocked) && result == old(result) && taken == old(taken)
      ensures cancelled == old(cancelled) && !returned
    {
      index := next;
      permits := permits - 1;
      Admit();
    }

    /**
     * The loop's `select` takes a tick of the stagger ticker: the next server
     * is admitted without using a permit.
     */
    method AdmitByTick() returns (index: nat)
      requires Valid() && !loopDone
      modifies this
      ensures Valid()
      ensures index == old(next) && next == old(next) + 1
      ensures admitted == old(admitted) + [servers[index]]
      ensures permits == old(permits) && inFlight == old(inFlight) + {index}
      ensures loopDone == (next == |servers|)
      ensures blocked == old(blocked) && result == old(result) && taken == old(taken)
      ensures cancelled == old(cancelled) && !returned
    {
      index := next;
      Admit();
    }

    /** `wg.Add(1); go doLookup(servers[next])`, then the loop moves on. */
    method Admit()
      requires next < |servers| && !loopDone && !returned
      requires admitted == servers[..next]
      requires forall k :: k in inFlight ==> k < next
      requires |inFlight| <= next
      modifies this`next, this`inFlight, this`admitted, this`loopDone
      ensures next == old(next) + 1 && admitted == old(admitted) + [servers[old(next)]]
      ensures inFlight == old(inFlight) + {old(next)} && |inFlight| == old(|inFlight|) + 1
      ensures loopDone == (next == |servers|)
      ensures admitted == servers[..next]
      ensures forall k :: k in inFlight ==> k < next
    {
      assert next !in inFlight;
      inFlight := inFlight + {next};
      admitted := admitted + [servers[next]];
      assert servers[..next + 1] == servers[..next] + [servers[next]];
      next := next + 1;
      loopDone := next == |servers|;
    }

    /** The loop's `select` sees the context done and breaks out of the loop. */
    method ObserveCancel()
      requires Valid() && !loopDone && cancelled
      modifies this`loopDone
      ensures Valid() && loopDone
    {
      loopDone := true;
    }

    /**
     * The coordinator's context is cancelled from outside (a parent context
     * or the request finishing). Cancellation never reverts.
     */
    method Cancel()
      requires Valid()
      modifies this`cancelled
      ensures Valid() && cancelled
      ensures old(Deadlocked()) ==> Deadlocked()
    {
      cancelled := true;
    }

    /**
     * A lookup returns a reply: a non-blocking send puts it in the result slot
     * if the slot is empty and drops it otherwise, then the context is
     * cancelled. A reply waiting in the slot is never replaced; once the
     * request has taken it, a later success finds the slot empty again and
     * stores a reply that nobody receives.
     */
    method Succeed(k: nat, reply: Msg) returns (stored: bool)
      requires Valid() && k in inFlight && k !in blocked
      modifies this`result, this`cancelled, this`inFlight
      ensures Valid()
      ensures stored == old(result).None?
      ensures result == if stored then Some(reply) else old(result)
      ensures cancelled && inFlight == old(inFlight) - {k}
    {
      stored := result.None?;
      if stored {
        result := Some(reply);
      }
      cancelled := true;
      inFlight := inFlight - {k};
    }

    /**
     * The request receives from the result channel: the first `select` of
     * `Serve` or the classifier's wait on the other group. Each channel is
     * received from at most once per request, so at most one reply of a
     * coordinator is ever delivered.
     */
    method Take() returns (reply: Msg)
      requires Valid() && result.Some? && !taken
      modifies this`result, this`taken
      ensures Valid()
      ensures reply == old(result).value && result == None && taken
    {
      reply := result.value;
      result := None;
      taken := true;
    }

    /**
     * A lookup fails: it sends one permit to `queryNext` and touches nothing
     * else. With the buffer full the send blocks and the lookup stays counted
     * by the WaitGroup; with a spare slot it never blocks. A send blocks only
     * after the admission loop has exited.
     */
    method Fail(k: nat) returns (delivered: bool)
      requires Valid() && k in inFlight && k !in blocked
      modifies this`permits, this`inFlight, this`blocked
      ensures Valid()
      ensures delivered == (old(permits) < capacity)
      ensures capacity > |servers| ==> delivered
      ensures delivered ==> permits == old(permits) + 1 && inFlight == old(inFlight) - {k} && blocked == old(blocked)
      ensures !delivered ==> permits == old(permits) && inFlight == old(inFlight) && blocked == old(blocked) + {k}
      ensures !delivered ==> loopDone && next == |servers|
    {
      delivered := permits < capacity;
      if delivered {
        permits := permits + 1;
        inFlight := inFlight - {k};
      } else {
        blocked := blocked + {k};
      }
    }

    /** `wg.Wait()` returns once every lookup is done; the deferred cancel runs. */
    method Join()
      requires Valid() && loopDone && inFlight == {}
      modifies this`returned, this`cancelled
      ensures Valid() && returned && cancelled
    {
      returned, cancelled := true, true;
    }
  }

  /**
   * One resolver, admitted by the ticker before the initial permit was taken,
   * whose lookup fails: its permit send finds the one-slot buffer full, the
   * loop has already exited, and the coordinator can never return.
   */
  method TickAdmittedFailureDeadlocks(s: Resolver) returns (delivered: bool, deadlocked: bool)
    ensures !delivered && deadlocked
  {
    var c := new Coordinator.Start([s]);
    var k := c.AdmitByTick();
    delivered := c.Fail(k);
    deadlocked := c.Deadlocked();
  }

  /** With the spare slot the same events let the coordinator return. */
  method SpareSlotTickAdmittedFailureReturns(s: Resolver) returns (delivered: bool, returned: bool)
    ensures delivered && returned
  {
    var c := new Coordinator.StartWithSpareSlot([s]);
    var k := c.AdmitByTick();
    delivered := c.Fail(k);
    c.Join();
    returned := c.returned;
  }

  /** A coordinator with the spare slot is never deadlocked on its permit buffer. */
  lemma SpareSlotNeverDeadlocks(c: Coordinator)
    requires c.Valid() && c.capacity == |c.servers| + 1
    ensures !c.Deadlocked()
  {
  }
}
