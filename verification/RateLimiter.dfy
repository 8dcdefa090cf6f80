/** The limiter object: its lists are replaced and appended to by calls, proved against the state machine. */
module RateLimiter {
  import opened SlidingWindow

  /** The map half way through a cleanup, with the senders in `left` still to visit. */
  function Swept(was: map<Sender, seq<Time>>, left: set<Sender>, cut: Time): map<Sender, seq<Time>> {
    map s | s in was && (s in left || Recent(was[s], cut) != []) :: if s in left then was[s] else Recent(was[s], cut)
  }

  lemma SweepOne(was: map<Sender, seq<Time>>, left: set<Sender>, s: Sender, cut: Time)
    requires s in left && left <= was.Keys
    ensures var kept := Recent(was[s], cut);
            Swept(was, left - {s}, cut)
            == if kept == [] then Swept(was, left, cut) - {s} else Swept(was, left, cut)[s := kept]
  {
  }

  class RateLimiter {
    const config: Config
    var requests: map<Sender, seq<Time>>
    var globalRequests: seq<Time>

    ghost predicate Valid()
      reads this
    {
      Positive(config)
    }

    ghost function Contents(): Limiter
      reads this
    {
      Limiter(config, requests, globalRequests)
    }

    constructor (maxRequests: nat, windowMs: nat, globalMaxRequests: nat)
      ensures Valid() && Contents() == State(Configured(maxRequests, windowMs, globalMaxRequests), [])
    {
      config := Configured(maxRequests, windowMs, globalMaxRequests);
      requests, globalRequests := map[], [];
    }

    method CheckLimits(sender: Sender, now: Time) returns (d: Decision)
      requires Valid()
      modifies this`globalRequests
      ensures (Contents(), Decided(d)) == Step(old(Contents()), Check(sender), now)
    {
      var windowStart := now - config.windowMs;
      globalRequests := Recent(globalRequests, windowStart);
      if |globalRequests| >= config.globalMaxRequests {
        return Refused(GlobalLimit, globalRequests[0] + config.windowMs - now);
      }
      var senderRequests := Recent(RequestsOf(requests, sender), windowStart);
      if |senderRequests| >= config.maxRequests {
        return Refused(SenderLimit, senderRequests[0] + config.windowMs - now);
      }
      d := Allowed;
    }

    method RecordRequest(sender: Sender, now: Time)
      requires Valid()
      modifies this
      ensures Contents() == Step(old(Contents()), Record(sender), now).0
    {
      requests := requests[sender := RequestsOf(requests, sender) + [now]];
      globalRequests := globalRequests + [now];
    }

    method CheckThenRecord(sender: Sender, now: Time) returns (d: Decision)
      requires Valid()
      modifies this
      ensures (Contents(), Decided(d)) == Step(old(Contents()), CheckAndRecord(sender), now)
    {
      d := CheckLimits(sender, now);
      if d.Allowed? {
        RecordRequest(sender, now);
      }
    }

    method RateOf(sender: Sender, now: Time) returns (count: nat, limit: nat, remaining: nat, resetMs: int)
      requires Valid()
      ensures Rate(count, limit, remaining, resetMs) == Step(Contents(), GetRate(sender), now).1
    {
      var senderRequests := Recent(RequestsOf(requests, sender), now - config.windowMs);
      count, limit := |senderRequests|, config.maxRequests;
      remaining := if limit > count then limit - count else 0;
      resetMs := if count > 0 then senderRequests[0] + config.windowMs - now else 0;
    }

    method OverallRate(now: Time) returns (count: nat, limit: nat, remaining: nat)
      requires Valid()
      modifies this`globalRequests
      ensures (Contents(), GlobalRate(count, limit, remaining)) == Step(old(Contents()), GetGlobalRate, now)
    {
      globalRequests := Recent(globalRequests, now - config.windowMs);
      count, limit := |globalRequests|, config.globalMaxRequests;
      remaining := if limit > count then limit - count else 0;
    }

    /** The periodic cleanup walks over the senders, in any order, and updates the map it walks over. */
    method CleanUp(now: Time)
      requires Valid()
      modifies this
      ensures Contents() == Step(old(Contents()), Cleanup, now).0
    {
      var windowStart := now - config.windowMs;
      var left := requests.Keys;
      ghost var was := requests;
      while left != {}
        invariant left <= was.Keys
        invariant requests == Swept(was, left, windowStart)
        invariant globalRequests == old(globalRequests)
        decreases |left|
      {
        var sender :| sender in left;
        SweepOne(was, left, sender, windowStart);
        var filtered := Recent(requests[sender], windowStart);
        if |filtered| == 0 {
          requests := requests - {sender};
        } else {
          requests := requests[sender := filtered];
        }
        left := left - {sender};
      }
      assert Swept(was, {}, windowStart) == Pruned(was, windowStart);
      globalRequests := Recent(globalRequests, windowStart);
    }

    method ResetSender(sender: Sender)
      requires Valid()
      modifies this`requests
      ensures forall now :: Contents() == Step(old(Contents()), Reset(sender), now).0
    {
      requests := requests - {sender};
    }
  }
}
