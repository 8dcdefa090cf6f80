/** The reputation limiter object: a plain limiter, a size limiter and the scores, updated by calls. */
module ReputationLimiter {
  import opened SlidingWindow
  import opened Reputation
  import RateLimiter

  class SizeLimiter {
    const sizes: SizeConfig
    var dailyUsage: map<Sender, Usage>

    constructor (maxMessageSize: nat, maxDailyStorage: nat)
      ensures sizes == ConfiguredSizes(maxMessageSize, maxDailyStorage) && dailyUsage == map[]
    {
      sizes := ConfiguredSizes(maxMessageSize, maxDailyStorage);
      dailyUsage := map[];
    }

    method CheckSizes(sender: Sender, size: int, today: Day) returns (r: Ruling)
      ensures forall k: Keeper ::
                k.sizes == sizes && k.dailyUsage == dailyUsage ==> r == RuleSize(k, sender, size, today)
    {
      if size > sizes.maxMessageSize {
        return TooLarge(sizes.maxMessageSize);
      }
      if sender in dailyUsage {
        var usage := dailyUsage[sender];
        if usage.date == today && usage.bytes + size > sizes.maxDailyStorage {
          return DailyExceeded(usage.bytes, sizes.maxDailyStorage);
        }
      }
      r := Accepted;
    }

    method RecordStorage(sender: Sender, size: nat, today: Day)
      modifies this
      ensures dailyUsage == Used(old(dailyUsage), sender, size, today)
    {
      if sender in dailyUsage && dailyUsage[sender].date == today {
        var usage := dailyUsage[sender];
        dailyUsage := dailyUsage[sender := usage.(bytes := usage.bytes + size)];
      } else {
        dailyUsage := dailyUsage[sender := Usage(size, today)];
      }
    }
  }

  class ReputationRateLimiter {
    const baseRateLimiter: RateLimiter.RateLimiter
    const sizeLimiter: SizeLimiter
    var reputations: map<Sender, real>

    ghost predicate Valid()
      reads this, baseRateLimiter
    {
      baseRateLimiter.Valid()
    }

    ghost function Contents(): Keeper
      reads this, baseRateLimiter, sizeLimiter
    {
      Keeper(baseRateLimiter.Contents(), sizeLimiter.sizes, sizeLimiter.dailyUsage, reputations)
    }

    constructor (maxRequests: nat, windowMs: nat, globalMaxRequests: nat, maxMessageSize: nat, maxDailyStorage: nat)
      ensures Valid() && fresh(baseRateLimiter) && fresh(sizeLimiter)
      ensures Contents() == KeeperAfter(Configured(maxRequests, windowMs, globalMaxRequests),
                                        ConfiguredSizes(maxMessageSize, maxDailyStorage), [])
    {
      baseRateLimiter := new RateLimiter.RateLimiter(maxRequests, windowMs, globalMaxRequests);
      sizeLimiter := new SizeLimiter(maxMessageSize, maxDailyStorage);
      reputations := map[];
    }

    /** The loop over the thresholds; the last one reached stands. */
    method GetAdjustedLimit(sender: Sender) returns (limit: int)
      ensures limit == AdjustedLimit(Contents(), sender)
    {
      var reputation := ScoreOr(reputations, sender, 0.0);
      var multiplier := 0.5;
      for i := 0 to |THRESHOLDS|
        invariant multiplier == MultiplierAt(reputation, THRESHOLDS[..i])
      {
        assert THRESHOLDS[..i + 1][..i] == THRESHOLDS[..i];
        if reputation >= THRESHOLDS[i].score {
          multiplier := THRESHOLDS[i].multiplier;
        }
      }
      assert THRESHOLDS[..|THRESHOLDS|] == THRESHOLDS;
      limit := (baseRateLimiter.config.maxRequests as real * multiplier).Floor;
    }

    method CheckRequest(sender: Sender, messageSize: int, now: Time, today: Day) returns (r: Ruling)
      requires Valid()
      ensures r == Rule(Contents(), sender, messageSize, now, today)
    {
      if messageSize > 0 {
        r := sizeLimiter.CheckSizes(sender, messageSize, today);
        assert r == RuleSize(Contents(), sender, messageSize, today);
        if !r.Accepted? {
          return;
        }
      }
      var adjustedLimit := GetAdjustedLimit(sender);
      var count, _, _, _ := baseRateLimiter.RateOf(sender, now);
      if count >= adjustedLimit {
        return RateExceeded(ScoreOr(reputations, sender, 0.0), adjustedLimit);
      }
      r := Accepted;
    }

    method AdjustReputation(sender: Sender, delta: real)
      modifies this
      ensures reputations == Adjusted(old(reputations), sender, delta)
    {
      var current := ScoreOr(reputations, sender, 25.0);
      var capped := if current + delta < 100.0 then current + delta else 100.0;
      reputations := reputations[sender := if capped > 0.0 then capped else 0.0];
    }

    method RecordRequest(sender: Sender, messageSize: int, now: Time, today: Day)
      requires Valid()
      modifies this, baseRateLimiter, sizeLimiter
      ensures Valid() && Contents() == Accept(old(Contents()), sender, messageSize, now, today)
    {
      baseRateLimiter.RecordRequest(sender, now);
      if messageSize > 0 {
        sizeLimiter.RecordStorage(sender, messageSize, today);
      }
      AdjustReputation(sender, 0.1);
    }

    method CheckThenRecord(sender: Sender, messageSize: int, now: Time, today: Day) returns (r: Ruling)
      requires Valid()
      modifies this, baseRateLimiter, sizeLimiter
      ensures Valid() && r == Rule(old(Contents()), sender, messageSize, now, today)
      ensures Contents() == Perform(old(Contents()), AskAndRecord(sender, messageSize), now, today)
    {
      r := CheckRequest(sender, messageSize, now, today);
      if r.Accepted? {
        RecordRequest(sender, messageSize, now, today);
      }
    }

    method ReportSpammer(sender: Sender)
      modifies this
      ensures reputations == Adjusted(old(reputations), sender, -25.0)
    {
      AdjustReputation(sender, -25.0);
    }

    method Trust(sender: Sender, level: Level)
      modifies this
      ensures reputations == old(reputations)[sender := LevelScore(level)]
    {
      reputations := reputations[sender := LevelScore(level)];
    }
  }
}
