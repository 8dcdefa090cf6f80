/** Limits that depend on a sender's reputation, and the daily storage allowance. */
module Reputation {
  import opened SlidingWindow

  type Day = int

  datatype SizeConfig = SizeConfig(maxMessageSize: nat, maxDailyStorage: nat)

  function ConfiguredSizes(maxMessageSize: nat, maxDailyStorage: nat): SizeConfig {
    SizeConfig(Or(maxMessageSize, 1024 * 1024), Or(maxDailyStorage, 10 * 1024 * 1024))
  }

  datatype Usage = Usage(bytes: nat, date: Day)

  datatype Keeper = Keeper(
    base: Limiter, sizes: SizeConfig, dailyUsage: map<Sender, Usage>, reputations: map<Sender, real>)

  // ------------------------------------------------------------------ scores

  datatype Threshold = Threshold(score: real, multiplier: real)

  const THRESHOLDS: seq<Threshold> :=
    [Threshold(0.0, 0.5), Threshold(25.0, 1.0), Threshold(50.0, 1.5), Threshold(75.0, 2.0), Threshold(100.0, 3.0)]

  /** A score never set reads as the default, and so does a score of zero. */
  function ScoreOr(reputations: map<Sender, real>, s: Sender, default: real): real {
    if s in reputations && reputations[s] != 0.0 then reputations[s] else default
  }

  /** The last threshold reached decides. */
  function MultiplierAt(reputation: real, thresholds: seq<Threshold>): real {
    if thresholds == [] then 0.5
    else
      var last := thresholds[|thresholds| - 1];
      if reputation >= last.score then last.multiplier else MultiplierAt(reputation, thresholds[..|thresholds| - 1])
  }

  function LimitAt(maxRequests: nat, reputation: real): int {
    (maxRequests as real * MultiplierAt(reputation, THRESHOLDS)).Floor
  }

  function AdjustedLimit(k: Keeper, s: Sender): int {
    LimitAt(k.base.config.maxRequests, ScoreOr(k.reputations, s, 0.0))
  }

  function Clamp(x: real): real {
    if x > 100.0 then 100.0 else if x < 0.0 then 0.0 else x
  }

  function Adjusted(reputations: map<Sender, real>, s: Sender, delta: real): map<Sender, real> {
    reputations[s := Clamp(ScoreOr(reputations, s, 25.0) + delta)]
  }

  datatype Level = Low | Medium | High | Verified | Other

  function LevelScore(level: Level): real {
    match level
    case Low => 25.0
    case Medium => 50.0
    case High => 75.0
    case Verified => 100.0
    case Other => 50.0
  }

  // ------------------------------------------------------------------- calls

  datatype Ruling =
    | Accepted
    | TooLarge(maxSize: nat)
    | DailyExceeded(used: nat, allowance: nat)
    | RateExceeded(reputation: real, adjustedLimit: int)

  function RuleSize(k: Keeper, s: Sender, size: int, today: Day): Ruling {
    if size > k.sizes.maxMessageSize then TooLarge(k.sizes.maxMessageSize)
    else if s in k.dailyUsage && k.dailyUsage[s].date == today
            && k.dailyUsage[s].bytes + size > k.sizes.maxDailyStorage
    then DailyExceeded(k.dailyUsage[s].bytes, k.sizes.maxDailyStorage)
    else Accepted
  }

  /** Size, then daily storage, then the adjusted rate; a size of zero or less skips the first two. */
  function Rule(k: Keeper, s: Sender, size: int, now: Time, today: Day): Ruling {
    var sizeRuling := if size > 0 then RuleSize(k, s, size, today) else Accepted;
    if !sizeRuling.Accepted? then sizeRuling
    else if |Recent(RequestsOf(k.base.requests, s), now - k.base.config.windowMs)| >= AdjustedLimit(k, s)
    then RateExceeded(ScoreOr(k.reputations, s, 0.0), AdjustedLimit(k, s))
    else Accepted
  }

  function Used(dailyUsage: map<Sender, Usage>, s: Sender, size: nat, today: Day): map<Sender, Usage> {
    if s in dailyUsage && dailyUsage[s].date == today
    then dailyUsage[s := Usage(dailyUsage[s].bytes + size, today)]
    else dailyUsage[s := Usage(size, today)]
  }

  function Accept(k: Keeper, s: Sender, size: int, now: Time, today: Day): Keeper
    requires Positive(k.base.config)
  {
    k.(base := Step(k.base, Record(s), now).0,
       dailyUsage := if size > 0 then Used(k.dailyUsage, s, size, today) else k.dailyUsage,
       reputations := Adjusted(k.reputations, s, 0.1))
  }

  datatype Call =
    | Ask(sender: Sender, size: int)
    | AskAndRecord(sender: Sender, size: int)
    | Adjust(sender: Sender, delta: real)
    | ReportSpam(sender: Sender)
    | MarkTrusted(sender: Sender, level: Level)
    | GetStats(sender: Sender)
    | CleanBase

  function Perform(k: Keeper, call: Call, now: Time, today: Day): Keeper
    requires Positive(k.base.config)
  {
    match call
    case Ask(_, _) => k
    case AskAndRecord(s, size) => if Rule(k, s, size, now, today).Accepted? then Accept(k, s, size, now, today) else k
    case Adjust(s, delta) => k.(reputations := Adjusted(k.reputations, s, delta))
    case ReportSpam(s) => k.(reputations := Adjusted(k.reputations, s, -25.0))
    case MarkTrusted(s, level) => k.(reputations := k.reputations[s := LevelScore(level)])
    case GetStats(_) => k.(base := Step(k.base, GetGlobalRate, now).0)
    case CleanBase => k.(base := Step(k.base, Cleanup, now).0)
  }

  datatype Moment = Moment(call: Call, now: Time, today: Day)

  function KeeperAfter(c: Config, sizes: SizeConfig, run: seq<Moment>): (k: Keeper)
    requires Positive(c)
    ensures k.base.config == c && k.sizes == sizes
  {
    if run == [] then Keeper(Fresh(c), sizes, map[], map[])
    else
      var last := run[|run| - 1];
      Perform(KeeperAfter(c, sizes, run[..|run| - 1]), last.call, last.now, last.today)
  }

  /** A clock and a calendar that never run backwards. */
  predicate InOrder(run: seq<Moment>, now: Time, today: Day) {
    run == [] ||
    var last := run[|run| - 1];
    last.now <= now && last.today <= today && InOrder(run[..|run| - 1], last.now, last.today)
  }

  /** The requests that were let through, with the day and the size they were let through with. */
  datatype Passed = Passed(sender: Sender, time: Time, day: Day, size: int)

  function PassedBy(k: Keeper, m: Moment): seq<Passed> {
    if m.call.AskAndRecord? && Rule(k, m.call.sender, m.call.size, m.now, m.today).Accepted?
    then [Passed(m.call.sender, m.now, m.today, m.call.size)] else []
  }

  function LetThrough(c: Config, sizes: SizeConfig, run: seq<Moment>): seq<Passed>
    requires Positive(c)
  {
    if run == [] then []
    else
      var before := run[..|run| - 1];
      LetThrough(c, sizes, before) + PassedBy(KeeperAfter(c, sizes, before), run[|run| - 1])
  }

  function Times(passed: seq<Passed>, s: Sender): seq<Time> {
    if passed == [] then []
    else
      var last := passed[|passed| - 1];
      Times(passed[..|passed| - 1], s) + if last.sender == s then [last.time] else []
  }

  /** The bytes let through for a sender on one day. */
  function BytesOn(passed: seq<Passed>, s: Sender, day: Day): nat {
    if passed == [] then 0
    else
      var last := passed[|passed| - 1];
      BytesOn(passed[..|passed| - 1], s, day)
      + if last.sender == s && last.day == day && last.size > 0 then last.size else 0
  }

  lemma OnePassed(passed: seq<Passed>, p: Passed, s: Sender)
    ensures Times(passed + [p], s) == Times(passed, s) + if p.sender == s then [p.time] else []
    ensures forall d :: BytesOn(passed + [p], s, d)
                     == BytesOn(passed, s, d) + if p.sender == s && p.day == d && p.size > 0 then p.size else 0
  {
    assert (passed + [p])[..|passed|] == passed;
  }

  // ------------------------------------------------------------------ limits

  lemma MultiplierSteps(reputation: real)
    ensures MultiplierAt(reputation, THRESHOLDS)
         == if reputation >= 100.0 then 3.0
            else if reputation >= 75.0 then 2.0
            else if reputation >= 50.0 then 1.5
            else if reputation >= 25.0 then 1.0
            else 0.5
  {
    var t := THRESHOLDS;
    assert t[..1][..0] == [] && t[..2][..1] == t[..1] && t[..3][..2] == t[..2] && t[..4][..3] == t[..3];
    assert MultiplierAt(reputation, t[..1]) == 0.5;
    assert MultiplierAt(reputation, t[..2]) == if reputation >= 25.0 then 1.0 else 0.5;
    assert MultiplierAt(reputation, t[..3])
        == if reputation >= 50.0 then 1.5 else MultiplierAt(reputation, t[..2]);
    assert MultiplierAt(reputation, t[..4])
        == if reputation >= 75.0 then 2.0 else MultiplierAt(reputation, t[..3]);
  }

  lemma ScaledMonotone(n: nat, a: real, b: real)
    requires a <= b
    ensures n as real * a <= n as real * b
  {
  }

  /** A better score never lowers the limit, and no score lifts it beyond three times the base limit. */
  lemma LimitMonotone(maxRequests: nat, low: real, high: real)
    requires low <= high
    ensures 0 <= LimitAt(maxRequests, low) <= LimitAt(maxRequests, high) <= 3 * maxRequests
  {
    MultiplierSteps(low);
    MultiplierSteps(high);
    ScaledMonotone(maxRequests, 0.0, MultiplierAt(low, THRESHOLDS));
    ScaledMonotone(maxRequests, MultiplierAt(low, THRESHOLDS), MultiplierAt(high, THRESHOLDS));
    ScaledMonotone(maxRequests, MultiplierAt(high, THRESHOLDS), 3.0);
  }

  /** An adjustment moves a stored score by its amount, up to the bounds 0 and 100, exactly if the score is
      not zero or the amount leads to a bound all the same: a score of zero is taken for the starting score 25. */
  lemma AdjustMovesScore(reputations: map<Sender, real>, s: Sender, delta: real)
    requires s in reputations && 0.0 <= reputations[s] <= 100.0
    ensures Adjusted(reputations, s, delta)[s] == Clamp(reputations[s] + delta)
       <==> reputations[s] != 0.0 || delta <= -25.0 || delta >= 100.0
    ensures Adjusted(reputations, s, delta)[s] == Clamp(delta + if reputations[s] == 0.0 then 25.0 else reputations[s])
  {
  }

  /** So a success lifts a score of zero above the starting score, while a spam report leaves it at zero. */
  lemma ZeroScoreAdjusted(reputations: map<Sender, real>, s: Sender)
    requires s in reputations && reputations[s] == 0.0
    ensures Adjusted(reputations, s, 0.1)[s] == 25.1 && Adjusted(reputations, s, -25.0)[s] == 0.0
  {
  }

  predicate ScoresIn(reputations: map<Sender, real>) {
    forall s :: s in reputations ==> 0.0 <= reputations[s] <= 100.0
  }

  /** Whatever the calls, every score stays between 0 and 100. */
  lemma {:induction false} ScoresStayIn(c: Config, sizes: SizeConfig, run: seq<Moment>)
    requires Positive(c)
    ensures ScoresIn(KeeperAfter(c, sizes, run).reputations)
  {
    if run != [] {
      ScoresStayIn(c, sizes, run[..|run| - 1]);
    }
  }

  // ------------------------------------------------------ requests per window

  predicate Tracks(k: Keeper, passed: seq<Passed>, s: Sender, cut: Time) {
    Same(RequestsOf(k.base.requests, s), Times(passed, s), cut)
  }

  lemma PerformRequests(c: Config, k: Keeper, m: Moment, s: Sender, more: seq<Passed>, own: seq<Time>, own': seq<Time>)
    requires Positive(c) && k.base.config == c && more == PassedBy(k, m)
    requires own == RequestsOf(k.base.requests, s)
    requires own' == RequestsOf(Perform(k, m.call, m.now, m.today).base.requests, s)
    ensures |more| <= 1
    ensures if more != [] then own' == if more[0].sender == s then own + [more[0].time] else own
            else own' == own || own' == Recent(own, m.now - c.windowMs)
  {
    match m.call
    case AskAndRecord(who, size) =>
      var allowed := Rule(k, who, size, m.now, m.today).Accepted?;
      assert (more != []) == allowed;
    case _ =>
  }

  lemma TracksAdmitted(passed: seq<Passed>, p: Passed, own: seq<Time>, s: Sender, cut: Time)
    requires Same(own, Times(passed, s), cut)
    ensures Same(if p.sender == s then own + [p.time] else own, Times(passed + [p], s), cut)
  {
    OnePassed(passed, p, s);
    if p.sender == s {
      SameAppended(own, Times(passed, s), p.time, cut);
    } else {
      assert Times(passed, s) + [] == Times(passed, s);
    }
  }

  lemma TracksPassed(
    passed: seq<Passed>, more: seq<Passed>, own: seq<Time>, s: Sender, early: Time, late: Time, own': seq<Time>)
    requires |more| <= 1 && Same(own, Times(passed, s), early) && early <= late
    requires if more != [] then own' == if more[0].sender == s then own + [more[0].time] else own
             else own' == own || own' == Recent(own, early)
    ensures Same(own', Times(passed + more, s), late)
  {
    if more == [] {
      assert passed + more == passed;
      SameLater(own, Times(passed, s), early, early);
      SameLater(own', Times(passed, s), early, late);
    } else {
      assert more == [more[0]];
      SameLater(own, Times(passed, s), early, late);
      TracksAdmitted(passed, more[0], own, s, late);
    }
  }

  lemma PerformTracks(
    c: Config, k: Keeper, passed: seq<Passed>, m: Moment, s: Sender, now: Time, k': Keeper, passed': seq<Passed>)
    requires Positive(c) && k.base.config == c && Tracks(k, passed, s, m.now - c.windowMs) && m.now <= now
    requires k' == Perform(k, m.call, m.now, m.today) && passed' == passed + PassedBy(k, m)
    ensures Tracks(k', passed', s, now - c.windowMs)
  {
    var own, own', more := RequestsOf(k.base.requests, s), RequestsOf(k'.base.requests, s), PassedBy(k, m);
    PerformRequests(c, k, m, s, more, own, own');
    TracksPassed(passed, more, own, s, m.now - c.windowMs, now - c.windowMs, own');
  }

  lemma {:induction false} RunTracks(
    c: Config, sizes: SizeConfig, run: seq<Moment>, s: Sender, now: Time, today: Day, k: Keeper, passed: seq<Passed>)
    requires Positive(c) && InOrder(run, now, today)
    requires k == KeeperAfter(c, sizes, run) && passed == LetThrough(c, sizes, run)
    ensures Tracks(k, passed, s, now - c.windowMs)
  {
    if run != [] {
      var last := run[|run| - 1];
      var k0, passed0 := KeeperAfter(c, sizes, run[..|run| - 1]), LetThrough(c, sizes, run[..|run| - 1]);
      RunTracks(c, sizes, run[..|run| - 1], s, last.now, last.today, k0, passed0);
      PerformTracks(c, k0, passed0, last, s, now, k, passed);
    }
  }

  lemma PassedBelowLimit(k: Keeper, passed: seq<Passed>, m: Moment, s: Sender)
    requires Positive(k.base.config) && Tracks(k, passed, s, m.now - k.base.config.windowMs)
    requires Bounded(Times(passed, s), k.base.config.windowMs, 3 * k.base.config.maxRequests)
    ensures Bounded(Times(passed + PassedBy(k, m), s), k.base.config.windowMs, 3 * k.base.config.maxRequests)
  {
    var c := k.base.config;
    assert passed + [] == passed;
    if PassedBy(k, m) != [] {
      OnePassed(passed, PassedBy(k, m)[0], s);
      LimitMonotone(c.maxRequests, ScoreOr(k.reputations, s, 0.0), ScoreOr(k.reputations, s, 0.0));
      assert Times(passed, s) + [] == Times(passed, s);
      if m.call.sender == s {
        AdmitKeepsBound(Times(passed, s), c.windowMs, 3 * c.maxRequests, m.now);
      }
    }
  }

  lemma {:induction false} WindowsBounded(
    c: Config, sizes: SizeConfig, run: seq<Moment>, s: Sender, now: Time, today: Day)
    requires Positive(c) && InOrder(run, now, today)
    ensures Bounded(Times(LetThrough(c, sizes, run), s), c.windowMs, 3 * c.maxRequests)
  {
    if run != [] {
      var last := run[|run| - 1];
      WindowsBounded(c, sizes, run[..|run| - 1], s, last.now, last.today);
      var k, passed := KeeperAfter(c, sizes, run[..|run| - 1]), LetThrough(c, sizes, run[..|run| - 1]);
      RunTracks(c, sizes, run[..|run| - 1], s, last.now, last.today, k, passed);
      PassedBelowLimit(k, passed, last, s);
    }
  }

  // ------------------------------------------------------------ bytes per day

  function Allowance(sizes: SizeConfig): nat {
    if sizes.maxDailyStorage > sizes.maxMessageSize then sizes.maxDailyStorage else sizes.maxMessageSize
  }

  /** The usage kept for a sender is that of the last day it was let through, and nothing comes after. */
  ghost predicate Ledger(dailyUsage: map<Sender, Usage>, passed: seq<Passed>, s: Sender, today: Day, allowance: nat) {
    && (forall d :: BytesOn(passed, s, d) <= allowance)
    && (s !in dailyUsage ==> forall d :: BytesOn(passed, s, d) == 0)
    && (s in dailyUsage ==>
          && dailyUsage[s].date <= today && dailyUsage[s].bytes > 0
          && BytesOn(passed, s, dailyUsage[s].date) == dailyUsage[s].bytes
          && forall d :: d > dailyUsage[s].date ==> BytesOn(passed, s, d) == 0)
  }

  lemma PassedUsage(k: Keeper, m: Moment, s: Sender)
    requires Positive(k.base.config)
    ensures PassedBy(k, m) == [] ==> Perform(k, m.call, m.now, m.today).dailyUsage == k.dailyUsage
    ensures PassedBy(k, m) != [] ==>
      var p := PassedBy(k, m)[0];
      && PassedBy(k, m) == [p] && p.day == m.today
      && Perform(k, m.call, m.now, m.today).dailyUsage
         == (if p.size > 0 then Used(k.dailyUsage, p.sender, p.size, p.day) else k.dailyUsage)
      && (p.size > 0 ==> RuleSize(k, p.sender, p.size, p.day).Accepted?)
  {
  }

  lemma UsedLedger(k: Keeper, passed: seq<Passed>, p: Passed, s: Sender, today: Day)
    requires Ledger(k.dailyUsage, passed, s, today, Allowance(k.sizes)) && today <= p.day
    requires p.size > 0 ==> RuleSize(k, p.sender, p.size, p.day).Accepted?
    ensures Ledger(if p.size > 0 then Used(k.dailyUsage, p.sender, p.size, p.day) else k.dailyUsage,
                   passed + [p], s, p.day, Allowance(k.sizes))
  {
    OnePassed(passed, p, s);
  }

  lemma PerformLedger(k: Keeper, passed: seq<Passed>, m: Moment, s: Sender, today: Day)
    requires Positive(k.base.config) && today <= m.today
    requires Ledger(k.dailyUsage, passed, s, today, Allowance(k.sizes))
    ensures Ledger(Perform(k, m.call, m.now, m.today).dailyUsage, passed + PassedBy(k, m), s, m.today,
                   Allowance(k.sizes))
  {
    PassedUsage(k, m, s);
    if PassedBy(k, m) == [] {
      assert passed + [] == passed;
    } else {
      UsedLedger(k, passed, PassedBy(k, m)[0], s, today);
    }
  }

  lemma {:induction false} RunLedger(c: Config, sizes: SizeConfig, run: seq<Moment>, s: Sender, now: Time, today: Day)
    requires Positive(c) && InOrder(run, now, today)
    ensures Ledger(KeeperAfter(c, sizes, run).dailyUsage, LetThrough(c, sizes, run), s, today, Allowance(sizes))
  {
    if run != [] {
      var last := run[|run| - 1];
      RunLedger(c, sizes, run[..|run| - 1], s, last.now, last.today);
      PerformLedger(KeeperAfter(c, sizes, run[..|run| - 1]), LetThrough(c, sizes, run[..|run| - 1]), last, s,
                    last.today);
    }
  }

  /** Over every run, with scores changing in any way the calls allow: at most three times the base limit of
      requests let through per sender and window, and at most the larger of the two size limits of bytes per
      sender and day. The message-size limit counts because the first message of a day is not held against
      the daily one. */
  lemma EverySenderBounded(
    c: Config, sizes: SizeConfig, run: seq<Moment>, s: Sender, now: Time, today: Day, start: Time, day: Day)
    requires Positive(c) && InOrder(run, now, today)
    ensures Within(Times(LetThrough(c, sizes, run), s), start, c.windowMs) <= 3 * c.maxRequests
    ensures BytesOn(LetThrough(c, sizes, run), s, day) <= Allowance(sizes)
  {
    WindowsBounded(c, sizes, run, s, now, today);
    RunLedger(c, sizes, run, s, now, today);
  }

  // --------------------------------------------------- what callers can count

  lemma TimesStep(passed: seq<Passed>, more: seq<Passed>, s: Sender, last: Time, now: Time)
    requires |more| <= 1 && (more != [] ==> more[0].time == last) && Ordered(Times(passed, s), last) && last <= now
    ensures Ordered(Times(passed + more, s), now)
  {
    OrderedLater(Times(passed, s), last, now);
    if more == [] {
      assert passed + more == passed;
    } else {
      assert more == [more[0]];
      OnePassed(passed, more[0], s);
      OrderedAppend(Times(passed, s), last, now);
      assert Times(passed, s) + [] == Times(passed, s);
    }
  }

  lemma PassedAtMostOne(k: Keeper, m: Moment)
    ensures |PassedBy(k, m)| <= 1 && (PassedBy(k, m) != [] ==> PassedBy(k, m)[0].time == m.now)
  {
  }

  lemma {:induction false} TimesOrdered(
    c: Config, sizes: SizeConfig, run: seq<Moment>, s: Sender, now: Time, today: Day, passed: seq<Passed>)
    requires Positive(c) && InOrder(run, now, today) && passed == LetThrough(c, sizes, run)
    ensures Ordered(Times(passed, s), now)
  {
    if run != [] {
      var last := run[|run| - 1];
      var passed0 := LetThrough(c, sizes, run[..|run| - 1]);
      var more := PassedBy(KeeperAfter(c, sizes, run[..|run| - 1]), last);
      TimesOrdered(c, sizes, run[..|run| - 1], s, last.now, last.today, passed0);
      PassedAtMostOne(KeeperAfter(c, sizes, run[..|run| - 1]), last);
      TimesStep(passed0, more, s, last.now, now);
    }
  }

  /** A message without a size has no storage to account for; otherwise it must fit the message limit and,
      unless it is the first of its day, the daily one together with what was let through before. */
  predicate StorageAllows(sizes: SizeConfig, before: nat, size: int) {
    size <= 0 || (size <= sizes.maxMessageSize && (before == 0 || before + size <= sizes.maxDailyStorage))
  }

  lemma StorageByCount(k: Keeper, passed: seq<Passed>, s: Sender, size: int, today: Day)
    requires size > 0 && Ledger(k.dailyUsage, passed, s, today, Allowance(k.sizes))
    ensures RuleSize(k, s, size, today).Accepted? <==> StorageAllows(k.sizes, BytesOn(passed, s, today), size)
  {
  }

  lemma RateByTrace(c: Config, k: Keeper, passed: seq<Passed>, s: Sender, now: Time)
    requires Tracks(k, passed, s, now - c.windowMs) && Ordered(Times(passed, s), now)
    ensures |Recent(RequestsOf(k.base.requests, s), now - c.windowMs)| == InWindow(Times(passed, s), c.windowMs, now)
  {
    RecentWithin(Times(passed, s), now - c.windowMs, c.windowMs);
  }

  lemma RuleParts(k: Keeper, s: Sender, size: int, now: Time, today: Day, count: nat, limit: int)
    requires count == |Recent(RequestsOf(k.base.requests, s), now - k.base.config.windowMs)|
    requires limit == AdjustedLimit(k, s)
    ensures Rule(k, s, size, now, today).Accepted?
       <==> (size > 0 ==> RuleSize(k, s, size, today).Accepted?) && count < limit
  {
  }

  /** Counting what was let through before, a request is accepted exactly when storage allows it and the
      sender is below its adjusted limit in the window that ends now. */
  lemma AcceptedExactly(
    c: Config, sizes: SizeConfig, run: seq<Moment>, s: Sender, size: int, now: Time, today: Day, k: Keeper,
    passed: seq<Passed>, limit: int)
    requires Positive(c) && InOrder(run, now, today)
    requires k == KeeperAfter(c, sizes, run) && passed == LetThrough(c, sizes, run) && limit == AdjustedLimit(k, s)
    ensures Rule(k, s, size, now, today).Accepted?
       <==> StorageAllows(sizes, BytesOn(passed, s, today), size) && InWindow(Times(passed, s), c.windowMs, now) < limit
  {
    var count := |Recent(RequestsOf(k.base.requests, s), now - c.windowMs)|;
    assert count == InWindow(Times(passed, s), c.windowMs, now) by {
      RunTracks(c, sizes, run, s, now, today, k, passed);
      TimesOrdered(c, sizes, run, s, now, today, passed);
      RateByTrace(c, k, passed, s, now);
    }
    assert size > 0 ==>
        (RuleSize(k, s, size, today).Accepted? <==> StorageAllows(sizes, BytesOn(passed, s, today), size)) by {
      RunLedger(c, sizes, run, s, now, today);
      if size > 0 {
        StorageByCount(k, passed, s, size, today);
      }
    }
    RuleParts(k, s, size, now, today, count, limit);
  }

  /** A refusal names the first test that failed and what it compared: the size limit, the bytes let through
      today with the daily limit, or the score with the adjusted limit that is used up. */
  lemma RefusalIsExact(
    c: Config, sizes: SizeConfig, run: seq<Moment>, s: Sender, size: int, now: Time, today: Day, k: Keeper,
    passed: seq<Passed>)
    requires Positive(c) && InOrder(run, now, today)
    requires k == KeeperAfter(c, sizes, run) && passed == LetThrough(c, sizes, run)
    ensures match Rule(k, s, size, now, today)
            case TooLarge(maxSize) => size > maxSize && maxSize == sizes.maxMessageSize
            case DailyExceeded(used, allowance) =>
              && 0 < size <= sizes.maxMessageSize && used == BytesOn(passed, s, today) > 0
              && allowance == sizes.maxDailyStorage && used + size > allowance
            case RateExceeded(reputation, adjustedLimit) =>
              && StorageAllows(sizes, BytesOn(passed, s, today), size)
              && reputation == (if s in k.reputations then k.reputations[s] else 0.0)
              && adjustedLimit == AdjustedLimit(k, s) <= InWindow(Times(passed, s), c.windowMs, now)
            case Accepted => StorageAllows(sizes, BytesOn(passed, s, today), size)
  {
    AcceptedExactly(c, sizes, run, s, size, now, today, k, passed, AdjustedLimit(k, s));
    RunLedger(c, sizes, run, s, now, today);
    if size > 0 {
      StorageByCount(k, passed, s, size, today);
    }
  }

  predicate SameScore(was: map<Sender, real>, left: map<Sender, real>, s: Sender) {
    (s in left <==> s in was) && (s in left ==> left[s] == was[s])
  }

  /** A call moves the score of the sender it is about and of nobody else: an accepted request a tenth up, a
      spam report 25 down, an adjustment by its amount, each from 25 if there is no score or it is zero and
      never past 0 or 100; trust sets it to its level. */
  lemma ScoreMoves(k: Keeper, call: Call, now: Time, today: Day, s: Sender)
    requires Positive(k.base.config) && ScoresIn(k.reputations)
    ensures var was, left := k.reputations, Perform(k, call, now, today).reputations;
            var from := if s in was && was[s] != 0.0 then was[s] else 25.0;
            match call
            case AskAndRecord(sender, size) =>
              if sender == s && Rule(k, s, size, now, today).Accepted? then
                s in left && left[s] == if from + 0.1 > 100.0 then 100.0 else from + 0.1
              else SameScore(was, left, s)
            case ReportSpam(sender) =>
              if sender == s then s in left && left[s] == if from < 25.0 then 0.0 else from - 25.0
              else SameScore(was, left, s)
            case Adjust(sender, delta) =>
              if sender == s then
                && s in left && 0.0 <= left[s] <= 100.0
                && (left[s] == from + delta || (from + delta < 0.0 && left[s] == 0.0)
                    || (from + delta > 100.0 && left[s] == 100.0))
              else SameScore(was, left, s)
            case MarkTrusted(sender, level) =>
              if sender == s then
                s in left && left[s] == match level case Low => 25.0 case Medium => 50.0 case High => 75.0
                                                case Verified => 100.0 case Other => 50.0
              else SameScore(was, left, s)
            case _ => SameScore(was, left, s)
  {
  }

  /** The score that `n` requests let through earn a sender: a tenth of a point each from 25 on, up to 100. */
  predicate Earned(reputations: map<Sender, real>, s: Sender, n: nat) {
    && (s in reputations <==> n > 0)
    && (n > 0 ==> reputations[s] == if n >= 750 then 100.0 else 25.0 + n as real / 10.0)
  }

  lemma PassedOnce(passed: seq<Passed>, k: Keeper, m: Moment, s: Sender)
    ensures |Times(passed + PassedBy(k, m), s)|
         == |Times(passed, s)| + if PassedBy(k, m) != [] && m.call.sender == s then 1 else 0
  {
    if PassedBy(k, m) != [] {
      assert (passed + PassedBy(k, m))[..|passed|] == passed;
    } else {
      assert passed + PassedBy(k, m) == passed;
    }
  }

  lemma AnotherTenth(reputations: map<Sender, real>, s: Sender, n: nat)
    requires Earned(reputations, s, n)
    ensures Earned(Adjusted(reputations, s, 0.1), s, n + 1)
  {
  }

  lemma EarnedStep(k: Keeper, passed: seq<Passed>, m: Moment, s: Sender)
    requires Positive(k.base.config) && m.call.AskAndRecord? && Earned(k.reputations, s, |Times(passed, s)|)
    ensures Earned(Perform(k, m.call, m.now, m.today).reputations, s, |Times(passed + PassedBy(k, m), s)|)
  {
    PassedOnce(passed, k, m, s);
    AnotherTenth(k.reputations, s, |Times(passed, s)|);
  }

  /** In a run of requests alone every sender's score tells how many of its requests were let through. */
  lemma {:induction false} ScoreIsEarned(c: Config, sizes: SizeConfig, run: seq<Moment>, s: Sender)
    requires Positive(c) && forall i :: 0 <= i < |run| ==> run[i].call.AskAndRecord?
    ensures Earned(KeeperAfter(c, sizes, run).reputations, s, |Times(LetThrough(c, sizes, run), s)|)
  {
    if run != [] {
      var before := run[..|run| - 1];
      ScoreIsEarned(c, sizes, before, s);
      EarnedStep(KeeperAfter(c, sizes, before), LetThrough(c, sizes, before), run[|run| - 1], s);
    }
  }

  /** The adjusted limit by the score: half the base, the base, one and a half, two or three times the base,
      rounded down. */
  lemma LimitBySteps(maxRequests: nat, reputation: real)
    ensures LimitAt(maxRequests, reputation)
         == if reputation < 25.0 then maxRequests / 2 else if reputation < 50.0 then maxRequests
            else if reputation < 75.0 then maxRequests + maxRequests / 2
            else if reputation < 100.0 then 2 * maxRequests else 3 * maxRequests
  {
    MultiplierSteps(reputation);
    NewcomerLimit(maxRequests);
    MultiplierSteps(0.0);
    OneAndAHalf(maxRequests);
  }

  /** Of the calls that only look or clean, a cleanup prunes every list of the base limiter, the statistics
      prune the global one, and a plain check changes nothing at all. */
  lemma LookingChangesNothing(k: Keeper, call: Call, now: Time, today: Day, left: Keeper)
    requires Positive(k.base.config) && (call.Ask? || call.GetStats? || call.CleanBase?)
    requires left == Perform(k, call, now, today)
    ensures left == k.(base := left.base) && (call.Ask? ==> left == k)
    ensures !call.Ask? ==> AllLater(left.base.globalRequests, now - k.base.config.windowMs)
    ensures call.CleanBase? ==> forall s :: s in left.base.requests ==>
      left.base.requests[s] != [] && AllLater(left.base.requests[s], now - k.base.config.windowMs)
    ensures call.GetStats? ==> left.base.requests == k.base.requests
  {
    if call.CleanBase? {
      CleanupForgets(k.base, now, now - k.base.config.windowMs, left.base);
    } else if call.GetStats? {
      ChecksForgetGlobally(k.base, GetGlobalRate, now, left.base);
    }
  }

  /** Sizes that are not given, or zero, are one megabyte per message and ten per day. */
  lemma SizesOrDefaults(maxMessageSize: nat, maxDailyStorage: nat)
    ensures var sizes := ConfiguredSizes(maxMessageSize, maxDailyStorage);
            && sizes.maxMessageSize == (if maxMessageSize > 0 then maxMessageSize else 1_048_576)
            && sizes.maxDailyStorage == (if maxDailyStorage > 0 then maxDailyStorage else 10_485_760)
  {
  }

  // ------------------------------------------------------- the crowd of newcomers

  function Name(n: nat): (s: Sender)
    ensures |s| == n
  {
    seq(n, _ => 'a')
  }

  /** One request each of `n` senders never seen before, at the same moment. */
  function Crowd(n: nat): (run: seq<Moment>)
    ensures |run| == n
  {
    if n == 0 then [] else Crowd(n - 1) + [Moment(AskAndRecord(Name(n), 0), 0, 0)]
  }

  /** A sender without a score gets half the base limit, rounded down: none at all when that is one. */
  lemma NewcomerLimit(maxRequests: nat)
    ensures LimitAt(maxRequests, 0.0) == maxRequests / 2
  {
    MultiplierSteps(0.0);
    var half := maxRequests / 2;
    assert maxRequests == 2 * half + maxRequests % 2;
    assert maxRequests as real * 0.5 == half as real + (maxRequests % 2) as real * 0.5;
  }

  ghost predicate Unseen(k: Keeper, s: Sender) {
    s !in k.reputations && s !in k.base.requests
  }

  lemma NewcomerPasses(k: Keeper, m: Moment, s: Sender)
    requires Positive(k.base.config) && k.base.config.maxRequests >= 2 && m.call == AskAndRecord(s, 0) && Unseen(k, s)
    ensures PassedBy(k, m) == [Passed(s, m.now, m.today, 0)]
    ensures forall other :: Unseen(k, other) && other != s ==> Unseen(Perform(k, m.call, m.now, m.today), other)
  {
    NewcomerLimit(k.base.config.maxRequests);
  }

  lemma {:induction false} CrowdPasses(c: Config, sizes: SizeConfig, n: nat)
    requires Positive(c) && c.maxRequests >= 2
    ensures |LetThrough(c, sizes, Crowd(n))| == n
    ensures forall p :: p in LetThrough(c, sizes, Crowd(n)) ==> p.time == 0
    ensures forall s: Sender :: |s| > n ==> Unseen(KeeperAfter(c, sizes, Crowd(n)), s)
  {
    if n > 0 {
      var m := Moment(AskAndRecord(Name(n), 0), 0, 0);
      CrowdPasses(c, sizes, n - 1);
      assert Crowd(n)[..n - 1] == Crowd(n - 1) && Crowd(n)[n - 1] == m;
      NewcomerPasses(KeeperAfter(c, sizes, Crowd(n - 1)), m, Name(n));
    }
  }

  /** Senders never seen before are let through in any number at one moment, unless they are shut out
      altogether. */
  lemma NewcomerCrowd(c: Config, sizes: SizeConfig, n: nat)
    requires Positive(c)
    ensures c.maxRequests >= 2 ==> |LetThrough(c, sizes, Crowd(n))| == n
    ensures c.maxRequests < 2 ==> LetThrough(c, sizes, Crowd(n)) == []
  {
    if c.maxRequests >= 2 {
      CrowdPasses(c, sizes, n);
    } else {
      CrowdStopped(c, sizes, n);
    }
  }

  lemma NewcomerStopped(k: Keeper, m: Moment, s: Sender)
    requires Positive(k.base.config) && k.base.config.maxRequests < 2 && m.call == AskAndRecord(s, 0)
    requires s !in k.reputations
    ensures PassedBy(k, m) == [] && Perform(k, m.call, m.now, m.today) == k
  {
    NewcomerLimit(k.base.config.maxRequests);
  }

  lemma {:induction false} CrowdStopped(c: Config, sizes: SizeConfig, n: nat)
    requires Positive(c) && c.maxRequests < 2
    ensures LetThrough(c, sizes, Crowd(n)) == [] && KeeperAfter(c, sizes, Crowd(n)).reputations == map[]
  {
    if n > 0 {
      var m := Moment(AskAndRecord(Name(n), 0), 0, 0);
      CrowdStopped(c, sizes, n - 1);
      assert Crowd(n)[..n - 1] == Crowd(n - 1) && Crowd(n)[n - 1] == m;
      NewcomerStopped(KeeperAfter(c, sizes, Crowd(n - 1)), m, Name(n));
    }
  }

  // --------------------------------------------------------- the crowd of friends

  /** `n` senders marked as trusted, each followed by one request, all at the same moment. */
  function TrustedCrowd(n: nat): (run: seq<Moment>)
    ensures |run| == 2 * n
  {
    if n == 0 then []
    else TrustedCrowd(n - 1) + [Moment(MarkTrusted(Name(n), High), 0, 0)] + [Moment(AskAndRecord(Name(n), 0), 0, 0)]
  }

  lemma TrustedLimit(maxRequests: nat)
    ensures LimitAt(maxRequests, 75.0) == 2 * maxRequests
  {
    MultiplierSteps(75.0);
  }

  lemma KeeperNext(c: Config, sizes: SizeConfig, run: seq<Moment>, m: Moment)
    requires Positive(c)
    ensures KeeperAfter(c, sizes, run + [m]) == Perform(KeeperAfter(c, sizes, run), m.call, m.now, m.today)
    ensures LetThrough(c, sizes, run + [m]) == LetThrough(c, sizes, run) + PassedBy(KeeperAfter(c, sizes, run), m)
  {
    assert (run + [m])[..|run|] == run;
  }

  /** A sender without recent requests that has just been trusted gets through. */
  lemma TrustedPasses(k: Keeper, s: Sender)
    requires Positive(k.base.config) && s !in k.base.requests
    ensures var trusted := Perform(k, MarkTrusted(s, High), 0, 0);
            var asked := Moment(AskAndRecord(s, 0), 0, 0);
            && PassedBy(k, Moment(MarkTrusted(s, High), 0, 0)) == []
            && PassedBy(trusted, asked) == [Passed(s, 0, 0, 0)]
            && (forall other :: other !in k.base.requests && other != s ==>
                  other !in Perform(trusted, asked.call, 0, 0).base.requests)
  {
    TrustedLimit(k.base.config.maxRequests);
  }

  ghost predicate OnlyShortNames(k: Keeper, n: nat) {
    forall s: Sender :: |s| > n ==> s !in k.base.requests
  }

  lemma TrustedPair(k: Keeper, n: nat, k': Keeper)
    requires Positive(k.base.config) && n > 0 && OnlyShortNames(k, n - 1)
    requires k' == Perform(Perform(k, MarkTrusted(Name(n), High), 0, 0), AskAndRecord(Name(n), 0), 0, 0)
    ensures PassedBy(k, Moment(MarkTrusted(Name(n), High), 0, 0)) == []
    ensures PassedBy(Perform(k, MarkTrusted(Name(n), High), 0, 0), Moment(AskAndRecord(Name(n), 0), 0, 0))
         == [Passed(Name(n), 0, 0, 0)]
    ensures OnlyShortNames(k', n)
  {
    TrustedPasses(k, Name(n));
  }

  predicate AllAtZero(passed: seq<Passed>) {
    forall k :: 0 <= k < |passed| ==> passed[k].time == 0
  }

  ghost predicate CrowdIsThrough(k: Keeper, passed: seq<Passed>, n: nat) {
    |passed| == n && AllAtZero(passed) && OnlyShortNames(k, n)
  }

  lemma OneMoreFriend(c: Config, sizes: SizeConfig, run: seq<Moment>, longer: seq<Moment>, n: nat)
    requires Positive(c) && n > 0 && CrowdIsThrough(KeeperAfter(c, sizes, run), LetThrough(c, sizes, run), n - 1)
    requires longer == run + [Moment(MarkTrusted(Name(n), High), 0, 0)] + [Moment(AskAndRecord(Name(n), 0), 0, 0)]
    ensures CrowdIsThrough(KeeperAfter(c, sizes, longer), LetThrough(c, sizes, longer), n)
  {
    var trust, ask := Moment(MarkTrusted(Name(n), High), 0, 0), Moment(AskAndRecord(Name(n), 0), 0, 0);
    KeeperNext(c, sizes, run, trust);
    KeeperNext(c, sizes, run + [trust], ask);
    TrustedPair(KeeperAfter(c, sizes, run), n, KeeperAfter(c, sizes, longer));
    assert LetThrough(c, sizes, longer) == LetThrough(c, sizes, run) + [] + [Passed(Name(n), 0, 0, 0)];
  }

  lemma NobodyYet(c: Config, sizes: SizeConfig)
    requires Positive(c)
    ensures CrowdIsThrough(KeeperAfter(c, sizes, TrustedCrowd(0)), LetThrough(c, sizes, TrustedCrowd(0)), 0)
  {
  }

  lemma {:induction false} TrustedCrowdPasses(c: Config, sizes: SizeConfig, n: nat)
    requires Positive(c)
    ensures CrowdIsThrough(KeeperAfter(c, sizes, TrustedCrowd(n)), LetThrough(c, sizes, TrustedCrowd(n)), n)
  {
    if n == 0 {
      NobodyYet(c, sizes);
    } else {
      TrustedCrowdPasses(c, sizes, n - 1);
      OneMoreFriend(c, sizes, TrustedCrowd(n - 1), TrustedCrowd(n), n);
    }
  }

  /** The times of everything that was let through, for the whole node. */
  function AllTimes(passed: seq<Passed>): seq<Time> {
    if passed == [] then [] else AllTimes(passed[..|passed| - 1]) + [passed[|passed| - 1].time]
  }

  lemma {:induction false} AllAtOnce(passed: seq<Passed>, width: nat)
    requires width > 0 && AllAtZero(passed)
    ensures Within(AllTimes(passed), 0, width) == |passed|
  {
    if passed != [] {
      var front := passed[..|passed| - 1];
      AllAtOnce(front, width);
      assert (AllTimes(front) + [0])[..|AllTimes(front)|] == AllTimes(front);
    }
  }

  lemma {:induction false} TrustedCrowdInOrder(n: nat)
    ensures InOrder(TrustedCrowd(n), 0, 0)
  {
    if n > 0 {
      var run := TrustedCrowd(n);
      TrustedCrowdInOrder(n - 1);
      assert run[..|run| - 1] == TrustedCrowd(n - 1) + [Moment(MarkTrusted(Name(n), High), 0, 0)];
      assert run[..|run| - 1][..|run| - 2] == TrustedCrowd(n - 1);
    }
  }

  /** This path never consults the limit for the whole node, and no configuration makes up for it: some run
      has more requests let through in one window than that limit. */
  lemma NoOverallBound(c: Config, sizes: SizeConfig)
    requires Positive(c)
    ensures exists run ::
              InOrder(run, 0, 0) && Within(AllTimes(LetThrough(c, sizes, run)), 0, c.windowMs) > c.globalMaxRequests
  {
    var n := c.globalMaxRequests + 1;
    TrustedCrowdInOrder(n);
    var passed := LetThrough(c, sizes, TrustedCrowd(n));
    TrustedCrowdPasses(c, sizes, n);
    AllAtOnce(passed, c.windowMs);
  }

  /** Marking a sender as trusted gives it the limit of its level, whatever its score was, and leaves every
      other sender's limit alone. */
  lemma TrustSetsLimit(k: Keeper, s: Sender, level: Level, now: Time, today: Day, other: Sender)
    requires Positive(k.base.config)
    ensures var trusted := Perform(k, MarkTrusted(s, level), now, today);
            var base := k.base.config.maxRequests;
            && AdjustedLimit(trusted, s)
               == (match level
                   case Low => base
                   case Medium => base + base / 2
                   case High => 2 * base
                   case Verified => 3 * base
                   case Other => base + base / 2)
            && (other != s ==> AdjustedLimit(trusted, other) == AdjustedLimit(k, other))
  {
    MultiplierSteps(LevelScore(level));
    OneAndAHalf(k.base.config.maxRequests);
  }

  lemma OneAndAHalf(n: nat)
    ensures (n as real * 1.5).Floor == n + n / 2
  {
    var half := n / 2;
    assert n == 2 * half + n % 2;
    assert n as real * 1.5 == (n + half) as real + (n % 2) as real * 0.5;
  }

  // ------------------------------------------------------- when a day's limit holds

  /** The bytes that the run lets through for a sender on a day stay within the daily limit. */
  predicate DayKept(c: Config, sizes: SizeConfig, run: seq<Moment>, now: Time, today: Day, s: Sender, day: Day)
    requires Positive(c)
  {
    InOrder(run, now, today) ==> BytesOn(LetThrough(c, sizes, run), s, day) <= sizes.maxDailyStorage
  }

  /** One message of the largest size from a trusted sender. */
  function LargestMessage(sizes: SizeConfig, s: Sender): seq<Moment> {
    [Moment(MarkTrusted(s, High), 0, 0)] + [Moment(AskAndRecord(s, sizes.maxMessageSize), 0, 0)]
  }

  lemma LargestMessagePasses(c: Config, sizes: SizeConfig, s: Sender)
    requires Positive(c)
    ensures InOrder(LargestMessage(sizes, s), 0, 0)
    ensures BytesOn(LetThrough(c, sizes, LargestMessage(sizes, s)), s, 0) == sizes.maxMessageSize
  {
    var trust, ask := Moment(MarkTrusted(s, High), 0, 0), Moment(AskAndRecord(s, sizes.maxMessageSize), 0, 0);
    KeeperNext(c, sizes, [], trust);
    KeeperNext(c, sizes, [trust], ask);
    assert [] + [trust] == [trust];
    assert LargestMessage(sizes, s)[..1] == [trust];
    TrustedLimit(c.maxRequests);
    var passed := LetThrough(c, sizes, LargestMessage(sizes, s));
    assert passed == [Passed(s, 0, 0, sizes.maxMessageSize)];
    assert passed[..0] == [];
  }

  /** The daily limit holds for every sender and day of every run if and only if no single message may be
      larger than it. */
  lemma DailyLimitKeptExactly(c: Config, sizes: SizeConfig)
    requires Positive(c)
    ensures (forall run, now, today, s, day :: DayKept(c, sizes, run, now, today, s, day))
       <==> sizes.maxMessageSize <= sizes.maxDailyStorage
  {
    if sizes.maxMessageSize <= sizes.maxDailyStorage {
      forall run, now, today, s, day ensures DayKept(c, sizes, run, now, today, s, day) {
        if InOrder(run, now, today) {
          EverySenderBounded(c, sizes, run, s, now, today, 0, day);
        }
      }
    } else {
      LargestMessagePasses(c, sizes, "");
      assert !DayKept(c, sizes, LargestMessage(sizes, ""), 0, 0, "", 0);
    }
  }
}
