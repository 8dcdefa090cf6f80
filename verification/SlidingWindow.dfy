/** The sliding-window limiter as a state machine, next to one that never forgets a timestamp. */
module SlidingWindow {
  type Sender = string
  type Time = int

  datatype Config = Config(maxRequests: nat, windowMs: nat, globalMaxRequests: nat)

  predicate Positive(c: Config) {
    c.maxRequests > 0 && c.windowMs > 0 && c.globalMaxRequests > 0
  }

  /** An option left out, or given as zero, takes its default. */
  function Or(option: nat, default: nat): nat {
    if option == 0 then default else option
  }

  function Configured(maxRequests: nat, windowMs: nat, globalMaxRequests: nat): (c: Config)
    ensures Positive(c)
  {
    Config(Or(maxRequests, 10), Or(windowMs, 60000), Or(globalMaxRequests, 1000))
  }

  datatype Limiter = Limiter(config: Config, requests: map<Sender, seq<Time>>, globalRequests: seq<Time>)

  datatype Reason = GlobalLimit | SenderLimit
  datatype Decision = Allowed | Refused(reason: Reason, retryAfterMs: int)

  function RequestsOf(requests: map<Sender, seq<Time>>, s: Sender): seq<Time> {
    if s in requests then requests[s] else []
  }

  /** The timestamps later than `cut`, in order. */
  function Recent(log: seq<Time>, cut: Time): (r: seq<Time>)
    ensures |r| <= |log|
  {
    if log == [] then []
    else
      var last := log[|log| - 1];
      Recent(log[..|log| - 1], cut) + if last > cut then [last] else []
  }

  function Verdict(c: Config, overall: seq<Time>, own: seq<Time>, now: Time): Decision
    requires Positive(c)
  {
    if |overall| >= c.globalMaxRequests then Refused(GlobalLimit, overall[0] + c.windowMs - now)
    else if |own| >= c.maxRequests then Refused(SenderLimit, own[0] + c.windowMs - now)
    else Allowed
  }

  // --------------------------------------------------------------- requests

  datatype Request =
    | Check(sender: Sender)
    | CheckAndRecord(sender: Sender)
    | Record(sender: Sender)
    | GetRate(sender: Sender)
    | GetGlobalRate
    | Cleanup
    | Reset(sender: Sender)

  datatype Answer =
    | Decided(decision: Decision)
    | Rate(count: nat, limit: nat, remaining: nat, resetMs: int)
    | GlobalRate(count: nat, limit: nat, remaining: nat)
    | Done

  function Remaining(limit: nat, count: nat): nat {
    if limit > count then limit - count else 0
  }

  function RateAnswer(c: Config, own: seq<Time>, now: Time): Answer {
    Rate(|own|, c.maxRequests, Remaining(c.maxRequests, |own|), if |own| > 0 then own[0] + c.windowMs - now else 0)
  }

  function Recorded(l: Limiter, s: Sender, now: Time): Limiter {
    l.(requests := l.requests[s := RequestsOf(l.requests, s) + [now]], globalRequests := l.globalRequests + [now])
  }

  /** Every list is pruned, and senders left without timestamps are dropped. */
  function Pruned(requests: map<Sender, seq<Time>>, cut: Time): map<Sender, seq<Time>> {
    map s | s in requests && Recent(requests[s], cut) != [] :: Recent(requests[s], cut)
  }

  function Decide(l: Limiter, s: Sender, now: Time): Decision
    requires Positive(l.config)
  {
    var cut := now - l.config.windowMs;
    Verdict(l.config, Recent(l.globalRequests, cut), Recent(RequestsOf(l.requests, s), cut), now)
  }

  /** What one call does: `check` and the global rate also prune the global list. */
  function Step(l: Limiter, r: Request, now: Time): (Limiter, Answer)
    requires Positive(l.config)
  {
    var cut := now - l.config.windowMs;
    var pruned := l.(globalRequests := Recent(l.globalRequests, cut));
    match r
    case Check(s) => (pruned, Decided(Decide(l, s, now)))
    case CheckAndRecord(s) =>
      var d := Decide(l, s, now);
      (if d.Allowed? then Recorded(pruned, s, now) else pruned, Decided(d))
    case Record(s) => (Recorded(l, s, now), Done)
    case GetRate(s) => (l, RateAnswer(l.config, Recent(RequestsOf(l.requests, s), cut), now))
    case GetGlobalRate =>
      var count := |pruned.globalRequests|;
      (pruned, GlobalRate(count, l.config.globalMaxRequests, Remaining(l.config.globalMaxRequests, count)))
    case Cleanup => (pruned.(requests := Pruned(l.requests, cut)), Done)
    case Reset(s) => (l.(requests := l.requests - {s}), Done)
  }

  datatype Timed = Timed(request: Request, now: Time)

  function Fresh(c: Config): Limiter {
    Limiter(c, map[], [])
  }

  function State(c: Config, run: seq<Timed>): (l: Limiter)
    requires Positive(c)
    ensures l.config == c
  {
    if run == [] then Fresh(c)
    else
      var last := run[|run| - 1];
      Step(State(c, run[..|run| - 1]), last.request, last.now).0
  }

  /** What the last call of a run answers. */
  function AnswerOf(c: Config, run: seq<Timed>): Answer
    requires Positive(c) && run != []
  {
    var last := run[|run| - 1];
    Step(State(c, run[..|run| - 1]), last.request, last.now).1
  }

  /** A clock that never runs backwards and has not passed `now`. */
  predicate Clocked(run: seq<Timed>, now: Time) {
    run == [] || (run[|run| - 1].now <= now && Clocked(run[..|run| - 1], run[|run| - 1].now))
  }

  // ------------------------------------------- the limiter that never forgets

  datatype Entry = Admitted(sender: Sender, time: Time) | Pardoned(sender: Sender)

  /** Every admission there ever was. */
  function All(h: seq<Entry>): seq<Time> {
    if h == [] then []
    else
      var last := h[|h| - 1];
      All(h[..|h| - 1]) + if last.Admitted? then [last.time] else []
  }

  /** The admissions of one sender since its last reset. */
  function By(h: seq<Entry>, s: Sender): seq<Time> {
    if h == [] then []
    else
      var last := h[|h| - 1];
      if last.sender != s then By(h[..|h| - 1], s)
      else if last.Pardoned? then []
      else By(h[..|h| - 1], s) + [last.time]
  }

  /** The decision taken from the full history. */
  function Judge(c: Config, h: seq<Entry>, s: Sender, now: Time): Decision
    requires Positive(c)
  {
    Verdict(c, Recent(All(h), now - c.windowMs), Recent(By(h, s), now - c.windowMs), now)
  }

  function Log(c: Config, h: seq<Entry>, r: Request, now: Time): seq<Entry>
    requires Positive(c)
  {
    match r
    case CheckAndRecord(s) => if Judge(c, h, s, now).Allowed? then h + [Admitted(s, now)] else h
    case Record(s) => h + [Admitted(s, now)]
    case Reset(s) => h + [Pardoned(s)]
    case _ => h
  }

  function Tell(c: Config, h: seq<Entry>, r: Request, now: Time): Answer
    requires Positive(c)
  {
    match r
    case Check(s) => Decided(Judge(c, h, s, now))
    case CheckAndRecord(s) => Decided(Judge(c, h, s, now))
    case GetRate(s) => RateAnswer(c, Recent(By(h, s), now - c.windowMs), now)
    case GetGlobalRate =>
      var count := |Recent(All(h), now - c.windowMs)|;
      GlobalRate(count, c.globalMaxRequests, Remaining(c.globalMaxRequests, count))
    case _ => Done
  }

  function FullLog(c: Config, run: seq<Timed>): seq<Entry>
    requires Positive(c)
  {
    if run == [] then []
    else
      var last := run[|run| - 1];
      Log(c, FullLog(c, run[..|run| - 1]), last.request, last.now)
  }

  // ---------------------------------------------------------------- pruning

  lemma Appended(log: seq<Time>, t: Time, cut: Time)
    ensures Recent(log + [t], cut) == Recent(log, cut) + if t > cut then [t] else []
  {
    assert (log + [t])[..|log|] == log;
  }

  /** Pruning early loses nothing that a later cut would keep. */
  lemma {:induction false} RecentOfRecent(log: seq<Time>, early: Time, late: Time)
    requires early <= late
    ensures Recent(Recent(log, early), late) == Recent(log, late)
  {
    if log != [] {
      var last := log[|log| - 1];
      var kept := Recent(log[..|log| - 1], early);
      RecentOfRecent(log[..|log| - 1], early, late);
      if last > early {
        Appended(kept, last, late);
      } else {
        assert kept + [] == kept;
      }
    }
  }

  /** Two lists that agree past `cut`. */
  predicate Same(a: seq<Time>, b: seq<Time>, cut: Time) {
    Recent(a, cut) == Recent(b, cut)
  }

  lemma SameLater(a: seq<Time>, b: seq<Time>, early: Time, late: Time)
    requires Same(a, b, early) && early <= late
    ensures Same(a, b, late) && Same(Recent(a, late), b, late)
  {
    RecentOfRecent(a, early, late);
    RecentOfRecent(b, early, late);
    RecentOfRecent(a, late, late);
  }

  lemma SameAppended(a: seq<Time>, b: seq<Time>, t: Time, cut: Time)
    requires Same(a, b, cut)
    ensures Same(a + [t], b + [t], cut)
  {
    Appended(a, t, cut);
    Appended(b, t, cut);
  }

  predicate AgreeOn(requests: map<Sender, seq<Time>>, h: seq<Entry>, s: Sender, cut: Time) {
    Same(RequestsOf(requests, s), By(h, s), cut)
  }

  ghost predicate Agree(l: Limiter, h: seq<Entry>, cut: Time) {
    && Same(l.globalRequests, All(h), cut)
    && forall s :: AgreeOn(l.requests, h, s, cut)
  }

  lemma AgreeStill(l: Limiter, h: seq<Entry>, early: Time, late: Time)
    requires Agree(l, h, early) && early <= late
    ensures Agree(l, h, late)
  {
    SameLater(l.globalRequests, All(h), early, late);
    forall s ensures AgreeOn(l.requests, h, s, late) {
      assert AgreeOn(l.requests, h, s, early);
      SameLater(RequestsOf(l.requests, s), By(h, s), early, late);
    }
  }

  /** Pruning the lists, lazily or in a cleanup, keeps the agreement. */
  lemma AgreePruned(l: Limiter, h: seq<Entry>, early: Time, late: Time)
    requires Agree(l, h, early) && early <= late
    ensures Agree(l.(globalRequests := Recent(l.globalRequests, late)), h, late)
    ensures Agree(l.(globalRequests := Recent(l.globalRequests, late), requests := Pruned(l.requests, late)), h, late)
  {
    SameLater(l.globalRequests, All(h), early, late);
    forall s ensures AgreeOn(l.requests, h, s, late) && AgreeOn(Pruned(l.requests, late), h, s, late) {
      assert AgreeOn(l.requests, h, s, early);
      SameLater(RequestsOf(l.requests, s), By(h, s), early, late);
    }
  }

  lemma Entered(h: seq<Entry>, e: Entry, s: Sender)
    ensures All(h + [e]) == All(h) + if e.Admitted? then [e.time] else []
    ensures By(h + [e], s) == if e.sender != s then By(h, s) else if e.Pardoned? then [] else By(h, s) + [e.time]
  {
    assert (h + [e])[..|h|] == h;
  }

  lemma AgreeRecorded(l: Limiter, h: seq<Entry>, who: Sender, now: Time, cut: Time)
    requires Agree(l, h, cut)
    ensures Agree(Recorded(l, who, now), h + [Admitted(who, now)], cut)
  {
    var h' := h + [Admitted(who, now)];
    Entered(h, Admitted(who, now), who);
    SameAppended(l.globalRequests, All(h), now, cut);
    forall s ensures AgreeOn(Recorded(l, who, now).requests, h', s, cut) {
      assert AgreeOn(l.requests, h, s, cut);
      Entered(h, Admitted(who, now), s);
      SameAppended(RequestsOf(l.requests, s), By(h, s), now, cut);
    }
  }

  lemma AgreeReset(l: Limiter, h: seq<Entry>, who: Sender, cut: Time)
    requires Agree(l, h, cut)
    ensures Agree(l.(requests := l.requests - {who}), h + [Pardoned(who)], cut)
  {
    Entered(h, Pardoned(who), who);
    assert All(h) + [] == All(h);
    forall s ensures AgreeOn(l.requests - {who}, h + [Pardoned(who)], s, cut) {
      assert AgreeOn(l.requests, h, s, cut);
      Entered(h, Pardoned(who), s);
      assert s != who ==> RequestsOf(l.requests - {who}, s) == RequestsOf(l.requests, s);
    }
  }

  lemma DecideAgrees(l: Limiter, h: seq<Entry>, s: Sender, now: Time)
    requires Positive(l.config) && Agree(l, h, now - l.config.windowMs)
    ensures Decide(l, s, now) == Judge(l.config, h, s, now)
  {
    assert AgreeOn(l.requests, h, s, now - l.config.windowMs);
  }

  lemma AnswersAgree(l: Limiter, h: seq<Entry>, r: Request, now: Time)
    requires Positive(l.config) && Agree(l, h, now - l.config.windowMs)
    ensures Step(l, r, now).1 == Tell(l.config, h, r, now)
  {
    match r
    case Check(s) => DecideAgrees(l, h, s, now);
    case CheckAndRecord(s) => DecideAgrees(l, h, s, now);
    case GetRate(s) => assert AgreeOn(l.requests, h, s, now - l.config.windowMs);
    case _ =>
  }

  lemma DecisionAgrees(l: Limiter, h: seq<Entry>, s: Sender, now: Time, pruned: Limiter, cut: Time)
    requires Agree(l, h, cut) && pruned == l.(globalRequests := Recent(l.globalRequests, cut))
    ensures Agree(pruned, h, cut) && Agree(Recorded(pruned, s, now), h + [Admitted(s, now)], cut)
  {
    AgreePruned(l, h, cut, cut);
    AgreeRecorded(pruned, h, s, now, cut);
  }

  lemma CheckedAgrees(
    c: Config, l: Limiter, h: seq<Entry>, s: Sender, now: Time, cut: Time, l': Limiter, h': seq<Entry>)
    requires Positive(c) && l.config == c && cut == now - c.windowMs && Agree(l, h, cut)
    requires l' == Step(l, CheckAndRecord(s), now).0 && h' == Log(c, h, CheckAndRecord(s), now)
    ensures Agree(l', h', cut)
  {
    var pruned := l.(globalRequests := Recent(l.globalRequests, cut));
    DecideAgrees(l, h, s, now);
    DecisionAgrees(l, h, s, now, pruned, cut);
    assert if Judge(c, h, s, now).Allowed? then l' == Recorded(pruned, s, now) && h' == h + [Admitted(s, now)]
           else l' == pruned && h' == h;
  }

  lemma StepAgrees(c: Config, l: Limiter, h: seq<Entry>, r: Request, now: Time, cut: Time, l': Limiter, h': seq<Entry>)
    requires Positive(c) && l.config == c && cut == now - c.windowMs && Agree(l, h, cut)
    requires l' == Step(l, r, now).0 && h' == Log(c, h, r, now)
    ensures Agree(l', h', cut)
  {
    match r
    case CheckAndRecord(s) => CheckedAgrees(c, l, h, s, now, cut, l', h');
    case Record(s) => AgreeRecorded(l, h, s, now, cut);
    case GetRate(_) => assert l' == l && h' == h;
    case Reset(s) => AgreeReset(l, h, s, cut);
    case _ => AgreePruned(l, h, cut, cut);
  }

  lemma OneCall(c: Config, l: Limiter, h: seq<Entry>, last: Timed, now: Time, l': Limiter, h': seq<Entry>)
    requires Positive(c) && l.config == c && Agree(l, h, last.now - c.windowMs) && last.now <= now
    requires l' == Step(l, last.request, last.now).0 && h' == Log(c, h, last.request, last.now)
    ensures Agree(l', h', now - c.windowMs)
  {
    StepAgrees(c, l, h, last.request, last.now, last.now - c.windowMs, l', h');
    AgreeStill(l', h', last.now - c.windowMs, now - c.windowMs);
  }

  lemma {:induction false} StateAgrees(c: Config, run: seq<Timed>, now: Time)
    requires Positive(c) && Clocked(run, now)
    ensures Agree(State(c, run), FullLog(c, run), now - c.windowMs)
  {
    if run != [] {
      var last := run[|run| - 1];
      var before := run[..|run| - 1];
      StateAgrees(c, before, last.now);
      OneCall(c, State(c, before), FullLog(c, before), last, now, State(c, run), FullLog(c, run));
    }
  }

  /** Wherever cleanup and lazy pruning fall in a run, every answer is the one a limiter that remembers
      every timestamp gives. */
  lemma PruningIsInvisible(c: Config, run: seq<Timed>, r: Request, now: Time)
    requires Positive(c) && Clocked(run, now)
    ensures AnswerOf(c, run + [Timed(r, now)]) == Tell(c, FullLog(c, run), r, now)
  {
    StateAgrees(c, run, now);
    AnswersAgree(State(c, run), FullLog(c, run), r, now);
    assert (run + [Timed(r, now)])[..|run|] == run;
  }

  // -------------------------------------------------------- bounds per window

  /** How many timestamps lie in the half-open interval of length `width` from `start`. */
  function Within(log: seq<Time>, start: Time, width: nat): nat {
    if log == [] then 0
    else
      var last := log[|log| - 1];
      Within(log[..|log| - 1], start, width) + if start <= last < start + width then 1 else 0
  }

  ghost predicate Bounded(log: seq<Time>, windowMs: nat, limit: nat) {
    forall t :: Within(log, t, windowMs) <= limit
  }

  lemma {:induction false} WithinRecent(log: seq<Time>, start: Time, width: nat, cut: Time)
    requires cut < start
    ensures Within(log, start, width) <= |Recent(log, cut)|
  {
    if log != [] {
      WithinRecent(log[..|log| - 1], start, width, cut);
    }
  }

  /** An admission below the limit keeps every window within it. */
  lemma AdmitKeepsBound(log: seq<Time>, windowMs: nat, limit: nat, now: Time)
    requires Bounded(log, windowMs, limit) && |Recent(log, now - windowMs)| < limit
    ensures Bounded(log + [now], windowMs, limit)
  {
    forall t ensures Within(log + [now], t, windowMs) <= limit {
      assert (log + [now])[..|log|] == log;
      if t <= now < t + windowMs {
        WithinRecent(log, t, windowMs, now - windowMs);
      }
    }
  }

  /** Runs in which nothing is recorded without a check. */
  predicate Guarded(run: seq<Timed>) {
    forall k :: 0 <= k < |run| ==> !run[k].request.Record?
  }

  lemma LogStaysBounded(c: Config, h: seq<Entry>, r: Request, s: Sender, now: Time)
    requires Positive(c) && !r.Record?
    requires Bounded(All(h), c.windowMs, c.globalMaxRequests) && Bounded(By(h, s), c.windowMs, c.maxRequests)
    ensures Bounded(All(Log(c, h, r, now)), c.windowMs, c.globalMaxRequests)
    ensures Bounded(By(Log(c, h, r, now), s), c.windowMs, c.maxRequests)
  {
    if r.CheckAndRecord? && Judge(c, h, r.sender, now).Allowed? {
      Entered(h, Admitted(r.sender, now), s);
      AdmitKeepsBound(All(h), c.windowMs, c.globalMaxRequests, now);
      if r.sender == s {
        AdmitKeepsBound(By(h, s), c.windowMs, c.maxRequests, now);
      }
    } else if r.Reset? {
      Entered(h, Pardoned(r.sender), s);
      assert All(h) + [] == All(h);
    }
  }

  lemma {:induction false} LogBounded(c: Config, run: seq<Timed>, s: Sender)
    requires Positive(c) && Guarded(run)
    ensures Bounded(All(FullLog(c, run)), c.windowMs, c.globalMaxRequests)
    ensures Bounded(By(FullLog(c, run), s), c.windowMs, c.maxRequests)
  {
    if run != [] {
      LogBounded(c, run[..|run| - 1], s);
      LogStaysBounded(c, FullLog(c, run[..|run| - 1]), run[|run| - 1].request, s, run[|run| - 1].now);
    }
  }

  // ------------------------------------------------- entries as the callers see them

  function Note(r: Request, now: Time, answer: Answer): seq<Entry> {
    match r
    case CheckAndRecord(s) => if answer == Decided(Allowed) then [Admitted(s, now)] else []
    case Record(s) => [Admitted(s, now)]
    case Reset(s) => [Pardoned(s)]
    case _ => []
  }

  /** What a caller can keep a book of: the requests answered with permission, the bare records, and the
      resets. */
  function Booked(c: Config, run: seq<Timed>): seq<Entry>
    requires Positive(c)
  {
    if run == [] then []
    else
      var last := run[|run| - 1];
      Booked(c, run[..|run| - 1]) + Note(last.request, last.now, AnswerOf(c, run))
  }

  lemma NoteIsLogged(c: Config, h: seq<Entry>, r: Request, now: Time)
    requires Positive(c)
    ensures Log(c, h, r, now) == h + Note(r, now, Tell(c, h, r, now))
  {
    assert h + [] == h;
  }

  lemma {:induction false} BookedLogged(c: Config, run: seq<Timed>, now: Time)
    requires Positive(c) && Clocked(run, now)
    ensures Booked(c, run) == FullLog(c, run)
  {
    if run != [] {
      var last := run[|run| - 1];
      var before := run[..|run| - 1];
      assert AnswerOf(c, run) == Tell(c, FullLog(c, before), last.request, last.now) by {
        assert before + [last] == run;
        PruningIsInvisible(c, before, last.request, last.now);
      }
      BookedLogged(c, before, last.now);
      NoteIsLogged(c, FullLog(c, before), last.request, last.now);
    }
  }

  /** Over every run without a bare record, every window holds at most `maxRequests` permissions of a sender
      since its last reset and at most `globalMaxRequests` permissions in all. */
  lemma EveryWindowBounded(c: Config, run: seq<Timed>, s: Sender, now: Time, start: Time)
    requires Positive(c) && Guarded(run) && Clocked(run, now)
    ensures Within(By(Booked(c, run), s), start, c.windowMs) <= c.maxRequests
    ensures Within(All(Booked(c, run)), start, c.windowMs) <= c.globalMaxRequests
  {
    BookedLogged(c, run, now);
    LogBounded(c, run, s);
  }

  // ------------------------------------------------------------- retry delays

  predicate Ordered(log: seq<Time>, now: Time) {
    log == [] || (log[|log| - 1] <= now && Ordered(log[..|log| - 1], log[|log| - 1]))
  }

  lemma {:induction false} OrderedFirst(log: seq<Time>, now: Time)
    requires Ordered(log, now)
    ensures forall k :: 0 <= k < |log| ==> log[0] <= log[k] <= now
  {
    if log != [] {
      OrderedFirst(log[..|log| - 1], log[|log| - 1]);
      assert forall k :: 0 <= k < |log| - 1 ==> log[..|log| - 1][k] == log[k];
    }
  }

  lemma OrderedLast(log: seq<Time>, now: Time)
    requires Ordered(log, now)
    ensures forall k :: 0 <= k < |log| ==> log[k] <= log[|log| - 1]
  {
    if log != [] {
      OrderedFirst(log[..|log| - 1], log[|log| - 1]);
      assert forall k :: 0 <= k < |log| - 1 ==> log[..|log| - 1][k] == log[k];
    }
  }

  lemma OrderedLater(log: seq<Time>, now: Time, later: Time)
    requires Ordered(log, now) && now <= later
    ensures Ordered(log, later)
  {
  }

  lemma OrderedAppend(log: seq<Time>, t: Time, now: Time)
    requires Ordered(log, t) && t <= now
    ensures Ordered(log + [t], now)
  {
    assert (log + [t])[..|log|] == log;
  }

  lemma {:induction false} RecentOrdered(log: seq<Time>, now: Time, cut: Time)
    requires Ordered(log, now)
    ensures Ordered(Recent(log, cut), now)
  {
    if log != [] {
      var last := log[|log| - 1];
      var kept := Recent(log[..|log| - 1], cut);
      RecentOrdered(log[..|log| - 1], last, cut);
      OrderedLater(kept, last, now);
      OrderedAppend(kept, last, now);
      assert kept + [] == kept;
    }
  }

  lemma {:induction false} RecentLate(log: seq<Time>, cut: Time)
    ensures forall k :: 0 <= k < |Recent(log, cut)| ==> Recent(log, cut)[k] > cut
  {
    if log != [] {
      RecentLate(log[..|log| - 1], cut);
    }
  }

  lemma {:induction false} RecentNone(log: seq<Time>, now: Time, cut: Time)
    requires Ordered(log, now) && now <= cut
    ensures Recent(log, cut) == []
  {
    if log != [] {
      RecentNone(log[..|log| - 1], log[|log| - 1], cut);
    }
  }

  /** At least `limit` timestamps of an ordered list lie past the cut exactly if the one `limit` from its end
      does. */
  lemma {:induction false} LimitFromEnd(log: seq<Time>, now: Time, limit: nat, cut: Time)
    requires Ordered(log, now) && 0 < limit <= |log|
    ensures |Recent(log, cut)| >= limit <==> log[|log| - limit] > cut
  {
    var front, last := log[..|log| - 1], log[|log| - 1];
    OrderedFirst(log, now);
    if last <= cut {
      OrderedLast(log, now);
      RecentNone(front, last, cut);
    } else if limit > 1 {
      LimitFromEnd(front, last, limit - 1, cut);
    }
  }

  lemma {:induction false} RecentWithin(log: seq<Time>, cut: Time, width: nat)
    requires Ordered(log, cut + width)
    ensures |Recent(log, cut)| == Within(log, cut + 1, width)
  {
    if log != [] {
      OrderedLater(log[..|log| - 1], log[|log| - 1], cut + width);
      RecentWithin(log[..|log| - 1], cut, width);
    }
  }

  lemma RecentShrinks(log: seq<Time>, early: Time, late: Time)
    requires early <= late
    ensures |Recent(log, late)| <= |Recent(log, early)|
  {
    RecentOfRecent(log, early, late);
  }

  /** The delay until fewer than `limit` of the timestamps in a window are left in it. */
  function Freed(window: seq<Time>, limit: nat, windowMs: nat, now: Time): int
    requires 0 < limit <= |window|
  {
    window[|window| - limit] + windowMs - now
  }

  /** A full window stays full exactly until then, and the wait for its oldest timestamp is no longer. */
  lemma WindowFreed(window: seq<Time>, windowMs: nat, limit: nat, now: Time, delay: nat, cut: Time, later: Time)
    requires Ordered(window, now) && 0 < limit <= |window| && cut == now - windowMs && later == cut + delay
    requires cut < window[0]
    ensures 0 < window[0] + windowMs - now <= Freed(window, limit, windowMs, now) <= windowMs
    ensures |Recent(window, later)| >= limit <==> delay < Freed(window, limit, windowMs, now)
  {
    OrderedFirst(window, now);
    LimitFromEnd(window, now, limit, later);
  }

  lemma WindowOf(log: seq<Time>, now: Time, cut: Time, window: seq<Time>, later: Time)
    requires Ordered(log, now) && window == Recent(log, cut) && cut <= later
    ensures Ordered(window, now) && (window != [] ==> cut < window[0]) && Recent(log, later) == Recent(window, later)
  {
    RecentOrdered(log, now, cut);
    RecentLate(log, cut);
    RecentOfRecent(log, cut, later);
  }

  lemma LogStaysOrdered(c: Config, h: seq<Entry>, r: Request, s: Sender, at: Time, now: Time)
    requires Positive(c) && Ordered(All(h), at) && Ordered(By(h, s), at) && at <= now
    ensures Ordered(All(Log(c, h, r, at)), now) && Ordered(By(Log(c, h, r, at), s), now)
  {
    OrderedLater(All(h), at, now);
    OrderedLater(By(h, s), at, now);
    OrderedAppend(All(h), at, now);
    OrderedAppend(By(h, s), at, now);
    if r.CheckAndRecord? || r.Record? {
      Entered(h, Admitted(r.sender, at), s);
    } else if r.Reset? {
      Entered(h, Pardoned(r.sender), s);
      assert All(h) + [] == All(h);
    }
  }

  lemma {:induction false} LogOrdered(c: Config, run: seq<Timed>, s: Sender, now: Time)
    requires Positive(c) && Clocked(run, now)
    ensures Ordered(All(FullLog(c, run)), now) && Ordered(By(FullLog(c, run), s), now)
  {
    if run != [] {
      var last := run[|run| - 1];
      var h := FullLog(c, run[..|run| - 1]);
      LogOrdered(c, run[..|run| - 1], s, last.now);
      assert last == run[|run| - 1];
      LogStaysOrdered(c, h, last.request, s, last.now, now);
    }
  }

  /** In the window that ends now a guarded run never holds more than the limit. */
  lemma NeverOver(log: seq<Time>, windowMs: nat, limit: nat, now: Time)
    requires Ordered(log, now) && Bounded(log, windowMs, limit)
    ensures |Recent(log, now - windowMs)| <= limit
  {
    RecentWithin(log, now - windowMs, windowMs);
  }

  function Again(run: seq<Timed>, s: Sender, now: Time, delay: nat): seq<Timed> {
    run + [Timed(CheckAndRecord(s), now)] + [Timed(Check(s), now + delay)]
  }

  /** The entries that the refusing limit counts, and that limit. */
  function Counted(c: Config, h: seq<Entry>, s: Sender, now: Time, reason: Reason): seq<Time> {
    Recent(if reason == GlobalLimit then All(h) else By(h, s), now - c.windowMs)
  }

  function LimitOf(c: Config, reason: Reason): nat {
    if reason == GlobalLimit then c.globalMaxRequests else c.maxRequests
  }

  /** The limit that refused still does. */
  predicate StillRefuses(d: Decision, reason: Reason) {
    d.Refused? && d.reason == reason
  }

  /** What a refusal by `limit`, met by the entries in `window`, announces, and what is asked `delay` later. */
  predicate DelayHolds(c: Config, window: seq<Time>, limit: nat, now: Time, delay: nat, d: Decision, later: Decision) {
    && d.Refused? && 0 < limit <= |window|
    && 0 < d.retryAfterMs <= Freed(window, limit, c.windowMs, now) <= c.windowMs
    && (d.retryAfterMs == Freed(window, limit, c.windowMs, now) <==> window[0] == window[|window| - limit])
    && (StillRefuses(later, d.reason) <==> delay < Freed(window, limit, c.windowMs, now))
    && (d.reason == SenderLimit ==> (later == Allowed <==> !StillRefuses(later, SenderLimit)))
  }

  /** What the full history says about a refusal. */
  lemma RefusalJudged(c: Config, h: seq<Entry>, s: Sender, now: Time, delay: nat, d: Decision)
    requires Positive(c) && Ordered(All(h), now) && Ordered(By(h, s), now) && d == Judge(c, h, s, now) && d.Refused?
    ensures DelayHolds(c, Counted(c, h, s, now, d.reason), LimitOf(c, d.reason), now, delay, d,
                       Judge(c, h, s, now + delay))
  {
    var window, limit := Counted(c, h, s, now, d.reason), LimitOf(c, d.reason);
    var cut := now - c.windowMs;
    assert now + delay - c.windowMs == cut + delay;
    WindowOf(if d.reason == GlobalLimit then All(h) else By(h, s), now, cut, window, cut + delay);
    WindowFreed(window, c.windowMs, limit, now, delay, cut, cut + delay);
    RecentShrinks(All(h), cut, cut + delay);
  }

  lemma RefusalLogged(c: Config, run: seq<Timed>, s: Sender, now: Time, delay: nat)
    requires Positive(c) && Clocked(run, now)
    requires Judge(c, FullLog(c, run), s, now).Refused?
    ensures AnswerOf(c, Again(run, s, now, delay)) == Decided(Judge(c, FullLog(c, run), s, now + delay))
  {
    var first := run + [Timed(CheckAndRecord(s), now)];
    assert first[..|run|] == run && first[|run|] == Timed(CheckAndRecord(s), now);
    assert Clocked(first, now + delay);
    PruningIsInvisible(c, first, Check(s), now + delay);
  }

  lemma AnswersJudged(c: Config, run: seq<Timed>, h: seq<Entry>, s: Sender, now: Time, delay: nat,
                      d: Decision, later: Decision)
    requires Positive(c) && Clocked(run, now) && h == FullLog(c, run)
    requires AnswerOf(c, run + [Timed(CheckAndRecord(s), now)]) == Decided(d)
    requires AnswerOf(c, Again(run, s, now, delay)) == Decided(later)
    ensures d == Judge(c, h, s, now) && (d.Refused? ==> later == Judge(c, h, s, now + delay))
  {
    PruningIsInvisible(c, run, CheckAndRecord(s), now);
    if d.Refused? {
      RefusalLogged(c, run, s, now, delay);
    }
  }

  /** After any run a refusal announces a positive delay of at most one window. Asked again with no other
      call between, the limit that refused still refuses exactly until the entry that is `limit` from the end
      of the window has left it; so the delay is the first that frees the limit if and only if that entry is
      as old as the oldest. A sender stopped by its own limit is let through from then on. */
  lemma RetryIsExact(c: Config, run: seq<Timed>, s: Sender, now: Time, delay: nat, d: Decision, later: Decision)
    requires Positive(c) && Clocked(run, now)
    requires AnswerOf(c, run + [Timed(CheckAndRecord(s), now)]) == Decided(d) && d.Refused?
    requires AnswerOf(c, Again(run, s, now, delay)) == Decided(later)
    ensures DelayHolds(c, Counted(c, Booked(c, run), s, now, d.reason), LimitOf(c, d.reason), now, delay, d, later)
  {
    var h := FullLog(c, run);
    AnswersJudged(c, run, h, s, now, delay, d, later);
    LogOrdered(c, run, s, now);
    BookedLogged(c, run, now);
    RefusalJudged(c, h, s, now, delay, d);
  }

  lemma CountedBounded(c: Config, h: seq<Entry>, s: Sender, now: Time, reason: Reason)
    requires Ordered(All(h), now) && Bounded(All(h), c.windowMs, c.globalMaxRequests)
    requires Ordered(By(h, s), now) && Bounded(By(h, s), c.windowMs, c.maxRequests)
    ensures |Counted(c, h, s, now, reason)| <= LimitOf(c, reason)
  {
    match reason
    case GlobalLimit => NeverOver(All(h), c.windowMs, c.globalMaxRequests, now);
    case SenderLimit => NeverOver(By(h, s), c.windowMs, c.maxRequests, now);
  }

  lemma NoMoreThanLimit(c: Config, run: seq<Timed>, s: Sender, now: Time, reason: Reason, h: seq<Entry>)
    requires Positive(c) && Guarded(run) && Clocked(run, now) && h == FullLog(c, run)
    ensures |Counted(c, h, s, now, reason)| <= LimitOf(c, reason)
  {
    LogOrdered(c, run, s, now);
    LogBounded(c, run, s);
    CountedBounded(c, h, s, now, reason);
  }

  lemma ExactWhenFull(c: Config, window: seq<Time>, limit: nat, now: Time, delay: nat, d: Decision, later: Decision)
    requires DelayHolds(c, window, limit, now, delay, d, later) && |window| <= limit
    ensures StillRefuses(later, d.reason) <==> delay < d.retryAfterMs
  {
  }

  /** Without bare records no window ever holds more than the limit, so the announced delay is always exact. */
  lemma GuardedRetry(c: Config, run: seq<Timed>, s: Sender, now: Time, delay: nat, d: Decision, later: Decision)
    requires Positive(c) && Guarded(run) && Clocked(run, now)
    requires AnswerOf(c, run + [Timed(CheckAndRecord(s), now)]) == Decided(d) && d.Refused?
    requires AnswerOf(c, Again(run, s, now, delay)) == Decided(later)
    ensures StillRefuses(later, d.reason) <==> delay < d.retryAfterMs
  {
    var h := Booked(c, run);
    assert h == FullLog(c, run) by {
      BookedLogged(c, run, now);
    }
    NoMoreThanLimit(c, run, s, now, d.reason, h);
    RetryIsExact(c, run, s, now, delay, d, later);
    ExactWhenFull(c, Counted(c, h, s, now, d.reason), LimitOf(c, d.reason), now, delay, d, later);
  }

  lemma RecordLogged(c: Config, run: seq<Timed>, s: Sender, now: Time)
    requires Positive(c)
    ensures FullLog(c, run + [Timed(Record(s), now)]) == FullLog(c, run) + [Admitted(s, now)]
  {
    assert (run + [Timed(Record(s), now)])[..|run|] == run;
  }

  lemma TwoRecords(c: Config, run: seq<Timed>, s: Sender, first: Time, second: Time)
    requires Positive(c) && run == [Timed(Record(s), first)] + [Timed(Record(s), second)] && first <= second
    ensures FullLog(c, run) == [Admitted(s, first)] + [Admitted(s, second)] && Clocked(run, second)
  {
    RecordLogged(c, [], s, first);
    RecordLogged(c, [Timed(Record(s), first)], s, second);
    assert [] + [Timed(Record(s), first)] == [Timed(Record(s), first)];
    assert [] + [Admitted(s, first)] == [Admitted(s, first)];
    assert run[..1] == [run[0]] && run[..1][..0] == [];
  }

  lemma TwoEntries(s: Sender, first: Time, second: Time)
    ensures All([Admitted(s, first)] + [Admitted(s, second)]) == [first, second]
    ensures By([Admitted(s, first)] + [Admitted(s, second)], s) == [first, second]
  {
    Entered([], Admitted(s, first), s);
    Entered([Admitted(s, first)], Admitted(s, second), s);
    assert [] + [Admitted(s, first)] == [Admitted(s, first)];
  }

  lemma RecentOfTwo(first: Time, second: Time, cut: Time)
    ensures Recent([first, second], cut)
         == (if first > cut then [first] else []) + if second > cut then [second] else []
  {
    assert [first, second][..1] == [first] && [first][..0] == [];
  }

  lemma TwoJudged(c: Config, h: seq<Entry>, s: Sender, first: Time, second: Time, later: Time)
    requires Positive(c) && c.maxRequests == 1 && c.globalMaxRequests > 2 && first < second < first + c.windowMs
    requires h == [Admitted(s, first)] + [Admitted(s, second)] && later == first + c.windowMs
    ensures Judge(c, h, s, second) == Refused(SenderLimit, later - second)
    ensures Judge(c, h, s, later) == Refused(SenderLimit, second - first)
  {
    TwoEntries(s, first, second);
    RecentOfTwo(first, second, second - c.windowMs);
    RecentOfTwo(first, second, first);
  }

  lemma TwoLogged(
    c: Config, run: seq<Timed>, s: Sender, first: Time, second: Time, delay: nat, d: Decision, later: Decision)
    requires Positive(c) && c.maxRequests == 1 && c.globalMaxRequests > 2 && first < second < first + c.windowMs
    requires delay == first + c.windowMs - second
    requires FullLog(c, run) == [Admitted(s, first)] + [Admitted(s, second)] && Clocked(run, second)
    requires AnswerOf(c, run + [Timed(CheckAndRecord(s), second)]) == Decided(d)
    requires AnswerOf(c, Again(run, s, second, delay)) == Decided(later)
    ensures d == Refused(SenderLimit, delay) && later == Refused(SenderLimit, second - first)
  {
    AnswersJudged(c, run, FullLog(c, run), s, second, delay, d, later);
    TwoJudged(c, FullLog(c, run), s, first, second, second + delay);
  }

  /** Under a limit of one, two bare records at different moments: the delay announced after them is over
      while the second still fills the limit, and the same limit refuses again. */
  lemma BareRecordsOutlastDelay(
    c: Config, run: seq<Timed>, s: Sender, first: Time, second: Time, delay: nat, d: Decision, later: Decision)
    requires Positive(c) && c.maxRequests == 1 && c.globalMaxRequests > 2 && first < second < first + c.windowMs
    requires delay == first + c.windowMs - second
    requires run == [Timed(Record(s), first)] + [Timed(Record(s), second)]
    requires AnswerOf(c, run + [Timed(CheckAndRecord(s), second)]) == Decided(d)
    requires AnswerOf(c, Again(run, s, second, delay)) == Decided(later)
    ensures d == Refused(SenderLimit, delay) && later == Refused(SenderLimit, second - first)
  {
    TwoRecords(c, run, s, first, second);
    TwoLogged(c, run, s, first, second, delay, d, later);
  }

  // --------------------------------------------------- what callers can count

  /** The admissions in the window that ends now: those of the last `windowMs` milliseconds. */
  function InWindow(log: seq<Time>, windowMs: nat, now: Time): nat {
    Within(log, now - windowMs + 1, windowMs)
  }

  lemma JudgedByCount(c: Config, h: seq<Entry>, s: Sender, now: Time)
    requires Positive(c) && Ordered(All(h), now) && Ordered(By(h, s), now)
    ensures Judge(c, h, s, now) == Allowed
       <==> InWindow(All(h), c.windowMs, now) < c.globalMaxRequests
            && InWindow(By(h, s), c.windowMs, now) < c.maxRequests
    ensures Judge(c, h, s, now).Refused? ==>
      (Judge(c, h, s, now).reason == GlobalLimit <==> InWindow(All(h), c.windowMs, now) >= c.globalMaxRequests)
  {
    RecentWithin(All(h), now - c.windowMs, c.windowMs);
    RecentWithin(By(h, s), now - c.windowMs, c.windowMs);
  }

  /** After any run a request is permitted exactly when, counting what is booked, both the node and the
      sender are below their limits in the window that ends now; if both are over, the global limit is named. */
  lemma PermittedExactly(c: Config, run: seq<Timed>, s: Sender, now: Time, d: Decision)
    requires Positive(c) && Clocked(run, now)
    requires AnswerOf(c, run + [Timed(CheckAndRecord(s), now)]) == Decided(d)
    ensures d == Allowed
       <==> InWindow(All(Booked(c, run)), c.windowMs, now) < c.globalMaxRequests
            && InWindow(By(Booked(c, run), s), c.windowMs, now) < c.maxRequests
    ensures d.Refused? ==>
      (d.reason == GlobalLimit <==> InWindow(All(Booked(c, run)), c.windowMs, now) >= c.globalMaxRequests)
  {
    PruningIsInvisible(c, run, CheckAndRecord(s), now);
    BookedLogged(c, run, now);
    LogOrdered(c, run, s, now);
    JudgedByCount(c, FullLog(c, run), s, now);
  }

  predicate RateHolds(c: Config, own: seq<Time>, now: Time, delay: nat, rate: Answer, later: Answer) {
    && rate.Rate? && later.Rate? && rate.limit == c.maxRequests && rate.count == InWindow(own, c.windowMs, now)
    && (if rate.count <= rate.limit then rate.count + rate.remaining == rate.limit else rate.remaining == 0)
    && if rate.count == 0 then rate.resetMs == 0
       else 0 < rate.resetMs <= c.windowMs && (later.count == rate.count <==> delay < rate.resetMs)
  }

  lemma RateByCount(c: Config, h: seq<Entry>, s: Sender, now: Time, delay: nat, rate: Answer, later: Answer)
    requires Positive(c) && Ordered(By(h, s), now)
    requires rate == Tell(c, h, GetRate(s), now) && later == Tell(c, h, GetRate(s), now + delay)
    ensures RateHolds(c, By(h, s), now, delay, rate, later)
  {
    var own, cut := By(h, s), now - c.windowMs;
    RecentWithin(own, cut, c.windowMs);
    if Recent(own, cut) != [] {
      WindowOf(own, now, cut, Recent(own, cut), cut + delay);
      WindowFreed(Recent(own, cut), c.windowMs, |Recent(own, cut)|, now, delay, cut, cut + delay);
      RecentShrinks(own, cut, cut + delay);
      assert now + delay - c.windowMs == cut + delay;
    }
  }

  lemma Told(c: Config, run: seq<Timed>, r: Request, now: Time, h: seq<Entry>, answer: Answer)
    requires Positive(c) && Clocked(run, now) && h == FullLog(c, run) && answer == AnswerOf(c, run + [Timed(r, now)])
    ensures answer == Tell(c, h, r, now)
  {
    PruningIsInvisible(c, run, r, now);
  }

  lemma RatesTold(
    c: Config, run: seq<Timed>, s: Sender, now: Time, delay: nat, rate: Answer, later: Answer, h: seq<Entry>)
    requires Positive(c) && Clocked(run, now) && h == FullLog(c, run)
    requires rate == AnswerOf(c, run + [Timed(GetRate(s), now)])
    requires later == AnswerOf(c, run + [Timed(GetRate(s), now + delay)])
    ensures rate == Tell(c, h, GetRate(s), now) && later == Tell(c, h, GetRate(s), now + delay)
  {
    ClockedLater(run, now, now + delay);
    Told(c, run, GetRate(s), now, h, rate);
    Told(c, run, GetRate(s), now + delay, h, later);
  }

  /** After any run the rate query counts a sender's entries in the present window; what remains is the
      number of requests up to the limit, none if it is exceeded; and the time to reset is the first delay
      at which the count falls. */
  lemma RateIsExact(c: Config, run: seq<Timed>, s: Sender, now: Time, delay: nat, rate: Answer, later: Answer)
    requires Positive(c) && Clocked(run, now)
    requires rate == AnswerOf(c, run + [Timed(GetRate(s), now)])
    requires later == AnswerOf(c, run + [Timed(GetRate(s), now + delay)])
    ensures RateHolds(c, By(Booked(c, run), s), now, delay, rate, later)
  {
    var h := Booked(c, run);
    assert h == FullLog(c, run) by {
      BookedLogged(c, run, now);
    }
    LogOrdered(c, run, s, now);
    RatesTold(c, run, s, now, delay, rate, later, h);
    RateByCount(c, h, s, now, delay, rate, later);
  }

  lemma GuardedByCount(c: Config, h: seq<Entry>, s: Sender, now: Time, rate: Answer)
    requires Ordered(By(h, s), now) && Bounded(By(h, s), c.windowMs, c.maxRequests)
    requires Positive(c) && rate == Tell(c, h, GetRate(s), now)
    ensures rate.Rate? && rate.count + rate.remaining == rate.limit == c.maxRequests
  {
    NeverOver(By(h, s), c.windowMs, c.maxRequests, now);
  }

  /** Without bare records the count is never above the limit. */
  lemma GuardedRate(c: Config, run: seq<Timed>, s: Sender, now: Time, rate: Answer)
    requires Positive(c) && Guarded(run) && Clocked(run, now) && rate == AnswerOf(c, run + [Timed(GetRate(s), now)])
    ensures rate.Rate? && rate.count + rate.remaining == rate.limit == c.maxRequests
  {
    LogOrdered(c, run, s, now);
    LogBounded(c, run, s);
    Told(c, run, GetRate(s), now, FullLog(c, run), rate);
    GuardedByCount(c, FullLog(c, run), s, now, rate);
  }

  lemma ClockedLater(run: seq<Timed>, now: Time, later: Time)
    requires Clocked(run, now) && now <= later
    ensures Clocked(run, later)
  {
  }

  /** After any run the global rate counts the entries of all senders in the present window, resets or not,
      and what remains of the global limit. */
  lemma GlobalRateIsExact(c: Config, run: seq<Timed>, now: Time, rate: Answer)
    requires Positive(c) && Clocked(run, now) && rate == AnswerOf(c, run + [Timed(GetGlobalRate, now)])
    ensures rate.GlobalRate? && rate.limit == c.globalMaxRequests
    ensures rate.count == InWindow(All(Booked(c, run)), c.windowMs, now)
    ensures if rate.count <= rate.limit then rate.count + rate.remaining == rate.limit else rate.remaining == 0
  {
    var h := Booked(c, run);
    assert h == FullLog(c, run) by {
      BookedLogged(c, run, now);
    }
    Told(c, run, GetGlobalRate, now, h, rate);
    LogOrdered(c, run, "", now);
    GlobalByCount(c, h, now, rate);
  }

  lemma GlobalByCount(c: Config, h: seq<Entry>, now: Time, rate: Answer)
    requires Positive(c) && Ordered(All(h), now) && rate == Tell(c, h, GetGlobalRate, now)
    ensures rate.GlobalRate? && rate.limit == c.globalMaxRequests && rate.count == InWindow(All(h), c.windowMs, now)
    ensures if rate.count <= rate.limit then rate.count + rate.remaining == rate.limit else rate.remaining == 0
  {
    RecentWithin(All(h), now - c.windowMs, c.windowMs);
  }

  // ------------------------------------------------------- what is remembered

  predicate AllLater(log: seq<Time>, cut: Time) {
    forall k :: 0 <= k < |log| ==> log[k] > cut
  }

  /** A cleanup leaves nothing that is out of the window, no sender without entries, and every entry that is
      in the window. */
  lemma CleanupForgets(l: Limiter, now: Time, cut: Time, left: Limiter)
    requires Positive(l.config) && cut == now - l.config.windowMs && left == Step(l, Cleanup, now).0
    ensures left.config == l.config && AllLater(left.globalRequests, cut)
    ensures forall s :: s in left.requests ==> left.requests[s] != [] && AllLater(left.requests[s], cut)
    ensures forall t :: t > cut ==> (t in left.globalRequests <==> t in l.globalRequests)
    ensures forall s, t :: t > cut ==> (t in RequestsOf(left.requests, s) <==> t in RequestsOf(l.requests, s))
  {
    RecentLate(l.globalRequests, cut);
    RecentHolds(l.globalRequests, cut);
    forall s ensures s in left.requests ==> left.requests[s] != [] && AllLater(left.requests[s], cut) {
      RecentLate(RequestsOf(l.requests, s), cut);
    }
    forall s, t | t > cut ensures t in RequestsOf(left.requests, s) <==> t in RequestsOf(l.requests, s) {
      RecentHolds(RequestsOf(l.requests, s), cut);
    }
  }

  lemma {:induction false} RecentHolds(log: seq<Time>, cut: Time)
    ensures forall t :: t > cut ==> (t in Recent(log, cut) <==> t in log)
  {
    if log != [] {
      RecentHolds(log[..|log| - 1], cut);
      assert log == log[..|log| - 1] + [log[|log| - 1]];
    }
  }

  /** A check, and the query of the global rate, prune the global list; the senders' lists are left alone,
      but for the entry of a permitted request. */
  lemma ChecksForgetGlobally(l: Limiter, r: Request, now: Time, left: Limiter)
    requires Positive(l.config) && (r.Check? || r.CheckAndRecord? || r.GetGlobalRate?) && left == Step(l, r, now).0
    ensures AllLater(left.globalRequests, now - l.config.windowMs)
    ensures var added := (s: Sender) => r == CheckAndRecord(s) && Step(l, r, now).1 == Decided(Allowed);
            forall s :: RequestsOf(left.requests, s) == RequestsOf(l.requests, s) + if added(s) then [now] else []
  {
    RecentLate(l.globalRequests, now - l.config.windowMs);
  }

  /** Options that are not given, or zero, are 10 requests per sender and 1000 in all in a minute; others are
      taken as they are. */
  lemma OptionsOrDefaults(maxRequests: nat, windowMs: nat, globalMaxRequests: nat)
    ensures var c := Configured(maxRequests, windowMs, globalMaxRequests);
            && c.maxRequests == (if maxRequests > 0 then maxRequests else 10)
            && c.windowMs == (if windowMs > 0 then windowMs else 60_000)
            && c.globalMaxRequests == (if globalMaxRequests > 0 then globalMaxRequests else 1000)
  {
  }
}
