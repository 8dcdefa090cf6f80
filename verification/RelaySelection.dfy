/** Choosing the relays of a route: weighted sampling without replacement over exact numbers. */
module RelaySelection {
  import opened Options
  import opened Encoding
  import opened StableSort

  type PeerId = string

  const DEFAULT_HOP_COUNT: nat := 3

  datatype Relay = Relay(peerId: PeerId, publicKey: Bytes, multiaddr: string, score: real)

  datatype Result<+T> = Ok(value: T) | NotEnoughRelays(need: nat, have: nat)

  // ----------------------------------------------------------- known relays

  /** Registering again replaces the entry where it stands. */
  function Registered(known: seq<Relay>, r: Relay): seq<Relay> {
    if known == [] then [r]
    else if known[0].peerId == r.peerId then [r] + known[1..]
    else [known[0]] + Registered(known[1..], r)
  }

  function Rescored(known: seq<Relay>, peerId: PeerId, delta: real): seq<Relay> {
    if known == [] then []
    else if known[0].peerId == peerId then
      var moved := known[0].score + delta;
      [known[0].(score := if moved > 100.0 then 100.0 else if moved < 0.0 then 0.0 else moved)] + known[1..]
    else [known[0]] + Rescored(known[1..], peerId, delta)
  }

  predicate Distinct(rs: seq<Relay>) {
    forall i, j :: 0 <= i < j < |rs| ==> rs[i].peerId != rs[j].peerId
  }

  predicate NonNegative(rs: seq<Relay>) {
    forall i :: 0 <= i < |rs| ==> rs[i].score >= 0.0
  }

  lemma {:induction false} RegisteredPeers(known: seq<Relay>, r: Relay)
    ensures forall i :: 0 <= i < |Registered(known, r)| ==>
      Registered(known, r)[i] == r || Registered(known, r)[i] in known
    ensures forall x :: x in known && x.peerId != r.peerId ==> x in Registered(known, r)
  {
    if known != [] && known[0].peerId != r.peerId {
      RegisteredPeers(known[1..], r);
      forall x | x in known && x.peerId != r.peerId ensures x in Registered(known, r) {
        assert x == known[0] || x in known[1..];
      }
    }
  }

  /** What the table knows of a peer. */
  function Entry(known: seq<Relay>, peerId: PeerId): Option<Relay> {
    if known == [] then None else if known[0].peerId == peerId then Some(known[0]) else Entry(known[1..], peerId)
  }

  /** Registering a relay sets its peer's entry and no other. */
  lemma {:induction false} RegisteredEntry(known: seq<Relay>, r: Relay)
    ensures forall peerId ::
      Entry(Registered(known, r), peerId) == if peerId == r.peerId then Some(r) else Entry(known, peerId)
  {
    if known != [] && known[0].peerId != r.peerId {
      RegisteredEntry(known[1..], r);
    }
  }

  /** A search for the peer id finds the place. */
  lemma {:induction false} RegisteredAt(known: seq<Relay>, r: Relay, i: nat)
    requires i <= |known| && forall j :: 0 <= j < i ==> known[j].peerId != r.peerId
    requires i < |known| ==> known[i].peerId == r.peerId
    ensures Registered(known, r) == if i < |known| then known[i := r] else known + [r]
  {
    if i > 0 {
      RegisteredAt(known[1..], r, i - 1);
    }
  }

  /** The table holds one entry per peer id, whatever is registered. */
  lemma {:induction false} RegisteredDistinct(known: seq<Relay>, r: Relay)
    requires Distinct(known)
    ensures Distinct(Registered(known, r)) && r in Registered(known, r)
  {
    if known != [] && known[0].peerId != r.peerId {
      RegisteredDistinct(known[1..], r);
      RegisteredPeers(known[1..], r);
      assert r in Registered(known[1..], r);
    }
  }

  lemma {:induction false} RescoredKeeps(known: seq<Relay>, peerId: PeerId, delta: real)
    requires Distinct(known)
    ensures |Rescored(known, peerId, delta)| == |known|
    ensures forall i :: 0 <= i < |known| ==> Rescored(known, peerId, delta)[i].peerId == known[i].peerId
    ensures forall i :: 0 <= i < |known| && known[i].peerId != peerId ==> Rescored(known, peerId, delta)[i] == known[i]
    ensures forall i :: 0 <= i < |known| && known[i].peerId == peerId ==>
      var was, now := known[i], Rescored(known, peerId, delta)[i];
      && now == was.(score := now.score) && 0.0 <= now.score <= 100.0
      && (if was.score + delta < 0.0 then now.score == 0.0
          else if was.score + delta > 100.0 then now.score == 100.0 else now.score - was.score == delta)
  {
    if known != [] && known[0].peerId != peerId {
      RescoredKeeps(known[1..], peerId, delta);
    }
  }

  // -------------------------------------------------------------- selection

  function Eligible(known: seq<Relay>, exclude: seq<PeerId>): seq<Relay> {
    if known == [] then []
    else
      var last := known[|known| - 1];
      Eligible(known[..|known| - 1], exclude) + if last.peerId !in exclude then [last] else []
  }

  function PeerOf(r: Relay): PeerId {
    r.peerId
  }

  function ByScore(r: Relay): real {
    -r.score
  }

  /** The relays in play, best score first. */
  function Available(known: seq<Relay>, exclude: seq<PeerId>): seq<Relay> {
    Sort(Eligible(known, exclude), ByScore)
  }

  function Total(rs: seq<Relay>): real {
    if rs == [] then 0.0 else Total(rs[..|rs| - 1]) + rs[|rs| - 1].score
  }

  function Target(draw: real, total: real): real {
    draw * total
  }

  /** The scan from position `j` on, or the length of the list when it never hits. */
  function Scan(rs: seq<Relay>, j: nat, random: real): (k: nat)
    requires j <= |rs|
    ensures j <= k <= |rs|
    decreases |rs| - j
  {
    if j == |rs| || random - rs[j].score <= 0.0 then j else Scan(rs, j + 1, random - rs[j].score)
  }

  function Without(rs: seq<Relay>, j: nat): seq<Relay>
    requires j < |rs|
  {
    rs[..j] + rs[j + 1..]
  }

  function Drawn(remaining: seq<Relay>, draws: seq<real>): seq<Relay>
    decreases |draws|
  {
    if draws == [] then []
    else
      var j := Scan(remaining, 0, Target(draws[0], Total(remaining)));
      if j == |remaining| then Drawn(remaining, draws[1..])
      else [remaining[j]] + Drawn(Without(remaining, j), draws[1..])
  }

  function Select(known: seq<Relay>, exclude: seq<PeerId>, draws: seq<real>): Result<seq<Relay>> {
    var available := Available(known, exclude);
    if |available| < |draws| then NotEnoughRelays(|draws|, |available|) else Ok(Drawn(available, draws))
  }

  // ------------------------------------------------------------- what it does

  /** The running total over the first `i` relays. */
  function Upto(rs: seq<Relay>, i: nat): real
    requires i <= |rs|
  {
    Total(rs[..i])
  }

  lemma UptoNext(rs: seq<Relay>, j: nat)
    requires j < |rs|
    ensures Upto(rs, j + 1) == Upto(rs, j) + rs[j].score
  {
    assert rs[..j + 1][..j] == rs[..j];
  }

  lemma {:induction false} UptoGrows(rs: seq<Relay>, i: nat, j: nat)
    requires i <= j <= |rs| && forall k :: i <= k < j ==> rs[k].score >= 0.0
    ensures Upto(rs, i) <= Upto(rs, j)
    decreases j
  {
    if i < j {
      UptoGrows(rs, i, j - 1);
      UptoNext(rs, j - 1);
    }
  }

  lemma {:induction false} UptoFalls(rs: seq<Relay>, i: nat, j: nat)
    requires i <= j <= |rs| && forall k :: i <= k < j ==> rs[k].score < 0.0
    ensures if i < j then Upto(rs, j) < Upto(rs, i) else Upto(rs, j) == Upto(rs, i)
    decreases j
  {
    if i < j {
      UptoFalls(rs, i, j - 1);
      UptoNext(rs, j - 1);
    }
  }

  lemma UptoEnds(rs: seq<Relay>)
    ensures Upto(rs, 0) == 0.0 && Upto(rs, |rs|) == Total(rs)
  {
    assert rs[..0] == [] && rs[..|rs|] == rs;
  }

  /** The scan stops at the first relay whose running total reaches the target. */
  lemma {:induction false} ScanFinds(rs: seq<Relay>, j: nat, target: real)
    requires j <= |rs|
    ensures var k := Scan(rs, j, target - Upto(rs, j));
            && (k < |rs| ==> target <= Upto(rs, k + 1))
            && forall i :: j < i <= k ==> target > Upto(rs, i)
    decreases |rs| - j
  {
    if j < |rs| {
      UptoNext(rs, j);
      if target - Upto(rs, j) - rs[j].score > 0.0 {
        ScanFinds(rs, j + 1, target);
      }
    }
  }

  lemma TargetWithin(draw: real, total: real)
    requires 0.0 <= draw < 1.0 && total >= 0.0
    ensures 0.0 <= Target(draw, total) <= total
  {
    ProductNonNegative(draw, total);
    ProductNonNegative(1.0 - draw, total);
    assert (1.0 - draw) * total == total - draw * total;
  }

  lemma ProductNonNegative(a: real, b: real)
    requires a >= 0.0 && b >= 0.0
    ensures a * b >= 0.0
  {
  }

  /** With scores that are not negative the scan always hits, and a relay is hit exactly when the target
      falls into its own share of the total score. */
  lemma ScanHitsShare(rs: seq<Relay>, target: real)
    requires rs != [] && NonNegative(rs) && 0.0 <= target <= Total(rs)
    ensures Scan(rs, 0, target) < |rs|
    ensures forall j :: 0 <= j < |rs| ==>
      (j == Scan(rs, 0, target) <==> target <= Upto(rs, j + 1) && (j == 0 || Upto(rs, j) < target))
  {
    var k := Scan(rs, 0, target);
    UptoEnds(rs);
    ScanFinds(rs, 0, target);
    forall j | 0 <= j < |rs|
      ensures j == k <==> target <= Upto(rs, j + 1) && (j == 0 || Upto(rs, j) < target)
    {
      if j > k {
        UptoGrows(rs, k + 1, j);
      } else if j < k {
        assert target > Upto(rs, j + 1);
      }
    }
  }

  lemma WithoutKeeps(rs: seq<Relay>, j: nat)
    requires j < |rs| && Distinct(rs)
    ensures Distinct(Without(rs, j)) && |Without(rs, j)| == |rs| - 1
    ensures forall r :: r in Without(rs, j) ==> r in rs && r.peerId != rs[j].peerId
  {
  }

  lemma DrawnFirst(rs: seq<Relay>, j: nat, rest: seq<Relay>)
    requires j < |rs| && Distinct(rest)
    requires forall r :: r in rest ==> r in rs && r.peerId != rs[j].peerId
    ensures Distinct([rs[j]] + rest) && forall r :: r in [rs[j]] + rest ==> r in rs
  {
    assert forall i :: 0 <= i < |rest| ==> rest[i] in rest;
  }

  predicate Draws(draws: seq<real>) {
    forall i :: 0 <= i < |draws| ==> 0.0 <= draws[i] < 1.0
  }

  /** Whatever the scores and the draws, no relay is drawn twice and none from outside. */
  lemma {:induction false} DrawnDistinct(remaining: seq<Relay>, draws: seq<real>)
    requires Distinct(remaining)
    ensures |Drawn(remaining, draws)| <= |draws| && Distinct(Drawn(remaining, draws))
    ensures forall r :: r in Drawn(remaining, draws) ==> r in remaining
    decreases |draws|
  {
    if draws != [] {
      var j := Scan(remaining, 0, Target(draws[0], Total(remaining)));
      if j == |remaining| {
        DrawnDistinct(remaining, draws[1..]);
      } else {
        WithoutKeeps(remaining, j);
        DrawnDistinct(Without(remaining, j), draws[1..]);
        DrawnFirst(remaining, j, Drawn(Without(remaining, j), draws[1..]));
      }
    }
  }

  // ------------------------------------------- when a draw hits, best score first

  predicate Falling(rs: seq<Relay>) {
    forall i, j :: 0 <= i < j < |rs| ==> rs[i].score >= rs[j].score
  }

  /** The first `m` relays, and only they, have scores that are not negative. */
  predicate GoodUpTo(rs: seq<Relay>, m: nat) {
    m <= |rs| && forall i :: 0 <= i < |rs| ==> (rs[i].score >= 0.0 <==> i < m)
  }

  lemma {:induction false} FallingSplits(rs: seq<Relay>) returns (m: nat)
    requires Falling(rs)
    ensures GoodUpTo(rs, m)
  {
    if rs == [] || rs[|rs| - 1].score >= 0.0 {
      m := |rs|;
    } else {
      m := FallingSplits(rs[..|rs| - 1]);
      assert forall i :: 0 <= i < |rs| - 1 ==> rs[..|rs| - 1][i] == rs[i];
    }
  }

  lemma TargetBelow(draw: real, total: real)
    requires 0.0 <= draw < 1.0 && total < 0.0
    ensures Target(draw, total) <= 0.0
  {
    ProductNonNegative(draw, -total);
    assert draw * -total == -(draw * total);
  }

  /** While a relay with a score that is not negative is left, every draw hits such a one. */
  lemma HitsGood(rs: seq<Relay>, m: nat, target: real)
    requires GoodUpTo(rs, m) && m > 0 && (target <= 0.0 || target <= Total(rs))
    ensures Scan(rs, 0, target) < m
  {
    UptoEnds(rs);
    ScanFinds(rs, 0, target);
    UptoGrows(rs, 0, m);
    UptoFalls(rs, m, |rs|);
  }

  lemma DrawHitsGood(rs: seq<Relay>, m: nat, draw: real)
    requires GoodUpTo(rs, m) && m > 0 && 0.0 <= draw < 1.0
    ensures Scan(rs, 0, Target(draw, Total(rs))) < m
  {
    if Total(rs) >= 0.0 {
      TargetWithin(draw, Total(rs));
    } else {
      TargetBelow(draw, Total(rs));
    }
    HitsGood(rs, m, Target(draw, Total(rs)));
  }

  /** With negative scores only, a scan hits the first relay or none. */
  lemma NegativesScan(rs: seq<Relay>, target: real)
    requires rs != [] && GoodUpTo(rs, 0)
    ensures Scan(rs, 0, target) == if target <= rs[0].score then 0 else |rs|
  {
    UptoNext(rs, 0);
    UptoEnds(rs);
    ScanFinds(rs, 0, target);
    var k := Scan(rs, 0, target);
    if 0 < k < |rs| {
      UptoFalls(rs, 1, k + 1);
    }
  }

  lemma ZeroMisses(rs: seq<Relay>)
    requires GoodUpTo(rs, 0)
    ensures Scan(rs, 0, 0.0) == |rs|
  {
    if rs != [] {
      NegativesScan(rs, 0.0);
    }
  }

  /** Where a draw stops, best score first: at a relay with a score that is not negative while there is one;
      otherwise at the best one if the target does not exceed its score, and else nowhere. The target exceeds
      the score of a relay that is alone. */
  lemma DrawStops(rs: seq<Relay>, draw: real, hit: nat)
    requires rs != [] && Falling(rs) && 0.0 <= draw < 1.0 && hit == Scan(rs, 0, Target(draw, Total(rs)))
    ensures rs[0].score >= 0.0 ==> hit < |rs| && rs[hit].score >= 0.0
    ensures rs[0].score < 0.0 ==> hit == if Target(draw, Total(rs)) <= rs[0].score then 0 else |rs|
    ensures rs[0].score < 0.0 && |rs| == 1 ==> hit == |rs|
  {
    var m := FallingSplits(rs);
    if m > 0 {
      DrawHitsGood(rs, m, draw);
    } else {
      NegativesScan(rs, Target(draw, Total(rs)));
      if |rs| == 1 {
        assert rs[..0] == [] && Total(rs) == rs[0].score;
        TargetAbove(draw, rs[0].score);
      }
    }
  }

  lemma TargetAbove(draw: real, total: real)
    requires 0.0 <= draw < 1.0 && total < 0.0
    ensures Target(draw, total) > total
  {
    assert (1.0 - draw) * total < 0.0;
  }

  /** In a list with the best score first, every draw hits exactly if the best score is not negative. */
  lemma EveryDrawHits(rs: seq<Relay>)
    requires rs != [] && Falling(rs)
    ensures (forall draw :: 0.0 <= draw < 1.0 ==> Scan(rs, 0, Target(draw, Total(rs))) < |rs|) <==> rs[0].score >= 0.0
  {
    var m := FallingSplits(rs);
    if m > 0 {
      forall draw | 0.0 <= draw < 1.0 ensures Scan(rs, 0, Target(draw, Total(rs))) < |rs| {
        DrawHitsGood(rs, m, draw);
      }
    } else {
      ZeroMisses(rs);
      assert Scan(rs, 0, Target(0.0, Total(rs))) == |rs|;
    }
  }

  lemma {:induction false} DrawnFills(rs: seq<Relay>, m: nat, draws: seq<real>)
    requires GoodUpTo(rs, m) && Draws(draws) && |draws| <= m
    ensures |Drawn(rs, draws)| == |draws| && NonNegative(Drawn(rs, draws))
    decreases |draws|
  {
    if draws != [] {
      var j := Scan(rs, 0, Target(draws[0], Total(rs)));
      assert j < |rs| && rs[j].score >= 0.0 && GoodUpTo(Without(rs, j), m - 1) by {
        DrawHitsGood(rs, m, draws[0]);
      }
      DrawnFills(Without(rs, j), m - 1, draws[1..]);
      assert Drawn(rs, draws) == [rs[j]] + Drawn(Without(rs, j), draws[1..]);
    }
  }

  function Zeros(n: nat): (draws: seq<real>)
    ensures |draws| == n && Draws(draws)
  {
    seq(n, _ => 0.0)
  }

  lemma {:induction false} ZerosRunOut(rs: seq<Relay>, m: nat, n: nat)
    requires GoodUpTo(rs, m)
    ensures |Drawn(rs, Zeros(n))| == if n < m then n else m
    decreases n
  {
    if n > 0 {
      assert Zeros(n)[1..] == Zeros(n - 1) && Zeros(n)[0] == 0.0;
      if m == 0 {
        ZeroMisses(rs);
        assert Target(0.0, Total(rs)) == 0.0;
        ZerosRunOut(rs, m, n - 1);
      } else {
        DrawHitsGood(rs, m, 0.0);
        ZerosRunOut(Without(rs, Scan(rs, 0, Target(0.0, Total(rs)))), m - 1, n - 1);
      }
    }
  }

  lemma {:induction false} EligibleExactly(known: seq<Relay>, exclude: seq<PeerId>)
    requires Distinct(known)
    ensures Distinct(Eligible(known, exclude))
    ensures forall r :: r in Eligible(known, exclude) <==> r in known && r.peerId !in exclude
  {
    if known != [] {
      var front, last := known[..|known| - 1], known[|known| - 1];
      EligibleExactly(front, exclude);
      assert known == front + [last];
      assert forall r :: r in front ==> r.peerId != last.peerId;
      var kept := Eligible(front, exclude);
      assert forall i :: 0 <= i < |kept| ==> kept[i] in kept;
    }
  }

  /** The relays in play are the known ones that are not excluded, each once, best score first. */
  lemma AvailableExactly(known: seq<Relay>, exclude: seq<PeerId>)
    requires Distinct(known)
    ensures Distinct(Available(known, exclude)) && Falling(Available(known, exclude))
    ensures |Available(known, exclude)| == |Eligible(known, exclude)|
    ensures forall r :: r in Available(known, exclude) <==> r in known && r.peerId !in exclude
  {
    var eligible := Eligible(known, exclude);
    var available := Available(known, exclude);
    EligibleExactly(known, exclude);
    SortLaws(eligible, ByScore);
    assert DistinctBy(eligible, PeerOf);
    PermutedDistinct(eligible, available, PeerOf);
    forall i, j | 0 <= i < j < |available| ensures available[i].peerId != available[j].peerId {
      assert PeerOf(available[i]) != PeerOf(available[j]);
    }
    forall r ensures r in available <==> r in eligible {
      assert r in multiset(available) <==> r in multiset(eligible);
    }
    forall i, j | 0 <= i < j < |available| ensures available[i].score >= available[j].score {
      assert ByScore(available[i]) <= ByScore(available[j]);
    }
  }

  /** The relays that may be chosen and whose score is not negative. */
  function GoodRelays(known: seq<Relay>, exclude: seq<PeerId>): set<Relay> {
    set r | r in known && r.peerId !in exclude && r.score >= 0.0
  }

  function Members(rs: seq<Relay>): set<Relay> {
    set r | r in rs
  }

  lemma {:induction false} FrontMembers(rs: seq<Relay>, m: nat)
    requires Distinct(rs) && m <= |rs|
    ensures |Members(rs[..m])| == m
  {
    if m > 0 {
      FrontMembers(rs, m - 1);
      assert rs[..m] == rs[..m - 1] + [rs[m - 1]];
      assert Members(rs[..m]) == Members(rs[..m - 1]) + {rs[m - 1]};
      assert rs[m - 1] !in rs[..m - 1];
    }
  }

  lemma GoodCount(known: seq<Relay>, exclude: seq<PeerId>, m: nat)
    requires Distinct(known) && GoodUpTo(Available(known, exclude), m)
    ensures |GoodRelays(known, exclude)| == m
  {
    var available := Available(known, exclude);
    AvailableExactly(known, exclude);
    FrontMembers(available, m);
    forall r ensures r in GoodRelays(known, exclude) <==> r in available[..m] {
      if r in GoodRelays(known, exclude) {
        var i :| 0 <= i < |available| && available[i] == r;
        assert available[..m][i] == r;
      }
    }
    assert GoodRelays(known, exclude) == Members(available[..m]);
  }

  /** The selection succeeds exactly when enough relays are left after the exclusions, whatever the scores.
      It yields pairwise different, known and not excluded relays; and as many as asked for, none of them
      with a negative score, when there are that many such relays and the draws lie between zero and one. */
  lemma SelectionIsSound(known: seq<Relay>, exclude: seq<PeerId>, draws: seq<real>)
    requires Distinct(known)
    ensures Select(known, exclude, draws).Ok? <==> |draws| <= |Eligible(known, exclude)|
    ensures !Select(known, exclude, draws).Ok? ==>
      Select(known, exclude, draws) == NotEnoughRelays(|draws|, |Eligible(known, exclude)|)
    ensures Select(known, exclude, draws).Ok? ==>
      var chosen := Select(known, exclude, draws).value;
      && |chosen| <= |draws| && Distinct(chosen) && (forall r :: r in chosen ==> r in known && r.peerId !in exclude)
      && (Draws(draws) && |draws| <= |GoodRelays(known, exclude)| ==> |chosen| == |draws| && NonNegative(chosen))
  {
    var available := Available(known, exclude);
    AvailableExactly(known, exclude);
    DrawnDistinct(available, draws);
    var m := FallingSplits(available);
    GoodCount(known, exclude, m);
    if Draws(draws) && |draws| <= m {
      DrawnFills(available, m, draws);
    }
  }

  predicate Filled(known: seq<Relay>, exclude: seq<PeerId>, draws: seq<real>, count: nat) {
    |Drawn(Available(known, exclude), draws)| == count
  }

  /** Every sequence of draws yields exactly as many relays as asked for if and only if that many relays
      in play have a score that is not negative. */
  lemma SelectionFillsExactly(known: seq<Relay>, exclude: seq<PeerId>, count: nat)
    requires Distinct(known) && count <= |Eligible(known, exclude)|
    ensures (forall draws :: Draws(draws) && |draws| == count ==> Filled(known, exclude, draws, count))
       <==> count <= |GoodRelays(known, exclude)|
  {
    var available := Available(known, exclude);
    AvailableExactly(known, exclude);
    var m := FallingSplits(available);
    GoodCount(known, exclude, m);
    if count <= m {
      forall draws | Draws(draws) && |draws| == count ensures Filled(known, exclude, draws, count) {
        DrawnFills(available, m, draws);
      }
    } else {
      ZerosRunOut(available, m, count);
      assert !Filled(known, exclude, Zeros(count), count);
    }
  }

  // -------------------------------------------------------- the weighted choice

  /** Above `low` and up to `high`; the first of several intervals has no lower end. */
  predicate Falls(x: real, low: real, high: real, first: bool) {
    x <= high && (first || low < x)
  }

  /** The target lies in relay j's share of the total score. */
  predicate InShare(rs: seq<Relay>, j: nat, target: real)
    requires j < |rs|
  {
    Falls(target, Upto(rs, j), Upto(rs, j + 1), j == 0)
  }

  function Scaled(draw: real, total: real): real {
    draw * total
  }

  /** The draw, scaled to the total score, falls into relay j's share. */
  predicate HitBy(rs: seq<Relay>, j: nat, draw: real)
    requires j < |rs|
  {
    InShare(rs, j, Scaled(draw, Total(rs)))
  }

  lemma TargetHits(rs: seq<Relay>, target: real)
    requires rs != [] && NonNegative(rs) && 0.0 <= target <= Total(rs)
    ensures Scan(rs, 0, target) < |rs|
    ensures forall j :: 0 <= j < |rs| ==> (j == Scan(rs, 0, target) <==> InShare(rs, j, target))
  {
    ScanHitsShare(rs, target);
    forall j | 0 <= j < |rs| ensures j == Scan(rs, 0, target) <==> InShare(rs, j, target) {
      assert InShare(rs, j, target) <==> target <= Upto(rs, j + 1) && (j == 0 || Upto(rs, j) < target);
    }
  }

  lemma TargetIs(draw: real, total: real)
    requires 0.0 <= draw < 1.0 && total >= 0.0
    ensures Target(draw, total) == Scaled(draw, total) && 0.0 <= Scaled(draw, total) <= total
  {
    TargetWithin(draw, total);
  }

  lemma TotalNonNegative(rs: seq<Relay>)
    requires NonNegative(rs)
    ensures Total(rs) >= 0.0
  {
    UptoEnds(rs);
    UptoGrows(rs, 0, |rs|);
  }

  /** With scores that are not negative a draw hits exactly one relay, the one whose share it falls into. */
  lemma DrawHitsShare(rs: seq<Relay>, draw: real, hit: nat)
    requires rs != [] && NonNegative(rs) && 0.0 <= draw < 1.0 && hit == Scan(rs, 0, Target(draw, Total(rs)))
    ensures hit < |rs| && forall j :: 0 <= j < |rs| ==> (j == hit <==> HitBy(rs, j, draw))
  {
    TotalNonNegative(rs);
    TargetIs(draw, Total(rs));
    TargetHits(rs, Scaled(draw, Total(rs)));
  }

  lemma DivideBoth(draw: real, total: real, x: real)
    requires total > 0.0
    ensures draw * total <= x <==> draw <= x / total
  {
    var q := x / total;
    assert q * total == x;
    if draw <= q {
      ProductNonNegative(q - draw, total);
      assert (q - draw) * total == x - draw * total;
    } else {
      assert (draw - q) * total > 0.0;
      assert (draw - q) * total == draw * total - x;
    }
  }

  lemma DividedShare(low: real, high: real, score: real, total: real)
    requires total > 0.0 && high == low + score
    ensures high / total - low / total == score / total
  {
  }

  lemma FallsScaled(draw: real, total: real, low: real, high: real, first: bool)
    requires total > 0.0
    ensures Falls(Scaled(draw, total), low, high, first) <==> Falls(draw, low / total, high / total, first)
  {
    DivideBoth(draw, total, low);
    DivideBoth(draw, total, high);
  }

  /** The part of the total that the first `i` relays make up. */
  function Cut(rs: seq<Relay>, i: nat): real
    requires i <= |rs| && Total(rs) > 0.0
  {
    Upto(rs, i) / Total(rs)
  }

  lemma CutLength(rs: seq<Relay>, j: nat)
    requires j < |rs| && Total(rs) > 0.0
    ensures Cut(rs, j + 1) - Cut(rs, j) == rs[j].score / Total(rs)
  {
    UptoNext(rs, j);
    DividedShare(Upto(rs, j), Upto(rs, j + 1), rs[j].score, Total(rs));
  }

  lemma HitFallsBetweenCuts(rs: seq<Relay>, j: nat, draw: real)
    requires j < |rs| && Total(rs) > 0.0
    ensures HitBy(rs, j, draw) <==> Falls(draw, Cut(rs, j), Cut(rs, j + 1), j == 0)
  {
    FallsScaled(draw, Total(rs), Upto(rs, j), Upto(rs, j + 1), j == 0);
  }

  /** The draws that hit a relay form an interval, and its length is the relay's score over the total. */
  lemma ShareIsProportional(rs: seq<Relay>, j: nat, draw: real, hit: nat)
    requires j < |rs| && NonNegative(rs) && Total(rs) > 0.0 && 0.0 <= draw < 1.0
    requires hit == Scan(rs, 0, Target(draw, Total(rs)))
    ensures j == hit <==> Falls(draw, Cut(rs, j), Cut(rs, j + 1), j == 0)
    ensures Cut(rs, j + 1) - Cut(rs, j) == rs[j].score / Total(rs)
  {
    DrawHitsShare(rs, draw, hit);
    assert j == hit <==> HitBy(rs, j, draw);
    HitFallsBetweenCuts(rs, j, draw);
    CutLength(rs, j);
  }

  lemma Quotient(x: real, total: real)
    requires 0.0 <= x < total
    ensures 0.0 <= x / total < 1.0 && x / total * total == x
  {
    DivideBoth(0.0, total, x);
    DivideBoth(1.0, total, x);
  }

  lemma MiddleOfShare(rs: seq<Relay>, j: nat, middle: real)
    requires j < |rs| && NonNegative(rs) && rs[j].score > 0.0 && middle == Upto(rs, j) + rs[j].score / 2.0
    ensures InShare(rs, j, middle) && 0.0 <= middle < Total(rs)
  {
    UptoEnds(rs);
    UptoNext(rs, j);
    UptoGrows(rs, 0, j);
    UptoGrows(rs, j + 1, |rs|);
  }

  /** Every relay with a positive score is hit by some draw. */
  lemma SomeDrawHits(rs: seq<Relay>, j: nat) returns (draw: real)
    requires j < |rs| && NonNegative(rs) && rs[j].score > 0.0
    ensures 0.0 <= draw < 1.0 && Scan(rs, 0, Target(draw, Total(rs))) == j
  {
    var middle := Upto(rs, j) + rs[j].score / 2.0;
    MiddleOfShare(rs, j, middle);
    Quotient(middle, Total(rs));
    draw := middle / Total(rs);
    assert HitBy(rs, j, draw);
    DrawHitsShare(rs, draw, Scan(rs, 0, Target(draw, Total(rs))));
  }

  /** One relay after the other, each the one that its draw hits among those still left. */
  ghost predicate FollowsDraws(remaining: seq<Relay>, draws: seq<real>, chosen: seq<Relay>)
    decreases |draws|
  {
    if draws == [] then chosen == []
    else
      && chosen != []
      && exists j :: 0 <= j < |remaining| && remaining[j] == chosen[0] && HitBy(remaining, j, draws[0])
                     && FollowsDraws(Without(remaining, j), draws[1..], chosen[1..])
  }

  lemma {:induction false} DrawnFollows(remaining: seq<Relay>, draws: seq<real>)
    requires NonNegative(remaining) && Draws(draws) && |draws| <= |remaining|
    ensures FollowsDraws(remaining, draws, Drawn(remaining, draws))
    decreases |draws|
  {
    if draws != [] {
      assert 0.0 <= draws[0] < 1.0;
      var j := Scan(remaining, 0, Target(draws[0], Total(remaining)));
      DrawHitsShare(remaining, draws[0], j);
      DrawnFollows(Without(remaining, j), draws[1..]);
      assert Drawn(remaining, draws)[1..] == Drawn(Without(remaining, j), draws[1..]);
    }
  }

  lemma EligibleNonNegative(known: seq<Relay>, exclude: seq<PeerId>)
    requires Distinct(known) && forall r :: r in known && r.peerId !in exclude ==> r.score >= 0.0
    ensures NonNegative(Available(known, exclude))
  {
    AvailableExactly(known, exclude);
    var available := Available(known, exclude);
    assert forall i :: 0 <= i < |available| ==> available[i] in available;
  }

  /** A selection takes, for each draw, the relay whose share of the scores still in play it falls into. */
  lemma SelectionFollowsDraws(known: seq<Relay>, exclude: seq<PeerId>, draws: seq<real>)
    requires Distinct(known) && Draws(draws) && |draws| <= |Eligible(known, exclude)|
    requires forall r :: r in known && r.peerId !in exclude ==> r.score >= 0.0
    ensures Select(known, exclude, draws).Ok?
    ensures FollowsDraws(Available(known, exclude), draws, Select(known, exclude, draws).value)
  {
    AvailableExactly(known, exclude);
    EligibleNonNegative(known, exclude);
    DrawnFollows(Available(known, exclude), draws);
  }

  /** Every relay in play with a positive score is the first hop for some draw, whatever is drawn after. */
  lemma EachCanBeFirst(known: seq<Relay>, exclude: seq<PeerId>, r: Relay, rest: seq<real>) returns (draw: real)
    requires Distinct(known) && r in known && r.peerId !in exclude && r.score > 0.0
    requires forall x :: x in known && x.peerId !in exclude ==> x.score >= 0.0
    requires |rest| < |Eligible(known, exclude)|
    ensures 0.0 <= draw < 1.0
    ensures Select(known, exclude, [draw] + rest).Ok? && Select(known, exclude, [draw] + rest).value != []
    ensures Select(known, exclude, [draw] + rest).value[0] == r
  {
    var available := Available(known, exclude);
    AvailableExactly(known, exclude);
    EligibleNonNegative(known, exclude);
    var j :| 0 <= j < |available| && available[j] == r;
    draw := SomeDrawHits(available, j);
  }

  /** A draw that misses every relay chooses none and leaves the others' draws to the same relays. */
  lemma MissedDrawIsSkipped(rs: seq<Relay>, draw: real, rest: seq<real>)
    requires Scan(rs, 0, Target(draw, Total(rs))) == |rs|
    ensures Drawn(rs, [draw] + rest) == Drawn(rs, rest)
  {
    assert ([draw] + rest)[1..] == rest;
  }

  /** Two relays of score -1: the draw of zero misses both, that of three quarters hits the first. */
  lemma NegativeScoresMissSometimes(a: Relay, b: Relay)
    requires a.score == -1.0 && b.score == -1.0
    ensures Drawn([a, b], [0.0, 0.75]) == [a]
  {
    assert [a, b][..1] == [a] && [a][..0] == [];
    assert Total([a]) == -1.0 && Total([a, b]) == -2.0;
    assert [0.0, 0.75][1..] == [0.75] && [0.75][1..] == [];
    assert Target(0.0, -2.0) == 0.0 && Target(0.75, -2.0) == -1.5;
    NegativesScan([a, b], 0.0);
    NegativesScan([a, b], -1.5);
  }
}
