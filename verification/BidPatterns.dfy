/**
 Fraud signals in a provider's bids. Times are nanoseconds; scores are reals.
 A hash map is iterated in whatever order it likes: the loops pick the next key arbitrarily.
 */
module BidPatterns {
  import opened Basics

  datatype Id = Id(value: int)

  datatype Cents = Cents(value: int)

  datatype BidRecord = BidRecord(
    job: Id,
    amount: Cents,
    placedAt: int,
    withdrawn: bool,
    ip: string,
    fingerprint: string)

  datatype Session = Session(ip: string, fingerprint: string)

  const SECOND: int := 1_000_000_000
  const RAPID_THRESHOLD: int := 10
  const RAPID_MIN: int := 3

  // ----- rapid fire -----

  /** `num_seconds().abs()`: whole seconds, the fraction cut off towards zero. */
  function GapSeconds(a: BidRecord, b: BidRecord): int {
    var d := b.placedAt - a.placedAt;
    (if d < 0 then -d else d) / SECOND
  }

  /** Which gaps between neighbouring bids are shorter than ten seconds. */
  function Gaps(bids: seq<BidRecord>): (gaps: seq<bool>)
    ensures |gaps| == if bids == [] then 0 else |bids| - 1
  {
    seq(if bids == [] then 0 else |bids| - 1, i requires 0 <= i < |bids| - 1 =>
      GapSeconds(bids[i], bids[i + 1]) < RAPID_THRESHOLD)
  }

  predicate AllTrue(gaps: seq<bool>, from: nat, length: nat)
    requires from + length <= |gaps|
  {
    forall i :: from <= i < from + length ==> gaps[i]
  }

  /** `n` is the length of the longest stretch of neighbouring rapid gaps. */
  ghost predicate IsLongestRun(gaps: seq<bool>, n: nat) {
    && n <= |gaps|
    && (exists from: nat :: from + n <= |gaps| && AllTrue(gaps, from, n))
    && (forall from: nat, m: nat :: from + m <= |gaps| && AllTrue(gaps, from, m) ==> m <= n)
  }

  function RapidScore(run: int): real {
    if run >= RAPID_MIN * 2 then 0.40 else if run >= RAPID_MIN then 0.25 else if run >= 2 then 0.10 else 0.0
  }

  /** `n` is the length of the run of rapid gaps that ends the list. */
  ghost predicate IsLastRun(gaps: seq<bool>, n: nat) {
    && n <= |gaps|
    && AllTrue(gaps, |gaps| - n, n)
    && (n < |gaps| ==> !gaps[|gaps| - n - 1])
  }

  lemma LastRunIsLongest(gaps: seq<bool>, last: nat, from: nat, m: nat)
    requires IsLastRun(gaps, last) && from + m == |gaps| && AllTrue(gaps, from, m)
    ensures m <= last
  {
    assert last < |gaps| ==> !gaps[|gaps| - last - 1];
  }

  lemma ExtendRuns(gaps: seq<bool>, g: bool, last: nat, longest: nat)
    requires IsLastRun(gaps, last) && IsLongestRun(gaps, longest)
    ensures IsLastRun(gaps + [g], if g then last + 1 else 0)
    ensures IsLongestRun(gaps + [g], if g && last + 1 > longest then last + 1 else longest)
  {
    var more := gaps + [g];
    var last', longest' := if g then last + 1 else 0, if g && last + 1 > longest then last + 1 else longest;
    assert IsLastRun(more, last');
    if longest' == longest {
      var from: nat :| from + longest <= |gaps| && AllTrue(gaps, from, longest);
      assert AllTrue(more, from, longest);
    } else {
      assert AllTrue(more, |more| - last', last');
    }
    forall from: nat, m: nat | from + m <= |more| && AllTrue(more, from, m) ensures m <= longest' {
      if from + m <= |gaps| {
        assert forall i :: from <= i < from + m ==> more[i] == gaps[i];
        assert AllTrue(gaps, from, m);
      } else {
        LastRunIsLongest(more, last', from, m);
      }
    }
  }

  /** The loop of the detector: the run that ends here, and the longest so far. */
  method LongestRun(bids: seq<BidRecord>) returns (longest: nat)
    requires |bids| >= 2
    ensures IsLongestRun(Gaps(bids), longest)
  {
    ghost var gaps := Gaps(bids);
    var consecutive: nat := 0;
    longest := 0;
    assert AllTrue(gaps[..0], 0, 0);
    for i := 0 to |bids| - 1
      invariant IsLastRun(gaps[..i], consecutive) && IsLongestRun(gaps[..i], longest)
    {
      var delta := GapSeconds(bids[i], bids[i + 1]);
      ExtendRuns(gaps[..i], gaps[i], consecutive, longest);
      assert gaps[..i] + [gaps[i]] == gaps[..i + 1];
      if delta < RAPID_THRESHOLD {
        consecutive := consecutive + 1;
        if consecutive > longest {
          longest := consecutive;
        }
      } else {
        consecutive := 0;
      }
    }
    assert gaps[..|bids| - 1] == gaps;
  }

  method DetectRapidFire(bids: seq<BidRecord>) returns (score: real)
    ensures exists run: nat :: IsLongestRun(Gaps(bids), run) && score == RapidScore(run)
  {
    if |bids| < 2 {
      assert AllTrue(Gaps(bids), 0, 0) && IsLongestRun(Gaps(bids), 0);
      return 0.0;
    }
    var longest := LongestRun(bids);
    if longest >= RAPID_MIN * 2 {
      score := 0.40;
    } else if longest >= RAPID_MIN {
      score := 0.25;
    } else if longest >= 2 {
      score := 0.10;
    } else {
      score := 0.0;
    }
  }

  /** A later bid never lowers the score. */
  lemma AppendNeverLowers(bids: seq<BidRecord>, bid: BidRecord, before: nat, after: nat)
    requires IsLongestRun(Gaps(bids), before) && IsLongestRun(Gaps(bids + [bid]), after)
    ensures before <= after && RapidScore(before) <= RapidScore(after)
  {
    var from: nat :| from + before <= |Gaps(bids)| && AllTrue(Gaps(bids), from, before);
    assert forall i :: 0 <= i < |Gaps(bids)| ==> Gaps(bids + [bid])[i] == Gaps(bids)[i];
    assert AllTrue(Gaps(bids + [bid]), from, before);
  }

  // ----- groupings -----

  function Jobs(bids: seq<BidRecord>): set<Id> {
    set b | b in bids :: b.job
  }

  function JobsAt(bids: seq<BidRecord>, amount: Cents): set<Id> {
    set b | b in bids && b.amount == amount :: b.job
  }

  function WithdrawnJobs(bids: seq<BidRecord>): set<Id> {
    set b | b in bids && b.withdrawn :: b.job
  }

  /** `n` is the greatest number of different jobs bid on at one and the same amount. */
  ghost predicate IsMostRepeated(bids: seq<BidRecord>, n: nat) {
    && (forall b :: b in bids ==> |JobsAt(bids, b.amount)| <= n)
    && (bids == [] ==> n == 0)
    && (bids != [] ==> exists b :: b in bids && |JobsAt(bids, b.amount)| == n)
  }

  function DuplicateScore(most: int, jobs: int): real
    requires jobs > 0
  {
    var ratio := most as real / jobs as real;
    if ratio > 0.80 && most >= 5 then 0.30
    else if ratio > 0.60 && most >= 4 then 0.20
    else if ratio > 0.50 && most >= 3 then 0.10
    else 0.0
  }

  /** The score of `bids` when `most` jobs share an amount. */
  function DuplicateResult(bids: seq<BidRecord>, most: int): real {
    if |bids| < 4 || |Jobs(bids)| < 3 then 0.0 else DuplicateScore(most, |Jobs(bids)|)
  }

  /** A hash map from amount to the jobs bid on at that amount. */
  ghost predicate GroupedByAmount(groups: map<Cents, set<Id>>, bids: seq<BidRecord>) {
    && (forall a :: a in groups <==> exists b :: b in bids && b.amount == a)
    && (forall a :: a in groups ==> groups[a] == JobsAt(bids, a))
  }

  function AddToGroup(groups: map<Cents, set<Id>>, b: BidRecord): map<Cents, set<Id>> {
    groups[b.amount := (if b.amount in groups then groups[b.amount] else {}) + {b.job}]
  }

  lemma NextGroup(groups: map<Cents, set<Id>>, bids: seq<BidRecord>, b: BidRecord)
    requires GroupedByAmount(groups, bids)
    ensures GroupedByAmount(AddToGroup(groups, b), bids + [b])
  {
    var more, next := bids + [b], AddToGroup(groups, b);
    forall a | a in next ensures next[a] == JobsAt(more, a) && exists o :: o in more && o.amount == a {
      assert JobsAt(more, a) == JobsAt(bids, a) + if b.amount == a then {b.job} else {};
      if a !in groups {
        assert JobsAt(bids, a) == {};
        assert b in more;
      } else {
        var o :| o in bids && o.amount == a;
        assert o in more;
      }
    }
  }

  method GroupByAmount(bids: seq<BidRecord>) returns (groups: map<Cents, set<Id>>)
    ensures GroupedByAmount(groups, bids)
  {
    groups := map[];
    for i := 0 to |bids|
      invariant GroupedByAmount(groups, bids[..i])
    {
      NextGroup(groups, bids[..i], bids[i]);
      assert bids[..i] + [bids[i]] == bids[..i + 1];
      groups := AddToGroup(groups, bids[i]);
    }
    assert bids[..|bids|] == bids;
  }

  /** The largest group, the keys coming in any order. */
  method LargestGroup(groups: map<Cents, set<Id>>) returns (most: nat)
    ensures forall a :: a in groups ==> |groups[a]| <= most
    ensures if groups == map[] then most == 0 else exists a :: a in groups && |groups[a]| == most
  {
    most := 0;
    var rest := groups.Keys;
    while rest != {}
      invariant rest <= groups.Keys
      invariant forall a :: a in groups.Keys - rest ==> |groups[a]| <= most
      invariant rest == groups.Keys ==> most == 0
      invariant rest != groups.Keys ==> exists a :: a in groups && |groups[a]| == most
    {
      var a :| a in rest;
      if |groups[a]| > most {
        most := |groups[a]|;
      }
      assert rest == groups.Keys ==> |groups[a]| == most;
      rest := rest - {a};
      assert a !in rest;
    }
  }

  lemma {:induction false} MostRepeatedAmong(bids: seq<BidRecord>, n: nat) returns (best: nat)
    requires 0 < n <= |bids|
    ensures best < n && forall i :: 0 <= i < n ==> |JobsAt(bids, bids[i].amount)| <= |JobsAt(bids, bids[best].amount)|
  {
    best := n - 1;
    if n > 1 {
      var earlier := MostRepeatedAmong(bids, n - 1);
      if |JobsAt(bids, bids[earlier].amount)| > |JobsAt(bids, bids[best].amount)| {
        best := earlier;
      }
    }
  }

  lemma MostRepeatedExists(bids: seq<BidRecord>) returns (most: nat)
    ensures IsMostRepeated(bids, most)
  {
    most := 0;
    if bids != [] {
      var best := MostRepeatedAmong(bids, |bids|);
      most := |JobsAt(bids, bids[best].amount)|;
    }
  }

  method DetectDuplicateAmounts(bids: seq<BidRecord>) returns (score: real)
    ensures exists most: nat :: IsMostRepeated(bids, most) && score == DuplicateResult(bids, most)
  {
    ghost var some := MostRepeatedExists(bids);
    if |bids| < 4 {
      return 0.0;
    }
    var uniqueJobs := Jobs(bids);
    if |uniqueJobs| < 3 {
      return 0.0;
    }
    var groups := GroupByAmount(bids);
    var most := LargestGroup(groups);
    GroupsGiveMost(groups, bids, most);
    var ratio := most as real / |uniqueJobs| as real;
    if ratio > 0.80 && most >= 5 {
      score := 0.30;
    } else if ratio > 0.60 && most >= 4 {
      score := 0.20;
    } else if ratio > 0.50 && most >= 3 {
      score := 0.10;
    } else {
      score := 0.0;
    }
  }

  lemma GroupsGiveMost(groups: map<Cents, set<Id>>, bids: seq<BidRecord>, most: nat)
    requires GroupedByAmount(groups, bids) && bids != []
    requires forall a :: a in groups ==> |groups[a]| <= most
    requires groups == map[] || exists a :: a in groups && |groups[a]| == most
    ensures IsMostRepeated(bids, most)
  {
    assert bids[0] in bids && bids[0].amount in groups;
    var a :| a in groups && |groups[a]| == most;
    var b :| b in bids && b.amount == a;
    assert |JobsAt(bids, b.amount)| == most;
    forall o | o in bids ensures |JobsAt(bids, o.amount)| <= most {
      assert o.amount in groups;
    }
  }

  /** The ratio of the detector never leaves 0..1. */
  lemma DuplicateRatioInRange(bids: seq<BidRecord>, most: nat)
    requires bids != [] && IsMostRepeated(bids, most)
    ensures 0 <= most <= |Jobs(bids)| && |Jobs(bids)| > 0
    ensures 0.0 <= most as real / |Jobs(bids)| as real <= 1.0
  {
    var b :| b in bids && |JobsAt(bids, b.amount)| == most;
    SubsetSize(JobsAt(bids, b.amount), Jobs(bids));
    assert b.job in Jobs(bids);
    UnitRatio(most, |Jobs(bids)|);
  }

  lemma UnitRatio(a: nat, b: nat)
    requires a <= b && b > 0
    ensures 0.0 <= a as real / b as real <= 1.0
  {
  }

  // ----- rotation -----

  function RotationScore(withdrawn: int, jobs: int): real
    requires jobs > 0
  {
    var ratio := withdrawn as real / jobs as real;
    if ratio > 0.80 then 0.40 else if ratio > 0.60 then 0.25 else if ratio > 0.40 then 0.10 else 0.0
  }

  function RotationResult(bids: seq<BidRecord>): real {
    if |bids| < 5 || |Jobs(bids)| < 3 then 0.0 else RotationScore(|WithdrawnJobs(bids)|, |Jobs(bids)|)
  }

  ghost predicate GroupedByJob(groups: map<Id, seq<BidRecord>>, bids: seq<BidRecord>) {
    && groups.Keys == Jobs(bids)
    && (forall j :: j in groups ==> forall b :: b in groups[j] <==> b in bids && b.job == j)
  }

  method GroupByJob(bids: seq<BidRecord>) returns (groups: map<Id, seq<BidRecord>>)
    ensures GroupedByJob(groups, bids)
  {
    groups := map[];
    for i := 0 to |bids|
      invariant GroupedByJob(groups, bids[..i])
    {
      var b := bids[i];
      NextJobGroup(groups, bids[..i], b);
      assert bids[..i] + [b] == bids[..i + 1];
      groups := groups[b.job := (if b.job in groups then groups[b.job] else []) + [b]];
    }
    assert bids[..|bids|] == bids;
  }

  lemma NextJobGroup(groups: map<Id, seq<BidRecord>>, bids: seq<BidRecord>, b: BidRecord)
    requires GroupedByJob(groups, bids)
    ensures GroupedByJob(groups[b.job := (if b.job in groups then groups[b.job] else []) + [b]], bids + [b])
  {
    assert Jobs(bids + [b]) == Jobs(bids) + {b.job};
    if b.job !in groups {
      forall o | o in bids ensures o.job != b.job {
        assert o.job in Jobs(bids);
      }
    }
  }

  method DetectBidRotation(bids: seq<BidRecord>) returns (score: real)
    ensures score == RotationResult(bids)
  {
    if |bids| < 5 {
      return 0.0;
    }
    var byJob := GroupByJob(bids);
    assert |byJob| == |byJob.Keys|;
    var totalJobs := |byJob|;
    if totalJobs < 3 {
      return 0.0;
    }
    WithdrawnGroups(byJob, bids);
    var withdrawn := CountWithdrawn(byJob, WithdrawnJobs(bids));
    var ratio := withdrawn as real / totalJobs as real;
    if ratio > 0.80 {
      score := 0.40;
    } else if ratio > 0.60 {
      score := 0.25;
    } else if ratio > 0.40 {
      score := 0.10;
    } else {
      score := 0.0;
    }
  }

  predicate AnyWithdrawn(bids: seq<BidRecord>) {
    exists b :: b in bids && b.withdrawn
  }

  lemma WithdrawnGroups(groups: map<Id, seq<BidRecord>>, bids: seq<BidRecord>)
    requires GroupedByJob(groups, bids)
    ensures WithdrawnJobs(bids) <= groups.Keys
    ensures forall j :: j in groups ==> (AnyWithdrawn(groups[j]) <==> j in WithdrawnJobs(bids))
  {
    forall j | j in groups ensures AnyWithdrawn(groups[j]) <==> j in WithdrawnJobs(bids) {
      if j in WithdrawnJobs(bids) {
        var b :| b in bids && b.withdrawn && b.job == j;
        assert b in groups[j];
      }
    }
  }

  lemma SplitCount<T>(all: set<T>, rest: set<T>, j: T)
    requires j in rest
    ensures |all - (rest - {j})| == |all - rest| + if j in all then 1 else 0
  {
    assert all - (rest - {j}) == (all - rest) + if j in all then {j} else {};
  }

  /** Groups holding a withdrawn bid, which are those of the jobs in `all`; the keys come in any order. */
  method CountWithdrawn(groups: map<Id, seq<BidRecord>>, ghost all: set<Id>) returns (count: nat)
    requires all <= groups.Keys && forall j :: j in groups ==> (AnyWithdrawn(groups[j]) <==> j in all)
    ensures count == |all|
  {
    count := 0;
    var rest := groups.Keys;
    while rest != {}
      invariant rest <= groups.Keys && count == |all - rest|
    {
      var j :| j in rest;
      SplitCount(all, rest, j);
      if AnyWithdrawn(groups[j]) {
        count := count + 1;
      }
      rest := rest - {j};
    }
    assert all - rest == all;
  }

  lemma RotationRatioInRange(bids: seq<BidRecord>)
    requires bids != []
    ensures 0 <= |WithdrawnJobs(bids)| <= |Jobs(bids)| && |Jobs(bids)| > 0
    ensures 0.0 <= |WithdrawnJobs(bids)| as real / |Jobs(bids)| as real <= 1.0
  {
    SubsetSize(WithdrawnJobs(bids), Jobs(bids));
    assert bids[0] in bids && bids[0].job in Jobs(bids);
    UnitRatio(|WithdrawnJobs(bids)|, |Jobs(bids)|);
  }

  /** The order of the bids is immaterial to both grouping detectors. */
  lemma GroupingsOrderFree(a: seq<BidRecord>, b: seq<BidRecord>, most: nat)
    requires multiset(a) == multiset(b)
    ensures RotationResult(a) == RotationResult(b)
    ensures IsMostRepeated(a, most) <==> IsMostRepeated(b, most)
    ensures DuplicateResult(a, most) == DuplicateResult(b, most)
  {
    assert |a| == |multiset(a)| == |multiset(b)| == |b|;
    forall r ensures r in a <==> r in b {
      assert r in a <==> r in multiset(a);
      assert r in b <==> r in multiset(b);
    }
    assert Jobs(a) == Jobs(b) && WithdrawnJobs(a) == WithdrawnJobs(b);
    assert forall m :: JobsAt(a, m) == JobsAt(b, m);
    assert a == [] <==> b == [];
  }

  // ----- shill bidding -----

  /** Sessions of the customer who posted a job, none if either is unknown. */
  function SessionsFor(job: Id, customers: map<Id, Id>, sessions: map<Id, seq<Session>>): seq<Session> {
    if job in customers && customers[job] in sessions then sessions[customers[job]] else []
  }

  predicate SharesIp(bids: seq<BidRecord>, job: Id, s: Session) {
    s.ip != "" && exists b :: b in bids && b.job == job && b.ip == s.ip
  }

  predicate SharesFingerprint(bids: seq<BidRecord>, job: Id, s: Session) {
    s.fingerprint != "" && exists b :: b in bids && b.job == job && b.fingerprint == s.fingerprint
  }

  /** A session by its job and its position among the customer's sessions. */
  datatype Hit = Hit(job: Id, index: nat)

  function AllSessions(jobs: set<Id>, customers: map<Id, Id>, sessions: map<Id, seq<Session>>): set<Hit> {
    set j, i: nat | j in jobs && i < |SessionsFor(j, customers, sessions)| :: Hit(j, i)
  }

  predicate IsIpHit(h: Hit, bids: seq<BidRecord>, customers: map<Id, Id>, sessions: map<Id, seq<Session>>) {
    h.index < |SessionsFor(h.job, customers, sessions)|
    && SharesIp(bids, h.job, SessionsFor(h.job, customers, sessions)[h.index])
  }

  predicate IsFingerprintHit(h: Hit, bids: seq<BidRecord>, customers: map<Id, Id>, sessions: map<Id, seq<Session>>) {
    h.index < |SessionsFor(h.job, customers, sessions)|
    && SharesFingerprint(bids, h.job, SessionsFor(h.job, customers, sessions)[h.index])
  }

  function Hits(all: set<Hit>, f: Hit -> bool): set<Hit> {
    set h | h in all && f(h)
  }

  function IpHits(bids: seq<BidRecord>, jobs: set<Id>, customers: map<Id, Id>, sessions: map<Id, seq<Session>>)
    : set<Hit>
  {
    Hits(AllSessions(jobs, customers, sessions), h => IsIpHit(h, bids, customers, sessions))
  }

  function FingerprintHits(bids: seq<BidRecord>, jobs: set<Id>, customers: map<Id, Id>, sessions: map<Id, seq<Session>>)
    : set<Hit>
  {
    Hits(AllSessions(jobs, customers, sessions), h => IsFingerprintHit(h, bids, customers, sessions))
  }

  function ShillScore(ips: int, fingerprints: int): real {
    var byFingerprint := if fingerprints == 0 then 0.0 else if fingerprints == 1 then 0.35 else 0.50;
    var byIp := if ips == 0 then 0.0 else if ips == 1 then 0.15 else 0.25;
    if byFingerprint < byIp then byIp else byFingerprint
  }

  function ShillResult(bids: seq<BidRecord>, customers: map<Id, Id>, sessions: map<Id, seq<Session>>): real {
    ShillScore(
      |IpHits(bids, Jobs(bids), customers, sessions)|,
      |FingerprintHits(bids, Jobs(bids), customers, sessions)|)
  }

  function FirstSessions(job: Id, n: nat): set<Hit> {
    set i: nat | i < n :: Hit(job, i)
  }

  lemma NextSession(job: Id, n: nat, f: Hit -> bool)
    ensures |Hits(FirstSessions(job, n + 1), f)| == |Hits(FirstSessions(job, n), f)| + if f(Hit(job, n)) then 1 else 0
  {
    var h := Hit(job, n);
    assert FirstSessions(job, n + 1) == FirstSessions(job, n) + {h};
    assert h !in FirstSessions(job, n);
    assert Hits(FirstSessions(job, n + 1), f) == Hits(FirstSessions(job, n), f) + if f(h) then {h} else {};
  }

  lemma HitsUnion(a: set<Hit>, b: set<Hit>, f: Hit -> bool)
    requires a !! b
    ensures |Hits(a + b, f)| == |Hits(a, f)| + |Hits(b, f)|
  {
    assert Hits(a + b, f) == Hits(a, f) + Hits(b, f);
  }

  /** One job's sessions, checked one after another. */
  method CountShared(bids: seq<BidRecord>, job: Id, customers: map<Id, Id>, sessions: map<Id, seq<Session>>)
    returns (ips: nat, fingerprints: nat)
    ensures ips == |IpHits(bids, {job}, customers, sessions)|
    ensures fingerprints == |FingerprintHits(bids, {job}, customers, sessions)|
  {
    ips, fingerprints := 0, 0;
    var shown := SessionsFor(job, customers, sessions);
    var count := |shown|;
    // The addresses and fingerprints the provider used on this job.
    var providerIps := set b | b in bids && b.job == job && b.ip != "" :: b.ip;
    var providerFingerprints := set b | b in bids && b.job == job && b.fingerprint != "" :: b.fingerprint;
    ghost var ip: Hit -> bool := h => IsIpHit(h, bids, customers, sessions);
    ghost var fp: Hit -> bool := h => IsFingerprintHit(h, bids, customers, sessions);
    assert FirstSessions(job, 0) == {};
    for n := 0 to count
      invariant ips == |Hits(FirstSessions(job, n), ip)| && fingerprints == |Hits(FirstSessions(job, n), fp)|
    {
      NextSession(job, n, ip);
      NextSession(job, n, fp);
      if shown[n].ip != "" && shown[n].ip in providerIps {
        ips := ips + 1;
      }
      if shown[n].fingerprint != "" && shown[n].fingerprint in providerFingerprints {
        fingerprints := fingerprints + 1;
      }
    }
    assert FirstSessions(job, count) == AllSessions({job}, customers, sessions);
  }

  lemma SessionsAdd(jobs: set<Id>, j: Id, customers: map<Id, Id>, sessions: map<Id, seq<Session>>)
    ensures AllSessions(jobs + {j}, customers, sessions) ==
      AllSessions(jobs, customers, sessions) + AllSessions({j}, customers, sessions)
    ensures j !in jobs ==> AllSessions(jobs, customers, sessions) !! AllSessions({j}, customers, sessions)
  {
  }

  lemma HitsAdd(bids: seq<BidRecord>, jobs: set<Id>, j: Id, customers: map<Id, Id>, sessions: map<Id, seq<Session>>)
    requires j !in jobs
    ensures |IpHits(bids, jobs + {j}, customers, sessions)|
      == |IpHits(bids, jobs, customers, sessions)| + |IpHits(bids, {j}, customers, sessions)|
    ensures |FingerprintHits(bids, jobs + {j}, customers, sessions)|
      == |FingerprintHits(bids, jobs, customers, sessions)| + |FingerprintHits(bids, {j}, customers, sessions)|
  {
    SessionsAdd(jobs, j, customers, sessions);
    var a, b := AllSessions(jobs, customers, sessions), AllSessions({j}, customers, sessions);
    HitsUnion(a, b, h => IsIpHit(h, bids, customers, sessions));
    HitsUnion(a, b, h => IsFingerprintHit(h, bids, customers, sessions));
  }

  /** The jobs are visited in any order. */
  method DetectShillBidding(bids: seq<BidRecord>, customers: map<Id, Id>, sessions: map<Id, seq<Session>>)
    returns (score: real)
    ensures score == ShillResult(bids, customers, sessions)
  {
    var sharedIps, sharedFingerprints := 0, 0;
    var all := Jobs(bids);
    var rest := all;
    while rest != {}
      invariant rest <= all
      invariant sharedIps == |IpHits(bids, all - rest, customers, sessions)|
      invariant sharedFingerprints == |FingerprintHits(bids, all - rest, customers, sessions)|
    {
      var j :| j in rest;
      var ips, fingerprints := CountShared(bids, j, customers, sessions);
      HitsAdd(bids, all - rest, j, customers, sessions);
      assert all - (rest - {j}) == (all - rest) + {j};
      sharedIps := sharedIps + ips;
      sharedFingerprints := sharedFingerprints + fingerprints;
      rest := rest - {j};
    }
    assert all - rest == all;
    score := ShillScore(sharedIps, sharedFingerprints);
  }

  /** The order of the bids is immaterial here too. */
  lemma ShillOrderFree(a: seq<BidRecord>, b: seq<BidRecord>, customers: map<Id, Id>, sessions: map<Id, seq<Session>>)
    requires multiset(a) == multiset(b)
    ensures ShillResult(a, customers, sessions) == ShillResult(b, customers, sessions)
  {
    forall r ensures r in a <==> r in b {
      assert r in a <==> r in multiset(a);
      assert r in b <==> r in multiset(b);
    }
    SameHits(a, b, customers, sessions);
  }

  lemma SameHits(a: seq<BidRecord>, b: seq<BidRecord>, customers: map<Id, Id>, sessions: map<Id, seq<Session>>)
    requires forall r :: r in a <==> r in b
    ensures Jobs(a) == Jobs(b)
    ensures forall jobs :: IpHits(a, jobs, customers, sessions) == IpHits(b, jobs, customers, sessions)
    ensures forall jobs ::
      FingerprintHits(a, jobs, customers, sessions) == FingerprintHits(b, jobs, customers, sessions)
  {
    forall jobs, h | h in AllSessions(jobs, customers, sessions)
      ensures IsIpHit(h, a, customers, sessions) == IsIpHit(h, b, customers, sessions)
      ensures IsFingerprintHit(h, a, customers, sessions) == IsFingerprintHit(h, b, customers, sessions)
    {
    }
  }

  // ----- all patterns -----

  datatype PatternResult = PatternResult(score: real, rapidFire: bool, shill: bool, rotation: bool)

  /** Some customer's session shares a known address or fingerprint with a bid on that customer's job. */
  ghost predicate SomeSessionShared(bids: seq<BidRecord>, customers: map<Id, Id>, sessions: map<Id, seq<Session>>) {
    exists b, s :: b in bids && b.job in customers && customers[b.job] in sessions && s in sessions[customers[b.job]]
      && ((s.ip != "" && s.ip == b.ip) || (s.fingerprint != "" && s.fingerprint == b.fingerprint))
  }

  lemma SharedIsHit(bids: seq<BidRecord>, customers: map<Id, Id>, sessions: map<Id, seq<Session>>)
    ensures SomeSessionShared(bids, customers, sessions) <==>
      exists h :: h in AllSessions(Jobs(bids), customers, sessions)
        && (IsIpHit(h, bids, customers, sessions) || IsFingerprintHit(h, bids, customers, sessions))
  {
    if SomeSessionShared(bids, customers, sessions) {
      var b, s :| b in bids && b.job in customers && customers[b.job] in sessions && s in sessions[customers[b.job]]
        && ((s.ip != "" && s.ip == b.ip) || (s.fingerprint != "" && s.fingerprint == b.fingerprint));
      var i: nat :| i < |sessions[customers[b.job]]| && sessions[customers[b.job]][i] == s;
      assert b.job in Jobs(bids);
      assert Hit(b.job, i) in AllSessions(Jobs(bids), customers, sessions);
    }
    var all := AllSessions(Jobs(bids), customers, sessions);
    if h :| h in all && (IsIpHit(h, bids, customers, sessions) || IsFingerprintHit(h, bids, customers, sessions)) {
      var s := SessionsFor(h.job, customers, sessions)[h.index];
      assert s in sessions[customers[h.job]];
    }
  }

  // ----- the scores in numbers -----

  /** A gap is rapid below ten seconds, either way. */
  lemma RapidGaps(bids: seq<BidRecord>, i: nat)
    requires i + 1 < |bids|
    ensures Gaps(bids)[i] <==> -10_000_000_000 < bids[i + 1].placedAt - bids[i].placedAt < 10_000_000_000
  {
  }

  lemma RapidTiers(run: nat)
    ensures RapidScore(run) == if run < 2 then 0.0 else if run < 3 then 0.10 else if run < 6 then 0.25 else 0.40
  {
  }

  /** A shared fingerprint outweighs any shared address. */
  lemma ShillTiers(ips: nat, fingerprints: nat)
    ensures ShillScore(ips, fingerprints) ==
      if fingerprints >= 2 then 0.50 else if fingerprints == 1 then 0.35
      else if ips >= 2 then 0.25 else if ips == 1 then 0.15 else 0.0
  {
  }

  /** The share of jobs with a withdrawal, in fifths. */
  lemma RotationTiers(bids: seq<BidRecord>)
    ensures var w, n := |WithdrawnJobs(bids)|, |Jobs(bids)|;
      RotationResult(bids) ==
      if |bids| < 5 || n < 3 || 5 * w <= 2 * n then 0.0
      else if 5 * w <= 3 * n then 0.10 else if 5 * w <= 4 * n then 0.25 else 0.40
  {
    if |bids| >= 5 && |Jobs(bids)| >= 3 {
      var w, n := |WithdrawnJobs(bids)|, |Jobs(bids)|;
      ShareExceeds(w, n, 0.40, 0.40 * n as real);
      ShareExceeds(w, n, 0.60, 0.60 * n as real);
      ShareExceeds(w, n, 0.80, 0.80 * n as real);
    }
  }

  /** The share of jobs bid on at one amount, and their number. */
  lemma DuplicateTiers(bids: seq<BidRecord>, most: nat)
    ensures var n := |Jobs(bids)|;
      DuplicateResult(bids, most) ==
      if |bids| < 4 || n < 3 then 0.0
      else if most >= 5 && 5 * most > 4 * n then 0.30
      else if most >= 4 && 5 * most > 3 * n then 0.20
      else if most >= 3 && 2 * most > n then 0.10 else 0.0
  {
    var n := |Jobs(bids)|;
    if |bids| >= 4 && n >= 3 {
      ShareExceeds(most, n, 0.50, 0.50 * n as real);
      ShareExceeds(most, n, 0.60, 0.60 * n as real);
      ShareExceeds(most, n, 0.80, 0.80 * n as real);
    }
  }

  lemma ShareExceeds(a: int, b: int, share: real, scaled: real)
    requires b > 0 && scaled == share * b as real
    ensures a as real / b as real > share <==> a as real > scaled
  {
    QuotientTimes(a as real, b as real);
    ScaleOrder(share, a as real / b as real, b as real, scaled, a as real);
  }

  /** Five bids or more, on three jobs or more, and a withdrawal on over 40% of these. */
  predicate Rotates(bids: seq<BidRecord>) {
    |bids| >= 5 && |Jobs(bids)| >= 3 && 5 * |WithdrawnJobs(bids)| > 2 * |Jobs(bids)|
  }

  lemma HitsPositive(all: set<Hit>, f: Hit -> bool)
    ensures |Hits(all, f)| > 0 <==> exists h :: h in all && f(h)
  {
    if h :| h in all && f(h) {
      assert h in Hits(all, f);
    }
    if |Hits(all, f)| > 0 {
      var h :| h in Hits(all, f);
    }
  }

  lemma ShillPositive(bids: seq<BidRecord>, customers: map<Id, Id>, sessions: map<Id, seq<Session>>)
    ensures ShillResult(bids, customers, sessions) > 0.0 <==> SomeSessionShared(bids, customers, sessions)
  {
    var all := AllSessions(Jobs(bids), customers, sessions);
    HitsPositive(all, h => IsIpHit(h, bids, customers, sessions));
    HitsPositive(all, h => IsFingerprintHit(h, bids, customers, sessions));
    SharedIsHit(bids, customers, sessions);
  }

  lemma RotationPositive(bids: seq<BidRecord>)
    ensures RotationResult(bids) > 0.0 <==> Rotates(bids)
  {
    RotationTiers(bids);
  }

  /** The flags say which signals were found; the score adds up all four, at most 1. */
  ghost predicate Reports(
      r: PatternResult, bids: seq<BidRecord>, customers: map<Id, Id>, sessions: map<Id, seq<Session>>,
      run: nat, most: nat)
  {
    && (r.rapidFire <==> run >= 2)
    && (r.shill <==> SomeSessionShared(bids, customers, sessions))
    && (r.rotation <==> Rotates(bids))
    && r.score == Unit(
         RapidScore(run) + ShillResult(bids, customers, sessions) + RotationResult(bids) + DuplicateResult(bids, most))
  }

  /** The four detectors add up, to 1 at most. */
  lemma SignalsAddUp(
      r: PatternResult, bids: seq<BidRecord>, customers: map<Id, Id>, sessions: map<Id, seq<Session>>,
      run: nat, most: nat)
    requires Reports(r, bids, customers, sessions, run, most)
    ensures var rapid, shill := RapidScore(run), ShillResult(bids, customers, sessions);
      var rotation, duplicates := RotationResult(bids), DuplicateResult(bids, most);
      && rapid >= 0.0 && shill >= 0.0 && rotation >= 0.0 && duplicates >= 0.0
      && if rapid + shill + rotation + duplicates <= 1.0
         then r.score == rapid + shill + rotation + duplicates else r.score == 1.0
  {
    NoneNegative(bids, customers, sessions, run, most);
  }

  /** The result reports on the longest run of rapid gaps and on the most repeated amount. */
  ghost predicate IsReport(
      r: PatternResult, bids: seq<BidRecord>, customers: map<Id, Id>, sessions: map<Id, seq<Session>>)
  {
    exists run: nat, most: nat ::
      IsLongestRun(Gaps(bids), run) && IsMostRepeated(bids, most) && Reports(r, bids, customers, sessions, run, most)
  }

  lemma NoneNegative(
      bids: seq<BidRecord>, customers: map<Id, Id>, sessions: map<Id, seq<Session>>, run: nat, most: nat)
    ensures RapidScore(run) >= 0.0 && ShillResult(bids, customers, sessions) >= 0.0
    ensures RotationResult(bids) >= 0.0 && DuplicateResult(bids, most) >= 0.0
  {
  }

  lemma SignalsReported(
      r: PatternResult, bids: seq<BidRecord>, customers: map<Id, Id>, sessions: map<Id, seq<Session>>,
      run: nat, most: nat)
    requires IsLongestRun(Gaps(bids), run) && IsMostRepeated(bids, most)
    requires r.rapidFire <==> RapidScore(run) > 0.0
    requires r.shill <==> ShillResult(bids, customers, sessions) > 0.0
    requires r.rotation <==> RotationResult(bids) > 0.0
    requires r.score == Unit(
      RapidScore(run) + ShillResult(bids, customers, sessions) + RotationResult(bids) + DuplicateResult(bids, most))
    ensures IsReport(r, bids, customers, sessions)
  {
    ShillPositive(bids, customers, sessions);
    RotationPositive(bids);
    assert Reports(r, bids, customers, sessions, run, most);
  }

  lemma NothingToReport(customers: map<Id, Id>, sessions: map<Id, seq<Session>>)
    ensures IsReport(PatternResult(0.0, false, false, false), [], customers, sessions)
  {
    assert Jobs([]) == {};
    assert AllSessions({}, customers, sessions) == {};
    ShillPositive([], customers, sessions);
    assert IpHits([], {}, customers, sessions) == {} && FingerprintHits([], {}, customers, sessions) == {};
    assert AllTrue(Gaps([]), 0, 0) && IsLongestRun(Gaps([]), 0) && IsMostRepeated([], 0);
    assert Reports(PatternResult(0.0, false, false, false), [], customers, sessions, 0, 0);
  }

  method ScoreBidPatterns(bids: seq<BidRecord>, customers: map<Id, Id>, sessions: map<Id, seq<Session>>)
    returns (r: PatternResult)
    ensures IsReport(r, bids, customers, sessions)
    ensures 0.0 <= r.score <= 1.0
  {
    if bids == [] {
      NothingToReport(customers, sessions);
      return PatternResult(0.0, false, false, false);
    }
    var score := 0.0;
    var rapid := DetectRapidFire(bids);
    if rapid > 0.0 {
      score := score + rapid;
    }
    var shill := DetectShillBidding(bids, customers, sessions);
    if shill > 0.0 {
      score := score + shill;
    }
    var rotation := DetectBidRotation(bids);
    if rotation > 0.0 {
      score := score + rotation;
    }
    var duplicates := DetectDuplicateAmounts(bids);
    if duplicates > 0.0 {
      score := score + duplicates;
    }
    r := PatternResult(Unit(score), rapid > 0.0, shill > 0.0, rotation > 0.0);
    ghost var run: nat :| IsLongestRun(Gaps(bids), run) && rapid == RapidScore(run);
    ghost var most: nat :| IsMostRepeated(bids, most) && duplicates == DuplicateResult(bids, most);
    NoneNegative(bids, customers, sessions, run, most);
    SignalsReported(r, bids, customers, sessions, run, most);
  }
}
