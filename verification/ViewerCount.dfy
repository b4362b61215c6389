/**
 The live viewer counter of a job, against the full history of its pings. Times are nanoseconds;
 the counter keeps whole seconds. The clock never goes backwards; pings of the same user
 overwrite each other.
 */
module ViewerCount {
  import opened Basics
  import opened Wrappers
  import opened SortedSets

  datatype User = User(id: int)
  datatype Ping = Ping(user: User, at: int)

  const VIEWER_WINDOW: int := 120

  function Unix(t: int): int {
    t / SECOND
  }

  predicate Ordered(pings: seq<Ping>) {
    forall i, j :: 0 <= i < j < |pings| ==> pings[i].at <= pings[j].at
  }

  predicate NoEarlier(pings: seq<Ping>, now: int) {
    pings != [] ==> pings[|pings| - 1].at <= now
  }

  /** Each user's last ping. */
  function LastPing(pings: seq<Ping>): map<User, int> {
    if pings == [] then map[]
    else LastPing(pings[..|pings| - 1])[pings[|pings| - 1].user := pings[|pings| - 1].at]
  }

  /** The second of each user's last ping: the score the counter keeps. */
  function LastSecond(pings: seq<Ping>): map<User, int> {
    var last := LastPing(pings);
    map u | u in last :: Unix(last[u])
  }

  /** Users whose last ping is at most `age` nanoseconds old. */
  function SeenWithin(pings: seq<Ping>, now: int, age: int): set<User> {
    var last := LastPing(pings);
    set u | u in last && now - last[u] <= age
  }

  /** Users between whose last ping and now the clock moved on by at most `age` whole seconds. */
  function SecondsWithin(pings: seq<Ping>, now: int, age: int): set<User> {
    var last := LastSecond(pings);
    set u | u in last && Unix(now) - last[u] <= age
  }

  /** Whether anyone has pinged in the current second. */
  predicate PingedThisSecond(pings: seq<Ping>, now: int) {
    pings != [] && Unix(pings[|pings| - 1].at) == Unix(now)
  }

  /** Members are last pings; a last ping is missing only if it was 120 seconds old at a later ping. */
  ghost predicate Tracks(key: ZSet<User>, pings: seq<Ping>) {
    && Ordered(pings)
    && (pings == [] ==> key.scores == map[])
    && (pings != [] ==>
         var newest := pings[|pings| - 1].at;
         && key.expiry == ExpiryAfter(newest, 2 * VIEWER_WINDOW * SECOND)
         && key.scores == RemoveUpTo(LastSecond(pings), Unix(newest) - VIEWER_WINDOW))
  }

  lemma {:induction false} LastPingBounds(pings: seq<Ping>)
    requires Ordered(pings)
    ensures pings != [] ==> forall u :: u in LastPing(pings) ==> LastPing(pings)[u] <= pings[|pings| - 1].at
  {
    if |pings| > 1 {
      LastPingBounds(pings[..|pings| - 1]);
      assert pings[|pings| - 2].at <= pings[|pings| - 1].at;
    }
  }

  /** A user is listed once they have pinged, under the latest of their pings. */
  lemma {:induction false} LastPingIsLatest(pings: seq<Ping>, u: User)
    requires Ordered(pings)
    ensures u in LastPing(pings) <==> exists i :: 0 <= i < |pings| && pings[i].user == u
    ensures u in LastPing(pings) ==>
      exists i :: 0 <= i < |pings| && pings[i].user == u && pings[i].at == LastPing(pings)[u]
    ensures forall i :: 0 <= i < |pings| && pings[i].user == u ==>
      u in LastPing(pings) && pings[i].at <= LastPing(pings)[u]
  {
    if pings != [] {
      var init, p := pings[..|pings| - 1], pings[|pings| - 1];
      assert forall i :: 0 <= i < |init| ==> init[i] == pings[i];
      LastPingIsLatest(init, u);
      forall i | 0 <= i < |pings| && pings[i].user == u
        ensures u in LastPing(pings) && pings[i].at <= LastPing(pings)[u]
      {
        assert i == |pings| - 1 || (init[i].user == u && pings[i].at <= p.at);
      }
      if p.user == u {
        assert pings[|pings| - 1].user == u;
      } else if u in LastPing(init) {
        var i :| 0 <= i < |init| && init[i].user == u && init[i].at == LastPing(init)[u];
        assert pings[i].user == u;
      }
    }
  }

  lemma SecondBounds(pings: seq<Ping>)
    requires Ordered(pings)
    ensures pings != [] ==> forall u :: u in LastSecond(pings) ==> LastSecond(pings)[u] <= Unix(pings[|pings| - 1].at)
  {
    LastPingBounds(pings);
  }

  /** An expired key held nobody seen within the window. */
  lemma ExpiryLosesNobody(key: ZSet<User>, pings: seq<Ping>, now: int)
    requires Tracks(key, pings) && NoEarlier(pings, now) && pings != []
    requires now / MILLI > key.expiry.value
    ensures forall u :: u in LastSecond(pings) ==> Unix(now) - LastSecond(pings)[u] > VIEWER_WINDOW
  {
    SecondBounds(pings);
    ExpiredIsOld(pings[|pings| - 1].at, now, 2 * VIEWER_WINDOW * SECOND);
  }

  lemma NextLastSecond(pings: seq<Ping>, p: Ping)
    ensures LastSecond(pings + [p]) == LastSecond(pings)[p.user := Unix(p.at)]
  {
    assert (pings + [p])[..|pings|] == pings;
    assert LastPing(pings + [p]) == LastPing(pings)[p.user := p.at];
  }

  /** One ping's pipeline: add the user, then trim. */
  lemma PingTracks(key: ZSet<User>, pings: seq<Ping>, p: Ping)
    requires Tracks(key, pings) && NoEarlier(pings, p.at)
    ensures RemoveUpTo(Stored(key, p.at)[p.user := Unix(p.at)], Unix(p.at) - VIEWER_WINDOW)
      == RemoveUpTo(LastSecond(pings + [p]), Unix(p.at) - VIEWER_WINDOW)
  {
    NextLastSecond(pings, p);
    if pings != [] && p.at / MILLI > key.expiry.value {
      ExpiryLosesNobody(key, pings, p.at);
    }
  }

  lemma PingKeepsTrack(key: ZSet<User>, pings: seq<Ping>, p: Ping)
    requires Tracks(key, pings) && NoEarlier(pings, p.at)
    ensures Tracks(
      ZSet(RemoveUpTo(Stored(key, p.at)[p.user := Unix(p.at)], Unix(p.at) - VIEWER_WINDOW),
           ExpiryAfter(p.at, 2 * VIEWER_WINDOW * SECOND)),
      pings + [p])
  {
    PingTracks(key, pings, p);
    StillOrdered(pings, p);
  }

  lemma StillOrdered(pings: seq<Ping>, p: Ping)
    requires Ordered(pings) && NoEarlier(pings, p.at)
    ensures Ordered(pings + [p])
  {
    forall i | 0 <= i < |pings| ensures pings[i].at <= p.at {
      assert pings[i].at <= pings[|pings| - 1].at;
    }
  }

  /** How many seconds a counted last ping may lie back: one less if a ping this second has trimmed the set. */
  function Reach(pings: seq<Ping>, now: int): int {
    if PingedThisSecond(pings, now) then VIEWER_WINDOW - 1 else VIEWER_WINDOW
  }

  /** Who ZCOUNT counts. */
  lemma CountedUsers(key: ZSet<User>, pings: seq<Ping>, now: int)
    requires Tracks(key, pings) && NoEarlier(pings, now)
    ensures var scores := Stored(key, now);
      (set u | u in scores && scores[u] >= Unix(now) - VIEWER_WINDOW) == SecondsWithin(pings, now, Reach(pings, now))
  {
    if pings != [] {
      if now / MILLI > key.expiry.value {
        ExpiryLosesNobody(key, pings, now);
      }
    }
  }

  /** Whole seconds against the time between. */
  lemma SecondsBetween(last: int, now: int, age: int)
    ensures now - last <= age * SECOND ==> Unix(now) - Unix(last) <= age
    ensures Unix(now) - Unix(last) <= age ==> now - last < (age + 1) * SECOND
  {
    assert last == Unix(last) * SECOND + last % SECOND && now == Unix(now) * SECOND + now % SECOND;
  }

  /** Everyone seen `age` seconds ago or less is within `age` whole seconds, and nobody seen a second earlier is. */
  lemma SeenAgainstSeconds(pings: seq<Ping>, now: int, age: int)
    ensures SeenWithin(pings, now, age * SECOND) <= SecondsWithin(pings, now, age)
    ensures SecondsWithin(pings, now, age) <= SeenWithin(pings, now, (age + 1) * SECOND - 1)
  {
    var last := LastPing(pings);
    forall u | u in last
      ensures u in SeenWithin(pings, now, age * SECOND) ==> u in SecondsWithin(pings, now, age)
      ensures u in SecondsWithin(pings, now, age) ==> u in SeenWithin(pings, now, (age + 1) * SECOND - 1)
    {
      SecondsBetween(last[u], now, age);
    }
  }

  /** What the counter is meant to report: all seen under 120 seconds ago, and none seen longer ago than 120 seconds. */
  predicate Nominal(pings: seq<Ping>, now: int, count: int) {
    && |SeenWithin(pings, now, VIEWER_WINDOW * SECOND - 1)| <= count
    && count <= |SeenWithin(pings, now, VIEWER_WINDOW * SECOND)|
  }

  /** The user is 120 whole seconds back, but on the other side of 120 seconds than the counter takes them to be. */
  predicate Straddles(pings: seq<Ping>, now: int, u: User) {
    var last := LastPing(pings);
    && u in last && Unix(now) - Unix(last[u]) == VIEWER_WINDOW
    && if PingedThisSecond(pings, now) then now - last[u] < VIEWER_WINDOW * SECOND
       else now - last[u] > VIEWER_WINDOW * SECOND
  }

  lemma ProperSubsetSize<T>(a: set<T>, b: set<T>, x: T)
    requires a <= b && x in b && x !in a
    ensures |a| < |b|
  {
    SubsetSize(a, b - {x});
  }

  /** With a ping this second: the counter misses exactly the users who straddle. */
  lemma NominalWhenTrimmed(pings: seq<Ping>, now: int)
    requires PingedThisSecond(pings, now)
    ensures Nominal(pings, now, |SecondsWithin(pings, now, VIEWER_WINDOW - 1)|) <==>
      !exists u :: Straddles(pings, now, u)
  {
    var last := LastPing(pings);
    var counted := SecondsWithin(pings, now, VIEWER_WINDOW - 1);
    var seen := SeenWithin(pings, now, VIEWER_WINDOW * SECOND - 1);
    SeenAgainstSeconds(pings, now, VIEWER_WINDOW - 1);
    SubsetSize(counted, SeenWithin(pings, now, VIEWER_WINDOW * SECOND));
    if u :| Straddles(pings, now, u) {
      ProperSubsetSize(counted, seen, u);
    } else {
      forall u | u in seen ensures u in counted {
        SecondsBetween(last[u], now, VIEWER_WINDOW);
        assert !Straddles(pings, now, u);
      }
      SubsetSize(seen, counted);
    }
  }

  /** Without one: it counts exactly the users who straddle too many. */
  lemma NominalWhenUntrimmed(pings: seq<Ping>, now: int)
    requires !PingedThisSecond(pings, now)
    ensures Nominal(pings, now, |SecondsWithin(pings, now, VIEWER_WINDOW)|) <==> !exists u :: Straddles(pings, now, u)
  {
    var last := LastPing(pings);
    var counted := SecondsWithin(pings, now, VIEWER_WINDOW);
    var seen := SeenWithin(pings, now, VIEWER_WINDOW * SECOND);
    SeenAgainstSeconds(pings, now, VIEWER_WINDOW);
    SubsetSize(SeenWithin(pings, now, VIEWER_WINDOW * SECOND - 1), counted);
    if u :| Straddles(pings, now, u) {
      ProperSubsetSize(seen, counted, u);
    } else {
      forall u | u in counted ensures u in seen {
        SecondsBetween(last[u], now, VIEWER_WINDOW - 1);
        assert !Straddles(pings, now, u);
      }
      SubsetSize(counted, seen);
    }
  }

  /** The count is what it is meant to be exactly when nobody straddles the 120 seconds. */
  lemma NominalExactly(pings: seq<Ping>, now: int)
    ensures Nominal(pings, now, |SecondsWithin(pings, now, Reach(pings, now))|) <==>
      !exists u :: Straddles(pings, now, u)
  {
    if PingedThisSecond(pings, now) {
      NominalWhenTrimmed(pings, now);
    } else {
      NominalWhenUntrimmed(pings, now);
    }
  }

  const TENTH: int := 100_000_000

  /** A pings at 0.9 s and B at 120.1 s: at 120.2 s A was seen 119.3 seconds ago and is not counted. */
  lemma CountsTooFew(a: User, b: User)
    requires a != b
    ensures var pings, now := [Ping(a, 9 * TENTH), Ping(b, 1201 * TENTH)], 1202 * TENTH;
      && a in SeenWithin(pings, now, VIEWER_WINDOW * SECOND - 1) && a !in SecondsWithin(pings, now, Reach(pings, now))
      && !Nominal(pings, now, |SecondsWithin(pings, now, Reach(pings, now))|)
  {
    var pings := [Ping(a, 9 * TENTH), Ping(b, 1201 * TENTH)];
    assert pings[..1] == [Ping(a, 9 * TENTH)];
    assert LastPing([Ping(a, 9 * TENTH)]) == map[a := 9 * TENTH];
    assert LastPing(pings) == map[a := 9 * TENTH, b := 1201 * TENTH];
    assert Straddles(pings, 1202 * TENTH, a);
    NominalExactly(pings, 1202 * TENTH);
  }

  /** A pings at 0 s: at 120.9 s A was last seen 120.9 seconds ago and is still counted. */
  lemma CountsTooMany(a: User)
    ensures var pings, now := [Ping(a, 0)], 1209 * TENTH;
      && a !in SeenWithin(pings, now, VIEWER_WINDOW * SECOND) && a in SecondsWithin(pings, now, Reach(pings, now))
      && !Nominal(pings, now, |SecondsWithin(pings, now, Reach(pings, now))|)
  {
    assert LastPing([Ping(a, 0)]) == map[a := 0];
    assert Straddles([Ping(a, 0)], 1209 * TENTH, a);
    NominalExactly([Ping(a, 0)], 1209 * TENTH);
  }

  class Viewers {
    var key: ZSet<User>
    /** Every ping so far, for comparison only. */
    ghost var pings: seq<Ping>

    ghost predicate Valid()
      reads this
    {
      Tracks(key, pings)
    }

    constructor ()
      ensures Valid() && pings == []
    {
      key := ZSet(map[], None);
      pings := [];
    }

    method PingViewer(user: User, now: int)
      requires Valid() && NoEarlier(pings, now)
      modifies this
      ensures Valid() && pings == old(pings) + [Ping(user, now)]
    {
      PingKeepsTrack(key, pings, Ping(user, now));
      var scores := Stored(key, now)[user := Unix(now)];
      scores := RemoveUpTo(scores, Unix(now) - VIEWER_WINDOW);
      key := ZSet(scores, ExpiryAfter(now, 2 * VIEWER_WINDOW * SECOND));
      pings := pings + [Ping(user, now)];
    }

    /**
     Everyone seen up to `Reach` seconds ago is counted, nobody seen a second longer ago is; so all seen up to
     119 seconds ago are, and none seen 121 seconds ago.
     */
    method GetViewerCount(now: int) returns (count: nat)
      requires Valid() && NoEarlier(pings, now)
      ensures count == |SecondsWithin(pings, now, Reach(pings, now))|
      ensures |SeenWithin(pings, now, Reach(pings, now) * SECOND)| <= count
      ensures count <= |SeenWithin(pings, now, (Reach(pings, now) + 1) * SECOND - 1)|
    {
      CountedUsers(key, pings, now);
      CountInRange(pings, now, Reach(pings, now));
      var scores := Stored(key, now);
      var seen := set u | u in scores && scores[u] >= Unix(now) - VIEWER_WINDOW;
      count := |seen|;
    }
  }

  lemma CountInRange(pings: seq<Ping>, now: int, age: int)
    ensures |SeenWithin(pings, now, age * SECOND)| <= |SecondsWithin(pings, now, age)|
    ensures |SecondsWithin(pings, now, age)| <= |SeenWithin(pings, now, (age + 1) * SECOND - 1)|
  {
    SeenAgainstSeconds(pings, now, age);
    SubsetSize(SeenWithin(pings, now, age * SECOND), SecondsWithin(pings, now, age));
    SubsetSize(SecondsWithin(pings, now, age), SeenWithin(pings, now, (age + 1) * SECOND - 1));
  }

  /** After any sequence of pings, the number reported from then on depends on the history alone. */
  method CountAfter(pings: seq<Ping>, now: int) returns (count: nat)
    requires Ordered(pings) && NoEarlier(pings, now)
    ensures count == |SecondsWithin(pings, now, Reach(pings, now))|
  {
    var viewers := new Viewers();
    for n := 0 to |pings|
      invariant viewers.Valid() && viewers.pings == pings[..n]
    {
      viewers.PingViewer(pings[n].user, pings[n].at);
    }
    assert pings[..|pings|] == pings;
    count := viewers.GetViewerCount(now);
  }
}
