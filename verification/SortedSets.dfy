/**
 The part of Redis both sliding windows rest on: a sorted set under a key that expires.
 Scores are whole numbers (microseconds or seconds since the epoch, exact in a double).
 One clock, in nanoseconds, drives the gateway and the server.
 */
module SortedSets {
  import opened Wrappers

  const MICRO: int := 1_000
  const MILLI: int := 1_000_000
  const SECOND: int := 1_000_000_000

  /** A sorted set and the millisecond after which the server drops its key. */
  datatype ZSet<!M> = ZSet(scores: map<M, int>, expiry: Option<int>)

  /** What a command issued at `now` finds under the key. */
  function Stored<M>(z: ZSet<M>, now: int): map<M, int> {
    if z.expiry.Some? && now / MILLI > z.expiry.value then map[] else z.scores
  }

  /** ZREMRANGEBYSCORE from -inf to `cutoff`, both ends included. */
  function RemoveUpTo<M>(scores: map<M, int>, cutoff: int): map<M, int> {
    map m | m in scores && scores[m] > cutoff :: scores[m]
  }

  /** EXPIRE takes whole seconds: the client drops the rest of the duration. */
  function ExpiryAfter(now: int, duration: int): Option<int>
    requires duration >= SECOND
  {
    Some(now / MILLI + duration / SECOND * 1000)
  }

  /** An expired key was written longer ago than its duration, less the second the client may drop. */
  lemma ExpiredIsOld(set_: int, now: int, duration: int)
    requires duration >= SECOND && now / MILLI > ExpiryAfter(set_, duration).value
    ensures now - set_ > duration - SECOND
  {
  }

  lemma {:induction false} OldestAmong<M>(scores: map<M, int>, members: set<M>) returns (oldest: M)
    requires members <= scores.Keys && members != {}
    ensures oldest in members && forall m :: m in members ==> scores[oldest] <= scores[m]
    decreases |members|
  {
    var first :| first in members;
    var rest := members - {first};
    if rest == {} {
      oldest := first;
      assert members == {first};
    } else {
      var other := OldestAmong(scores, rest);
      oldest := if scores[other] < scores[first] then other else first;
      assert members == rest + {first};
      forall m | m in members ensures scores[oldest] <= scores[m] {
        assert m in rest || m == first;
      }
    }
  }

  lemma OldestExists<M>(scores: map<M, int>)
    requires scores != map[]
    ensures exists m :: m in scores && forall k :: k in scores ==> scores[m] <= scores[k]
  {
    assert scores.Keys != {};
    var oldest := OldestAmong(scores, scores.Keys);
  }
}
