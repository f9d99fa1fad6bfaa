/** The failed-login sliding window kept in Redis: one sorted set per subject
    key (member ↦ score in Unix seconds), updated by a four-command pipeline
    (ZADD, ZREMRANGEBYSCORE, ZCARD, EXPIRE) that Redis runs as one unit. */
module SlidingWindow {

  /** `FAILED_LOGIN_WINDOW_SECONDS`. */
  const WindowSeconds: int := 60
  /** `FAILED_LOGIN_THRESHOLD`. */
  const Threshold: int := 3

  /** A sorted set: member ↦ score. */
  type ZSet = map<string, int>

  /** ZREMRANGEBYSCORE with both bounds inclusive. */
  function RemoveRangeByScore(z: ZSet, lo: int, hi: int): (r: ZSet)
    ensures forall m :: m in r <==> m in z && !(lo <= z[m] <= hi)
    ensures forall m :: m in r ==> r[m] == z[m]
  {
    map m | m in z && !(lo <= z[m] <= hi) :: z[m]
  }

  /** The set a key holds (a missing key reads as the empty set). */
  function Existing(zsets: map<string, ZSet>, key: string): ZSet
  {
    if key in zsets then zsets[key] else map[]
  }

  /** The key's set after `ZADD key {member: now}` and
      `ZREMRANGEBYSCORE key 0 (now - window)`. */
  function AfterPipeline(z: ZSet, member: string, now: int, window: int): (r: ZSet)
    ensures forall m :: m in r ==> !(0 <= r[m] <= now - window)
    ensures window > 0 ==> member in r && r[member] == now
    ensures forall m :: m != member ==> (m in r <==> m in z && !(0 <= z[m] <= now - window))
    ensures forall m :: m != member && m in r ==> r[m] == z[m]
  {
    RemoveRangeByScore(z[member := now], 0, now - window)
  }

  /** The replies `pipe.execute()` returns, in command order: members added by
      ZADD, members removed by ZREMRANGEBYSCORE, ZCARD, and EXPIRE's 1 when the
      key exists (0 when it does not). */
  function PipelineReplies(z: ZSet, member: string, now: int, window: int): (results: seq<int>)
    ensures |results| == 4
    ensures results[0] == 1 <==> member !in z
    ensures results[2] == |AfterPipeline(z, member, now, window)|
    ensures results[3] == 1 <==> AfterPipeline(z, member, now, window) != map[]
  {
    var added := z[member := now];
    var kept := AfterPipeline(z, member, now, window);
    [ if member in z then 0 else 1,
      |added| - |kept|,
      |kept|,
      if kept == map[] then 0 else 1 ]
  }

  /** Redis drops a sorted set that becomes empty. */
  function Put(zsets: map<string, ZSet>, key: string, z: ZSet): (r: map<string, ZSet>)
    ensures z != map[] ==> r == zsets[key := z]
    ensures z == map[] ==> key !in r && forall k :: k != key ==> (k in r <==> k in zsets)
  {
    if z == map[] then zsets - {key} else zsets[key := z]
  }

  /** The value the analysis consumer compares with the threshold: the LAST
      reply, which is EXPIRE's. */
  function AttemptsAsWritten(results: seq<int>): int
    requires |results| > 0
  {
    results[|results| - 1]
  }

  /** The evidently intended value: ZCARD's reply, the number of members left
      in the window. */
  function AttemptsInWindow(results: seq<int>): int
    requires |results| == 4
  {
    results[2]
  }

  /** The Redis server state the pipeline touches: sorted sets and key TTLs. */
  class Store {
    var zsets: map<string, ZSet>
    /** Seconds to live, per key. */
    var ttl: map<string, int>

    /** Redis never keeps an empty sorted set. */
    ghost predicate Valid()
      reads this
    {
      forall k :: k in zsets ==> zsets[k] != map[]
    }

    constructor ()
      ensures zsets == map[] && ttl == map[] && Valid()
    {
      zsets, ttl := map[], map[];
    }

    /** One `pipe.execute()` of the four commands on `key`; nothing else in
        the store changes. */
    method ExecuteFailedLoginPipeline(key: string, member: string, now: int, window: int)
      returns (results: seq<int>)
      requires Valid()
      modifies this
      ensures Valid()
      ensures results == PipelineReplies(Existing(old(zsets), key), member, now, window)
      ensures zsets == Put(old(zsets), key, AfterPipeline(Existing(old(zsets), key), member, now, window))
      ensures key in zsets ==> ttl == old(ttl)[key := window + 60]
      ensures key !in zsets ==> ttl == old(ttl) - {key}
    {
      var z := Existing(zsets, key);
      var kept := AfterPipeline(z, member, now, window);
      results := PipelineReplies(z, member, now, window);
      zsets := Put(zsets, key, kept);
      if key in zsets {
        ttl := ttl[key := window + 60];
      } else {
        ttl := ttl - {key};
      }
    }
  }

  /** Pointwise facts about one pipeline with the shipped window: the new member
      is in the set scored `now`, nothing scored in `[0, now - 60]` is left, the
      key lives `120` seconds, and the count the consumer compares is 1. */
  lemma {:induction false} PipelinePostState(z: ZSet, member: string, now: int)
    ensures var kept := AfterPipeline(z, member, now, WindowSeconds);
      && member in kept && kept[member] == now
      && (forall m :: m in kept ==> !(0 <= kept[m] <= now - WindowSeconds))
      && PipelineReplies(z, member, now, WindowSeconds)[2] == |kept|
      && AttemptsAsWritten(PipelineReplies(z, member, now, WindowSeconds)) == 1
  {
    var kept := AfterPipeline(z, member, now, WindowSeconds);
    assert member in kept;
    assert kept != map[];
  }

  /** With the shipped threshold the as-written comparison never holds, so the
      failed-login-burst alert is never raised, whatever the store held. */
  lemma BurstAlertNeverFires(z: ZSet, member: string, now: int)
    ensures AttemptsAsWritten(PipelineReplies(z, member, now, WindowSeconds)) < Threshold
  {
    PipelinePostState(z, member, now);
  }

  /** One failed login: a fresh member scored at a time. */
  datatype Failure = Failure(member: string, at: int)

  /** The set after running the pipeline once per failure, in order. */
  function Replay(z: ZSet, calls: seq<Failure>, window: int): ZSet
    decreases |calls|
  {
    if calls == [] then z
    else
      var c := calls[|calls| - 1];
      AfterPipeline(Replay(z, calls[..|calls| - 1], window), c.member, c.at, window)
  }

  /** Every member scored with its latest failure, without pruning. */
  function LatestScores(z: ZSet, calls: seq<Failure>): ZSet
    decreases |calls|
  {
    if calls == [] then z
    else
      var c := calls[|calls| - 1];
      LatestScores(z, calls[..|calls| - 1])[c.member := c.at]
  }

  predicate NonDecreasing(calls: seq<Failure>)
  {
    forall i, j :: 0 <= i < j < |calls| ==> calls[i].at <= calls[j].at
  }

  /** One induction step: pruning an earlier, lower cutoff first changes
      nothing once the later cutoff is applied. */
  lemma PruneTwiceIsPruneLater(latest: ZSet, before: int, member: string, now: int, window: int)
    requires window > 0 && before <= now - window
    ensures AfterPipeline(RemoveRangeByScore(latest, 0, before), member, now, window)
         == RemoveRangeByScore(latest[member := now], 0, now - window)
  {
    var lhs := AfterPipeline(RemoveRangeByScore(latest, 0, before), member, now, window);
    var rhs := RemoveRangeByScore(latest[member := now], 0, now - window);
    assert forall m :: m in lhs <==> m in rhs;
    assert forall m :: m in lhs ==> lhs[m] == rhs[m];
  }

  /** Lazy pruning loses nothing: after failures in time order, the set is
      exactly the latest score of every member with the entries of the last
      call's range `[0, now - window]` removed. */
  lemma {:induction false} ReplayIsLatestWithinWindow(z: ZSet, calls: seq<Failure>, window: int)
    requires window > 0 && |calls| > 0 && NonDecreasing(calls)
    ensures Replay(z, calls, window)
         == RemoveRangeByScore(LatestScores(z, calls), 0, calls[|calls| - 1].at - window)
    decreases |calls|
  {
    var n := |calls|;
    var c := calls[n - 1];
    var prefix := calls[..n - 1];
    var latest := LatestScores(z, prefix);
    if n == 1 {
      assert prefix == [];
      assert Replay(z, prefix, window) == z && latest == z;
    } else {
      var before := prefix[n - 2].at - window;
      assert Replay(z, prefix, window) == RemoveRangeByScore(latest, 0, before) by {
        assert NonDecreasing(prefix);
        ReplayIsLatestWithinWindow(z, prefix, window);
      }
      assert before <= c.at - window;
      PruneTwiceIsPruneLater(latest, before, c.member, c.at, window);
    }
  }

  /** The property of the window: after failures in time order, no member
      counted has a score in `[0, now - window]`, and a member is counted iff
      its latest failure is outside that range. */
  lemma WindowCountsOnlyRecent(z: ZSet, calls: seq<Failure>, window: int, m: string)
    requires window > 0 && |calls| > 0 && NonDecreasing(calls)
    ensures var now := calls[|calls| - 1].at;
      var latest := LatestScores(z, calls);
      m in Replay(z, calls, window) <==> m in latest && !(0 <= latest[m] <= now - window)
  {
    ReplayIsLatestWithinWindow(z, calls, window);
  }

  /** Three failures for one subject within ten seconds, each recorded under
      its own member: ZCARD reports 3, which meets the threshold, while the
      value the consumer compares is still 1. */
  lemma ThreeQuickFailuresReachThreshold(t: int)
    ensures var calls := [Failure("f1", t), Failure("f2", t + 5), Failure("f3", t + 10)];
      var before := Replay(map[], calls[..2], WindowSeconds);
      var results := PipelineReplies(before, "f3", t + 10, WindowSeconds);
      AttemptsInWindow(results) == 3 >= Threshold && AttemptsAsWritten(results) == 1
  {
    var calls := [Failure("f1", t), Failure("f2", t + 5), Failure("f3", t + 10)];
    var one := AfterPipeline(map[], "f1", t, WindowSeconds);
    assert calls[..2][..1] == calls[..1];
    assert calls[..1][..0] == [];
    assert Replay(map[], calls[..1], WindowSeconds) == one;
    assert one == map["f1" := t];
    var two := AfterPipeline(one, "f2", t + 5, WindowSeconds);
    assert two == map["f1" := t, "f2" := t + 5];
    assert Replay(map[], calls[..2], WindowSeconds) == two;
    var three := AfterPipeline(two, "f3", t + 10, WindowSeconds);
    assert three == map["f1" := t, "f2" := t + 5, "f3" := t + 10];
    assert |three| == 3;
  }

  /** Failures 70 seconds apart never count more than one, because each
      pipeline prunes the previous entry. */
  lemma SpacedFailuresStayAtOne(z: ZSet, prev: string, t: int, member: string)
    requires t >= 0
    requires z == map[prev := t]
    ensures AttemptsInWindow(PipelineReplies(z, member, t + 70, WindowSeconds)) == 1
  {
    var kept := AfterPipeline(z, member, t + 70, WindowSeconds);
    assert kept == map[member := t + 70];
  }
}
