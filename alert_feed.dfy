/**
 * The dashboard's live alert feed.
 *
 * Every generator tick builds a batch of three synthetic alerts stamped with
 * the clock reading `now`, keeps only the first one of the batch, puts it at
 * the head of the feed and keeps at most the four newest previous alerts.  The
 * feed is therefore a newest-first buffer of capacity five that evicts from the
 * tail.  The clock reading is a parameter of the tick; the timer that drives
 * the ticks is not part of the model.
 */
module AlertFeed {

  /** One entry of the feed; `kind` is the alert's `type` field. */
  datatype Alert = Alert(id: int, kind: string, message: string, time: string, station: string)

  /** The most alerts the feed ever holds. */
  const Capacity: nat := 5

  /** How many previous alerts a tick keeps (`prev.slice(0, 4)`). */
  const Retained: nat := Capacity - 1

  function Min(a: int, b: int): int { if a <= b then a else b }

  /** `s.slice(0, n)` for a non-negative `n`: the first `n` elements, or all of `s` if it is shorter. */
  function Take<T>(s: seq<T>, n: nat): (r: seq<T>)
    ensures |r| == Min(|s|, n)
    ensures forall i :: 0 <= i < |r| ==> r[i] == s[i]
  {
    if n <= |s| then s[..n] else s
  }

  /**
   * The batch the generator builds on a tick whose clock reads `now`: a
   * critical alert for DWLR003, a warning for DWLR002 and an info alert for
   * DWLR004.  One clock reading stamps all three.
   */
  function Batch(now: int): (b: seq<Alert>)
    ensures |b| == 3
    ensures forall i :: 0 <= i < |b| ==> b[i].id == now + i
    ensures b[0].kind == "critical" && b[0].station == "DWLR003"
    ensures b[1].kind == "warning" && b[1].station == "DWLR002"
    ensures b[2].kind == "info" && b[2].station == "DWLR004"
  {
    [ Alert(now, "critical", "Chennai Central: Water level dropped below critical threshold", "Just now", "DWLR003"),
      Alert(now + 1, "warning", "Mumbai Suburban: Rapid depletion detected", "5 min ago", "DWLR002"),
      Alert(now + 2, "info", "Bangalore Urban: Recharge event detected", "10 min ago", "DWLR004") ]
  }

  /** The only kind of alert a tick ever places in the feed. */
  predicate IsHeadAlert(a: Alert, now: int)
  {
    a.id == now && a.kind == "critical" && a.station == "DWLR003"
  }

  /**
   * The feed after one tick: `[...batch.slice(0, 1), ...prev.slice(0, 4)]`.
   * It grows by one up to the capacity, starts with the batch's first alert
   * and continues with the previous feed, in order.
   */
  function Next(prev: seq<Alert>, now: int): (r: seq<Alert>)
    ensures |r| == Min(|prev| + 1, Capacity)
    ensures r[0] == Batch(now)[0] && IsHeadAlert(r[0], now)
    ensures forall i :: 1 <= i < |r| ==> r[i] == prev[i - 1]
  {
    Take(Batch(now), 1) + Take(prev, Retained)
  }

  /** The feed after ticks whose clock readings are `ts`, in order, starting from the empty feed. */
  function Replay(ts: seq<int>): (r: seq<Alert>)
    ensures |r| <= Capacity
    ensures ts != [] ==> |r| > 0 && r[0] == Batch(ts[|ts| - 1])[0]
  {
    if ts == [] then [] else Next(Replay(ts[..|ts| - 1]), ts[|ts| - 1])
  }

  /** Reference definition: the head alerts of the last (at most five) ticks, newest first. */
  function Newest(ts: seq<int>): (r: seq<Alert>)
    ensures |r| == Min(|ts|, Capacity)
    ensures forall i :: 0 <= i < |r| ==> IsHeadAlert(r[i], ts[|ts| - 1 - i])
  {
    seq(Min(|ts|, Capacity), i requires 0 <= i < Min(|ts|, Capacity) => Batch(ts[|ts| - 1 - i])[0])
  }

  predicate StrictlyIncreasing(ts: seq<int>)
  {
    forall i, j :: 0 <= i < j < |ts| ==> ts[i] < ts[j]
  }

  /** Newest first: ids fall strictly from head to tail. */
  predicate IdsStrictlyDecreasing(feed: seq<Alert>)
  {
    forall i, j :: 0 <= i < j < |feed| ==> feed[i].id > feed[j].id
  }

  predicate IdsDistinct(feed: seq<Alert>)
  {
    forall i, j :: 0 <= i < |feed| && 0 <= j < |feed| && i != j ==> feed[i].id != feed[j].id
  }

  /** After n ticks from the empty feed, the feed holds min(n, 5) alerts. */
  lemma {:induction false} ReplayLength(ts: seq<int>)
    ensures |Replay(ts)| == Min(|ts|, Capacity)
  {
    if ts != [] {
      ReplayLength(ts[..|ts| - 1]);
    }
  }

  /** Replaying the ticks gives exactly the head alerts of the last five ticks, newest first. */
  lemma {:induction false} ReplayIsNewest(ts: seq<int>)
    ensures Replay(ts) == Newest(ts)
  {
    if ts != [] {
      var init := ts[..|ts| - 1];
      ReplayIsNewest(init);
      var r, n := Replay(ts), Newest(ts);
      assert |r| == |n|;
      forall i | 0 <= i < |r|
        ensures r[i] == n[i]
      {
        if i > 0 {
          assert r[i] == Newest(init)[i - 1];
          assert init[|init| - 1 - (i - 1)] == ts[|ts| - 1 - i];
        }
      }
    }
  }

  /** If the clock readings strictly increase, the feed is newest first and no id repeats. */
  lemma IdsOrdered(ts: seq<int>)
    requires StrictlyIncreasing(ts)
    ensures IdsStrictlyDecreasing(Replay(ts))
    ensures IdsDistinct(Replay(ts))
  {
    ReplayIsNewest(ts);
    var r := Replay(ts);
    forall i, j | 0 <= i < j < |r|
      ensures r[i].id > r[j].id
    {
      assert IsHeadAlert(r[i], ts[|ts| - 1 - i]) && IsHeadAlert(r[j], ts[|ts| - 1 - j]);
    }
  }

  /** One tick keeps the newest-first order when its clock reading exceeds the current head's id. */
  lemma NextKeepsOrder(prev: seq<Alert>, now: int)
    requires IdsStrictlyDecreasing(prev)
    requires prev != [] ==> now > prev[0].id
    ensures IdsStrictlyDecreasing(Next(prev, now))
  {
    var r := Next(prev, now);
    forall i, j | 0 <= i < j < |r|
      ensures r[i].id > r[j].id
    {
      if i == 0 {
        assert r[j] == prev[j - 1];
        assert j - 1 == 0 || prev[0].id > prev[j - 1].id;
      }
    }
  }

  /**
   * Nothing but the oldest alert is lost: the previous feed is what follows
   * the new head, followed by the evicted alert when the feed was full.
   */
  lemma OnlyOldestEvicted(prev: seq<Alert>, now: int)
    requires |prev| <= Capacity
    ensures Next(prev, now)[1..] + (if |prev| == Capacity then [prev[Capacity - 1]] else []) == prev
  {
    var r := Next(prev, now);
    assert r[1..] == prev[..|r| - 1];
  }

  /** Every alert in the feed is the head of some tick's batch: a critical alert for DWLR003. */
  lemma {:induction false} OnlyHeadsEnter(ts: seq<int>)
    ensures forall a :: a in Replay(ts) ==> a.kind == "critical" && a.station == "DWLR003"
  {
    ReplayIsNewest(ts);
    var r := Replay(ts);
    forall a | a in r
      ensures a.kind == "critical" && a.station == "DWLR003"
    {
      var i :| 0 <= i < |r| && r[i] == a;
      assert IsHeadAlert(r[i], ts[|ts| - 1 - i]);
    }
  }

  /** The warning and info alerts of a batch never enter the feed. */
  lemma OthersNeverEnter(ts: seq<int>, t: int)
    ensures Batch(t)[1] !in Replay(ts) && Batch(t)[2] !in Replay(ts)
  {
    OnlyHeadsEnter(ts);
  }

  /** Six ticks at clock readings 1..6: five alerts remain, the first is evicted and the sixth leads. */
  lemma SixTicks()
    ensures |Replay([1, 2, 3, 4, 5, 6])| == 5
    ensures Replay([1, 2, 3, 4, 5, 6])[0] == Batch(6)[0]
    ensures Batch(1)[0] !in Replay([1, 2, 3, 4, 5, 6])
  {
    var ts := seq(6, k => k + 1);
    assert ts == [1, 2, 3, 4, 5, 6];
    ReplayIsNewest(ts);
    var r := Replay(ts);
    assert |r| == 5;
    forall i | 0 <= i < 5
      ensures r[i].id == 6 - i
    {
      assert r[i] == Newest(ts)[i];
      assert IsHeadAlert(r[i], ts[5 - i]);
    }
  }

  /** The `alerts` state of the dashboard, with the ticks it has seen so far. */
  class Feed {
    var alerts: seq<Alert>
    ghost var clocks: seq<int>

    ghost predicate Valid()
      reads this
    {
      alerts == Replay(clocks)
    }

    /** The feed starts empty (`useState([])`). */
    constructor ()
      ensures Valid()
      ensures alerts == [] && clocks == []
    {
      alerts := [];
      clocks := [];
    }

    /** One generator tick at clock reading `now`. */
    method Tick(now: int)
      requires Valid()
      modifies this
      ensures Valid()
      ensures clocks == old(clocks) + [now]
      ensures alerts == Next(old(alerts), now)
      ensures |alerts| == Min(|old(alerts)| + 1, Capacity) && |alerts| <= Capacity
      ensures alerts[0] == Batch(now)[0]
      ensures alerts[1..] == old(alerts)[..Min(|old(alerts)|, Retained)]
      ensures IdsStrictlyDecreasing(old(alerts)) && (old(alerts) != [] ==> now > old(alerts)[0].id)
              ==> IdsStrictlyDecreasing(alerts)
    {
      var newAlerts := Batch(now);
      alerts := Take(newAlerts, 1) + Take(alerts, Retained);
      clocks := clocks + [now];
      assert clocks[..|clocks| - 1] == old(clocks);
      if IdsStrictlyDecreasing(old(alerts)) && (old(alerts) != [] ==> now > old(alerts)[0].id) {
        NextKeepsOrder(old(alerts), now);
      }
    }
  }
}
