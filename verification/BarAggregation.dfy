/** Chart bars merged into longer bars. The loop only ever looks at its last
    output bar; what it amounts to is a group-by on the bucket each bar starts
    in, and merging in two steps is the same as merging once. */
module BarAggregation {

  datatype Bar = Bar(timestamp: nat, open: real, high: real, low: real, close: real, volume: real)

  const MS_PER_MINUTE: nat := 60 * 1000

  function Max(a: real, b: real): real { if a < b then b else a }

  function Min(a: real, b: real): real { if b < a then b else a }

  /** The start of the bucket that a time falls in. */
  function Floor(timestamp: nat, size: nat): nat
    requires size > 0
  {
    timestamp / size * size
  }

  function Merge(active: Bar, bar: Bar): Bar {
    active.(high := Max(active.high, bar.high), low := Min(active.low, bar.low),
            close := bar.close, volume := active.volume + bar.volume)
  }

  /** One turn of the loop. */
  function Push(out: seq<Bar>, bar: Bar, size: nat): (next: seq<Bar>)
    requires size > 0
  {
    var bucket := Floor(bar.timestamp, size);
    if out == [] || out[|out| - 1].timestamp != bucket then out + [bar.(timestamp := bucket)]
    else out[..|out| - 1] + [Merge(out[|out| - 1], bar)]
  }

  function Buckets(bars: seq<Bar>, size: nat): (out: seq<Bar>)
    requires size > 0
    ensures |out| <= |bars|
  {
    if bars == [] then [] else Push(Buckets(bars[..|bars| - 1], size), bars[|bars| - 1], size)
  }

  predicate Ordered(bars: seq<Bar>) {
    forall i, j :: 0 <= i < j < |bars| ==> bars[i].timestamp <= bars[j].timestamp
  }

  predicate Ascending(bars: seq<Bar>) {
    forall i, j :: 0 <= i < j < |bars| ==> bars[i].timestamp < bars[j].timestamp
  }

  predicate DistinctTimes(bars: seq<Bar>) {
    forall i, j :: 0 <= i < j < |bars| ==> bars[i].timestamp != bars[j].timestamp
  }

  predicate IsSortOf(sorted: seq<Bar>, bars: seq<Bar>) {
    Ordered(sorted) && multiset(sorted) == multiset(bars)
  }

  /** Only the newest `limit` bars are kept. A negative limit turns into a huge
      unsigned one and keeps everything. */
  function Newest(bars: seq<Bar>, limit: int): seq<Bar> {
    if 0 <= limit < |bars| then bars[|bars| - limit..] else bars
  }

  /** What aggregating may answer. The library sort leaves bars with the same
      time in any order, so there may be more than one answer. */
  ghost predicate IsAggregation(bars: seq<Bar>, minutes: int, limit: int, out: seq<Bar>) {
    if minutes <= 1 || bars == [] then out == bars
    else exists sorted ::
      IsSortOf(sorted, bars) && out == Newest(Buckets(sorted, minutes * MS_PER_MINUTE), limit)
  }

  // ----- Buckets of time -----

  lemma ScaleUp(size: nat, a: int, b: int)
    requires a <= b
    ensures a * size <= b * size
  {
    assert b * size - a * size == (b - a) * size;
  }

  lemma Scale(size: nat, a: int, b: int)
    ensures a <= b ==> a * size <= b * size
    ensures size > 0 && a * size <= b * size ==> a <= b
  {
    if a <= b {
      ScaleUp(size, a, b);
    } else {
      ScaleUp(size, b + 1, a);
      assert (b + 1) * size == b * size + size;
    }
  }

  lemma FloorIsNear(t: nat, size: nat)
    requires size > 0
    ensures Floor(t, size) <= t < Floor(t, size) + size
  {
    assert t == t / size * size + t % size;
  }

  lemma FloorIsUnique(t: nat, size: nat, q: nat)
    requires size > 0 && q * size <= t < q * size + size
    ensures Floor(t, size) == q * size
  {
    FloorIsNear(t, size);
    var p := t / size;
    assert (p + 1) * size == p * size + size && (q + 1) * size == q * size + size;
    Scale(size, p + 1, q);
    Scale(size, q + 1, p);
  }

  lemma FloorAscends(t: nat, u: nat, size: nat)
    requires size > 0 && t <= u
    ensures Floor(t, size) <= Floor(u, size)
    ensures Floor(Floor(t, size), size) == Floor(t, size)
  {
    FloorIsNear(t, size);
    FloorIsNear(u, size);
    FloorIsUnique(Floor(t, size), size, t / size);
    assert (u / size + 1) * size == u / size * size + size;
    Scale(size, u / size + 1, t / size);
  }

  /** Flooring to a coarse grid forgets a fine floor taken first. */
  lemma FloorOfFloor(t: nat, fine: nat, k: nat)
    requires fine > 0 && k > 0
    ensures k * fine > 0
    ensures Floor(Floor(t, fine), k * fine) == Floor(t, k * fine)
  {
    Scale(fine, 1, k);
    var coarse := k * fine;
    var q := t / coarse;
    FloorIsNear(t, coarse);
    FloorIsNear(t, fine);
    assert q * coarse == (q * k) * fine;
    assert (t / fine + 1) * fine == t / fine * fine + fine;
    Scale(fine, t / fine + 1, q * k);
    Scale(fine, q * k, t / fine);
    FloorIsUnique(Floor(t, fine), coarse, q);
  }

  // ----- The group-by that the loop computes -----

  function Group(bars: seq<Bar>, bucket: nat, size: nat): (group: seq<Bar>)
    requires size > 0
  {
    if bars == [] then []
    else
      var rest := Group(bars[..|bars| - 1], bucket, size);
      if Floor(bars[|bars| - 1].timestamp, size) == bucket then rest + [bars[|bars| - 1]] else rest
  }

  function Volume(bars: seq<Bar>): real {
    if bars == [] then 0.0 else Volume(bars[..|bars| - 1]) + bars[|bars| - 1].volume
  }

  /** The bar that stands for a group: its first open, its last close, its
      extreme prices and its whole volume. */
  predicate Summarises(bar: Bar, group: seq<Bar>) {
    && group != []
    && bar.open == group[0].open
    && bar.close == group[|group| - 1].close
    && (forall g <- group :: bar.low <= g.low && g.high <= bar.high)
    && (exists g <- group :: g.high == bar.high)
    && (exists g <- group :: g.low == bar.low)
    && bar.volume == Volume(group)
  }

  lemma OneSummarises(bar: Bar, group: seq<Bar>, first: Bar)
    requires group == [first] && bar == first.(timestamp := bar.timestamp)
    ensures Summarises(bar, group)
  {
    assert group[..0] == [];
    assert Volume(group) == Volume(group[..0]) + first.volume;
    assert first in group;
  }

  lemma MergeSummarises(active: Bar, group: seq<Bar>, bar: Bar)
    requires Summarises(active, group)
    ensures Summarises(Merge(active, bar), group + [bar])
  {
    var merged, whole := Merge(active, bar), group + [bar];
    assert whole[..|whole| - 1] == group && whole[|whole| - 1] == bar;
    assert bar in whole;
    var h :| h in group && h.high == active.high;
    var l :| l in group && l.low == active.low;
    assert h in whole && l in whole;
    if active.high < bar.high {
      assert bar in whole && bar.high == merged.high;
    } else {
      assert h in whole && h.high == merged.high;
    }
    if bar.low < active.low {
      assert bar in whole && bar.low == merged.low;
    } else {
      assert l in whole && l.low == merged.low;
    }
  }

  /** `out` is the group-by of `bars`: one bar for each bucket that a bar falls
      in, in order of time, standing for exactly the bars of its bucket. */
  ghost predicate IsGroupBy(out: seq<Bar>, bars: seq<Bar>, size: nat)
    requires size > 0
  {
    && Ascending(out)
    && (forall k :: 0 <= k < |out| ==> Floor(out[k].timestamp, size) == out[k].timestamp)
    && (forall k :: 0 <= k < |out| ==> Summarises(out[k], Group(bars, out[k].timestamp, size)))
    && (forall bucket: nat :: Group(bars, bucket, size) != [] ==> Listed(out, bucket))
  }

  predicate Listed(out: seq<Bar>, bucket: nat) {
    exists k :: 0 <= k < |out| && out[k].timestamp == bucket
  }

  predicate AllBy(bars: seq<Bar>, last: nat) {
    forall k :: 0 <= k < |bars| ==> bars[k].timestamp <= last
  }

  /** No group starts after the last bar of an ordered run. */
  lemma {:induction false} GroupsEnd(bars: seq<Bar>, bucket: nat, size: nat, last: nat)
    requires size > 0 && Ordered(bars)
    requires AllBy(bars, last)
    requires bucket > Floor(last, size)
    ensures Group(bars, bucket, size) == []
  {
    if bars != [] {
      var init := bars[..|bars| - 1];
      assert forall i :: 0 <= i < |init| ==> init[i] == bars[i];
      GroupsEnd(init, bucket, size, last);
      FloorAscends(bars[|bars| - 1].timestamp, last, size);
    }
  }

  lemma {:induction false} LastBucketIsNewest(out: seq<Bar>, bars: seq<Bar>, size: nat, bar: Bar)
    requires size > 0 && Ordered(bars + [bar]) && IsGroupBy(out, bars, size)
    ensures forall k :: 0 <= k < |out| ==> out[k].timestamp <= Floor(bar.timestamp, size)
  {
    var whole := bars + [bar];
    forall i | 0 <= i < |bars| ensures bars[i].timestamp <= bar.timestamp {
      assert bars[i] == whole[i] && bar == whole[|bars|];
    }
    assert Ordered(bars) by {
      assert forall i :: 0 <= i < |bars| ==> bars[i] == whole[i];
    }
    forall k | 0 <= k < |out| ensures out[k].timestamp <= Floor(bar.timestamp, size) {
      if out[k].timestamp > Floor(bar.timestamp, size) {
        GroupsEnd(bars, out[k].timestamp, size, bar.timestamp);
      }
    }
  }

  lemma GroupPush(bars: seq<Bar>, bar: Bar, bucket: nat, size: nat)
    requires size > 0
    ensures Group(bars + [bar], bucket, size)
         == if Floor(bar.timestamp, size) == bucket then Group(bars, bucket, size) + [bar]
            else Group(bars, bucket, size)
  {
    assert (bars + [bar])[..|bars|] == bars;
  }

  lemma {:induction false} MergeKeepsGroups(out: seq<Bar>, bars: seq<Bar>, size: nat, bar: Bar)
    requires size > 0 && IsGroupBy(out, bars, size)
    requires out != [] && out[|out| - 1].timestamp == Floor(bar.timestamp, size)
    ensures IsGroupBy(Push(out, bar, size), bars + [bar], size)
  {
    hide Group, Summarises;
    var next, whole := Push(out, bar, size), bars + [bar];
    var last := |out| - 1;
    var bucket := out[last].timestamp;
    forall k | 0 <= k < |next|
      ensures next[k].timestamp == out[k].timestamp
      ensures Summarises(next[k], Group(whole, next[k].timestamp, size))
    {
      GroupPush(bars, bar, next[k].timestamp, size);
      if k == last {
        MergeSummarises(out[k], Group(bars, bucket, size), bar);
      }
    }
    forall b: nat | Group(whole, b, size) != [] ensures Listed(next, b) {
      GroupPush(bars, bar, b, size);
      if b == bucket {
        assert next[last].timestamp == b;
      } else {
        var k :| 0 <= k < |out| && out[k].timestamp == b;
        assert next[k].timestamp == b;
      }
    }
  }

  lemma AppendAscending(out: seq<Bar>, bar: Bar)
    requires Ascending(out) && forall k :: 0 <= k < |out| ==> out[k].timestamp < bar.timestamp
    ensures Ascending(out + [bar])
  {
  }

  lemma {:induction false} NewSummarises(out: seq<Bar>, bars: seq<Bar>, size: nat, bar: Bar, k: nat)
    requires size > 0 && IsGroupBy(out, bars, size) && k <= |out|
    requires forall k :: 0 <= k < |out| ==> out[k].timestamp < Floor(bar.timestamp, size)
    ensures var next := out + [bar.(timestamp := Floor(bar.timestamp, size))];
            Summarises(next[k], Group(bars + [bar], next[k].timestamp, size))
  {
    var bucket := Floor(bar.timestamp, size);
    var next := out + [bar.(timestamp := bucket)];
    NewBucketIsEmpty(out, bars, size, bucket);
    hide Group, Summarises;
    GroupPush(bars, bar, next[k].timestamp, size);
    if k == |out| {
      OneSummarises(next[k], Group(bars + [bar], bucket, size), bar);
    }
  }

  lemma {:induction false} NewKeepsGroups(out: seq<Bar>, bars: seq<Bar>, size: nat, bar: Bar)
    requires size > 0 && IsGroupBy(out, bars, size)
    requires forall k :: 0 <= k < |out| ==> out[k].timestamp < Floor(bar.timestamp, size)
    ensures IsGroupBy(Push(out, bar, size), bars + [bar], size)
  {
    var bucket := Floor(bar.timestamp, size);
    var next, whole := Push(out, bar, size), bars + [bar];
    assert next == out + [bar.(timestamp := bucket)];
    FloorAscends(bar.timestamp, bar.timestamp, size);
    AppendAscending(out, bar.(timestamp := bucket));
    hide Group, Summarises;
    forall k | 0 <= k < |next|
      ensures Summarises(next[k], Group(whole, next[k].timestamp, size))
    {
      NewSummarises(out, bars, size, bar, k);
    }
    forall b: nat | Group(whole, b, size) != [] ensures Listed(next, b) {
      GroupPush(bars, bar, b, size);
      if b == bucket {
        assert next[|out|].timestamp == b;
      } else {
        var k :| 0 <= k < |out| && out[k].timestamp == b;
        assert next[k].timestamp == b;
      }
    }
  }

  lemma {:induction false} PushKeepsGroups(out: seq<Bar>, bars: seq<Bar>, size: nat, bar: Bar)
    requires size > 0 && Ordered(bars + [bar]) && IsGroupBy(out, bars, size)
    ensures IsGroupBy(Push(out, bar, size), bars + [bar], size)
  {
    LastBucketIsNewest(out, bars, size, bar);
    if out == [] || out[|out| - 1].timestamp != Floor(bar.timestamp, size) {
      NewKeepsGroups(out, bars, size, bar);
    } else {
      MergeKeepsGroups(out, bars, size, bar);
    }
  }

  lemma NewBucketIsEmpty(out: seq<Bar>, bars: seq<Bar>, size: nat, bucket: nat)
    requires size > 0 && IsGroupBy(out, bars, size)
    requires forall k :: 0 <= k < |out| ==> out[k].timestamp < bucket
    ensures Group(bars, bucket, size) == []
  {
    assert !Listed(out, bucket);
  }

  /** The loop, run over bars in order of time, computes the group-by. */
  lemma {:induction false} BucketsGroup(bars: seq<Bar>, size: nat)
    requires size > 0 && Ordered(bars)
    ensures IsGroupBy(Buckets(bars, size), bars, size)
  {
    if bars != [] {
      var n := |bars| - 1;
      assert bars[..n] + [bars[n]] == bars;
      BucketsGroup(bars[..n], size);
      PushKeepsGroups(Buckets(bars[..n], size), bars[..n], size, bars[n]);
    }
  }

  // ----- Volume -----

  lemma VolumePush(bars: seq<Bar>, bar: Bar)
    ensures Volume(bars + [bar]) == Volume(bars) + bar.volume
  {
    assert (bars + [bar])[..|bars|] == bars;
  }

  lemma PushAddsVolume(out: seq<Bar>, bar: Bar, size: nat)
    requires size > 0
    ensures Volume(Push(out, bar, size)) == Volume(out) + bar.volume
  {
    hide Floor;
    var bucket := Floor(bar.timestamp, size);
    if out == [] || out[|out| - 1].timestamp != bucket {
      VolumePush(out, bar.(timestamp := bucket));
    } else {
      var init, last := out[..|out| - 1], out[|out| - 1];
      assert init + [last] == out;
      VolumePush(init, last);
      VolumePush(init, Merge(last, bar));
    }
  }

  lemma {:induction false} BucketsKeepVolume(bars: seq<Bar>, size: nat)
    requires size > 0
    ensures Volume(Buckets(bars, size)) == Volume(bars)
  {
    if bars != [] {
      var n := |bars| - 1;
      BucketsKeepVolume(bars[..n], size);
      PushAddsVolume(Buckets(bars[..n], size), bars[n], size);
    }
  }

  lemma {:induction false} VolumeSplits(a: seq<Bar>, b: seq<Bar>)
    ensures Volume(a + b) == Volume(a) + Volume(b)
  {
    if b == [] {
      assert a + b == a;
    } else {
      var n := |b| - 1;
      VolumeSplits(a, b[..n]);
      assert a + b == (a + b[..n]) + [b[n]];
      VolumePush(a + b[..n], b[n]);
    }
  }

  lemma {:induction false} VolumeIgnoresOrder(a: seq<Bar>, b: seq<Bar>)
    requires multiset(a) == multiset(b)
    ensures Volume(a) == Volume(b)
  {
    if a == [] {
      assert |multiset(b)| == |b|;
    } else {
      var n := |a| - 1;
      assert a[..n] + [a[n]] == a;
      assert a[n] in multiset(b);
      var i :| 0 <= i < |b| && b[i] == a[n];
      var rest := b[..i] + b[i + 1..];
      assert b == b[..i] + [b[i]] + b[i + 1..];
      assert multiset(rest) == multiset(b) - multiset{a[n]};
      assert multiset(a[..n]) == multiset(a) - multiset{a[n]};
      VolumeIgnoresOrder(a[..n], rest);
      VolumeSplits(b[..i], b[i + 1..]);
      VolumeSplits(b[..i] + [b[i]], b[i + 1..]);
      VolumePush(b[..i], b[i]);
      VolumePush(a[..n], a[n]);
    }
  }

  // ----- How many bars come out -----

  /** The buckets that bars fall into. */
  function BucketsHit(bars: seq<Bar>, size: nat): set<nat>
    requires size > 0
  {
    set bar <- bars :: Floor(bar.timestamp, size)
  }

  function StartTimes(bars: seq<Bar>): set<nat> {
    set bar <- bars :: bar.timestamp
  }

  lemma {:induction false} AscendingTimes(bars: seq<Bar>)
    requires Ascending(bars)
    ensures |StartTimes(bars)| == |bars|
  {
    if bars != [] {
      var n := |bars| - 1;
      AscendingTimes(bars[..n]);
      assert bars == bars[..n] + [bars[n]];
      assert StartTimes(bars) == StartTimes(bars[..n]) + {bars[n].timestamp};
      assert bars[n].timestamp !in StartTimes(bars[..n]) by {
        assert forall k :: 0 <= k < n ==> bars[..n][k].timestamp < bars[n].timestamp;
      }
    }
  }

  lemma {:induction false} GroupsAreHit(bars: seq<Bar>, bucket: nat, size: nat)
    requires size > 0
    ensures Group(bars, bucket, size) != [] <==> bucket in BucketsHit(bars, size)
  {
    if bars != [] {
      var n := |bars| - 1;
      assert bars == bars[..n] + [bars[n]];
      GroupsAreHit(bars[..n], bucket, size);
      assert BucketsHit(bars, size) == BucketsHit(bars[..n], size) + {Floor(bars[n].timestamp, size)};
    }
  }

  /** One bar comes out for each bucket that is hit. */
  lemma {:induction false} BucketsAreCounted(sorted: seq<Bar>, size: nat)
    requires size > 0 && Ordered(sorted)
    ensures |Buckets(sorted, size)| == |BucketsHit(sorted, size)|
  {
    var out := Buckets(sorted, size);
    BucketsGroup(sorted, size);
    AscendingTimes(out);
    forall bucket: nat ensures bucket in StartTimes(out) <==> bucket in BucketsHit(sorted, size) {
      GroupsAreHit(sorted, bucket, size);
      if k :| 0 <= k < |out| && out[k].timestamp == bucket {
        assert Summarises(out[k], Group(sorted, out[k].timestamp, size));
      }
      if bucket in BucketsHit(sorted, size) {
        assert Listed(out, bucket);
      }
    }
    assert StartTimes(out) == BucketsHit(sorted, size);
  }

  lemma SortHitsTheSame(sorted: seq<Bar>, bars: seq<Bar>, size: nat)
    requires size > 0 && IsSortOf(sorted, bars)
    ensures BucketsHit(sorted, size) == BucketsHit(bars, size)
  {
    assert forall bar :: bar in sorted <==> bar in multiset(sorted);
    assert forall bar :: bar in bars <==> bar in multiset(bars);
  }

  /** Aggregating drops no bar that it has merged: the minutes are too few to merge, or the
      limit is negative or at least the number of buckets. */
  predicate DropsNothing(bars: seq<Bar>, minutes: int, limit: int) {
    minutes > 1 ==> limit < 0 || |BucketsHit(bars, minutes * MS_PER_MINUTE)| <= limit
  }

  lemma NothingDropped(sorted: seq<Bar>, bars: seq<Bar>, minutes: int, limit: int)
    requires minutes > 1 && IsSortOf(sorted, bars) && DropsNothing(bars, minutes, limit)
    ensures var out := Buckets(sorted, minutes * MS_PER_MINUTE); Newest(out, limit) == out
  {
    BucketsAreCounted(sorted, minutes * MS_PER_MINUTE);
    SortHitsTheSame(sorted, bars, minutes * MS_PER_MINUTE);
  }

  // ----- Two steps or one -----

  lemma PushOfFloored(out: seq<Bar>, bar: Bar, fine: nat, k: nat)
    requires fine > 0 && k > 0 && k * fine > 0
    ensures Push(out, bar.(timestamp := Floor(bar.timestamp, fine)), k * fine) == Push(out, bar, k * fine)
  {
    FloorOfFloor(bar.timestamp, fine, k);
  }

  /** Merging into an open bar before or after it is pushed is the same. */
  lemma PushOfMerged(out: seq<Bar>, active: Bar, bar: Bar, size: nat)
    requires size > 0 && Floor(active.timestamp, size) == Floor(bar.timestamp, size)
    ensures Push(out, Merge(active, bar), size) == Push(Push(out, active, size), bar, size)
  {
    var next := Push(out, active, size);
    assert next[|next| - 1].timestamp == Floor(bar.timestamp, size);
    assert Push(next, bar, size) == next[..|next| - 1] + [Merge(next[|next| - 1], bar)];
    if out == [] || out[|out| - 1].timestamp != Floor(bar.timestamp, size) {
      assert next[..|next| - 1] == out;
    } else {
      assert next[..|next| - 1] == out[..|out| - 1];
    }
  }

  lemma {:induction false} BucketsCompose(bars: seq<Bar>, fine: nat, k: nat)
    requires fine > 0 && k > 0 && k * fine > 0
    ensures Buckets(Buckets(bars, fine), k * fine) == Buckets(bars, k * fine)
  {
    if bars != [] {
      var n := |bars| - 1;
      var bar := bars[n];
      var out := Buckets(bars[..n], fine);
      var next := Buckets(bars, fine);
      BucketsCompose(bars[..n], fine, k);
      FloorOfFloor(bar.timestamp, fine, k);
      if out == [] || out[|out| - 1].timestamp != Floor(bar.timestamp, fine) {
        assert next[..|out|] == out;
        PushOfFloored(Buckets(out, k * fine), bar, fine, k);
      } else {
        var init, last := out[..|out| - 1], out[|out| - 1];
        assert next[..|init|] == init && next[|init|] == Merge(last, bar);
        PushOfMerged(Buckets(init, k * fine), last, bar, k * fine);
      }
    }
  }

  /** Bars at different times sort in one way only. */
  lemma {:induction false} LastIsForced(a: seq<Bar>, b: seq<Bar>)
    requires Ascending(a) && Ordered(b) && multiset(a) == multiset(b) && a != []
    ensures b != [] && a[|a| - 1] == b[|b| - 1]
  {
    var n := |a| - 1;
    assert a[n] in multiset(b);
    var i :| 0 <= i < |b| && b[i] == a[n];
    var m := |b| - 1;
    assert b[m] in multiset(a);
    var j :| 0 <= j < |a| && a[j] == b[m];
    assert j <= n && a[j].timestamp <= a[n].timestamp <= b[m].timestamp;
  }

  lemma WithoutLast(a: seq<Bar>)
    requires a != []
    ensures multiset(a[..|a| - 1]) == multiset(a) - multiset{a[|a| - 1]}
  {
    assert a[..|a| - 1] + [a[|a| - 1]] == a;
  }

  lemma {:induction false} SortIsUnique(a: seq<Bar>, b: seq<Bar>)
    requires Ascending(a) && Ordered(b) && multiset(a) == multiset(b)
    ensures a == b
    decreases |a|
  {
    if a == [] {
      assert |multiset(b)| == |b|;
    } else {
      LastIsForced(a, b);
      WithoutLast(a);
      WithoutLast(b);
      SortIsUnique(a[..|a| - 1], b[..|b| - 1]);
      assert a == a[..|a| - 1] + [a[|a| - 1]];
      assert b == b[..|b| - 1] + [b[|b| - 1]];
    }
  }

  lemma {:induction false} OneOfEach(bars: seq<Bar>, bar: Bar)
    requires DistinctTimes(bars)
    ensures multiset(bars)[bar] <= 1
  {
    if bars != [] {
      var n := |bars| - 1;
      WithoutLast(bars);
      OneOfEach(bars[..n], bar);
      assert bars[n] !in bars[..n] by {
        assert forall p :: 0 <= p < n ==> bars[..n][p] == bars[p] && bars[p].timestamp != bars[n].timestamp;
      }
    }
  }

  lemma DistinctPair(bars: seq<Bar>, a: Bar, b: Bar)
    requires DistinctTimes(bars) && multiset{a, b} <= multiset(bars)
    ensures a.timestamp != b.timestamp
  {
    OneOfEach(bars, a);
    assert multiset{a, b}[a] <= multiset(bars)[a];
    assert a != b;
    assert multiset{a, b}[a] > 0 && multiset{a, b}[b] > 0;
    assert a in multiset(bars) && b in multiset(bars);
    var p :| 0 <= p < |bars| && bars[p] == a;
    var q :| 0 <= q < |bars| && bars[q] == b;
  }

  lemma TwoPlaces(bars: seq<Bar>, i: nat, j: nat)
    requires i < j < |bars|
    ensures multiset{bars[i], bars[j]} <= multiset(bars)
  {
    assert bars == bars[..i] + [bars[i]] + bars[i + 1..j] + [bars[j]] + bars[j + 1..];
  }

  lemma {:induction false} DistinctSurvivesSorting(sorted: seq<Bar>, bars: seq<Bar>)
    requires IsSortOf(sorted, bars) && DistinctTimes(bars)
    ensures Ascending(sorted)
  {
    forall i, j | 0 <= i < j < |sorted| ensures sorted[i].timestamp < sorted[j].timestamp {
      TwoPlaces(sorted, i, j);
      DistinctPair(bars, sorted[i], sorted[j]);
    }
  }

  lemma ScaleMinutes(m1: nat, m2: nat)
    requires m1 > 0 && m2 > 0 && m2 % m1 == 0
    ensures m2 / m1 > 0 && m2 / m1 * (m1 * MS_PER_MINUTE) == m2 * MS_PER_MINUTE
  {
    assert m2 == m2 / m1 * m1;
    assert m2 / m1 * (m1 * MS_PER_MINUTE) == (m2 / m1 * m1) * MS_PER_MINUTE;
  }

  /** Aggregating bars at distinct times has one answer. */
  lemma AggregationIsUnique(bars: seq<Bar>, minutes: int, limit: int, a: seq<Bar>, b: seq<Bar>)
    requires DistinctTimes(bars)
    requires IsAggregation(bars, minutes, limit, a) && IsAggregation(bars, minutes, limit, b)
    ensures a == b
  {
    if minutes > 1 && bars != [] {
      var s :| IsSortOf(s, bars) && a == Newest(Buckets(s, minutes * MS_PER_MINUTE), limit);
      var t :| IsSortOf(t, bars) && b == Newest(Buckets(t, minutes * MS_PER_MINUTE), limit);
      DistinctSurvivesSorting(s, bars);
      SortIsUnique(s, t);
    }
  }

  /** Buckets come out sorted, so sorting them again changes nothing. */
  lemma {:induction false} SortedBucketsCompose(sorted: seq<Bar>, again: seq<Bar>, fine: nat, k: nat)
    requires fine > 0 && k > 0 && k * fine > 0
    requires Ordered(sorted) && IsSortOf(again, Buckets(sorted, fine))
    ensures Buckets(again, k * fine) == Buckets(sorted, k * fine)
  {
    BucketsGroup(sorted, fine);
    SortIsUnique(Buckets(sorted, fine), again);
    BucketsCompose(sorted, fine, k);
  }

  lemma SortKeepsLength(sorted: seq<Bar>, bars: seq<Bar>)
    requires IsSortOf(sorted, bars)
    ensures |sorted| == |bars|
  {
    assert |sorted| == |multiset(sorted)| == |multiset(bars)| == |bars|;
  }

  /** Aggregating to m1 minutes with a limit that drops no bucket, and then to a
      multiple of m1, is aggregating to that multiple at once. */
  lemma {:induction false} AggregationComposes(
    bars: seq<Bar>, m1: nat, m2: nat, limit1: int, limit2: int, middle: seq<Bar>, out: seq<Bar>)
    requires m1 > 0 && m2 > 0 && m2 % m1 == 0
    requires DropsNothing(bars, m1, limit1)
    requires IsAggregation(bars, m1, limit1, middle)
    requires IsAggregation(middle, m2, limit2, out)
    ensures IsAggregation(bars, m2, limit2, out)
  {
    hide Buckets, Ordered;
    if m1 > 1 && bars != [] {
      var s1 := m1 * MS_PER_MINUTE;
      var sorted :| IsSortOf(sorted, bars) && middle == Newest(Buckets(sorted, s1), limit1);
      SortKeepsLength(sorted, bars);
      NothingDropped(sorted, bars, m1, limit1);
      BucketsOfSome(sorted, s1);
      MultipleIsNotSmaller(m1, m2);
      var again :| IsSortOf(again, middle) && out == Newest(Buckets(again, m2 * MS_PER_MINUTE), limit2);
      ScaleMinutes(m1, m2);
      SortedBucketsCompose(sorted, again, s1, m2 / m1);
    }
  }

  lemma BucketsOfSome(bars: seq<Bar>, size: nat)
    requires size > 0 && bars != []
    ensures Buckets(bars, size) != []
  {
  }

  lemma MultipleIsNotSmaller(m1: nat, m2: nat)
    requires m1 > 0 && m2 > 0 && m2 % m1 == 0
    ensures m2 >= m1
  {
  }

  /** As many bars come back as buckets were hit, or as many as the limit lets through. */
  lemma AggregationIsCounted(bars: seq<Bar>, minutes: int, limit: int, out: seq<Bar>)
    requires minutes > 1 && bars != [] && IsAggregation(bars, minutes, limit, out)
    ensures |out| == if DropsNothing(bars, minutes, limit) then |BucketsHit(bars, minutes * MS_PER_MINUTE)| else limit
  {
    var sorted :| IsSortOf(sorted, bars) && out == Newest(Buckets(sorted, minutes * MS_PER_MINUTE), limit);
    BucketsAreCounted(sorted, minutes * MS_PER_MINUTE);
    SortHitsTheSame(sorted, bars, minutes * MS_PER_MINUTE);
  }

  /** An aggregation that drops no bucket keeps the volume. */
  lemma AggregationKeepsVolume(bars: seq<Bar>, minutes: int, limit: int, out: seq<Bar>)
    requires IsAggregation(bars, minutes, limit, out)
    requires DropsNothing(bars, minutes, limit)
    ensures Volume(out) == Volume(bars)
  {
    hide Buckets, Ordered, Volume;
    if minutes > 1 && bars != [] {
      var sorted :| IsSortOf(sorted, bars) && out == Newest(Buckets(sorted, minutes * MS_PER_MINUTE), limit);
      NothingDropped(sorted, bars, minutes, limit);
      BucketsKeepVolume(sorted, minutes * MS_PER_MINUTE);
      VolumeIgnoresOrder(sorted, bars);
    }
  }

  /** Every bar that comes back stands for the bars of its bucket of so many minutes; a limit that
      is not negative keeps at most that many, the newest. */
  lemma {:induction false} AggregationGroups(bars: seq<Bar>, minutes: int, limit: int, out: seq<Bar>)
    requires minutes > 1 && bars != []
    requires IsAggregation(bars, minutes, limit, out)
    ensures exists sorted, whole: seq<Bar> ::
              && IsSortOf(sorted, bars) && IsGroupBy(whole, sorted, minutes * 60000)
              && (if limit < 0 || |whole| <= limit then out == whole else out == whole[|whole| - limit..])
  {
    var size := minutes * MS_PER_MINUTE;
    var sorted :| IsSortOf(sorted, bars) && out == Newest(Buckets(sorted, size), limit);
    var whole := Buckets(sorted, size);
    BucketsGroup(sorted, size);
  }

  // ----- The loop -----

  function Insert(sorted: seq<Bar>, bar: Bar): (next: seq<Bar>) {
    if sorted == [] || sorted[|sorted| - 1].timestamp <= bar.timestamp then sorted + [bar]
    else Insert(sorted[..|sorted| - 1], bar) + [sorted[|sorted| - 1]]
  }

  lemma {:induction false} InsertKeepsBars(sorted: seq<Bar>, bar: Bar)
    ensures multiset(Insert(sorted, bar)) == multiset(sorted) + multiset{bar}
  {
    if !(sorted == [] || sorted[|sorted| - 1].timestamp <= bar.timestamp) {
      InsertKeepsBars(sorted[..|sorted| - 1], bar);
      WithoutLast(sorted);
    }
  }

  lemma AppendOrdered(bars: seq<Bar>, bar: Bar)
    requires Ordered(bars) && AllBy(bars, bar.timestamp)
    ensures Ordered(bars + [bar])
  {
  }

  lemma {:induction false} InsertSorts(sorted: seq<Bar>, bar: Bar, last: nat)
    requires Ordered(sorted) && AllBy(sorted, last) && bar.timestamp <= last
    ensures Ordered(Insert(sorted, bar)) && AllBy(Insert(sorted, bar), last)
  {
    if sorted == [] || sorted[|sorted| - 1].timestamp <= bar.timestamp {
      AppendOrdered(sorted, bar);
    } else {
      var n := |sorted| - 1;
      InsertSorts(sorted[..n], bar, sorted[n].timestamp);
      AppendOrdered(Insert(sorted[..n], bar), sorted[n]);
    }
  }

  function LaterOf(sorted: seq<Bar>, bar: Bar): nat {
    if sorted != [] && sorted[|sorted| - 1].timestamp > bar.timestamp then sorted[|sorted| - 1].timestamp
    else bar.timestamp
  }

  /** Stands for the library sort, of which only the contract matters. */
  method SortByTime(bars: seq<Bar>) returns (sorted: seq<Bar>)
    ensures IsSortOf(sorted, bars)
  {
    sorted := [];
    for i := 0 to |bars|
      invariant IsSortOf(sorted, bars[..i])
    {
      InsertSorts(sorted, bars[i], LaterOf(sorted, bars[i]));
      InsertKeepsBars(sorted, bars[i]);
      sorted := Insert(sorted, bars[i]);
      assert bars[..i + 1] == bars[..i] + [bars[i]];
    }
    assert bars[..|bars|] == bars;
  }

  lemma BucketsStep(bars: seq<Bar>, i: nat, size: nat)
    requires size > 0 && i < |bars|
    ensures Buckets(bars[..i + 1], size) == Push(Buckets(bars[..i], size), bars[i], size)
  {
    assert bars[..i + 1][..i] == bars[..i];
  }

  method MergeBar(before: Bar, bar: Bar) returns (active: Bar)
    ensures active == Merge(before, bar) && active.timestamp == before.timestamp
  {
    active := before;
    active := active.(high := Max(active.high, bar.high));
    active := active.(low := Min(active.low, bar.low));
    active := active.(close := bar.close);
    active := active.(volume := active.volume + bar.volume);
  }

  method MergeIntoBuckets(sorted: seq<Bar>, bucketMs: nat) returns (out: seq<Bar>)
    requires bucketMs > 0
    ensures out == Buckets(sorted, bucketMs)
  {
    assert Buckets(sorted[..0], bucketMs) == [];
    hide Buckets, Floor, Merge;
    out := [];
    var currentBucket := 0;
    for i := 0 to |sorted|
      invariant out == Buckets(sorted[..i], bucketMs)
      invariant out != [] ==> currentBucket == out[|out| - 1].timestamp
    {
      BucketsStep(sorted, i, bucketMs);
      var bar := sorted[i];
      var bucket := Floor(bar.timestamp, bucketMs);
      if out == [] || bucket != currentBucket {
        out := out + [bar.(timestamp := bucket)];
        currentBucket := bucket;
      } else {
        var active := MergeBar(out[|out| - 1], bar);
        out := out[..|out| - 1] + [active];
      }
    }
    assert sorted[..|sorted|] == sorted;
  }

  method AggregateBars(bars: seq<Bar>, minutes: int, limit: int) returns (out: seq<Bar>)
    ensures IsAggregation(bars, minutes, limit, out)
  {
    if minutes <= 1 || bars == [] {
      return bars;
    }
    var sorted := SortByTime(bars);
    out := MergeIntoBuckets(sorted, minutes * MS_PER_MINUTE);
    if 0 <= limit < |out| {
      out := out[|out| - limit..];
    }
  }
}
