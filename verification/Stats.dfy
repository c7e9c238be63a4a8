/** The load harness's arithmetic on what it measured: merging, percentiles, and the median of the runs. */
module Stats {
  import opened Wrappers
  import opened Sequences

  /** Nanoseconds. A run takes some time. */
  type Elapsed = x: int | x > 0 witness 1

  /** One run of a cell. */
  datatype Result = Result(ops: nat, dur: Elapsed, lat: seq<int>)

  /** opsPerSec, over the reals. */
  function OpsPerSec(r: Result): real {
    r.ops as real / (r.dur as real / 1_000_000_000.0)
  }

  /** The rate is what the run did over what it took: operations in a billion nanoseconds. */
  lemma RateTimesTime(r: Result)
    ensures OpsPerSec(r) * r.dur as real == r.ops as real * 1_000_000_000.0
  {
    var rate, secs := OpsPerSec(r), r.dur as real / 1_000_000_000.0;
    assert rate * secs == r.ops as real;
    assert secs * 1_000_000_000.0 == r.dur as real;
    MultiplyBack(rate, secs, r.ops as real);
  }

  lemma MultiplyBack(rate: real, secs: real, ops: real)
    requires rate * secs == ops
    ensures rate * (secs * 1_000_000_000.0) == ops * 1_000_000_000.0
  {
  }

  /** A longer run of as many operations has the lower rate. */
  lemma SlowerRate(a: Result, b: Result)
    requires a.ops == b.ops && 0 < a.ops && a.dur < b.dur
    ensures OpsPerSec(b) < OpsPerSec(a)
  {
    RateTimesTime(a);
    RateTimesTime(b);
    RateFalls(OpsPerSec(a), OpsPerSec(b), a.dur as real, b.dur as real);
  }

  lemma RateFalls(x: real, y: real, d: real, e: real)
    requires 0.0 < d < e && x * d == y * e && x * d > 0.0
    ensures y < x
  {
    assert x * d < x * e;
  }

  // ----- sorting, as sort.Slice promises -----

  ghost predicate SortedBy<T>(s: seq<T>, key: T -> real) {
    forall i, j :: 0 <= i < j < |s| ==> key(s[i]) <= key(s[j])
  }

  function Insert<T>(r: seq<T>, j: nat, x: T): seq<T>
    requires j <= |r|
  {
    r[..j] + [x] + r[j..]
  }

  lemma InsertPermutes<T>(r: seq<T>, j: nat, x: T)
    requires j <= |r|
    ensures multiset(Insert(r, j, x)) == multiset(r) + multiset{x}
  {
    assert r == r[..j] + r[j..];
  }

  lemma InsertSorted<T>(r: seq<T>, j: nat, x: T, key: T -> real)
    requires SortedBy(r, key) && j <= |r|
    requires j > 0 ==> key(r[j - 1]) <= key(x)
    requires forall k :: j <= k < |r| ==> key(x) < key(r[k])
    ensures SortedBy(Insert(r, j, x), key)
  {
  }

  /** Where x goes: behind the elements that are not above it. */
  method Place<T>(r: seq<T>, x: T, key: T -> real) returns (j: nat)
    ensures j <= |r| && (j > 0 ==> key(r[j - 1]) <= key(x))
    ensures forall k :: j <= k < |r| ==> key(x) < key(r[k])
  {
    j := |r|;
    while j > 0 && key(r[j - 1]) > key(x)
      invariant j <= |r| && forall k :: j <= k < |r| ==> key(x) < key(r[k])
    {
      j := j - 1;
    }
  }

  lemma InsertNext<T>(s: seq<T>, i: nat, r: seq<T>, j: nat, key: T -> real)
    requires i < |s| && SortedBy(r, key) && multiset(r) == multiset(s[..i])
    requires j <= |r| && (j > 0 ==> key(r[j - 1]) <= key(s[i]))
    requires forall k :: j <= k < |r| ==> key(s[i]) < key(r[k])
    ensures SortedBy(Insert(r, j, s[i]), key) && multiset(Insert(r, j, s[i])) == multiset(s[..i + 1])
  {
    InsertSorted(r, j, s[i], key);
    InsertPermutes(r, j, s[i]);
    assert s[..i + 1] == s[..i] + [s[i]];
  }

  method Sort<T>(s: seq<T>, key: T -> real) returns (r: seq<T>)
    ensures SortedBy(r, key) && multiset(r) == multiset(s)
  {
    r := [];
    for i := 0 to |s|
      invariant SortedBy(r, key) && multiset(r) == multiset(s[..i])
    {
      var j := Place(r, s[i], key);
      InsertNext(s, i, r, j, key);
      r := Insert(r, j, s[i]);
    }
    assert s[..|s|] == s;
  }

  // ----- counting -----

  function CountWhere<T>(s: seq<T>, p: T -> bool): nat {
    if s == [] then 0 else CountWhere(s[..|s| - 1], p) + if p(s[|s| - 1]) then 1 else 0
  }

  lemma {:induction false} CountJoin<T>(a: seq<T>, b: seq<T>, p: T -> bool)
    ensures CountWhere(a + b, p) == CountWhere(a, p) + CountWhere(b, p)
  {
    if b == [] {
      assert a + b == a;
    } else {
      CountJoin(a, b[..|b| - 1], p);
      assert (a + b)[..|a + b| - 1] == a + b[..|b| - 1];
    }
  }

  lemma {:induction false} CountWithout<T>(s: seq<T>, i: nat, p: T -> bool)
    requires i < |s|
    ensures CountWhere(s, p) == CountWhere(Without(s, i), p) + if p(s[i]) then 1 else 0
  {
    var front := s[..|s| - 1];
    if i == |front| {
      assert Without(s, i) == front;
    } else {
      CountWithout(front, i, p);
      assert Without(s, i) == Without(front, i) + [s[|front|]];
      CountLast(Without(front, i), s[|front|], p);
    }
  }

  lemma CountLast<T>(a: seq<T>, x: T, p: T -> bool)
    ensures CountWhere(a + [x], p) == CountWhere(a, p) + if p(x) then 1 else 0
  {
    assert (a + [x])[..|a|] == a;
  }

  lemma MultisetWithout<T>(s: seq<T>, i: nat)
    requires i < |s|
    ensures multiset(Without(s, i)) == multiset(s) - multiset{s[i]}
  {
    assert s == s[..i] + [s[i]] + s[i + 1..];
  }

  /** Reordering changes no count. */
  lemma {:induction false} CountPermuted<T>(a: seq<T>, b: seq<T>, p: T -> bool)
    requires multiset(a) == multiset(b)
    ensures CountWhere(a, p) == CountWhere(b, p)
    decreases |a|
  {
    if a == [] {
      assert |multiset(b)| == 0;
    } else {
      assert a[0] in multiset(b);
      var i :| 0 <= i < |b| && b[i] == a[0];
      MultisetWithout(a, 0);
      MultisetWithout(b, i);
      CountPermuted(Without(a, 0), Without(b, i), p);
      CountWithout(a, 0, p);
      CountWithout(b, i, p);
    }
  }

  lemma {:induction false} CountAll<T>(s: seq<T>, p: T -> bool)
    requires forall i :: 0 <= i < |s| ==> p(s[i])
    ensures CountWhere(s, p) == |s|
  {
    if s != [] { CountAll(s[..|s| - 1], p); }
  }

  function AtMost<T>(key: T -> real, bound: real): T -> bool {
    x => key(x) <= bound
  }

  function AtLeast<T>(key: T -> real, bound: real): T -> bool {
    x => key(x) >= bound
  }

  /** In a sorted sequence, i + 1 elements are at most the i-th and n - i are at least it. */
  lemma RankSplits<T>(s: seq<T>, key: T -> real, i: nat)
    requires SortedBy(s, key) && i < |s|
    ensures CountWhere(s, AtMost(key, key(s[i]))) >= i + 1
    ensures CountWhere(s, AtLeast(key, key(s[i]))) >= |s| - i
  {
    CountPrefix(s, i + 1, AtMost(key, key(s[i])));
    CountSuffix(s, i, AtLeast(key, key(s[i])));
  }

  lemma CountPrefix<T>(s: seq<T>, n: nat, p: T -> bool)
    requires n <= |s| && forall k :: 0 <= k < n ==> p(s[k])
    ensures CountWhere(s, p) >= n
  {
    assert s == s[..n] + s[n..];
    CountAll(s[..n], p);
    CountJoin(s[..n], s[n..], p);
  }

  lemma CountSuffix<T>(s: seq<T>, n: nat, p: T -> bool)
    requires n <= |s| && forall k :: n <= k < |s| ==> p(s[k])
    ensures CountWhere(s, p) >= |s| - n
  {
    assert s == s[..n] + s[n..];
    CountAll(s[n..], p);
    CountJoin(s[..n], s[n..], p);
  }

  // ----- measure: merging the clients' samples -----

  function Concat(lats: seq<seq<int>>): seq<int> {
    if lats == [] then [] else Concat(lats[..|lats| - 1]) + lats[|lats| - 1]
  }

  lemma {:induction false} ConcatSize(lats: seq<seq<int>>, ops: nat)
    requires forall i :: 0 <= i < |lats| ==> |lats[i]| == ops
    ensures |Concat(lats)| == |lats| * ops
  {
    if lats != [] {
      var front := lats[..|lats| - 1];
      ConcatSize(front, ops);
      assert |lats| * ops == |front| * ops + ops;
    }
  }

  /** What a client reports: its samples, or that it failed. */
  datatype Report = Samples(lat: seq<int>) | Failed

  function Lats(reports: seq<Report>): seq<seq<int>>
    requires forall i :: 0 <= i < |reports| ==> reports[i].Samples?
  {
    seq(|reports|, i requires 0 <= i < |reports| => reports[i].lat)
  }

  /** The end of measure: any failure fails the run; else the samples of all clients, merged and sorted. */
  method Merge(reports: seq<Report>, elapsed: Elapsed) returns (r: Option<Result>)
    ensures r.None? <==> Failed in reports
    ensures r.Some? ==>
              && (forall i :: 0 <= i < |reports| ==> reports[i].Samples?)
              && multiset(r.value.lat) == multiset(Concat(Lats(reports)))
              && (forall i, j :: 0 <= i < j < |r.value.lat| ==> r.value.lat[i] <= r.value.lat[j])
              && r.value.ops == |r.value.lat| && r.value.dur == elapsed
  {
    var all := [];
    for i := 0 to |reports|
      invariant forall k :: 0 <= k < i ==> reports[k].Samples?
      invariant all == Concat(Lats(reports[..i]))
    {
      if reports[i].Failed? { return None; }
      assert Lats(reports[..i + 1])[..i] == Lats(reports[..i]);
      all := all + reports[i].lat;
    }
    assert reports[..|reports|] == reports;
    var lat := Sort(all, Nanos);
    forall i, j | 0 <= i < j < |lat| ensures lat[i] <= lat[j] { assert Nanos(lat[i]) <= Nanos(lat[j]); }
    r := Some(Result(|lat|, elapsed, lat));
  }

  /** With every client reporting ops samples, the merged run has clients times ops of them. */
  lemma MergedSize(reports: seq<Report>, ops: nat, lat: seq<int>)
    requires forall i :: 0 <= i < |reports| ==> reports[i].Samples? && |reports[i].lat| == ops
    requires multiset(lat) == multiset(Concat(Lats(reports)))
    ensures |lat| == |reports| * ops
  {
    ConcatSize(Lats(reports), ops);
    assert |multiset(lat)| == |multiset(Concat(Lats(reports)))|;
  }

  // ----- percentiles -----

  ghost predicate Ascending(lat: seq<int>) {
    forall i, j :: 0 <= i < j < |lat| ==> lat[i] <= lat[j]
  }

  function MaxOf(r: Result): int {
    if r.lat == [] then 0 else r.lat[|r.lat| - 1]
  }

  /** The index pct uses. A negative percentile would index out of range. */
  function Rank(p: real, n: nat): (i: nat)
    requires p >= 0.0 && n > 0
    ensures i < n
  {
    var i := (p / 100.0 * n as real).Floor;
    if i >= n then n - 1 else i
  }

  function Nanos(d: int): real {
    d as real
  }

  function Pct(r: Result, p: real): int
    requires p >= 0.0
  {
    if r.lat == [] then 0 else r.lat[Rank(p, |r.lat|)]
  }

  /** The maximum is one of the samples, and none is above it; without samples both are zero. */
  lemma MaxIsLargest(r: Result)
    requires Ascending(r.lat)
    ensures r.lat != [] ==> MaxOf(r) in r.lat && forall d :: d in r.lat ==> d <= MaxOf(r)
    ensures r.lat == [] ==> MaxOf(r) == 0 && Pct(r, 50.0) == 0
  {
    forall d | d in r.lat ensures d <= MaxOf(r) {
      var i :| 0 <= i < |r.lat| && r.lat[i] == d;
    }
  }

  /** Nearest rank: so many samples are at most the percentile, and so many at least. */
  lemma PctSplits(r: Result, samples: seq<int>, p: real)
    requires Ascending(r.lat) && r.lat != [] && p >= 0.0 && multiset(r.lat) == multiset(samples)
    ensures Pct(r, p) in samples
    ensures CountWhere(samples, AtMost(Nanos, Nanos(Pct(r, p)))) >= Rank(p, |r.lat|) + 1
    ensures CountWhere(samples, AtLeast(Nanos, Nanos(Pct(r, p)))) >= |r.lat| - Rank(p, |r.lat|)
  {
    var i := Rank(p, |r.lat|);
    RankSplits(r.lat, Nanos, i);
    CountPermuted(r.lat, samples, AtMost(Nanos, Nanos(Pct(r, p))));
    CountPermuted(r.lat, samples, AtLeast(Nanos, Nanos(Pct(r, p))));
    assert r.lat[i] in multiset(samples);
  }

  /** It is a p-th percentile: at least p percent of the samples are at most it, the others at least it. */
  lemma PctIsPercentile(r: Result, samples: seq<int>, p: real)
    requires Ascending(r.lat) && r.lat != [] && 0.0 <= p <= 100.0 && multiset(r.lat) == multiset(samples)
    ensures AtPercent(samples, Pct(r, p), p / 100.0 * |r.lat| as real, |r.lat|)
  {
    PctSplits(r, samples, p);
    RankBounds(p, |r.lat|);
    PercentFromRank(samples, Pct(r, p), p / 100.0 * |r.lat| as real, |r.lat|, Rank(p, |r.lat|));
  }

  /** At least x of the n samples are at most d, and at least n - x are at least d. */
  predicate AtPercent(samples: seq<int>, d: int, x: real, n: nat) {
    && CountWhere(samples, AtMost(Nanos, Nanos(d))) as real >= x
    && CountWhere(samples, AtLeast(Nanos, Nanos(d))) as real >= n as real - x
  }

  lemma PercentFromRank(samples: seq<int>, d: int, x: real, n: nat, i: nat)
    requires CountWhere(samples, AtMost(Nanos, Nanos(d))) >= i + 1
    requires CountWhere(samples, AtLeast(Nanos, Nanos(d))) >= n - i
    requires i as real <= x <= (i + 1) as real
    ensures AtPercent(samples, d, x, n)
  {
  }

  lemma RankBounds(p: real, n: nat)
    requires 0.0 <= p <= 100.0 && n > 0
    ensures Rank(p, n) as real <= p / 100.0 * n as real <= (Rank(p, n) + 1) as real
  {
    ScaleMonotone(p / 100.0, 1.0, n as real);
  }

  /** The index is p percent of n rounded down, or the last one. */
  lemma RankExactly(p: real, n: nat)
    requires p >= 0.0 && n > 0
    ensures var x := p / 100.0 * n as real;
            if x >= n as real then Rank(p, n) == n - 1
            else Rank(p, n) as real <= x < Rank(p, n) as real + 1.0
  {
  }

  lemma ScaleMonotone(x: real, y: real, k: real)
    requires x <= y && k >= 0.0
    ensures x * k <= y * k
  {
  }

  lemma FloorMonotone(x: real, y: real)
    requires x <= y
    ensures x.Floor <= y.Floor
  {
  }

  lemma RankIsMonotone(p: real, q: real, n: nat)
    requires 0.0 <= p <= q && n > 0
    ensures Rank(p, n) <= Rank(q, n)
  {
    ScaleMonotone(p / 100.0, q / 100.0, n as real);
    FloorMonotone(p / 100.0 * n as real, q / 100.0 * n as real);
  }

  lemma PctIsMonotone(r: Result, p: real, q: real)
    requires Ascending(r.lat) && 0.0 <= p <= q
    ensures Pct(r, p) <= Pct(r, q) <= MaxOf(r)
  {
    if r.lat != [] { RankIsMonotone(p, q, |r.lat|); }
  }

  // ----- repeat: the median run and the spread -----

  function Values(outcomes: seq<Option<Result>>): seq<Result>
    requires None !in outcomes
  {
    seq(|outcomes|, i requires 0 <= i < |outcomes| => assert outcomes[i] in outcomes; outcomes[i].value)
  }

  /** The run is a median of the runs by throughput. */
  ghost predicate IsMedian(runs: seq<Result>, m: Result) {
    && m in runs
    && CountWhere(runs, AtMost(OpsPerSec, OpsPerSec(m))) >= |runs| / 2 + 1
    && CountWhere(runs, AtLeast(OpsPerSec, OpsPerSec(m))) >= |runs| - |runs| / 2
  }

  /** Between the slowest and the fastest run, relative to the median. */
  ghost predicate IsSpread(runs: seq<Result>, lo: Result, hi: Result, m: Result, spread: real) {
    && lo in runs && hi in runs
    && (forall r :: r in runs ==> OpsPerSec(lo) <= OpsPerSec(r) <= OpsPerSec(hi))
    && spread >= 0.0
    && if OpsPerSec(m) == 0.0 then spread == 0.0 else spread * OpsPerSec(m) == OpsPerSec(hi) - OpsPerSec(lo)
  }

  lemma SameMembers(a: seq<Result>, b: seq<Result>)
    requires multiset(a) == multiset(b)
    ensures |a| == |b| && forall r :: r in a <==> r in b
  {
    assert |multiset(a)| == |multiset(b)|;
    forall r ensures r in a <==> r in b { assert r in multiset(a) <==> r in multiset(b); }
  }

  lemma MiddleIsMedian(runs: seq<Result>, rs: seq<Result>)
    requires SortedBy(rs, OpsPerSec) && multiset(rs) == multiset(runs) && runs != []
    ensures |rs| == |runs| && IsMedian(runs, rs[|rs| / 2])
  {
    SameMembers(rs, runs);
    var m := rs[|rs| / 2];
    RankSplits(rs, OpsPerSec, |rs| / 2);
    CountPermuted(rs, runs, AtMost(OpsPerSec, OpsPerSec(m)));
    CountPermuted(rs, runs, AtLeast(OpsPerSec, OpsPerSec(m)));
  }

  lemma EndsAreSpread(runs: seq<Result>, rs: seq<Result>, m: Result, spread: real)
    requires SortedBy(rs, OpsPerSec) && multiset(rs) == multiset(runs) && rs != []
    requires spread == if OpsPerSec(m) == 0.0 then 0.0
                       else (OpsPerSec(rs[|rs| - 1]) - OpsPerSec(rs[0])) / OpsPerSec(m)
    ensures IsSpread(runs, rs[0], rs[|rs| - 1], m, spread)
  {
    SameMembers(rs, runs);
    forall r | r in runs ensures OpsPerSec(rs[0]) <= OpsPerSec(r) <= OpsPerSec(rs[|rs| - 1]) {
      var i :| 0 <= i < |rs| && rs[i] == r;
    }
    RatioNonNegative(OpsPerSec(rs[|rs| - 1]) - OpsPerSec(rs[0]), OpsPerSec(m));
  }

  lemma RatioNonNegative(a: real, b: real)
    ensures a >= 0.0 && b > 0.0 ==> a / b >= 0.0 && a / b * b == a
  {
  }

  /** Runs the cell once per outcome; the first failure fails the cell. No outcome at all would index out of range. */
  method Repeat(outcomes: seq<Option<Result>>) returns (med: Option<Result>, spread: real)
    requires outcomes != []
    ensures med.None? <==> None in outcomes
    ensures med.Some? ==>
              var runs := Values(outcomes);
              IsMedian(runs, med.value) && exists lo, hi :: IsSpread(runs, lo, hi, med.value, spread)
  {
    var runs: seq<Result> := [];
    for i := 0 to |outcomes|
      invariant |runs| == i && forall k :: 0 <= k < i ==> outcomes[k] == Some(runs[k])
    {
      if outcomes[i].None? { return None, 0.0; }
      runs := runs + [outcomes[i].value];
    }
    assert runs == Values(outcomes);
    var rs := Sort(runs, OpsPerSec);
    MiddleIsMedian(runs, rs);
    var m := rs[|rs| / 2];
    if OpsPerSec(m) == 0.0 {
      spread := 0.0;
    } else {
      spread := (OpsPerSec(rs[|rs| - 1]) - OpsPerSec(rs[0])) / OpsPerSec(m);
    }
    EndsAreSpread(runs, rs, m, spread);
    med := Some(m);
  }
}
