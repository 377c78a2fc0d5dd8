/**
  The five-day view of a 3-hourly forecast: the entries whose index is a
  multiple of 8 (one per 24 hours), of which the first five are kept —
  `list.filter((item, index) => index % 8 === 0).slice(0, 5)`.
 */
module Forecast {

  const SampleStride := 8
  const SampleDays := 5

  /** The filter step: the entries at indices `i`, `i + 1`, ... whose index is
      a multiple of the stride, in order. */
  function EveryStrideFrom<T>(list: seq<T>, i: nat): seq<T>
    requires i <= |list|
    decreases |list| - i
  {
    if i == |list| then []
    else (if i % SampleStride == 0 then [list[i]] else []) + EveryStrideFrom(list, i + 1)
  }

  /** `s.slice(0, n)`: the first `n` elements, or all of them when there are fewer. */
  function SliceTo<T>(s: seq<T>, n: nat): (r: seq<T>)
    ensures |r| == if |s| <= n then |s| else n
    ensures r <= s
  {
    if |s| <= n then s else s[..n]
  }

  /** Filtering from index `i` keeps one entry per multiple of the stride in
      `[i, |list|)`, and its `k`-th entry is the one at the `k`-th such multiple. */
  lemma {:induction false} EveryStrideFromSpec<T>(list: seq<T>, i: nat)
    requires i <= |list|
    ensures |EveryStrideFrom(list, i)| == (|list| + 7) / 8 - (i + 7) / 8
    ensures forall k :: 0 <= k < |EveryStrideFrom(list, i)| ==>
      8 * ((i + 7) / 8) + 8 * k < |list| && EveryStrideFrom(list, i)[k] == list[8 * ((i + 7) / 8) + 8 * k]
    decreases |list| - i
  {
    if i < |list| {
      EveryStrideFromSpec(list, i + 1);
      var rest := EveryStrideFrom(list, i + 1);
      var r := EveryStrideFrom(list, i);
      if i % 8 == 0 {
        var q := i / 8;
        assert (i + 7) / 8 == q && (i + 8) / 8 == q + 1;
        assert r == [list[i]] + rest;
        forall k | 0 <= k < |r|
          ensures 8 * q + 8 * k < |list| && r[k] == list[8 * q + 8 * k]
        {
          if k > 0 {
            assert r[k] == rest[k - 1];
          }
        }
      } else {
        assert (i + 7) / 8 == (i + 8) / 8;
        assert r == rest;
      }
    }
  }

  /** The five-day sample of a forecast list of length n: min(5, ceil(n/8))
      entries, the k-th of which is the entry at index 8k. */
  function DailyForecast<T>(list: seq<T>): (r: seq<T>)
    ensures |r| == if (|list| + 7) / 8 <= SampleDays then (|list| + 7) / 8 else SampleDays
    ensures forall k :: 0 <= k < |r| ==> 8 * k < |list| && r[k] == list[8 * k]
  {
    EveryStrideFromSpec(list, 0);
    SliceTo(EveryStrideFrom(list, 0), SampleDays)
  }

  /** Five days of 3-hourly entries (40 of them) sample the indices 0, 8, 16, 24 and 32. */
  lemma FortyEntriesSampleFiveDays<T>(list: seq<T>)
    requires |list| == 40
    ensures DailyForecast(list) == [list[0], list[8], list[16], list[24], list[32]]
  {
    var r := DailyForecast(list);
    assert r[0] == list[0] && r[1] == list[8] && r[2] == list[16] && r[3] == list[24] && r[4] == list[32];
  }

  /** Longer lists still yield five entries; shorter ones yield one per started day. */
  lemma ShortListsSampleEveryStartedDay<T>(list: seq<T>)
    ensures |list| >= 33 ==> |DailyForecast(list)| == SampleDays
    ensures |list| <= 32 ==> |DailyForecast(list)| == (|list| + 7) / 8
  {
  }
}
