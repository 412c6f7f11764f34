/** The sediment sample record every page reads, and the per-beach-type
    counting that the overview and the report both do. */
module Samples {
  import opened Lists

  /** One measurement. Grain size, temperature and humidity are only ever
      compared, never computed with; the timestamp is an instant. */
  datatype Sample = Sample(
    location: string,
    state: string,
    deviceId: string,
    beachType: string,
    grainSize: real,
    temperature: real,
    humidity: real,
    timestamp: int)

  /** `samples.map(s => s.beachType)`. */
  function BeachTypesOf(samples: seq<Sample>): (r: seq<string>)
    ensures |r| == |samples|
    ensures forall i :: 0 <= i < |r| ==> r[i] == samples[i].beachType
  {
    seq(|samples|, i requires 0 <= i < |samples| => samples[i].beachType)
  }

  /** `samples.map(s => s.deviceId)`. */
  function DeviceIdsOf(samples: seq<Sample>): (r: seq<string>)
    ensures |r| == |samples|
    ensures forall i :: 0 <= i < |r| ==> r[i] == samples[i].deviceId
  {
    seq(|samples|, i requires 0 <= i < |samples| => samples[i].deviceId)
  }

  /** The number of samples of beach type `t`. */
  function CountOfType(samples: seq<Sample>, t: string): (n: nat)
    ensures n <= |samples|
    ensures n == 0 <==> t !in BeachTypesOf(samples)
  {
    if samples == [] then 0
    else
      var init := samples[..|samples| - 1];
      assert BeachTypesOf(samples) == BeachTypesOf(init) + [samples[|samples| - 1].beachType];
      CountOfType(init, t) + (if samples[|samples| - 1].beachType == t then 1 else 0)
  }

  /** The counts of the listed types, added up. */
  function SumOfCounts(types: seq<string>, samples: seq<Sample>): nat {
    if types == [] then 0 else CountOfType(samples, types[0]) + SumOfCounts(types[1..], samples)
  }

  /** Adding one sample raises the sum over a duplicate-free list by one when
      its type is listed, and leaves it alone otherwise. */
  lemma {:induction false} SumOfCountsStep(types: seq<string>, init: seq<Sample>, s: Sample)
    requires Distinct(types)
    ensures SumOfCounts(types, init + [s]) ==
      SumOfCounts(types, init) + (if s.beachType in types then 1 else 0)
  {
    if types != [] {
      assert (init + [s])[..|init|] == init;
      assert Distinct(types[1..]) by {
        forall i, j | 0 <= i < j < |types[1..]| ensures types[1..][i] != types[1..][j] {
          assert types[1..][i] == types[i + 1] && types[1..][j] == types[j + 1];
        }
      }
      SumOfCountsStep(types[1..], init, s);
      if s.beachType == types[0] {
        assert s.beachType !in types[1..] by {
          forall k | 0 <= k < |types[1..]| ensures types[1..][k] != s.beachType {
            assert types[1..][k] == types[k + 1];
          }
        }
      } else {
        assert s.beachType in types <==> s.beachType in types[1..];
      }
    }
  }

  /** Over any duplicate-free list holding every type present, the counts
      add up to the number of samples. */
  lemma {:induction false} SumOfCountsCovers(types: seq<string>, samples: seq<Sample>)
    requires Distinct(types)
    requires forall t :: t in BeachTypesOf(samples) ==> t in types
    ensures SumOfCounts(types, samples) == |samples|
  {
    if samples == [] {
      ZeroCounts(types, samples);
    } else {
      var init := samples[..|samples| - 1];
      var s := samples[|samples| - 1];
      assert samples == init + [s];
      assert BeachTypesOf(samples) == BeachTypesOf(init) + [s.beachType];
      SumOfCountsCovers(types, init);
      SumOfCountsStep(types, init, s);
    }
  }

  lemma {:induction false} ZeroCounts(types: seq<string>, samples: seq<Sample>)
    requires samples == []
    ensures SumOfCounts(types, samples) == 0
  {
    if types != [] {
      ZeroCounts(types[1..], samples);
    }
  }

  /** The distinct beach types in first-seen order, with their counts, account
      for every sample exactly once. */
  lemma CountsAddUp(samples: seq<Sample>)
    ensures SumOfCounts(Dedup(BeachTypesOf(samples)), samples) == |samples|
  {
    SumOfCountsCovers(Dedup(BeachTypesOf(samples)), samples);
  }
}
