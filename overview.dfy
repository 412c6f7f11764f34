/** The overview page: the beach-type pie chart's data, the grain-size bar
    chart's first ten samples, and the pie slices' colours. */
module Overview {
  import opened Lists
  import opened Text
  import opened Samples

  // ---------------------------------------------------- beach-type histogram

  /** One pie slice: a beach type and how many samples have it. */
  datatype Entry = Entry(name: string, value: nat)

  function NamesOf(entries: seq<Entry>): (r: seq<string>)
    ensures |r| == |entries|
    ensures forall k :: 0 <= k < |r| ==> r[k] == entries[k].name
  {
    seq(|entries|, k requires 0 <= k < |entries| => entries[k].name)
  }

  function SumValues(entries: seq<Entry>): nat {
    if entries == [] then 0 else entries[0].value + SumValues(entries[1..])
  }

  /** `acc.find(item => item.name === t)`, as the position of the first entry
      named `t`. */
  function FindEntry(acc: seq<Entry>, t: string): (r: Option<nat>)
    ensures r.Some? ==> r.value < |acc| && acc[r.value].name == t
    ensures r.Some? ==> forall k :: 0 <= k < r.value ==> acc[k].name != t
    ensures r.None? ==> forall k :: 0 <= k < |acc| ==> acc[k].name != t
  {
    if acc == [] then None
    else if acc[0].name == t then Some(0)
    else match FindEntry(acc[1..], t)
      case None => None
      case Some(k) => Some(k + 1)
  }

  /** `beachTypeData`: a `reduce` over the samples that increments the entry
      of the sample's type, or pushes a new entry with value 1. The entries
      name each type once, in first-seen order, and count its samples. */
  method BeachTypeData(samples: seq<Sample>) returns (data: seq<Entry>)
    ensures NamesOf(data) == Dedup(BeachTypesOf(samples))
    ensures forall k :: 0 <= k < |data| ==> data[k].value == CountOfType(samples, data[k].name)
    ensures forall k :: 0 <= k < |data| ==> data[k].value >= 1
    ensures SumValues(data) == |samples|
  {
    data := [];
    for i := 0 to |samples|
      invariant HoldsCounts(data, samples[..i])
    {
      ghost var prev := data;
      data := Tally(data, samples[i].beachType);
      assert samples[..i + 1] == samples[..i] + [samples[i]];
      TallyStep(prev, data, samples[..i], samples[i]);
    }
    assert samples[..|samples|] == samples;
    CountsComplete(data, samples);
  }

  /** Entries that hold the counts of all the samples list every type once,
      each with at least one sample, and account for every sample. */
  lemma CountsComplete(data: seq<Entry>, samples: seq<Sample>)
    requires HoldsCounts(data, samples)
    ensures forall k :: 0 <= k < |data| ==> data[k].value >= 1
    ensures SumValues(data) == |samples|
  {
    forall k | 0 <= k < |data| ensures data[k].value >= 1 {
      assert NamesOf(data)[k] in Dedup(BeachTypesOf(samples));
    }
    EntriesAddUp(data, samples);
    CountsAddUp(samples);
  }

  /** The entries name the types of `done` once each, in first-seen order,
      and carry their counts. */
  ghost predicate HoldsCounts(data: seq<Entry>, done: seq<Sample>) {
    && NamesOf(data) == Dedup(BeachTypesOf(done))
    && forall k :: 0 <= k < |data| ==> data[k].value == CountOfType(done, data[k].name)
  }

  /** One reducer step over sample `s` turns the entries for `done` into the
      entries for `done + [s]`. */
  lemma TallyStep(prev: seq<Entry>, next: seq<Entry>, done: seq<Sample>, s: Sample)
    requires HoldsCounts(prev, done)
    requires NamesOf(next) == if s.beachType in NamesOf(prev) then NamesOf(prev) else NamesOf(prev) + [s.beachType]
    requires forall k :: 0 <= k < |next| ==>
      next[k].value == (if k < |prev| then prev[k].value else 0) + (if next[k].name == s.beachType then 1 else 0)
    ensures HoldsCounts(next, done + [s])
  {
    var t := s.beachType;
    assert (done + [s])[..|done|] == done;
    assert BeachTypesOf(done + [s]) == BeachTypesOf(done) + [t];
    forall k | 0 <= k < |next|
      ensures next[k].value == CountOfType(done + [s], next[k].name)
    {
      if k < |prev| {
        assert NamesOf(prev)[k] == NamesOf(next)[k];
      } else {
        assert t !in BeachTypesOf(done);
      }
    }
  }

  /** The reducer's step for one sample of type `t`: the entry named `t`
      gains one, or a new entry `t` with value 1 is pushed at the end. */
  method Tally(acc: seq<Entry>, t: string) returns (next: seq<Entry>)
    requires Distinct(NamesOf(acc))
    ensures NamesOf(next) == if t in NamesOf(acc) then NamesOf(acc) else NamesOf(acc) + [t]
    ensures forall k :: 0 <= k < |next| ==>
      next[k].value == (if k < |acc| then acc[k].value else 0) + (if next[k].name == t then 1 else 0)
  {
    match FindEntry(acc, t) {
      case Some(j) =>
        next := acc[j := Entry(t, acc[j].value + 1)];
        forall k | 0 <= k < |acc| && k != j ensures acc[k].name != t {
          assert NamesOf(acc)[k] != NamesOf(acc)[j];
        }
        assert NamesOf(next) == NamesOf(acc);
      case None =>
        next := acc + [Entry(t, 1)];
        assert NamesOf(next) == NamesOf(acc) + [t];
    }
  }

  /** The values of entries that hold their counts add up like the counts. */
  lemma {:induction false} EntriesAddUp(data: seq<Entry>, samples: seq<Sample>)
    requires forall k :: 0 <= k < |data| ==> data[k].value == CountOfType(samples, data[k].name)
    ensures SumValues(data) == SumOfCounts(NamesOf(data), samples)
  {
    if data != [] {
      EntriesAddUp(data[1..], samples);
      assert NamesOf(data)[1..] == NamesOf(data[1..]);
    }
  }

  // ------------------------------------------------------ grain-size chart

  /** `location.split(',')[0]`: the location up to its first comma. */
  function ShortLocation(location: string): (r: string)
    ensures |r| <= |location| && r == location[..|r|]
    ensures ',' !in r
    ensures |r| < |location| ==> location[|r|] == ','
  {
    FirstPieceIsPrefix(location, ',');
    Split(location, ',')[0]
  }

  /** The first piece of a split is the text before the first separator. */
  lemma {:induction false} FirstPieceIsPrefix(s: string, c: char)
    ensures |Split(s, c)[0]| <= |s| && Split(s, c)[0] == s[..|Split(s, c)[0]|]
    ensures |Split(s, c)[0]| < |s| ==> s[|Split(s, c)[0]|] == c
  {
    if s != [] {
      FirstPieceIsPrefix(s[1..], c);
    }
  }

  /** One bar of the grain-size chart. */
  datatype Bar = Bar(location: string, grainSize: real, state: string)

  /** `samples.slice(0, 10).map(...)`: a bar for each of the first ten
      samples, in order, with the location cut at its first comma. */
  function GrainSizeData(samples: seq<Sample>): (bars: seq<Bar>)
    ensures |bars| == if |samples| < 10 then |samples| else 10
    ensures forall i :: 0 <= i < |bars| ==>
      bars[i].grainSize == samples[i].grainSize && bars[i].state == samples[i].state
      && bars[i].location == ShortLocation(samples[i].location)
  {
    var n := if |samples| < 10 then |samples| else 10;
    seq(n, i requires 0 <= i < n => Bar(ShortLocation(samples[i].location), samples[i].grainSize, samples[i].state))
  }

  // ---------------------------------------------------------- slice colours

  const Colors: seq<string> := ["#3b82f6", "#10b981", "#f59e0b", "#ef4444", "#8b5cf6"]

  /** `index % COLORS.length`: the colour of slice `index`. */
  function ColorIndex(index: nat): (k: nat)
    ensures k < |Colors|
    ensures index < |Colors| ==> k == index
  {
    index % |Colors|
  }

  /** The colours repeat every five slices, and neighbouring slices never
      share a colour. */
  lemma ColorCycle(index: nat)
    ensures ColorIndex(index + |Colors|) == ColorIndex(index)
    ensures Colors[ColorIndex(index)] != Colors[ColorIndex(index + 1)]
  {
  }
}
