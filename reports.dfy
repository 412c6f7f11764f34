/** The reports page: the CSV export of the whole sample list and the summary
    statistics (sample count, samples per beach type, date range). */
module Reports {
  import opened Lists
  import opened Text
  import opened Samples

  // ------------------------------------------------------------------- CSV

  const Headers: seq<string> := ["Location", "Date", "Grain Size (mm)", "Temperature (°C)",
                                 "Humidity (%)", "Device ID", "Beach Type"]

  /** A text cell wrapped in double quotes. Quotes inside the text are not
      doubled, so the cell is RFC 4180 only when the text has none. */
  function Quoted(s: string): (q: string)
    ensures |q| == |s| + 2 && q[0] == '"' && q[|q| - 1] == '"'
    ensures q[1..|q| - 1] == s
  {
    "\"" + s + "\""
  }

  /** The seven cells of a sample's row, in header order. Only the location
      and the beach type are quoted. `dateText` is the browser's
      `toLocaleDateString` of the instant and `numberText` its number-to-text
      conversion. */
  function RowCells(s: Sample, dateText: int -> string, numberText: real -> string): (cells: seq<string>)
    ensures |cells| == |Headers|
  {
    [Quoted(s.location), dateText(s.timestamp), numberText(s.grainSize), numberText(s.temperature),
     numberText(s.humidity), s.deviceId, Quoted(s.beachType)]
  }

  /** One data line: the cells joined by commas. When no cell holds a comma,
      splitting the line at its commas gives back its seven cells. */
  function Row(s: Sample, dateText: int -> string, numberText: real -> string): (line: string)
    ensures (forall k :: 0 <= k < |Headers| ==> ',' !in RowCells(s, dateText, numberText)[k]) ==>
      Split(line, ',') == RowCells(s, dateText, numberText) && |Split(line, ',')| == 7
  {
    var cells := RowCells(s, dateText, numberText);
    if forall k :: 0 <= k < |Headers| ==> ',' !in cells[k] then
      SplitJoin(cells, ',');
      Join(cells, ",")
    else
      Join(cells, ",")
  }

  /** The header line followed by one line per sample, in the order of the
      sample list; no filter, sort or page of the table applies. */
  function CsvLines(samples: seq<Sample>, dateText: int -> string, numberText: real -> string): (lines: seq<string>)
    ensures |lines| == |samples| + 1
  {
    [Join(Headers, ",")] + seq(|samples|, i requires 0 <= i < |samples| => Row(samples[i], dateText, numberText))
  }

  /** The downloaded file's text: the lines joined by newlines. It is never
      empty and never ends with a line break. */
  function Csv(samples: seq<Sample>, dateText: int -> string, numberText: real -> string): (text: string)
    ensures |text| > 0 && text[|text| - 1] != '\n'
  {
    CsvNoTrailingNewline(samples, dateText, numberText);
    Join(CsvLines(samples, dateText, numberText), "\n")
  }

  /** No cell of any row contains `c`. */
  ghost predicate CellsAvoid(samples: seq<Sample>, dateText: int -> string, numberText: real -> string, c: char) {
    forall i, k :: 0 <= i < |samples| && 0 <= k < |Headers| ==> c !in RowCells(samples[i], dateText, numberText)[k]
  }

  /** As long as no cell holds a line break, the file splits into exactly
      `samples.length + 1` lines: the header, then sample `i` on line `i + 1`. */
  lemma CsvLineStructure(samples: seq<Sample>, dateText: int -> string, numberText: real -> string)
    requires CellsAvoid(samples, dateText, numberText, '\n')
    ensures |Split(Csv(samples, dateText, numberText), '\n')| == |samples| + 1
    ensures Split(Csv(samples, dateText, numberText), '\n')[0] == Join(Headers, ",")
    ensures forall i :: 0 <= i < |samples| ==>
      Split(Csv(samples, dateText, numberText), '\n')[i + 1] == Row(samples[i], dateText, numberText)
  {
    var lines := CsvLines(samples, dateText, numberText);
    LinesAvoidNewline(samples, dateText, numberText);
    SplitJoin(lines, '\n');
  }

  lemma LinesAvoidNewline(samples: seq<Sample>, dateText: int -> string, numberText: real -> string)
    requires CellsAvoid(samples, dateText, numberText, '\n')
    ensures forall k :: 0 <= k < |CsvLines(samples, dateText, numberText)| ==>
      '\n' !in CsvLines(samples, dateText, numberText)[k]
  {
    var lines := CsvLines(samples, dateText, numberText);
    HeaderAvoidsNewline();
    forall k | 0 <= k < |lines| ensures '\n' !in lines[k] {
      if k > 0 {
        assert lines[k] == Row(samples[k - 1], dateText, numberText);
        RowAvoids(samples[k - 1], dateText, numberText, '\n');
      }
    }
  }

  lemma HeaderAvoidsNewline()
    ensures '\n' !in Join(Headers, ",")
  {
    forall k | 0 <= k < |Headers| ensures '\n' !in Headers[k] {
    }
    JoinAvoids(Headers, ",", '\n');
  }

  /** A character that is neither in any cell nor the separator is not in the
      joined row. */
  lemma RowAvoids(s: Sample, dateText: int -> string, numberText: real -> string, c: char)
    requires forall k :: 0 <= k < |Headers| ==> c !in RowCells(s, dateText, numberText)[k]
    requires c != ','
    ensures c !in Row(s, dateText, numberText)
  {
    JoinAvoids(RowCells(s, dateText, numberText), ",", c);
  }

  lemma {:induction false} JoinAvoids(parts: seq<string>, sep: string, c: char)
    requires forall k :: 0 <= k < |parts| ==> c !in parts[k]
    requires c !in sep
    ensures c !in Join(parts, sep)
  {
    if |parts| > 1 {
      JoinAvoids(parts[1..], sep, c);
    }
  }

  /** Joining two or more parts ends with the separator and the last part. */
  lemma {:induction false} JoinLast(parts: seq<string>, sep: string)
    requires |parts| >= 2
    ensures Join(parts, sep) == Join(parts[..|parts| - 1], sep) + sep + parts[|parts| - 1]
  {
    if |parts| > 2 {
      JoinLast(parts[1..], sep);
      assert parts[1..][..|parts| - 2] == parts[..|parts| - 1][1..];
    }
  }

  /** The file never ends with a line break: its last character closes the
      last row's quoted beach type, or ends the header when there are no
      samples. */
  lemma CsvNoTrailingNewline(samples: seq<Sample>, dateText: int -> string, numberText: real -> string)
    ensures var text := Join(CsvLines(samples, dateText, numberText), "\n");
      |text| > 0 && text[|text| - 1] != '\n'
    ensures var text := Join(CsvLines(samples, dateText, numberText), "\n");
      samples == [] ==> text[|text| - 1] == 'e'
    ensures var text := Join(CsvLines(samples, dateText, numberText), "\n");
      samples != [] ==> text[|text| - 1] == '"'
  {
    if samples == [] {
      HeaderLineEnd(dateText, numberText);
    } else {
      LastRowLineEnd(samples, dateText, numberText);
      JoinEndsWith(CsvLines(samples, dateText, numberText), "\n");
    }
  }

  /** Line `i + 1` of the file is the row of sample `i`. */
  lemma CsvLineAt(samples: seq<Sample>, dateText: int -> string, numberText: real -> string, i: nat)
    requires i < |samples|
    ensures CsvLines(samples, dateText, numberText)[i + 1] == Row(samples[i], dateText, numberText)
  {
    var rows := seq(|samples|, j requires 0 <= j < |samples| => Row(samples[j], dateText, numberText));
    assert CsvLines(samples, dateText, numberText) == [Join(Headers, ",")] + rows;
  }

  /** Without samples the only line is the header, ending in 'e'. */
  lemma HeaderLineEnd(dateText: int -> string, numberText: real -> string)
    ensures var line := CsvLines([], dateText, numberText)[0];
      |line| > 0 && line[|line| - 1] == 'e'
  {
    var line := CsvLines([], dateText, numberText)[0];
    assert line == Join(Headers, ",");
    HeaderEndsWithLetter();
  }

  /** With samples the last line is the last sample's row, ending in '"'. */
  lemma LastRowLineEnd(samples: seq<Sample>, dateText: int -> string, numberText: real -> string)
    requires samples != []
    ensures var line := CsvLines(samples, dateText, numberText)[|samples|];
      |line| > 0 && line[|line| - 1] == '"'
  {
    CsvLineAt(samples, dateText, numberText, |samples| - 1);
    RowEndsWithQuote(samples[|samples| - 1], dateText, numberText);
  }

  /** The header line ends with the last letter of "Beach Type". */
  lemma HeaderEndsWithLetter()
    ensures |Join(Headers, ",")| > 0 && Join(Headers, ",")[|Join(Headers, ",")| - 1] == 'e'
  {
    assert Headers[6] == "Beach Type";
    JoinEndsWith(Headers, ",");
  }

  /** A row ends with the closing quote of its beach type. */
  lemma RowEndsWithQuote(s: Sample, dateText: int -> string, numberText: real -> string)
    ensures |Row(s, dateText, numberText)| > 0
    ensures Row(s, dateText, numberText)[|Row(s, dateText, numberText)| - 1] == '"'
  {
    var cells := RowCells(s, dateText, numberText);
    assert Row(s, dateText, numberText) == Join(cells, ",");
    assert cells[6] == Quoted(s.beachType);
    JoinEndsWith(cells, ",");
  }

  /** A join of two or more parts ends with the last character of its last part. */
  lemma JoinEndsWith(parts: seq<string>, sep: string)
    requires |parts| >= 2 && |parts[|parts| - 1]| > 0
    ensures |Join(parts, sep)| > 0
    ensures Join(parts, sep)[|Join(parts, sep)| - 1] == parts[|parts| - 1][|parts[|parts| - 1]| - 1]
  {
    JoinLast(parts, sep);
  }

  // ----------------------------------------------------------------- stats

  /** The instants of the samples. */
  function InstantsOf(samples: seq<Sample>): (r: seq<int>)
    ensures |r| == |samples|
    ensures forall i :: 0 <= i < |r| ==> r[i] == samples[i].timestamp
  {
    seq(|samples|, i requires 0 <= i < |samples| => samples[i].timestamp)
  }

  /** `Math.min(...ts)` of a non-empty list. */
  function Earliest(ts: seq<int>): (m: int)
    requires |ts| > 0
    ensures m in ts
    ensures forall t :: t in ts ==> m <= t
  {
    if |ts| == 1 then ts[0]
    else
      var rest := Earliest(ts[1..]);
      assert ts == [ts[0]] + ts[1..];
      if ts[0] <= rest then ts[0] else rest
  }

  /** `Math.max(...ts)` of a non-empty list. */
  function Latest(ts: seq<int>): (m: int)
    requires |ts| > 0
    ensures m in ts
    ensures forall t :: t in ts ==> t <= m
  {
    if |ts| == 1 then ts[0]
    else
      var rest := Latest(ts[1..]);
      assert ts == [ts[0]] + ts[1..];
      if ts[0] >= rest then ts[0] else rest
  }

  /** The counting `reduce`: `acc[type] = (acc[type] || 0) + 1` for every
      sample, into an accumulator that starts empty. */
  method CountBeachTypes(samples: seq<Sample>) returns (counts: map<string, nat>)
    ensures forall t :: t in counts <==> t in BeachTypesOf(samples)
    ensures forall t :: t in counts ==> counts[t] == CountOfType(samples, t)
    ensures forall t :: t in counts ==> counts[t] >= 1
  {
    counts := map[];
    for i := 0 to |samples|
      invariant forall t :: t in counts <==> t in BeachTypesOf(samples[..i])
      invariant forall t :: t in counts ==> counts[t] == CountOfType(samples[..i], t)
    {
      var t := samples[i].beachType;
      assert samples[..i + 1][..i] == samples[..i];
      assert BeachTypesOf(samples[..i + 1]) == BeachTypesOf(samples[..i]) + [t];
      counts := counts[t := (if t in counts then counts[t] else 0) + 1];
    }
    assert samples[..|samples|] == samples;
  }

  /** What the summary panel shows, before its dates are formatted. The
      averages are left out. */
  datatype Summary = Summary(totalSamples: nat, beachTypes: map<string, nat>, start: int, end: int)

  /** `generateSummaryStats`: nothing for an empty list; otherwise the number
      of samples, the samples per beach type, and the earliest and latest
      instants. */
  method SummaryStats(samples: seq<Sample>) returns (stats: Option<Summary>)
    ensures stats.None? <==> samples == []
    ensures stats.Some? ==> stats.value.totalSamples == |samples|
    ensures stats.Some? ==> forall t :: t in stats.value.beachTypes <==> t in BeachTypesOf(samples)
    ensures stats.Some? ==> forall t :: t in stats.value.beachTypes ==>
      stats.value.beachTypes[t] == CountOfType(samples, t) >= 1
    ensures stats.Some? ==> stats.value.start <= stats.value.end
    ensures stats.Some? ==> forall s :: s in samples ==> stats.value.start <= s.timestamp <= stats.value.end
    ensures stats.Some? ==> exists s :: s in samples && s.timestamp == stats.value.start
    ensures stats.Some? ==> exists s :: s in samples && s.timestamp == stats.value.end
  {
    if |samples| == 0 {
      return None;
    }
    var counts := CountBeachTypes(samples);
    var instants := InstantsOf(samples);
    var start, end := Earliest(instants), Latest(instants);
    forall s | s in samples ensures start <= s.timestamp <= end {
      var k :| 0 <= k < |samples| && samples[k] == s;
      assert instants[k] == s.timestamp && instants[k] in instants;
    }
    var ks :| 0 <= ks < |samples| && instants[ks] == start;
    assert samples[ks] in samples;
    var ke :| 0 <= ke < |samples| && instants[ke] == end;
    assert samples[ke] in samples;
    stats := Some(Summary(|samples|, counts, start, end));
  }
}
