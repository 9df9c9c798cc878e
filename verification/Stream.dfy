/** The limited result stream (postgres/client.go): every row of every result set
    is read, and the longest prefix that fits the limits is passed on. */
module Stream {
  import opened Text

  /** One row: a cell is null or text. */
  type Row = seq<Option<string>>

  datatype ResultInput = ResultInput(columns: seq<string>, rows: seq<Row>, tag: string, affected: int)

  datatype Limits = Limits(unlimited: bool, maxRows: int, maxBytes: int)

  datatype ResultSummary = ResultSummary(
    index: nat, columns: seq<string>, observedRows: nat, emittedRows: nat, observedBytes: nat, emittedBytes: nat,
    truncated: bool, tag: string, affected: int)

  datatype Summary = Summary(
    results: seq<ResultSummary>, observedRows: nat, emittedRows: nat, observedBytes: nat, emittedBytes: nat,
    truncated: bool)

  datatype StreamError = LimitsError | SinkError | RowError | DatabaseError

  // ---- sizes ----

  /** copyRow's byte count: nulls are free. */
  function RowBytes(row: Row): nat {
    if row == [] then 0
    else RowBytes(row[..|row| - 1]) + (match row[|row| - 1] case None => 0 case Some(text) => |text|)
  }

  function Bytes(rows: seq<Row>): nat {
    if rows == [] then 0 else Bytes(rows[..|rows| - 1]) + RowBytes(rows[|rows| - 1])
  }

  lemma BytesNext(rows: seq<Row>, n: nat)
    requires n < |rows|
    ensures Bytes(rows[..n + 1]) == Bytes(rows[..n]) + RowBytes(rows[n])
  {
    assert rows[..n + 1][..n] == rows[..n];
  }

  lemma {:induction false} BytesAppend(a: seq<Row>, b: seq<Row>)
    ensures Bytes(a + b) == Bytes(a) + Bytes(b)
  {
    if b == [] {
      assert a + b == a;
    } else {
      BytesAppend(a, b[..|b| - 1]);
      assert (a + b)[..|a + b| - 1] == a + b[..|b| - 1];
    }
  }

  // ---- limits ----

  /** Unlimited on request, or by default if nothing is requested; otherwise an
      unset limit is the client's default. */
  predicate EffectiveLimits(request: Limits, defaults: Limits, effective: Limits) {
    && request.maxRows >= 0 && request.maxBytes >= 0
    && effective.unlimited == (request.unlimited
                               || (request.maxRows == 0 && request.maxBytes == 0 && defaults.unlimited))
    && (effective.unlimited
        || (effective.maxRows == (if request.maxRows == 0 then defaults.maxRows else request.maxRows)
            && effective.maxBytes == (if request.maxBytes == 0 then defaults.maxBytes else request.maxBytes)))
  }

  /** resolveLimits: an unset limit falls back to the client's default. */
  method ResolveLimits(request: Limits, defaults: Limits) returns (result: Result<Limits, StreamError>)
    ensures result.Err? <==> request.maxRows < 0 || request.maxBytes < 0
    ensures result.Ok? ==> EffectiveLimits(request, defaults, result.value)
  {
    if request.maxRows < 0 || request.maxBytes < 0 {
      return Err(LimitsError);
    }
    if request.unlimited {
      return Ok(Limits(true, 0, 0));
    }
    if request.maxRows == 0 && request.maxBytes == 0 && defaults.unlimited {
      return Ok(Limits(true, 0, 0));
    }
    var resolved := Limits(false, request.maxRows, request.maxBytes);
    if resolved.maxRows == 0 {
      resolved := resolved.(maxRows := defaults.maxRows);
    }
    if resolved.maxBytes == 0 {
      resolved := resolved.(maxBytes := defaults.maxBytes);
    }
    return Ok(resolved);
  }

  /** The rows fit both limits; a limit of zero is none. */
  predicate Fits(rows: seq<Row>, limits: Limits) {
    || limits.unlimited
    || ((limits.maxRows == 0 || |rows| <= limits.maxRows) && (limits.maxBytes == 0 || Bytes(rows) <= limits.maxBytes))
  }

  predicate CanEmit(summary: Summary, rowBytes: nat, limits: Limits) {
    if limits.unlimited then true
    else if summary.truncated then false
    else
      && (limits.maxRows == 0 || summary.emittedRows < limits.maxRows)
      && (limits.maxBytes == 0 || (summary.emittedBytes <= limits.maxBytes
                                   && rowBytes <= limits.maxBytes - summary.emittedBytes))
  }

  /** k rows are the longest prefix that fits. */
  predicate Longest(rows: seq<Row>, k: nat, limits: Limits) {
    && k <= |rows|
    && (k > 0 ==> Fits(rows[..k], limits))
    && (k < |rows| ==> !Fits(rows[..k + 1], limits))
  }

  lemma FittingIsPrefixClosed(rows: seq<Row>, a: nat, b: nat, limits: Limits)
    requires a <= b <= |rows| && Fits(rows[..b], limits)
    ensures Fits(rows[..a], limits)
  {
    assert rows[..b] == rows[..a] + rows[a..b];
    BytesAppend(rows[..a], rows[a..b]);
  }

  /** No other length qualifies: whatever prefix fits is no longer. */
  lemma LongestIsLongest(rows: seq<Row>, k: nat, n: nat, limits: Limits)
    requires Longest(rows, k, limits) && 0 < n <= |rows| && Fits(rows[..n], limits)
    ensures n <= k
  {
    if k < n {
      FittingIsPrefixClosed(rows, k + 1, n, limits);
    }
  }

  // ---- the sink ----

  datatype ResultSet = ResultSet(index: nat, columns: seq<string>, rows: seq<Row>, truncated: bool, tag: string,
                                 affected: int)

  /** resultCollector. */
  class Collector {
    var sets: seq<ResultSet>

    constructor ()
      ensures sets == []
    {
      sets := [];
    }

    method BeginResult(index: nat, columns: seq<string>)
      modifies this
      ensures sets == old(sets) + [ResultSet(index, columns, [], false, "", 0)]
    {
      sets := sets + [ResultSet(index, columns, [], false, "", 0)];
    }

    method WriteRow(index: nat, row: Row) returns (ok: bool)
      modifies this
      ensures ok <==> index < |old(sets)|
      ensures sets == if ok then old(sets)[index := old(sets)[index].(rows := old(sets)[index].rows + [row])]
              else old(sets)
    {
      ok := index < |sets|;
      if ok {
        sets := sets[index := sets[index].(rows := sets[index].rows + [row])];
      }
    }

    method EndResult(summary: ResultSummary) returns (ok: bool)
      modifies this
      ensures ok <==> summary.index < |old(sets)|
      ensures sets == if ok then old(sets)[summary.index := old(sets)[summary.index].(tag := summary.tag,
                affected := summary.affected, truncated := summary.truncated)]
                      else old(sets)
    {
      ok := summary.index < |sets|;
      if ok {
        sets := sets[summary.index := sets[summary.index].(tag := summary.tag, affected := summary.affected,
                                                           truncated := summary.truncated)];
      }
    }
  }

  // ---- the stream ----

  /** All rows of all result sets, in order. */
  function AllRows(inputs: seq<ResultInput>): seq<Row> {
    if inputs == [] then [] else AllRows(inputs[..|inputs| - 1]) + inputs[|inputs| - 1].rows
  }

  function Collected(sets: seq<ResultSet>): seq<Row> {
    if sets == [] then [] else Collected(sets[..|sets| - 1]) + sets[|sets| - 1].rows
  }

  datatype Totals = Totals(observedRows: nat, emittedRows: nat, observedBytes: nat, emittedBytes: nat)

  function TotalsOf(results: seq<ResultSummary>): Totals {
    if results == [] then Totals(0, 0, 0, 0)
    else
      var t, r := TotalsOf(results[..|results| - 1]), results[|results| - 1];
      Totals(t.observedRows + r.observedRows, t.emittedRows + r.emittedRows, t.observedBytes + r.observedBytes,
             t.emittedBytes + r.emittedBytes)
  }

  /** One result set as reported: a prefix of its rows was passed on, its
      counters are those of the rows, and it is truncated exactly if a row was
      withheld. */
  predicate SetReported(input: ResultInput, collected: ResultSet, r: ResultSummary) {
    && collected.columns == r.columns == input.columns && collected.index == r.index
    && collected.rows <= input.rows
    && r.observedRows == |input.rows| && r.observedBytes == Bytes(input.rows)
    && r.emittedRows == |collected.rows| && r.emittedBytes == Bytes(collected.rows)
    && (r.truncated <==> r.emittedRows < r.observedRows) && collected.truncated == r.truncated
    && collected.tag == r.tag == input.tag && collected.affected == r.affected == input.affected
  }

  /** The totals over the rows seen so far: the longest fitting prefix of them
      was passed on, and something is truncated exactly if a row was withheld. */
  predicate Tallied(summary: Summary, seen: seq<Row>, limits: Limits) {
    && Longest(seen, summary.emittedRows, limits)
    && summary.observedRows == |seen| && summary.observedBytes == Bytes(seen)
    && summary.emittedBytes == Bytes(seen[..summary.emittedRows])
    && (summary.truncated <==> summary.emittedRows < |seen|)
  }

  predicate Streamed(summary: Summary, sets: seq<ResultSet>, inputs: seq<ResultInput>, limits: Limits) {
    var rows := AllRows(inputs);
    && Tallied(summary, rows, limits)
    && Collected(sets) == rows[..summary.emittedRows]
    && |sets| == |inputs| == |summary.results|
    && (forall i :: 0 <= i < |inputs| ==> SetReported(inputs[i], sets[i], summary.results[i]) && sets[i].index == i)
    && TotalsOf(summary.results) == Totals(summary.observedRows, summary.emittedRows, summary.observedBytes,
                                           summary.emittedBytes)
  }

  function Observe(summary: Summary, bytes: nat): Summary {
    summary.(observedRows := summary.observedRows + 1, observedBytes := summary.observedBytes + bytes)
  }

  function Emit(summary: Summary, bytes: nat): Summary {
    summary.(emittedRows := summary.emittedRows + 1, emittedBytes := summary.emittedBytes + bytes)
  }

  /** One row: it is passed on exactly if the prefix that ends in it fits. */
  lemma RowStep(summary: Summary, seen: seq<Row>, row: Row, limits: Limits)
    requires Tallied(summary, seen, limits)
    ensures var observed := Observe(summary, RowBytes(row));
            if CanEmit(observed, RowBytes(row), limits) then
              summary.emittedRows == |seen| && Tallied(Emit(observed, RowBytes(row)), seen + [row], limits)
            else Tallied(observed.(truncated := true), seen + [row], limits)
  {
    var longer, k := seen + [row], summary.emittedRows;
    BytesAppend(seen, [row]);
    assert Bytes([row]) == RowBytes(row) by { assert [row][..0] == []; }
    assert longer[..k] == seen[..k];
    assert longer[..|longer|] == longer && seen[..|seen|] == seen;
    if k < |seen| {
      assert longer[..k + 1] == seen[..k + 1];
    }
  }

  /** StreamChecked after the connection is made and the role checked: the loops
      over result sets and rows.  The sink, the row width and the server may
      fail at any point. */
  method StreamChecked(sink: Collector, inputs: seq<ResultInput>, request: Limits, defaults: Limits)
    returns (summary: Summary, error: Option<StreamError>, ghost limits: Limits)
    requires sink.sets == []
    modifies sink
    ensures error.None? ==> Streamed(summary, sink.sets, inputs, limits)
    ensures error.None? ==> EffectiveLimits(request, defaults, limits)
  {
    hide Longest, Tallied, Fits, SetReported, CanEmit;
    summary, limits := Summary([], 0, 0, 0, 0, false), request;
    var resolved := ResolveLimits(request, defaults);
    if resolved.Err? {
      return summary, Some(LimitsError), limits;
    }
    limits := resolved.value;
    NothingSeen(summary, limits);
    var i := 0;
    while i < |inputs|
      invariant i <= |inputs|
      invariant Streamed(summary, sink.sets, inputs[..i], limits)
    {
      var failure;
      ghost var before := sink.sets;
      summary, failure := StreamResult(sink, inputs[i], resolved.value, summary, AllRows(inputs[..i]));
      if failure.Some? {
        return summary, failure, limits;
      }
      SetAdded(summary, before, sink.sets, inputs, i, limits);
      i := i + 1;
    }
    assert inputs[..i] == inputs;
    var closeFails: bool := *;
    error := if closeFails then Some(DatabaseError) else None;
  }

  lemma NothingSeen(summary: Summary, limits: Limits)
    requires summary == Summary([], 0, 0, 0, 0, false)
    ensures Streamed(summary, [], [], limits)
  {
  }

  /** What streaming one more result set adds to the collected sets and the
      summary. */
  ghost predicate Extends(summary: Summary, before: seq<ResultSet>, after: seq<ResultSet>, input: ResultInput,
                          rows: seq<Row>, limits: Limits)
  {
    && |after| == |before| + 1 && after[..|before|] == before
    && summary.results != [] && |summary.results| == |before| + 1
    && SetReported(input, after[|before|], summary.results[|before|]) && after[|before|].index == |before|
    && Tallied(summary, rows + input.rows, limits)
    && Collected(before) + after[|before|].rows == (rows + input.rows)[..summary.emittedRows]
    && TotalsOf(summary.results) == Totals(summary.observedRows, summary.emittedRows, summary.observedBytes,
                                           summary.emittedBytes)
  }

  lemma SetAdded(summary: Summary, before: seq<ResultSet>, after: seq<ResultSet>, inputs: seq<ResultInput>, i: nat,
                 limits: Limits)
    requires i < |inputs| && |before| == i
    requires Extends(summary, before, after, inputs[i], AllRows(inputs[..i]), limits)
    requires forall j :: 0 <= j < i ==> SetReported(inputs[j], before[j], summary.results[j]) && before[j].index == j
    ensures Streamed(summary, after, inputs[..i + 1], limits)
  {
    hide Longest, Tallied, SetReported;
    assert inputs[..i + 1][..i] == inputs[..i];
    assert AllRows(inputs[..i + 1]) == AllRows(inputs[..i]) + inputs[i].rows;
    assert after[..|after| - 1] == before;
    assert forall j :: 0 <= j < i ==> after[j] == before[j];
  }

  /** One result set: begin, its rows, end. */
  method StreamResult(sink: Collector, input: ResultInput, limits: Limits, start: Summary, ghost rows: seq<Row>)
    returns (summary: Summary, error: Option<StreamError>)
    requires Tallied(start, rows, limits) && |sink.sets| == |start.results|
    requires Collected(sink.sets) == rows[..start.emittedRows]
    requires TotalsOf(start.results) == Totals(start.observedRows, start.emittedRows, start.observedBytes,
                                               start.emittedBytes)
    modifies sink
    ensures error.None? ==> Extends(summary, old(sink.sets), sink.sets, input, rows, limits)
    ensures error.None? ==> summary.results[..|start.results|] == start.results
  {
    hide Longest, Tallied, Fits, CanEmit, Collected, Partway, SetReported;
    summary := start;
    TalliedBound(start, rows, limits);
    var index := |start.results|;
    ghost var before := sink.sets;
    var sinkFails: bool := *;
    sink.BeginResult(index, input.columns);
    if sinkFails {
      return summary, Some(SinkError);
    }
    var result := ResultSummary(index, input.columns, 0, 0, 0, 0, false, "", 0);
    NoRowsYet(start, result, rows, input, limits);
    var m := 0;
    while m < |input.rows|
      invariant m <= |input.rows|
      invariant result.index == index && |sink.sets| == index + 1 && sink.sets[..index] == before
      invariant Partway(start, summary, result, sink.sets[index], rows, input, m, limits)
    {
      var failure;
      summary, result, failure := StreamRow(sink, input, m, limits, summary, result, start, rows);
      if failure.Some? {
        return summary, failure;
      }
      m := m + 1;
    }
    var closeFails: bool := *;
    if closeFails {
      return summary, Some(DatabaseError);
    }
    AllRowsDone(start, summary, result, sink.sets[index], rows, input, limits);
    result := result.(tag := input.tag, affected := input.affected);
    summary := summary.(results := summary.results + [result]);
    TotalsNext(start.results, result);
    sinkFails := *;
    var ended := sink.EndResult(result);
    if sinkFails || !ended {
      return summary, Some(SinkError);
    }
    error := None;
  }

  /** The state after m rows of a result set. */
  ghost predicate Partway(start: Summary, summary: Summary, result: ResultSummary, collected: ResultSet,
                          rows: seq<Row>, input: ResultInput, m: nat, limits: Limits)
  {
    && m <= |input.rows| && result.emittedRows <= m && start.emittedRows <= |rows|
    && (result.emittedRows > 0 ==> start.emittedRows == |rows|)
    && collected == ResultSet(|start.results|, input.columns, input.rows[..result.emittedRows], false, "", 0)
    && summary.results == start.results && Tallied(summary, rows + input.rows[..m], limits)
    && result == ResultSummary(|start.results|, input.columns, m, result.emittedRows, Bytes(input.rows[..m]),
                               Bytes(input.rows[..result.emittedRows]),
                               result.emittedRows < m, "", 0)
    && Counted(start, result, summary)
  }

  lemma NoRowsYet(start: Summary, result: ResultSummary, rows: seq<Row>, input: ResultInput, limits: Limits)
    requires Tallied(start, rows, limits) && result == ResultSummary(|start.results|, input.columns, 0, 0, 0, 0, false,
                                                                     "", 0)
    ensures Partway(start, start, result, ResultSet(|start.results|, input.columns, [], false, "", 0), rows, input, 0,
                    limits)
  {
    hide Longest;
    TalliedBound(start, rows, limits);
    assert rows + input.rows[..0] == rows && input.rows[..0] == [];
  }

  lemma AllRowsDone(start: Summary, summary: Summary, result: ResultSummary, collected: ResultSet, rows: seq<Row>,
                    input: ResultInput, limits: Limits)
    requires Partway(start, summary, result, collected, rows, input, |input.rows|, limits)
    ensures Counted(start, result, summary) && summary.results == start.results && start.emittedRows <= |rows|
    ensures collected.rows <= input.rows && summary.emittedRows <= |rows + input.rows|
    ensures rows[..start.emittedRows] + collected.rows == (rows + input.rows)[..summary.emittedRows]
    ensures var r := result.(tag := input.tag, affected := input.affected);
            && r.index == |start.results|
            && SetReported(input, collected.(tag := input.tag, affected := input.affected,
                                             truncated := result.truncated), r)
            && collected.index == |start.results|
    ensures forall results :: Tallied(summary.(results := results), rows + input.rows, limits)
  {
    hide Longest;
    assert input.rows[..|input.rows|] == input.rows;
    PrefixCollected(start, summary, rows, input.rows, result.emittedRows);
  }

  /** What the counters become for one more row that is passed on. */
  lemma RowPassed(start: Summary, before: Summary, earlier: ResultSummary, collected: ResultSet, rows: seq<Row>,
                  input: ResultInput, m: nat, limits: Limits)
    requires m < |input.rows| && Partway(start, before, earlier, collected, rows, input, m, limits)
    requires CanEmit(Observe(before, RowBytes(input.rows[m])), RowBytes(input.rows[m]), limits)
    ensures var bytes := RowBytes(input.rows[m]);
            Partway(start, Emit(Observe(before, bytes), bytes),
                    earlier.(observedRows := earlier.observedRows + 1, observedBytes := earlier.observedBytes + bytes,
                             emittedRows := earlier.emittedRows + 1, emittedBytes := earlier.emittedBytes + bytes),
                    collected.(rows := collected.rows + [input.rows[m]]), rows, input, m + 1, limits)
  {
    hide Longest, Fits, CanEmit, Tallied;
    RowStep(before, rows + input.rows[..m], input.rows[m], limits);
    assert rows + input.rows[..m] + [input.rows[m]] == rows + input.rows[..m + 1];
    BytesNext(input.rows, m);
    assert input.rows[..m] + [input.rows[m]] == input.rows[..m + 1];
  }

  /** And for one that is withheld. */
  lemma RowWithheld(start: Summary, before: Summary, earlier: ResultSummary, collected: ResultSet, rows: seq<Row>,
                    input: ResultInput, m: nat, limits: Limits)
    requires m < |input.rows| && Partway(start, before, earlier, collected, rows, input, m, limits)
    requires !CanEmit(Observe(before, RowBytes(input.rows[m])), RowBytes(input.rows[m]), limits)
    ensures var bytes := RowBytes(input.rows[m]);
            Partway(start, Observe(before, bytes).(truncated := true),
                    earlier.(observedRows := earlier.observedRows + 1, observedBytes := earlier.observedBytes + bytes,
                             truncated := true),
                    collected, rows, input, m + 1, limits)
  {
    hide Longest, Fits, CanEmit, Tallied;
    RowStep(before, rows + input.rows[..m], input.rows[m], limits);
    assert rows + input.rows[..m] + [input.rows[m]] == rows + input.rows[..m + 1];
    BytesNext(input.rows, m);
  }

  /** One row of a result set. */
  method StreamRow(sink: Collector, input: ResultInput, m: nat, limits: Limits, before: Summary, earlier: ResultSummary,
                   ghost start: Summary, ghost rows: seq<Row>)
    returns (summary: Summary, result: ResultSummary, error: Option<StreamError>)
    requires m < |input.rows| && |sink.sets| == earlier.index + 1 && earlier.index == |start.results|
    requires Partway(start, before, earlier, sink.sets[earlier.index], rows, input, m, limits)
    modifies sink
    ensures error.None? ==>
              && result.index == earlier.index && |sink.sets| == earlier.index + 1
                 && sink.sets[..earlier.index] == old(sink.sets)[..earlier.index]
              && Partway(start, summary, result, sink.sets[earlier.index], rows, input, m + 1, limits)
  {
    hide CanEmit, Partway, RowBytes;
    summary, result := before, earlier;
    var row := input.rows[m];
    ghost var collected := sink.sets[earlier.index];
    if |row| != |input.columns| {
      return summary, result, Some(RowError);
    }
    var bytes := RowBytes(row);
    summary := Observe(summary, bytes);
    result := result.(observedRows := result.observedRows + 1, observedBytes := result.observedBytes + bytes);
    if CanEmit(summary, bytes, limits) {
      var sinkFails: bool := *;
      var written := sink.WriteRow(result.index, row);
      if sinkFails || !written {
        return summary, result, Some(SinkError);
      }
      RowPassed(start, before, earlier, collected, rows, input, m, limits);
      result := result.(emittedRows := result.emittedRows + 1, emittedBytes := result.emittedBytes + bytes);
      summary := Emit(summary, bytes);
    } else {
      RowWithheld(start, before, earlier, collected, rows, input, m, limits);
      result := result.(truncated := true);
      summary := summary.(truncated := true);
    }
    error := None;
  }

  predicate Counted(start: Summary, result: ResultSummary, summary: Summary) {
    && summary.observedRows == start.observedRows + result.observedRows
    && summary.emittedRows == start.emittedRows + result.emittedRows
    && summary.observedBytes == start.observedBytes + result.observedBytes
    && summary.emittedBytes == start.emittedBytes + result.emittedBytes
  }

  lemma TalliedBound(summary: Summary, rows: seq<Row>, limits: Limits)
    requires Tallied(summary, rows, limits)
    ensures summary.emittedRows <= |rows|
  {
  }

  lemma TotalsNext(results: seq<ResultSummary>, result: ResultSummary)
    ensures var t := TotalsOf(results);
            TotalsOf(results + [result]) == Totals(t.observedRows + result.observedRows,
                                                   t.emittedRows + result.emittedRows,
                                                   t.observedBytes + result.observedBytes,
                                                   t.emittedBytes + result.emittedBytes)
  {
    assert (results + [result])[..|results|] == results;
  }

  lemma PrefixCollected(start: Summary, summary: Summary, rows: seq<Row>, input: seq<Row>, emitted: nat)
    requires summary.emittedRows == start.emittedRows + emitted && emitted <= |input| && start.emittedRows <= |rows|
    requires emitted > 0 ==> start.emittedRows == |rows|
    ensures rows[..start.emittedRows] + input[..emitted] == (rows + input)[..summary.emittedRows]
  {
  }
}
