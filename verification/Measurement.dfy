/** Splitting metric rows into segments (tools/perf-matrix/measurement.ts). */
module Measurement {
  import opened Wrappers

  /** `key` stands for the emitter identity the row is grouped by. */
  datatype Row = Row(time: real, count: int, key: string)

  datatype Boundary = Boundary(startMs: real, endMs: real)

  predicate Inside(r: Row, b: Boundary) {
    b.startMs <= r.time <= b.endMs
  }

  /** The rows of one key inside the boundary, in order. */
  function Selected(rows: seq<Row>, b: Boundary, key: string): seq<Row> {
    if rows == [] then []
    else
      var last := rows[|rows| - 1];
      Selected(rows[..|rows| - 1], b, key) + (if Inside(last, b) && last.key == key then [last] else [])
  }

  /** A row that cannot continue after another: the counter went back, or time did not
      advance. */
  predicate Breaks(before: Row, r: Row) {
    r.count < before.count || r.time <= before.time
  }

  function Appended(segments: seq<seq<Row>>, r: Row): seq<seq<Row>>
    requires segments != []
  {
    var last := segments[|segments| - 1];
    if last != [] && Breaks(last[|last| - 1], r) then segments + [[r]]
    else segments[..|segments| - 1] + [last + [r]]
  }

  /** The segments of a list of rows, starting from one empty segment. */
  function Segments(rows: seq<Row>): (r: seq<seq<Row>>)
    ensures r != []
  {
    if rows == [] then [[]] else Appended(Segments(rows[..|rows| - 1]), rows[|rows| - 1])
  }

  /** What the group of a key holds after some rows: nothing before its first row. */
  ghost predicate GroupedAs(groups: map<string, seq<seq<Row>>>, rows: seq<Row>, b: Boundary, key: string) {
    && (key in groups <==> Selected(rows, b, key) != [])
    && (key in groups ==> groups[key] == Segments(Selected(rows, b, key)))
  }

  lemma OneMoreRow(groups: map<string, seq<seq<Row>>>, rows: seq<Row>, row: Row, b: Boundary, key: string)
    requires GroupedAs(groups, rows, b, key)
    ensures var segments := if row.key in groups then groups[row.key] else [[]];
            var now := if Inside(row, b) && segments != [] then groups[row.key := Appended(segments, row)] else groups;
            GroupedAs(now, rows + [row], b, key)
  {
    assert (rows + [row])[..|rows|] == rows;
    var selected := Selected(rows, b, key);
    assert (selected + [row])[..|selected|] == selected;
    if Inside(row, b) && row.key == key {
      assert Selected(rows + [row], b, key) == selected + [row];
      assert Segments(selected + [row]) == Appended(Segments(selected), row);
    } else {
      assert Selected(rows + [row], b, key) == selected;
    }
  }

  /** The grouping loop of `partition`, on rows in time order. */
  method Partition(rows: seq<Row>, b: Boundary) returns (r: Option<map<string, seq<seq<Row>>>>)
    ensures r.None? <==> b.endMs <= b.startMs
    ensures r.Some? ==> forall key :: GroupedAs(r.value, rows, b, key)
  {
    if b.endMs <= b.startMs {
      return None;
    }
    var groups: map<string, seq<seq<Row>>> := map[];
    for n := 0 to |rows|
      invariant forall key :: GroupedAs(groups, rows[..n], b, key)
    {
      var row := rows[n];
      ghost var was := groups;
      if Inside(row, b) {
        var segments := if row.key in groups then groups[row.key] else [[]];
        assert GroupedAs(groups, rows[..n], b, row.key);
        groups := groups[row.key := Appended(segments, row)];
      }
      ghost var seen := rows[..n + 1];
      assert seen == rows[..n] + [row];
      forall key
        ensures GroupedAs(groups, seen, b, key)
      {
        OneMoreRow(was, rows[..n], row, b, key);
      }
    }
    assert rows[..|rows|] == rows;
    r := Some(groups);
  }

  // --------------------------------------------------------------- segments

  function Joined(segments: seq<seq<Row>>): seq<Row> {
    if segments == [] then [] else Joined(segments[..|segments| - 1]) + segments[|segments| - 1]
  }

  /** Nothing is lost, repeated or reordered: the segments of a key joined are its rows
      inside the boundary. */
  lemma {:induction false} SegmentsJoinToTheRows(rows: seq<Row>)
    ensures Joined(Segments(rows)) == rows
    decreases |rows|
  {
    if rows == [] {
      var empty: seq<seq<Row>> := [[]];
      assert empty[..0] == [];
      assert Joined(empty) == [];
    } else {
      var init, row := rows[..|rows| - 1], rows[|rows| - 1];
      SegmentsJoinToTheRows(init);
      AppendedJoins(Segments(init), row);
      assert rows == init + [row];
    }
  }

  lemma AppendedJoins(segments: seq<seq<Row>>, r: Row)
    requires segments != []
    ensures Joined(Appended(segments, r)) == Joined(segments) + [r]
  {
    var front, last := segments[..|segments| - 1], segments[|segments| - 1];
    assert (segments + [[r]])[..|segments|] == segments;
    assert (front + [last + [r]])[..|front|] == front;
    assert Joined(front) + (last + [r]) == (Joined(front) + last) + [r];
  }

  /** Within a segment time strictly advances and the counter never goes back. */
  ghost predicate Progresses(segment: seq<Row>) {
    forall i, j :: 0 <= i < |segment| && j == i + 1 && j < |segment| ==> !Breaks(segment[i], segment[j])
  }

  /** Both segments are non-empty, and the second one begins with a row that could not
      continue the first. */
  predicate ForcedSplit(before: seq<Row>, after: seq<Row>) {
    before != [] && after != [] && Breaks(before[|before| - 1], after[0])
  }

  ghost predicate SplitsAreForced(segments: seq<seq<Row>>) {
    forall k, l :: 0 <= k < |segments| && l == k + 1 && l < |segments| ==> ForcedSplit(segments[k], segments[l])
  }

  ghost predicate AllProgress(segments: seq<seq<Row>>) {
    forall k :: 0 <= k < |segments| ==> Progresses(segments[k])
  }

  lemma AppendedProgresses(segments: seq<seq<Row>>, r: Row)
    requires segments != [] && AllProgress(segments)
    ensures AllProgress(Appended(segments, r))
  {
    var last := segments[|segments| - 1];
    assert Progresses(last);
    assert Progresses([r]);
    if !(last != [] && Breaks(last[|last| - 1], r)) {
      assert Progresses(last + [r]);
    }
  }

  lemma AppendedSplitsAreForced(segments: seq<seq<Row>>, r: Row)
    requires segments != [] && SplitsAreForced(segments)
    ensures SplitsAreForced(Appended(segments, r))
  {
    var out, n := Appended(segments, r), |segments|;
    forall k, l | 0 <= k < |out| && l == k + 1 && l < |out|
      ensures ForcedSplit(out[k], out[l])
    {
      if l < n {
        assert ForcedSplit(segments[k], segments[l]);
      }
    }
  }

  /** A new segment begins exactly where a row could not continue the one before. */
  lemma {:induction false} SegmentsProgress(rows: seq<Row>)
    ensures AllProgress(Segments(rows)) && SplitsAreForced(Segments(rows))
    decreases |rows|
  {
    if rows != [] {
      var init, row := rows[..|rows| - 1], rows[|rows| - 1];
      SegmentsProgress(init);
      AppendedProgresses(Segments(init), row);
      AppendedSplitsAreForced(Segments(init), row);
    }
  }

  /** Two rows of one segment, however far apart: the later one is strictly later and has
      no smaller count. */
  lemma {:induction false} ProgressIsTransitive(segment: seq<Row>, i: nat, j: nat)
    requires Progresses(segment) && i < j < |segment|
    ensures segment[i].time < segment[j].time && segment[i].count <= segment[j].count
    decreases j
  {
    if i < j - 1 {
      ProgressIsTransitive(segment, i, j - 1);
    }
    assert !Breaks(segment[j - 1], segment[j]);
  }

  /** How often a row was given. */
  function Occurrences(rows: seq<Row>, r: Row): nat {
    if rows == [] then 0
    else Occurrences(rows[..|rows| - 1], r) + if rows[|rows| - 1] == r then 1 else 0
  }

  lemma OccurrencesOfOneMore(rows: seq<Row>, last: Row, r: Row)
    ensures Occurrences(rows + [last], r) == Occurrences(rows, r) + if last == r then 1 else 0
  {
    assert (rows + [last])[..|rows|] == rows;
  }

  lemma {:induction false} SelectedCounts(rows: seq<Row>, b: Boundary, key: string, r: Row)
    ensures Occurrences(Selected(rows, b, key), r) == if Inside(r, b) && r.key == key then Occurrences(rows, r) else 0
    decreases |rows|
  {
    if rows != [] {
      var n := |rows| - 1;
      SelectedCounts(rows[..n], b, key, r);
      var before := Selected(rows[..n], b, key);
      if Inside(rows[n], b) && rows[n].key == key {
        assert Selected(rows, b, key) == before + [rows[n]];
        OccurrencesOfOneMore(before, rows[n], r);
      } else {
        assert Selected(rows, b, key) == before;
      }
    }
  }

  /** Every row inside the boundary is in exactly one segment as often as it was given:
      in those of its own key, and in no other. */
  lemma EveryRowIsInOneGroup(rows: seq<Row>, b: Boundary, key: string, r: Row)
    ensures Occurrences(Joined(Segments(Selected(rows, b, key))), r)
         == if Inside(r, b) && r.key == key then Occurrences(rows, r) else 0
  {
    SegmentsJoinToTheRows(Selected(rows, b, key));
    SelectedCounts(rows, b, key, r);
  }
}
