/**
 * The calendar's per-cell lookup and classification
 * (src/components/calendar-view.tsx, row render, lines 165-214). Days are integers: the
 * start-of-day normalisation maps every date to its day number.
 */
module CalendarGrid {
  import opened Wrappers

  /** A schedule as the calendar draws it: its id and its first and last day. */
  datatype Span = Span(id: string, start: int, end: int)

  /** A staff row: the staff id and the ids of the schedules assigned to that staff member. */
  datatype StaffRow = StaffRow(id: string, schedules: seq<string>)

  /** What a (staff, day) cell shows: nothing, a span's first day, its last day, or a day in between. */
  datatype Cell = Empty | SpanStart | SpanEnd | SpanMiddle

  /** The interval test of the date library: inclusive, with the two ends put in order first. */
  predicate WithinInterval(day: int, start: int, end: int)
  {
    if start <= end then start <= day <= end else end <= day <= start
  }

  /** The `find` predicate: the schedule is assigned to the row and its interval holds the day. */
  predicate Covers(row: StaffRow, s: Span, day: int)
  {
    s.id in row.schedules && WithinInterval(day, s.start, s.end)
  }

  /** The position of the first schedule, in list order, that covers the day. */
  function FirstCovering(row: StaffRow, spans: seq<Span>, day: int): (r: Option<nat>)
    ensures r.None? <==> forall j :: 0 <= j < |spans| ==> !Covers(row, spans[j], day)
    ensures r.Some? ==> r.value < |spans| && Covers(row, spans[r.value], day)
    ensures r.Some? ==> forall j :: 0 <= j < r.value ==> !Covers(row, spans[j], day)
  {
    if spans == [] then None
    else if Covers(row, spans[0], day) then Some(0)
    else match FirstCovering(row, spans[1..], day)
      case None => None
      case Some(k) => Some(k + 1)
  }

  /** The schedule the cell is drawn from, if any. */
  function Chosen(row: StaffRow, spans: seq<Span>, day: int): (r: Option<Span>)
    ensures r.None? <==> forall j :: 0 <= j < |spans| ==> !Covers(row, spans[j], day)
    ensures r.Some? ==> r.value in spans && Covers(row, r.value, day)
    ensures r.Some? ==> exists k :: 0 <= k < |spans| && spans[k] == r.value
                                    && forall j :: 0 <= j < k ==> !Covers(row, spans[j], day)
  {
    match FirstCovering(row, spans, day)
    case None => None
    case Some(k) => Some(spans[k])
  }

  /** Start when the day is the first day, otherwise End when it is the last day, otherwise Middle. */
  function Classify(s: Span, day: int): (c: Cell)
    ensures c != Empty
    ensures c == SpanStart <==> day == s.start
    ensures c == SpanEnd <==> day != s.start && day == s.end
    ensures c == SpanMiddle <==> day != s.start && day != s.end
  {
    if day == s.start then SpanStart
    else if day == s.end then SpanEnd
    else SpanMiddle
  }

  /** The cell of a row on a day: Empty when nothing covers it, else the chosen schedule's class. */
  function CellAt(row: StaffRow, spans: seq<Span>, day: int): (c: Cell)
    ensures c == Empty <==> forall j :: 0 <= j < |spans| ==> !Covers(row, spans[j], day)
    ensures c != Empty ==> FirstCovering(row, spans, day).Some?
                           && c == Classify(spans[FirstCovering(row, spans, day).value], day)
  {
    match Chosen(row, spans, day)
    case None => Empty
    case Some(s) => Classify(s, day)
  }

  /** One row of the grid: a cell per displayed day, in the displayed order. */
  function RowCells(row: StaffRow, spans: seq<Span>, days: seq<int>): (cells: seq<Cell>)
    ensures |cells| == |days|
    ensures forall i :: 0 <= i < |days| ==> cells[i] == CellAt(row, spans, days[i])
  {
    seq(|days|, i requires 0 <= i < |days| => CellAt(row, spans, days[i]))
  }

  /**
   * A non-empty cell comes from the first covering schedule in list order: it is assigned to
   * the row, its interval holds the day, and it is classified by the day's place in it.
   */
  lemma NonEmptyCellFromFirstCovering(row: StaffRow, spans: seq<Span>, day: int)
    requires CellAt(row, spans, day) != Empty
    ensures var k := FirstCovering(row, spans, day);
            && k.Some? && spans[k.value].id in row.schedules
            && (spans[k.value].start <= spans[k.value].end ==> spans[k.value].start <= day <= spans[k.value].end)
            && (forall j :: 0 <= j < k.value ==> !Covers(row, spans[j], day))
            && CellAt(row, spans, day) == Classify(spans[k.value], day)
  {
  }

  /**
   * For a day inside a schedule's interval: Middle only strictly between its ends, and a
   * one-day span shows as its start, since the start test comes first.
   */
  lemma ClassifyCases(s: Span, day: int)
    requires WithinInterval(day, s.start, s.end)
    ensures Classify(s, day) == SpanMiddle ==> s.start <= s.end ==> s.start < day < s.end
    ensures s.start == s.end ==> Classify(s, day) == SpanStart
  {
  }

  /** The schedules of `spans` assigned to the row, in list order. */
  function Assigned(row: StaffRow, spans: seq<Span>): (r: seq<Span>)
    ensures |r| <= |spans|
    ensures forall j :: 0 <= j < |r| ==> r[j].id in row.schedules
  {
    if spans == [] then []
    else if spans[0].id in row.schedules then [spans[0]] + Assigned(row, spans[1..])
    else Assigned(row, spans[1..])
  }

  /** Unassigned schedules never affect a cell: the row's own schedules alone decide it. */
  lemma {:induction false} OnlyAssignedMatter(row: StaffRow, spans: seq<Span>, day: int)
    ensures Chosen(row, Assigned(row, spans), day) == Chosen(row, spans, day)
    ensures CellAt(row, Assigned(row, spans), day) == CellAt(row, spans, day)
  {
    if spans != [] {
      OnlyAssignedMatter(row, spans[1..], day);
      if spans[0].id in row.schedules {
        assert Assigned(row, spans) == [spans[0]] + Assigned(row, spans[1..]);
        assert ([spans[0]] + Assigned(row, spans[1..]))[1..] == Assigned(row, spans[1..]);
      }
    }
  }

  /** Two staff rows with the same assigned schedule ids show the same cell on every day. */
  lemma SameAssignmentSameCell(row: StaffRow, other: StaffRow, spans: seq<Span>, day: int)
    requires forall id :: id in row.schedules <==> id in other.schedules
    ensures Chosen(row, spans, day) == Chosen(other, spans, day)
    ensures CellAt(row, spans, day) == CellAt(other, spans, day)
  {
  }

  /** A one-day schedule shows as its start on that day and leaves the neighbouring days empty. */
  lemma SingleDaySpan(day: int)
    ensures CellAt(StaffRow("a", ["1"]), [Span("1", day, day)], day) == SpanStart
    ensures CellAt(StaffRow("a", ["1"]), [Span("1", day, day)], day - 1) == Empty
    ensures CellAt(StaffRow("a", ["1"]), [Span("1", day, day)], day + 1) == Empty
  {
  }
}
