/**
 * The viewer of captured logs (src/views/debug_view.rs): which records of
 * LOGS a `DebugView` draws, on which rows, and how much room it asks for.
 * Only the selection and the size arithmetic are modelled; printing, colours
 * and time formatting are not.
 */
module Views {
  import L = Logger

  /** The least severe level a view shows. */
  datatype LogViewFilter = Error | Warn | Info | Debug

  /** record_above_set_filter: whether a record of the given level is shown
      under the given filter. */
  function RecordAboveSetFilter(recordLevel: L.Level, displayLevel: LogViewFilter): (visible: bool)
    ensures visible <==> LevelRank(recordLevel) <= FilterRank(displayLevel)
  {
    match recordLevel
    case Error => true
    case Warn => displayLevel != LogViewFilter.Error
    case Info => displayLevel == LogViewFilter.Info || displayLevel == LogViewFilter.Debug
    case Debug => displayLevel == LogViewFilter.Debug
    case Trace => displayLevel == LogViewFilter.Debug
  }

  /** Severity rank of a level, most severe lowest; Trace ranks with Debug. */
  function LevelRank(level: L.Level): nat {
    match level
    case Error => 0
    case Warn => 1
    case Info => 2
    case Debug => 3
    case Trace => 3
  }

  /** Rank of the least severe level a filter lets through. */
  function FilterRank(filter: LogViewFilter): nat {
    match filter
    case Error => 0
    case Warn => 1
    case Info => 2
    case Debug => 3
  }

  /** Error records are shown under every filter, and the Debug filter shows
      every level. */
  lemma ErrorAlwaysVisible(filter: LogViewFilter, level: L.Level)
    ensures RecordAboveSetFilter(L.Error, filter)
    ensures RecordAboveSetFilter(level, LogViewFilter.Debug)
  {
  }

  /** The Warn boundary is inclusive: Error and Warn are shown, Info, Debug
      and Trace are hidden. */
  lemma WarnBoundary(level: L.Level)
    ensures RecordAboveSetFilter(level, LogViewFilter.Warn) <==> level == L.Error || level == L.Warn
  {
  }

  /** A record shown under a filter stays shown under any less restrictive one. */
  lemma VisibilityMonotone(level: L.Level, f: LogViewFilter, g: LogViewFilter)
    requires FilterRank(f) <= FilterRank(g)
    requires RecordAboveSetFilter(level, f)
    ensures RecordAboveSetFilter(level, g)
  {
  }

  /** The records of rs shown under filter, in their order in rs. */
  function VisibleRecords(rs: seq<L.Record>, filter: LogViewFilter): (vs: seq<L.Record>)
    ensures |vs| <= |rs|
    ensures forall r :: r in vs ==> r in rs && RecordAboveSetFilter(r.level, filter)
  {
    if rs == [] then []
    else
      var last := rs[|rs| - 1];
      VisibleRecords(rs[..|rs| - 1], filter) + if RecordAboveSetFilter(last.level, filter) then [last] else []
  }

  /** Every record of rs that the filter lets through is selected. */
  lemma {:induction false} VisibleRecordsComplete(rs: seq<L.Record>, filter: LogViewFilter, r: L.Record)
    requires r in rs && RecordAboveSetFilter(r.level, filter)
    ensures r in VisibleRecords(rs, filter)
  {
    var last := rs[|rs| - 1];
    if r != last {
      assert rs == rs[..|rs| - 1] + [last];
      VisibleRecordsComplete(rs[..|rs| - 1], filter, r);
    }
  }

  /** Under the Debug filter nothing is hidden. */
  lemma {:induction false} DebugFilterShowsAll(rs: seq<L.Record>)
    ensures VisibleRecords(rs, LogViewFilter.Debug) == rs
  {
    if rs != [] {
      DebugFilterShowsAll(rs[..|rs| - 1]);
      assert rs == rs[..|rs| - 1] + [rs[|rs| - 1]];
    }
  }

  /** `usize::saturating_sub`: a - b, or 0 when b is larger. */
  function SaturatingSub(a: nat, b: nat): (d: nat)
    ensures d <= a
    ensures a >= b ==> d + b == a
    ensures a < b ==> d == 0
  {
    if a >= b then a - b else 0
  }

  /** `Iterator::skip`: s without its first k elements (empty when k is
      past the end). */
  function Skip<T>(s: seq<T>, k: nat): seq<T> {
    if k <= |s| then s[k..] else []
  }

  /** What draw walks over: LOGS with the records that do not fit the height
      skipped from the front, which are exactly the last `height` records. */
  lemma DrawWindowIsLast(logs: seq<L.Record>, height: nat)
    ensures Skip(logs, SaturatingSub(|logs|, height)) == L.LastN(logs, height)
    ensures |Skip(logs, SaturatingSub(|logs|, height))| == if |logs| <= height then |logs| else height
  {
  }

  /** One printed line: a record on a row of the view. */
  datatype Line = Line(row: nat, record: L.Record)

  /** The size a view asks for. */
  datatype Vec2 = Vec2(x: nat, y: nat)

  /** Widths of the fixed parts of a printed line. */
  const LevelWidth: nat := 7       // "[ERROR]"
  const TimeWidth: nat := 12       // "23:59:59.123"
  const SeparatorWidth: nat := 3   // " | "

  /** Columns needed to print r, given the display width of a string. */
  function LineWidth(r: L.Record, width: string -> nat): nat {
    width(r.message) + width(r.moduleName) + LevelWidth + TimeWidth + SeparatorWidth * 3
  }

  /** `Iterator::max` of the line widths of rs: None when rs is empty, else
      the largest width, which some record of rs attains. */
  function MaxLineWidth(rs: seq<L.Record>, width: string -> nat): (m: L.Option<nat>)
    ensures m.None? <==> rs == []
    ensures m.Some? ==> forall r :: r in rs ==> LineWidth(r, width) <= m.value
    ensures m.Some? ==> exists r :: r in rs && LineWidth(r, width) == m.value
  {
    if rs == [] then L.None
    else
      var w := LineWidth(rs[0], width);
      match MaxLineWidth(rs[1..], width)
      case None => L.Some(w)
      case Some(rest) => L.Some(if w >= rest then w else rest)
  }

  class DebugView {
    var filter: LogViewFilter

    /** `new`: a view that shows every level. */
    constructor ()
      ensures filter == LogViewFilter.Debug
    {
      filter := LogViewFilter.Debug;
    }

    /** `set_filter`: changes the filter and nothing else. */
    method SetFilter(newFilter: LogViewFilter)
      modifies this
      ensures filter == newFilter
    {
      filter := newFilter;
    }

    /** The selection made by `draw` on a view of the given height: of the
        last `height` records of LOGS, those the filter shows, in LOGS order,
        on consecutive rows from 0. Hidden records use no row. */
    method Draw(logger: L.CursiveLogger, height: nat) returns (lines: seq<Line>)
      ensures |lines| <= height
      ensures |lines| == |VisibleRecords(L.LastN(logger.logs, height), filter)|
      ensures forall j :: 0 <= j < |lines| ==>
        lines[j] == Line(j, VisibleRecords(L.LastN(logger.logs, height), filter)[j])
    {
      var logs := logger.logs;
      var skipped := SaturatingSub(|logs|, height);
      var window := Skip(logs, skipped);
      DrawWindowIsLast(logs, height);
      var i: nat := 0;
      lines := [];
      for k := 0 to |window|
        invariant i == |lines|
        invariant lines == Numbered(VisibleRecords(window[..k], filter))
      {
        var record := window[k];
        assert window[..k + 1] == window[..k] + [record];
        if RecordAboveSetFilter(record.level, filter) {
          lines := lines + [Line(i, record)];
          i := i + 1;
        }
      }
      assert window[..|window|] == window;
    }

    /** The arithmetic of `required_size`: as many rows as LOGS holds
        records; as many columns as its widest line, or 1 when it is empty. */
    function RequiredSize(logger: L.CursiveLogger, width: string -> nat): (size: Vec2)
      reads logger
      ensures size.y == |logger.logs|
      ensures logger.logs == [] ==> size.x == 1
      ensures logger.logs != [] ==> size.x >= LevelWidth + TimeWidth + SeparatorWidth * 3
      ensures forall r :: r in logger.logs ==> LineWidth(r, width) <= size.x
      ensures logger.logs != [] ==> exists r :: r in logger.logs && LineWidth(r, width) == size.x
    {
      var w := match MaxLineWidth(logger.logs, width)
        case Some(m) => m
        case None => 1;
      Vec2(w, |logger.logs|)
    }
  }

  /** rs laid out on consecutive rows starting at 0. */
  function Numbered(rs: seq<L.Record>): (lines: seq<Line>)
    ensures |lines| == |rs|
    ensures forall j :: 0 <= j < |rs| ==> lines[j] == Line(j, rs[j])
  {
    seq(|rs|, j requires 0 <= j < |rs| => Line(j, rs[j]))
  }
}
