# Cursive's log capture and debug view, modelled in Dafny

Cursive installs a logger for the `log` crate that keeps every log record of
the process in memory, and offers a `DebugView` that draws the most recent
records, filtered by severity.

This project models both halves:

- `logger.dfy`, module `Logger`, models `src/logger.rs`. It covers how a
  record's module is taken from the event's target (the part before the first
  `::`), the bounded deque push that drops the oldest record when the deque is
  full, and the routing done by `log`. Every record goes to `LOGS`. A second
  copy goes to `MODULE_LOGS` only when a module is tracked (`MODULE`) and the
  record comes from it. It also covers `init` and `init_for_module`.
  The globals `LOGS`, `MODULE_LOGS` and `MODULE`, together with the `log`
  crate's "a logger is installed" state, are the fields of the class
  `CursiveLogger`. Ghost histories record every push. The class invariant says
  that each deque holds exactly the last `cap` records ever pushed onto it.
- `debug_view.dfy`, module `Views`, models `src/views/debug_view.rs`. It
  covers the severity predicate `record_above_set_filter`, which is a rank
  comparison with Trace ranked like Debug. It covers the view's mutable
  filter. It covers the row selection of `draw`: the last `height` records,
  of which the visible ones get rows `0, 1, …` in order. It also covers the
  size arithmetic of `required_size`.

Names: the record field `module` is `moduleName` in Dafny, because `module` is
a keyword there. The global `MODULE` is the field `trackedModule`. `draw` and
`required_size` read `record.target`, but `logger::Record` has no such field;
its field is `module` (src/logger.rs:19). The two files come from different
revisions, and the model reads `moduleName` in both places.

The model follows the code, also where its comments promise otherwise:

- The code tracks a single optional module (src/logger.rs:29), not a set of
  modules with one deque each. `draw` reads only `LOGS`.
- The comment at src/logger.rs:46 promises `"<unknown>"` when the target
  cannot be parsed. But `split` always yields a first segment, so the fallback
  is never taken. An empty target gives the empty module name
  (`Logger.TopLevelModule`, `Logger.TopLevelModuleSpec`).

## Model

| member | source | states |
|---|---|---|
| `Logger.Split` | src/logger.rs:48 | `split("::")` yields at least one segment, which is why the `"<unknown>"` fallback can never be used |
| `Logger.JoinSplit` | src/logger.rs:48 | joining the segments of `split("::")` with `::` gives the target back |
| `Logger.SplitHead` | src/logger.rs:48 | the first segment is a prefix of the target. No `::` starts inside it, and it is either the whole target or followed by `::` |
| `Logger.TopLevelModule` | src/logger.rs:46-49 | `get_top_level_record_module` is always the first segment of the split, never the fallback |
| `Logger.TopLevelModuleSpec` | src/logger.rs:46-49 | the top-level module is the prefix before the first `::`, or the whole target when there is none. It never contains `::`, and an empty target gives `""` |
| `Logger.TopLevelModuleUnique` | src/logger.rs:46-49 | that "prefix before the first `::`" characterisation determines the module uniquely |
| `Logger.LastNShape` | src/logger.rs:51-68 | keeping the last N records keeps `min(len, N)` records, which are the tail of the input in order |
| `Logger.LastNAppend` | src/logger.rs:55-67 | pushing onto a deque that holds the last N of a history gives the last N of the extended history |
| `Logger.PushAllAfter` | src/logger.rs:51-68 | a run of pushes onto the last N of a history gives the last N of the history followed by the pushed records |
| `Logger.PushAllFromEmpty` | src/logger.rs:51-68 | from an empty deque of capacity N, M pushes leave exactly the last `min(M, N)` records, in push order |
| `Logger.LogRecordTo` | src/logger.rs:51-68 | `log_record_to`: when the deque is full (`len == cap`), the head is dropped before the push. Otherwise the record is only appended. The new record is last, `0 < len <= cap` afterwards, and the result is the last `cap` of the old deque plus the record |
| `Logger.CursiveLogger.constructor` | src/logger.rs:26-44 | the globals start empty (`LOGS`, `MODULE_LOGS`), with no module and no installed logger, and the invariant holds |
| `Logger.CursiveLogger.Enabled` | src/logger.rs:71-73 | `enabled` accepts every event |
| `Logger.CursiveLogger.Log` | src/logger.rs:75-89 | `log` always pushes the event's record onto `LOGS`. It pushes a second record onto `MODULE_LOGS` if and only if `MODULE` is `Some(name)` and the record's top-level module is `name`; otherwise `MODULE_LOGS` is unchanged. Both deques keep holding the last `cap` records pushed onto them |
| `Logger.CursiveLogger.Flush` | src/logger.rs:91 | `flush` changes nothing |
| `Logger.CursiveLogger.Init` | src/logger.rs:100-109 | `init` installs the logger. A second install fails, as the source's panic on `set_logger` does, and leaves the deques and the module as they were |
| `Logger.CursiveLogger.InitForModule` | src/logger.rs:112-120 | `init_for_module` sets `MODULE := Some(module)` before running `init`, so the module is set even when `init` fails |
| `Views.RecordAboveSetFilter` | src/views/debug_view.rs:17-26 | a record is visible if and only if `rank(level) <= rank(filter)`, with Error=0, Warn=1, Info=2, Debug=3 and Trace ranked as Debug |
| `Views.ErrorAlwaysVisible` | src/views/debug_view.rs:19-24 | Error records are visible under every filter, and the Debug filter shows every level |
| `Views.WarnBoundary` | src/views/debug_view.rs:19-25 | the boundary is inclusive: under Warn, Error and Warn are shown and Info, Debug and Trace are hidden |
| `Views.VisibilityMonotone` | src/views/debug_view.rs:17-26 | a record visible under a filter stays visible under every less restrictive filter |
| `Views.VisibleRecords` | src/views/debug_view.rs:60-61 | the records kept by `draw`'s visibility test are records of the input, each passing the predicate, and there are no more of them than input records |
| `Views.VisibleRecordsComplete` | src/views/debug_view.rs:60-61 | every record of the input that passes the predicate is kept |
| `Views.DebugFilterShowsAll` | src/views/debug_view.rs:36-40 | under the Debug filter, which `new` sets, nothing is hidden |
| `Views.SaturatingSub` | src/views/debug_view.rs:57 | `skipped` never underflows. It is `len - height` when that is non-negative, and 0 otherwise |
| `Views.DrawWindowIsLast` | src/views/debug_view.rs:56-60 | skipping `len.saturating_sub(height)` records leaves exactly the last `min(len, height)` records, in buffer order |
| `Views.MaxLineWidth` | src/views/debug_view.rs:98-101 | the maximum line width is None only for an empty buffer. Otherwise it bounds every record's line width and is attained by some record |
| `Views.DebugView.constructor` | src/views/debug_view.rs:36-40 | a new view has filter Debug |
| `Views.DebugView.SetFilter` | src/views/debug_view.rs:42-44 | `set_filter` sets the filter and changes nothing else |
| `Views.DebugView.Draw` | src/views/debug_view.rs:54-87 | `draw` considers exactly the last `min(len, height)` records of `LOGS`. The visible ones among them get rows `0..k-1` in buffer order, hidden ones take no row, and `k <= height` |
| `Views.DebugView.RequiredSize` | src/views/debug_view.rs:89-106 | the height is the number of records in `LOGS`. The width is the maximum of `width(message) + width(module) + 28` over the records, or 1 when `LOGS` is empty |

## Left out

- Locking: `Mutex`, `lazy_static`, and panics from `lock().unwrap()` on a poisoned lock are not modelled. The globals are plain fields of one sequential object. One consequence of poisoning is not captured. When `init` panics inside `init_for_module`, the `MODULE` guard is dropped during the panic and the lock is poisoned. Every later `log` call would then panic at src/logger.rs:78.
- Logger.CursiveLogger.Init: the panic of `set_logger(...).unwrap()` is modelled as the outcome `AlreadyInstalled` with the state left intact. Unwinding and the end of the thread are not modelled.
- `log::set_max_level(LevelFilter::Trace)` is not modelled, because it is a call into the `log` crate. Installation is only the `installed` flag.
- Clock and formatting: `chrono::Utc::now()` is not modelled. Each record carries a `Time` value that is passed in. The source reads the clock once per copy, so `Log` takes two readings, one for `LOGS` and one for `MODULE_LOGS`. The `%T%.3f` local-time formatting in `draw` is not modelled.
- `format!("{}", record.args())` is not modelled. An event carries its message already formatted.
- Capacity: `VecDeque` growth is not modelled. Both deques use one fixed capacity `cap >= 1`, which stands for whatever `capacity()` reports after `reserve(1_000)` (at least 1000). The two deques could report different capacities; the model uses one for both. A deque that has never been reserved is not modelled either (`MODULE_LOGS` after a plain `init`), but that deque is never written.
- Views.DebugView.Draw: returns the selected lines (row and record) instead of printing them. The text of a line, its colours and the `Printer` are not modelled.
- `unicode_width` is not modelled. The display width of a string is a parameter `width: string -> nat` of `RequiredSize`.
- `layout` (empty) is not modelled. `Default::default` only calls `new` and is covered by the constructor.
- The source's `required_size` ignores its `constraint` argument, so the model has no such parameter.
