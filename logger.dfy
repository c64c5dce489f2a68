/**
 * The capture side of Cursive's logging facility (src/logger.rs).
 *
 * Every log event of the process goes through one logger. It stores a
 * record of the event in the global bounded deque LOGS and, when a module
 * is being tracked and the event comes from it, a second copy in
 * MODULE_LOGS. The three globals (LOGS, MODULE_LOGS, MODULE) and the
 * "a logger is installed" state of the `log` crate are the fields of the
 * class `CursiveLogger`.
 */
module Logger {

  datatype Option<T> = None | Some(value: T)

  /** Severity of a log event, most severe first (the `log` crate's `Level`). */
  datatype Level = Error | Warn | Info | Debug | Trace

  /** A point in time. The model carries it and never looks inside. */
  type Time = int

  /** An event as the `log` crate hands it to the logger: its level, its
      target (a `::`-separated module path) and its already formatted message. */
  datatype LogEvent = LogEvent(level: Level, target: string, message: string)

  /** A stored log record. `moduleName` is the source's `module` field
      (`module` is a keyword in Dafny). */
  datatype Record = Record(level: Level, moduleName: string, time: Time, message: string)

  /** The fallback name used when a target yields no segment at all. */
  const Unknown: string := "<unknown>"

  // ---------------------------------------------------------------------
  // Module normalisation
  // ---------------------------------------------------------------------

  /** A `::` separator starts at position i of s. */
  predicate SepAt(s: string, i: int) {
    0 <= i && i + 1 < |s| && s[i] == ':' && s[i + 1] == ':'
  }

  /** s contains `::` somewhere. */
  predicate ContainsSep(s: string) {
    exists i :: 0 <= i < |s| && SepAt(s, i)
  }

  /** `str::split("::")`: the segments between the non-overlapping
      separators found from left to right. There is always at least one. */
  function Split(s: string): (segs: seq<string>)
    ensures |segs| >= 1
    decreases |s|
  {
    if |s| < 2 then [s]
    else if s[0] == ':' && s[1] == ':' then [""] + Split(s[2..])
    else
      var rest := Split(s[1..]);
      [[s[0]] + rest[0]] + rest[1..]
  }

  /** Joins segments back together with `::` between them. */
  function Join(segs: seq<string>): string
    requires |segs| >= 1
  {
    if |segs| == 1 then segs[0] else segs[0] + "::" + Join(segs[1..])
  }

  /** The first element of an iterator over segs, or the fallback. */
  function FirstOr(segs: seq<string>, fallback: string): string {
    if |segs| > 0 then segs[0] else fallback
  }

  /** get_top_level_record_module: the first `::`-segment of the target,
      or "<unknown>" if splitting yields none. */
  function TopLevelModule(target: string): (m: string)
    ensures m == Split(target)[0]
  {
    FirstOr(Split(target), Unknown)
  }

  /** Splitting then joining with the separator gives the string back. */
  lemma {:induction false} JoinSplit(s: string)
    ensures Join(Split(s)) == s
    decreases |s|
  {
    if |s| < 2 {
    } else if s[0] == ':' && s[1] == ':' {
      JoinSplit(s[2..]);
      assert Split(s) == [""] + Split(s[2..]);
      assert Join(Split(s)) == "" + "::" + Join(Split(s[2..]));
      assert s == "::" + s[2..];
    } else {
      var rest := Split(s[1..]);
      JoinSplit(s[1..]);
      var segs := Split(s);
      assert segs == [[s[0]] + rest[0]] + rest[1..];
      if |rest| == 1 {
        assert Join(segs) == [s[0]] + rest[0];
      } else {
        assert segs[1..] == rest[1..];
        assert Join(rest) == rest[0] + "::" + Join(rest[1..]);
        assert Join(segs) == ([s[0]] + rest[0]) + "::" + Join(rest[1..]);
      }
      assert s == [s[0]] + s[1..];
    }
  }

  /** The first segment of a split is the part of s before the first `::`:
      no separator starts inside it, and it is either all of s or followed
      by a separator. */
  lemma {:induction false} SplitHead(s: string)
    ensures |Split(s)[0]| <= |s| && Split(s)[0] == s[..|Split(s)[0]|]
    ensures forall i :: 0 <= i < |Split(s)[0]| ==> !SepAt(s, i)
    ensures Split(s)[0] == s || SepAt(s, |Split(s)[0]|)
    decreases |s|
  {
    if |s| < 2 {
    } else if s[0] == ':' && s[1] == ':' {
    } else {
      SplitHead(s[1..]);
      var h := Split(s[1..])[0];
      assert Split(s)[0] == [s[0]] + h;
      forall i | 0 <= i < |Split(s)[0]| ensures !SepAt(s, i) {
        if i > 0 {
          assert SepAt(s, i) ==> SepAt(s[1..], i - 1);
        }
      }
    }
  }

  /** The top-level module is the prefix of the target before its first
      `::` (the whole target when there is none), and it never contains `::`.
      In particular the "<unknown>" fallback is never taken: an empty target
      gives the empty name. */
  lemma TopLevelModuleSpec(target: string)
    ensures var m := TopLevelModule(target);
      && |m| <= |target| && m == target[..|m|]
      && (forall i :: 0 <= i < |m| ==> !SepAt(target, i))
      && (m == target || SepAt(target, |m|))
      && !ContainsSep(m)
    ensures target == "" ==> TopLevelModule(target) == ""
  {
    SplitHead(target);
    var m := TopLevelModule(target);
    forall i | 0 <= i < |m| ensures SepAt(m, i) ==> SepAt(target, i) {
    }
  }

  /** The characterisation in TopLevelModuleSpec has exactly one solution. */
  lemma TopLevelModuleUnique(target: string, m: string)
    requires |m| <= |target| && m == target[..|m|]
    requires forall i :: 0 <= i < |m| ==> !SepAt(target, i)
    requires m == target || SepAt(target, |m|)
    ensures m == TopLevelModule(target)
  {
    TopLevelModuleSpec(target);
    var t := TopLevelModule(target);
    assert |m| < |t| ==> m != target && !SepAt(target, |m|);
    assert |t| < |m| ==> t != target && !SepAt(target, |t|);
  }

  // ---------------------------------------------------------------------
  // Bounded append
  // ---------------------------------------------------------------------

  /** The last n elements of s (all of s when it is shorter). */
  function LastN<T>(s: seq<T>, n: nat): seq<T> {
    if |s| <= n then s else s[|s| - n..]
  }

  /** LastN keeps min(|s|, n) elements, which end s in their original order. */
  lemma LastNShape<T>(s: seq<T>, n: nat)
    ensures |LastN(s, n)| == if |s| <= n then |s| else n
    ensures forall j :: 0 <= j < |LastN(s, n)| ==> LastN(s, n)[j] == s[|s| - |LastN(s, n)| + j]
  {
  }

  /** Keeping the last n after every append is keeping the last n of the
      whole history. */
  lemma LastNAppend<T>(s: seq<T>, n: nat, x: T)
    requires n >= 1
    ensures LastN(LastN(s, n) + [x], n) == LastN(s + [x], n)
  {
  }

  /** The deque after pushing each of rs in turn, each push keeping the
      last cap records. */
  function PushAll<T>(buf: seq<T>, cap: nat, rs: seq<T>): seq<T>
    decreases |rs|
  {
    if rs == [] then buf else PushAll(LastN(buf + [rs[0]], cap), cap, rs[1..])
  }

  /** Starting from an empty deque of capacity cap, pushing rs leaves exactly
      the last min(|rs|, cap) of them, in the order they were pushed. */
  lemma {:induction false} PushAllFromEmpty<T>(cap: nat, rs: seq<T>)
    requires cap >= 1
    ensures PushAll([], cap, rs) == LastN(rs, cap)
  {
    PushAllAfter(cap, [], rs);
    assert [] + rs == rs;
  }

  lemma {:induction false} PushAllAfter<T>(cap: nat, done: seq<T>, rs: seq<T>)
    requires cap >= 1
    ensures PushAll(LastN(done, cap), cap, rs) == LastN(done + rs, cap)
    decreases |rs|
  {
    if rs == [] {
      assert done + rs == done;
    } else {
      LastNAppend(done, cap, rs[0]);
      PushAllAfter(cap, done + [rs[0]], rs[1..]);
      assert done + [rs[0]] + rs[1..] == done + rs;
    }
  }

  /** The record that log_record_to builds for an event at time `now`. */
  function CaptureRecord(e: LogEvent, now: Time): Record {
    Record(e.level, TopLevelModule(e.target), now, e.message)
  }

  /** log_record_to: pushes the record of e onto a bounded deque of
      capacity cap, popping the oldest record first when the deque is full.
      The result is the last cap records of the deque followed by the new one. */
  method LogRecordTo(buf: seq<Record>, cap: nat, e: LogEvent, now: Time) returns (out: seq<Record>)
    requires 1 <= cap && |buf| <= cap
    ensures 0 < |out| <= cap
    ensures out[|out| - 1] == CaptureRecord(e, now)
    ensures |buf| == cap ==> out == buf[1..] + [CaptureRecord(e, now)]
    ensures |buf| < cap ==> out == buf + [CaptureRecord(e, now)]
    ensures out == LastN(buf + [CaptureRecord(e, now)], cap)
  {
    var logs := buf;
    if |logs| == cap {
      logs := logs[1..];
    }
    var recordModule := TopLevelModule(e.target);
    logs := logs + [Record(e.level, recordModule, now, e.message)];
    out := logs;
  }

  // ---------------------------------------------------------------------
  // The logger and its global state
  // ---------------------------------------------------------------------

  /** Whether an event is copied into MODULE_LOGS under the tracked module. */
  predicate Routed(tracked: Option<string>, e: LogEvent) {
    tracked.Some? && TopLevelModule(e.target) == tracked.value
  }

  /** What `init` reports: the logger was installed, or `set_logger` failed
      because one already was (a panic in the source). */
  datatype InitOutcome = Installed | AlreadyInstalled

  class CursiveLogger {
    /** LOGS: the deque every record goes to. */
    var logs: seq<Record>
    /** MODULE_LOGS: the deque of records from the tracked module. */
    var moduleLogs: seq<Record>
    /** MODULE: the tracked module, if any. */
    var trackedModule: Option<string>
    /** The capacity both deques report once space is reserved. */
    const cap: nat
    /** Whether `log::set_logger` has succeeded. */
    var installed: bool

    /** Every record ever pushed onto LOGS and onto MODULE_LOGS. */
    ghost var history: seq<Record>
    ghost var moduleHistory: seq<Record>

    /** Each deque holds exactly the last cap records ever pushed onto it. */
    ghost predicate Valid()
      reads this
    {
      && cap >= 1
      && logs == LastN(history, cap)
      && moduleLogs == LastN(moduleHistory, cap)
    }

    /** The process-start state: empty deques, no module, no logger. */
    constructor (cap: nat)
      requires cap >= 1
      ensures Valid()
      ensures this.cap == cap && logs == [] && moduleLogs == [] && trackedModule == None && !installed
      ensures history == [] && moduleHistory == []
    {
      this.cap := cap;
      logs := [];
      moduleLogs := [];
      trackedModule := None;
      installed := false;
      history := [];
      moduleHistory := [];
    }

    /** `enabled`: every event is accepted; filtering happens in the view. */
    function Enabled(level: Level, target: string): (enabled: bool)
      ensures enabled
    {
      true
    }

    /** `log`: always pushes a record onto LOGS; pushes a second record,
        stamped by a second clock reading, onto MODULE_LOGS exactly when a
        module is tracked and the event's top-level module is that module. */
    method Log(e: LogEvent, now: Time, nowModule: Time)
      requires Valid()
      modifies this`logs, this`moduleLogs, this`history, this`moduleHistory
      ensures Valid()
      ensures history == old(history) + [CaptureRecord(e, now)]
      ensures logs == LastN(old(logs) + [CaptureRecord(e, now)], cap)
      ensures Routed(trackedModule, e) ==>
        && moduleHistory == old(moduleHistory) + [CaptureRecord(e, nowModule)]
        && moduleLogs == LastN(old(moduleLogs) + [CaptureRecord(e, nowModule)], cap)
      ensures !Routed(trackedModule, e) ==>
        moduleHistory == old(moduleHistory) && moduleLogs == old(moduleLogs)
    {
      logs := LogRecordTo(logs, cap, e, now);
      LastNAppend(history, cap, CaptureRecord(e, now));
      history := history + [CaptureRecord(e, now)];
      match trackedModule {
        case Some(moduleName) =>
          if TopLevelModule(e.target) == moduleName {
            moduleLogs := LogRecordTo(moduleLogs, cap, e, nowModule);
            LastNAppend(moduleHistory, cap, CaptureRecord(e, nowModule));
            moduleHistory := moduleHistory + [CaptureRecord(e, nowModule)];
          }
        case None =>
          return;
      }
    }

    /** `flush`: there is nothing buffered outside the deques. */
    method Flush()
      ensures unchanged(this)
    {
    }

    /** `init`: installs the logger. A second install fails (the source
        panics on the result of `set_logger`); the deques and the tracked
        module are left as they were in both cases. */
    method Init() returns (outcome: InitOutcome)
      requires Valid()
      modifies this`installed
      ensures Valid()
      ensures outcome == if old(installed) then AlreadyInstalled else Installed
      ensures installed
    {
      if installed {
        outcome := AlreadyInstalled;
      } else {
        installed := true;
        outcome := Installed;
      }
    }

    /** `init_for_module`: tracks the given module, then runs `init`. The
        module is set before `init` runs, so it stays set even when `init`
        fails. */
    method InitForModule(name: string) returns (outcome: InitOutcome)
      requires Valid()
      modifies this`trackedModule, this`installed
      ensures Valid()
      ensures trackedModule == Some(name)
      ensures outcome == if old(installed) then AlreadyInstalled else Installed
      ensures installed
    {
      trackedModule := Some(name);
      outcome := Init();
    }
  }
}
