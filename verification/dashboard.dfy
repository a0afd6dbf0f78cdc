/**
 * The web dashboard's run state (`app_state` in the Flask front end): the
 * start guard, the counters the scrape wrapper bumps, the log buffer the
 * logging handler fills, the transitions of the collection thread and the
 * status view. The collection thread is played out sequentially, its
 * automation given as the outcomes it produces.
 */
module Dashboard {
  import opened Wrappers

  /** Entries the log buffer keeps. */
  const MaxLogs: nat := 100
  /** Entries the status view shows. */
  const StatusLogs: nat := 20

  datatype LogEntry = LogEntry(time: string, level: string, message: string)

  /** Python's `logs[-n:]` for `n > 0`: the last `n` entries, or all when there are fewer. */
  function Last(logs: seq<LogEntry>, n: nat): (r: seq<LogEntry>)
    ensures |r| == if |logs| < n then |logs| else n
    ensures r == logs[|logs| - |r|..]
  {
    if |logs| <= n then logs else logs[|logs| - n..]
  }

  /**
   * Trimming after every append keeps the same entries as trimming once:
   * the buffer always holds the most recent entries in their order.
   */
  lemma LastOfAppend(logs: seq<LogEntry>, entry: LogEntry, n: nat)
    requires n > 0
    ensures Last(Last(logs, n) + [entry], n) == Last(logs + [entry], n)
  {
    var trimmed := Last(logs, n);
    var all := logs + [entry];
    assert trimmed + [entry] == all[|all| - |trimmed| - 1..];
  }

  /** A shorter window of a window is the shorter window of the whole. */
  lemma LastOfLast(logs: seq<LogEntry>, n: nat, m: nat)
    requires m <= n
    ensures Last(Last(logs, n), m) == Last(logs, m)
  {
  }

  /** The integer part of the share of `processed` in `total`, as a percentage. */
  function Percent(processed: nat, total: nat): nat
    requires total > 0
  {
    processed * 100 / total
  }

  /** Progress runs from 0 to 100 while no more files are processed than expected, and is 100 at the end. */
  lemma PercentBounds(processed: nat, total: nat)
    requires total > 0
    ensures processed <= total ==> Percent(processed, total) <= 100
    ensures processed == total ==> Percent(processed, total) == 100
    ensures processed < total ==> Percent(processed, total) < 100
  {
    if processed <= total {
      assert processed * 100 <= total * 100;
    }
    if processed < total {
      assert processed * 100 < total * 100;
    }
  }

  /** What `/api/status` reports. */
  datatype Status = Status(isRunning: bool, progress: nat, currentFile: string, totalFiles: nat,
                           successful: nat, failed: nat, logs: seq<LogEntry>)

  /** What the automation does once started: one call of the log handler, or one scrape of a combination. */
  datatype Event =
    | Logged(entry: LogEntry)
    | Scraped(annee: string, typrgp: string, base: string, result: bool)

  /** A call that returns a value or raises an exception with a message. */
  datatype Outcome<T> = Returned(value: T) | Raised(message: string)

  /**
   * The collection thread's automation: how the combination list is
   * obtained (its length, or the exception raised), the events of the run,
   * and whether the run itself ends by raising.
   */
  datatype Automation = Automation(combinations: Outcome<nat>, events: seq<Event>, crash: Option<string>)

  /** The message Python gives a division by zero. */
  const DivisionByZero: string := "division by zero"

  /** The entry the thread appends when the run raises. */
  function ErrorEntry(now: string, message: string): LogEntry {
    LogEntry(now, "ERROR", "Erreur: " + message)
  }

  /** The name `tracked_scrape` shows for a combination. */
  function FileLabel(annee: string, typrgp: string, base: string): string {
    annee + "_" + typrgp + "_" + base
  }

  // ---------------------------------------------------------------------
  // The state after a sequence of events
  // ---------------------------------------------------------------------

  /** The log buffer after the records of `events` are emitted into `logs`. */
  function LogsAfter(logs: seq<LogEntry>, events: seq<Event>): seq<LogEntry> {
    if events == [] then logs
    else match events[|events| - 1]
      case Logged(e) => Last(LogsAfter(logs, events[..|events| - 1]) + [e], MaxLogs)
      case Scraped(_, _, _, _) => LogsAfter(logs, events[..|events| - 1])
  }

  /** Number of scrapes in `events` whose result is `outcome`. */
  function Scrapes(events: seq<Event>, outcome: bool): nat {
    if events == [] then 0
    else
      var last := events[|events| - 1];
      Scrapes(events[..|events| - 1], outcome) + (if last.Scraped? && last.result == outcome then 1 else 0)
  }

  /** `current_file` after `events`, starting from `file`. */
  function FileAfter(file: string, events: seq<Event>): string {
    if events == [] then file
    else match events[|events| - 1]
      case Scraped(annee, typrgp, base, _) => FileLabel(annee, typrgp, base)
      case Logged(_) => FileAfter(file, events[..|events| - 1])
  }

  /** Number of scrapes in `events`. */
  function ScrapeCount(events: seq<Event>): nat {
    Scrapes(events, true) + Scrapes(events, false)
  }

  /** Extending a prefix by one event. */
  lemma PrefixStep(logs: seq<LogEntry>, file: string, events: seq<Event>, k: nat)
    requires k < |events|
    ensures Scrapes(events[..k + 1], true) ==
      Scrapes(events[..k], true) + (if events[k].Scraped? && events[k].result then 1 else 0)
    ensures Scrapes(events[..k + 1], false) ==
      Scrapes(events[..k], false) + (if events[k].Scraped? && !events[k].result then 1 else 0)
    ensures LogsAfter(logs, events[..k + 1]) ==
      if events[k].Logged? then Last(LogsAfter(logs, events[..k]) + [events[k].entry], MaxLogs)
      else LogsAfter(logs, events[..k])
    ensures FileAfter(file, events[..k + 1]) ==
      if events[k].Scraped? then FileLabel(events[k].annee, events[k].typrgp, events[k].base)
      else FileAfter(file, events[..k])
  {
    assert events[..k + 1][..k] == events[..k];
  }

  /**
   * The state after one event: a record is emitted into the buffer; a
   * scrape shows its combination and bumps one counter, and recomputes the
   * progress unless no file is expected (the division then raises).
   */
  function Step(s: Status, e: Event): Status {
    match e
    case Logged(entry) => s.(logs := Last(s.logs + [entry], MaxLogs))
    case Scraped(annee, typrgp, base, result) =>
      var successful := s.successful + (if result then 1 else 0);
      var failed := s.failed + (if result then 0 else 1);
      s.(currentFile := FileLabel(annee, typrgp, base), successful := successful, failed := failed,
         progress := if s.totalFiles > 0 then Percent(successful + failed, s.totalFiles) else s.progress)
  }

  /** The state after `events`, one `Step` at a time. */
  function After(s: Status, events: seq<Event>): Status {
    if events == [] then s else Step(After(s, events[..|events| - 1]), events[|events| - 1])
  }

  /** Extending a prefix of the events by one more step. */
  lemma AfterSnoc(s: Status, events: seq<Event>, k: nat)
    requires k < |events|
    ensures After(s, events[..k + 1]) == Step(After(s, events[..k]), events[k])
  {
    assert events[..k + 1][..k] == events[..k];
  }

  /**
   * What the events leave, field by field: the buffer holds the records
   * as `Emit` keeps them, each counter has grown by its scrapes, the current
   * file is that of the last scrape, and the expected count and the running
   * flag are untouched.
   */
  lemma {:induction false} AfterFields(s: Status, events: seq<Event>)
    ensures var t := After(s, events);
      && t.logs == LogsAfter(s.logs, events)
      && t.successful == s.successful + Scrapes(events, true)
      && t.failed == s.failed + Scrapes(events, false)
      && t.currentFile == FileAfter(s.currentFile, events)
      && t.totalFiles == s.totalFiles && t.isRunning == s.isRunning
  {
    if events != [] {
      AfterFields(s, events[..|events| - 1]);
    }
  }

  /** The progress stays as it was while no file is expected or nothing has been scraped. */
  lemma {:induction false} AfterProgressKept(s: Status, events: seq<Event>)
    requires s.totalFiles == 0 || ScrapeCount(events) == 0
    ensures After(s, events).progress == s.progress
  {
    if events != [] {
      var front := events[..|events| - 1];
      var e := events[|events| - 1];
      ScrapeCountLast(events);
      AfterKeepsTotal(s, front);
      AfterProgressKept(s, front);
      assert After(s, events) == Step(After(s, front), e);
    }
  }

  /** Once a file is expected and something has been scraped, the progress is the share of scrapes done. */
  lemma {:induction false} AfterProgressShare(s: Status, events: seq<Event>)
    requires s.totalFiles > 0 && ScrapeCount(events) > 0
    ensures var t := After(s, events); t.progress == Percent(t.successful + t.failed, s.totalFiles)
  {
    var front := events[..|events| - 1];
    var e := events[|events| - 1];
    ScrapeCountLast(events);
    AfterKeepsTotal(s, front);
    assert After(s, events) == Step(After(s, front), e);
    if e.Logged? {
      AfterProgressShare(s, front);
    }
  }

  /** No event changes the number of files expected. */
  lemma {:induction false} AfterKeepsTotal(s: Status, events: seq<Event>)
    ensures After(s, events).totalFiles == s.totalFiles
  {
    if events != [] {
      AfterKeepsTotal(s, events[..|events| - 1]);
    }
  }

  /** The last event adds one to the scrapes if it is one. */
  lemma ScrapeCountLast(events: seq<Event>)
    requires events != []
    ensures ScrapeCount(events) == ScrapeCount(events[..|events| - 1]) + (if events[|events| - 1].Scraped? then 1 else 0)
  {
  }

  /** Each scrape counts once, as a success or as a failure. */
  lemma {:induction false} ScrapesPartition(events: seq<Event>)
    ensures Scrapes(events, true) + Scrapes(events, false) == |set k | 0 <= k < |events| && events[k].Scraped?|
  {
    if events != [] {
      var front := events[..|events| - 1];
      ScrapesPartition(front);
      var before := set k | 0 <= k < |front| && front[k].Scraped?;
      var now := set k | 0 <= k < |events| && events[k].Scraped?;
      if events[|events| - 1].Scraped? {
        assert now == before + {|events| - 1};
      } else {
        assert now == before;
      }
    }
  }

  /** The log buffer never holds more than `MaxLogs` entries once a record has been emitted into it. */
  lemma {:induction false} LogsAfterBounded(logs: seq<LogEntry>, events: seq<Event>)
    requires |logs| <= MaxLogs
    ensures |LogsAfter(logs, events)| <= MaxLogs
  {
    if events != [] {
      LogsAfterBounded(logs, events[..|events| - 1]);
    }
  }

  /** Index of the first scrape in `events`, `|events|` if there is none. */
  function FirstScrape(events: seq<Event>): (k: nat)
    ensures k <= |events| && (k < |events| ==> events[k].Scraped?)
    ensures forall m :: 0 <= m < k ==> events[m].Logged?
  {
    if events == [] then 0
    else if events[0].Scraped? then 0
    else 1 + FirstScrape(events[1..])
  }

  class AppState {
    var isRunning: bool
    var progress: nat
    var currentFile: string
    var totalFiles: nat
    var successful: nat
    var failed: nat
    var logs: seq<LogEntry>

    /** The state the application starts in. */
    constructor ()
      ensures !isRunning && progress == 0 && currentFile == "" && totalFiles == 0
      ensures successful == 0 && failed == 0 && logs == []
    {
      isRunning, progress, currentFile, totalFiles := false, 0, "", 0;
      successful, failed, logs := 0, 0, [];
    }

    /** `WebLogger.emit`: the entry is appended and the buffer cut back to its last 100 entries. */
    method Emit(entry: LogEntry)
      modifies this`logs
      ensures logs == Last(old(logs) + [entry], MaxLogs)
      ensures |logs| <= MaxLogs && logs[|logs| - 1] == entry
      ensures |old(logs)| < MaxLogs ==> logs == old(logs) + [entry]
    {
      logs := logs + [entry];
      if |logs| > MaxLogs {
        logs := logs[|logs| - MaxLogs..];
      }
    }

    /** `get_status`: the state, with only the last 20 log entries. */
    function GetStatus(): (s: Status)
      reads this
      ensures |s.logs| <= StatusLogs && |s.logs| <= |logs| && s.logs == logs[|logs| - |s.logs|..]
      ensures |logs| >= StatusLogs ==> |s.logs| == StatusLogs
      ensures |logs| < StatusLogs ==> s.logs == logs
      ensures s.isRunning == isRunning && s.successful == successful && s.failed == failed
      ensures s.progress == progress && s.currentFile == currentFile && s.totalFiles == totalFiles
    {
      Status(isRunning, progress, currentFile, totalFiles, successful, failed, Last(logs, StatusLogs))
    }

    /**
     * `start_collection` as written: refused while a run is marked as
     * running; otherwise the counters, the progress and the current file
     * are reset and the thread is started, but the running flag is left
     * for the thread to set.
     */
    method StartCollectionAsWritten() returns (started: bool)
      modifies this
      ensures started <==> !old(isRunning)
      ensures started ==> successful == 0 && failed == 0 && progress == 0 && currentFile == ""
      ensures isRunning == old(isRunning) && totalFiles == old(totalFiles) && logs == old(logs)
      ensures !started ==> (successful == old(successful) && failed == old(failed) &&
                            progress == old(progress) && currentFile == old(currentFile))
    {
      if isRunning {
        return false;
      }
      successful, failed, progress, currentFile := 0, 0, 0, "";
      return true;
    }

    /** `start_collection` with the running flag set before the thread is started. */
    method StartCollection() returns (started: bool)
      modifies this
      ensures started <==> !old(isRunning)
      ensures isRunning
      ensures started ==> successful == 0 && failed == 0 && progress == 0 && currentFile == ""
      ensures totalFiles == old(totalFiles) && logs == old(logs)
      ensures !started ==> (successful == old(successful) && failed == old(failed) &&
                            progress == old(progress) && currentFile == old(currentFile))
    {
      if isRunning {
        return false;
      }
      successful, failed, progress, currentFile := 0, 0, 0, "";
      isRunning := true;
      return true;
    }

    /**
     * `tracked_scrape`: shows the combination, bumps exactly one counter
     * (`successful` only for a `True` result) and recomputes the progress;
     * with no expected file the division raises and the progress stays.
     */
    method TrackedScrape(annee: string, typrgp: string, base: string, result: bool) returns (raised: bool)
      modifies this`currentFile, this`successful, this`failed, this`progress
      ensures currentFile == FileLabel(annee, typrgp, base)
      ensures result ==> successful == old(successful) + 1 && failed == old(failed)
      ensures !result ==> failed == old(failed) + 1 && successful == old(successful)
      ensures raised <==> totalFiles == 0
      ensures raised ==> progress == old(progress)
      ensures !raised ==> progress == Percent(successful + failed, totalFiles)
    {
      currentFile := FileLabel(annee, typrgp, base);
      if result {
        successful := successful + 1;
      } else {
        failed := failed + 1;
      }
      if totalFiles == 0 {
        return true;
      }
      progress := Percent(successful + failed, totalFiles);
      return false;
    }

    /** One event of the automation: a record goes through `Emit`, a scrape through `TrackedScrape`. */
    method Play(event: Event) returns (raised: bool)
      modifies this`logs, this`currentFile, this`successful, this`failed, this`progress
      ensures raised <==> event.Scraped? && totalFiles == 0
      ensures Snapshot() == Step(old(Snapshot()), event)
    {
      match event {
        case Logged(entry) =>
          Emit(entry);
          raised := false;
        case Scraped(annee, typrgp, base, result) =>
          raised := TrackedScrape(annee, typrgp, base, result);
      }
    }

    /** The whole state, log buffer included. */
    ghost function Snapshot(): Status
      reads this
    {
      Status(isRunning, progress, currentFile, totalFiles, successful, failed, logs)
    }

    /**
     * The automation's events, in order, until a scrape raises: each record
     * goes through `Emit`, each scrape through `TrackedScrape`. With no
     * expected file the first scrape raises and ends the replay.
     */
    method Replay(events: seq<Event>) returns (raised: bool, done: nat)
      modifies this`logs, this`currentFile, this`successful, this`failed, this`progress
      ensures raised <==> totalFiles == 0 && FirstScrape(events) < |events|
      ensures done == if raised then FirstScrape(events) + 1 else |events|
      ensures Snapshot() == After(old(Snapshot()), events[..done])
    {
      ghost var start := Snapshot();
      raised, done := false, 0;
      while done < |events|
        invariant done <= |events|
        invariant totalFiles > 0 || done <= FirstScrape(events)
        invariant Snapshot() == After(start, events[..done])
      {
        raised := Play(events[done]);
        AfterSnoc(start, events, done);
        done := done + 1;
        if raised {
          return;
        }
      }
      assert events[..done] == events;
    }

    /**
     * The thread once the combinations are counted: the automation is
     * played, and the run ends with the division error of a scrape made
     * while no file is expected, or else with the automation's own
     * exception, if any.
     */
    method RunCounted(automation: Automation) returns (error: Option<string>)
      requires automation.combinations.Returned? && totalFiles == automation.combinations.value
      modifies this`logs, this`currentFile, this`successful, this`failed, this`progress
      ensures error == ThreadError(automation)
      ensures Snapshot() == After(old(Snapshot()), Ran(automation))
    {
      var raised, done := Replay(automation.events);
      if raised {
        error := Some(DivisionByZero);
      } else {
        error := automation.crash;
      }
      assert Ran(automation) == automation.events[..done];
    }

    /**
     * The thread's `try` block after its reset: the combinations are
     * obtained and counted, then the automation is played; the result is
     * the exception that ends the block, if any.
     */
    method Collect(automation: Automation) returns (error: Option<string>)
      modifies this`logs, this`currentFile, this`successful, this`failed, this`progress, this`totalFiles
      ensures error == ThreadError(automation)
      ensures logs == LogsAfter(old(logs), Ran(automation))
      ensures automation.combinations.Raised? ==>
        progress == old(progress) && totalFiles == old(totalFiles) && successful == old(successful) &&
        failed == old(failed) && currentFile == old(currentFile)
      ensures automation.combinations.Returned? ==>
        totalFiles == automation.combinations.value &&
        successful == old(successful) + Scrapes(Ran(automation), true) &&
        failed == old(failed) + Scrapes(Ran(automation), false) &&
        currentFile == FileAfter(old(currentFile), Ran(automation)) &&
        progress == if totalFiles > 0 && ScrapeCount(Ran(automation)) > 0 then Percent(successful + failed, totalFiles)
                    else old(progress)
    {
      match automation.combinations {
        case Raised(message) =>
          error := Some(message);
          assert Ran(automation) == [];
        case Returned(count) =>
          totalFiles := count;
          ghost var start := Snapshot();
          error := RunCounted(automation);
          ThreadState(start, automation, Snapshot());
      }
    }

    /**
     * `run_automation_thread`: marks the run as started and empties the
     * log buffer, obtains the combinations and records their number, plays
     * the automation with its records and scrapes routed to this state,
     * then either marks the run as finished at 100% or, on any exception,
     * clears the running flag and appends one error entry, untrimmed.
     */
    method RunAutomationThread(automation: Automation, now: string)
      modifies this
      ensures !isRunning
      ensures automation.combinations.Raised? ==>
        progress == 0 && totalFiles == old(totalFiles) && successful == old(successful) &&
        failed == old(failed) && currentFile == old(currentFile)
      ensures automation.combinations.Returned? ==>
        var ran := Ran(automation);
        totalFiles == automation.combinations.value &&
        successful == old(successful) + Scrapes(ran, true) &&
        failed == old(failed) + Scrapes(ran, false) &&
        currentFile == FileAfter(old(currentFile), ran) &&
        (ThreadError(automation).None? ==> progress == 100) &&
        (ThreadError(automation).Some? ==>
          progress == if totalFiles > 0 && ScrapeCount(ran) > 0 then Percent(successful + failed, totalFiles) else 0)
      ensures logs == LogsAfter([], Ran(automation)) +
        if ThreadError(automation).Some? then [ErrorEntry(now, ThreadError(automation).value)] else []
      ensures |logs| <= MaxLogs + 1
    {
      isRunning := true;
      progress := 0;
      logs := [];
      var error := Collect(automation);
      LogsAfterBounded([], Ran(automation));
      isRunning := false;
      if error.Some? {
        logs := logs + [ErrorEntry(now, error.value)];
      } else {
        progress := 100;
      }
    }
  }

  /** Number of events the automation plays before it stops: a scrape with no expected file raises. */
  function Processed(automation: Automation): (n: nat)
    requires automation.combinations.Returned?
    ensures n <= |automation.events|
  {
    if automation.combinations.value == 0 && FirstScrape(automation.events) < |automation.events|
    then FirstScrape(automation.events) + 1
    else |automation.events|
  }

  /** The state the thread's replay leaves, in terms of the events it ran. */
  lemma ThreadState(start: Status, automation: Automation, t: Status)
    requires automation.combinations.Returned? && start.totalFiles == automation.combinations.value
    requires t == After(start, Ran(automation))
    ensures t.logs == LogsAfter(start.logs, Ran(automation))
    ensures t.successful == start.successful + Scrapes(Ran(automation), true)
    ensures t.failed == start.failed + Scrapes(Ran(automation), false)
    ensures t.currentFile == FileAfter(start.currentFile, Ran(automation))
    ensures t.totalFiles == start.totalFiles && t.isRunning == start.isRunning
    ensures start.totalFiles == 0 || ScrapeCount(Ran(automation)) == 0 ==> t.progress == start.progress
    ensures start.totalFiles > 0 && ScrapeCount(Ran(automation)) > 0 ==>
      t.progress == Percent(t.successful + t.failed, start.totalFiles)
  {
    AfterFields(start, Ran(automation));
    if start.totalFiles > 0 && ScrapeCount(Ran(automation)) > 0 {
      AfterProgressShare(start, Ran(automation));
    } else {
      AfterProgressKept(start, Ran(automation));
    }
  }

  /** The events played in the thread. */
  function Ran(automation: Automation): seq<Event> {
    if automation.combinations.Raised? then [] else automation.events[..Processed(automation)]
  }

  /** The exception the thread catches, if any. */
  function ThreadError(automation: Automation): Option<string> {
    match automation.combinations
    case Raised(message) => Some(message)
    case Returned(count) =>
      if count == 0 && FirstScrape(automation.events) < |automation.events| then Some(DivisionByZero)
      else automation.crash
  }

  /**
   * Two starts before the thread has run: as written both are accepted,
   * so two collection threads are started.
   */
  method DoubleStartAsWritten() returns (first: bool, second: bool)
    ensures first && second
  {
    var state := new AppState();
    first := state.StartCollectionAsWritten();
    second := state.StartCollectionAsWritten();
  }

  /** The same two starts when the start marks the run as running: the second is refused. */
  method DoubleStart() returns (first: bool, second: bool)
    ensures first && !second
  {
    var state := new AppState();
    first := state.StartCollection();
    second := state.StartCollection();
  }
}
