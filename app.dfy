/**
 * The App component: its state lives in three fields that the event handlers
 * replace. Each handler is proved to leave exactly the state the matching
 * transition of module LogBook computes; the constructor loads it as module
 * Loading describes.
 */
module NumberLogger {
  import opened Wrappers
  import LogBook
  import Loading

  class App {
    /** Current text of the numeric input field. */
    var newValue: string
    /** Which log is displayed; -1 once the last log has been deleted. */
    var currentLogIndex: int
    /** The logs, in the order of the selector. */
    var logs: seq<LogBook.Log<LogBook.Instant>>

    /** The component state as one value. */
    function State(): LogBook.AppState
      reads this
    {
      LogBook.AppState(newValue, currentLogIndex, logs)
    }

    /**
     * Restore the saved state, rehydrating its times and migrating a missing
     * index, or start from the default state when nothing usable is saved.
     */
    constructor (item: Option<string>, decode: string -> Option<Loading.SavedState>,
                 toDate: string -> LogBook.Instant)
      ensures State() == Loading.Load(item, decode, toDate)
    {
      var loaded: Option<LogBook.AppState> := None;
      if item.Some? && item.value != "" {
        var parsed := decode(item.value);
        if parsed.Some? {
          var saved := parsed.value;
          var remapped := Loading.RemapTimes(saved.logs, toDate);
          var index := if saved.currentLogIndex.Some? then saved.currentLogIndex.value else 0;
          loaded := Some(LogBook.AppState(saved.newValue, index, remapped));
        }
      }
      var start := if loaded.Some? then loaded.value else LogBook.DefaultState;
      newValue := start.newValue;
      currentLogIndex := start.currentLogIndex;
      logs := start.logs;
    }

    /** The number input changed. */
    method HandleNewValueChange(text: string)
      modifies this
      ensures State() == LogBook.SetNewValue(old(State()), text)
    {
      newValue := text;
    }

    /** The log selector changed to option `newIndex`. */
    method HandleLogChange(newIndex: nat)
      modifies this
      ensures State() == LogBook.SelectLog(old(State()), newIndex)
    {
      if newIndex < |logs| {
        currentLogIndex := newIndex;
      } else {
        AddLog();
      }
    }

    /** Create a new log and make it current. */
    method AddLog()
      modifies this
      ensures State() == LogBook.AddLog(old(State()))
    {
      currentLogIndex, logs := |logs|, logs + [LogBook.UnnamedLog];
    }

    /** The Delete button; `confirmed` is the user's answer to the confirmation prompt. */
    method DeleteCurrentLog(confirmed: bool)
      requires 0 <= currentLogIndex
      modifies this
      ensures State() == LogBook.DeleteCurrentLog(old(State()), confirmed)
    {
      if currentLogIndex >= |logs| {
        return;
      }
      if !confirmed {
        return;
      }
      var newIndex := if currentLogIndex < |logs| - 2 then currentLogIndex else |logs| - 2;
      logs := logs[..currentLogIndex] + logs[currentLogIndex + 1..];
      currentLogIndex := newIndex;
    }

    /**
     * The Add button: `parse` stands for `parseFloat` (None for NaN) and
     * `now` for the `new Date()` that stamps the entry.
     */
    method AddNewValue(parse: string -> Option<LogBook.Value>, now: LogBook.Instant)
      requires parse(newValue).Some? ==> 0 <= currentLogIndex
      modifies this
      ensures State() == LogBook.AddNewValue(old(State()), parse, now)
    {
      var value := parse(newValue);
      if value.None? {
        return;
      }
      if currentLogIndex >= |logs| {
        return;
      }
      var log := logs[currentLogIndex];
      newValue := "";
      logs := logs[currentLogIndex := log.(entries := log.entries + [LogBook.Entry(now, value.value)])];
    }
  }

  /**
   * A session from an empty storage: the default log is current, a number is
   * typed and added, a second log is created and deleted again.
   */
  method Session(parse: string -> Option<LogBook.Value>, v: LogBook.Value, now: LogBook.Instant,
                 decode: string -> Option<Loading.SavedState>, toDate: string -> LogBook.Instant)
    returns (app: App)
    requires parse("42") == Some(v)
    ensures app.logs == [LogBook.Log("initial log", "#", [LogBook.Entry(now, v)])]
    ensures app.currentLogIndex == 0 && app.newValue == ""
  {
    app := new App(None, decode, toDate);
    assert app.logs == [LogBook.Log("initial log", "#", [])] && app.currentLogIndex == 0;
    app.HandleNewValueChange("42");
    ghost var typed := app.State();
    app.AddNewValue(parse, now);
    assert app.State() != typed;
    assert app.logs[0].entries == [] + [LogBook.Entry(now, v)];
    assert app.logs[0] == LogBook.Log("initial log", "#", [LogBook.Entry(now, v)]);
    ghost var logged := app.logs;
    assert logged == [LogBook.Log("initial log", "#", [LogBook.Entry(now, v)])];
    app.AddLog();
    app.DeleteCurrentLog(true);
    LogBook.DeleteUndoesAddLog(LogBook.AppState("", 0, logged));
  }
}
