/**
 * The log book held by the App component: a list of logs, the index of the
 * current log and the text of the number input, together with the state
 * transitions its event handlers perform. Each transition is a pure function
 * from the old state (and the handler's inputs) to the new one; the class in
 * module NumberLogger applies them in place.
 */
module LogBook {
  import opened Wrappers

  /** A JavaScript `Date`: milliseconds since the epoch. */
  datatype Instant = Instant(millis: int)

  /** A logged number: a JavaScript number that is not NaN. The model does no arithmetic on it. */
  type Value = real

  /** One measurement. `T` is the type of its time stamp: `Instant` in memory, `string` as saved. */
  datatype Entry<T> = Entry(time: T, value: Value)

  /** A named series of measurements with a unit label. */
  datatype Log<T> = Log(name: string, units: string, entries: seq<Entry<T>>)

  /** The component state: the number input's text, the selected log, and the logs. */
  datatype AppState = AppState(newValue: string, currentLogIndex: int, logs: seq<Log<Instant>>)

  /** The log a fresh browser starts with. */
  const InitialLog: Log<Instant> := Log("initial log", "#", [])

  /** The log that "Add a new Log" creates. */
  const UnnamedLog: Log<Instant> := Log("unnamed", "#", [])

  /** The state used when nothing usable is saved. */
  const DefaultState: AppState := AppState("", 0, [InitialLog])

  /** There is a current log: the one the render shows and the Delete and Add controls act on. */
  predicate HasCurrentLog(s: AppState)
  {
    0 <= s.currentLogIndex < |s.logs|
  }

  /**
   * The states the handlers can reach from the default state: the index selects
   * a log, or it is -1 because the last log was deleted.
   */
  predicate Consistent(s: AppState)
  {
    HasCurrentLog(s) || (s.currentLogIndex == -1 && s.logs == [])
  }

  /** Number of entries over all logs. */
  function TotalEntries<T>(logs: seq<Log<T>>): nat
  {
    if logs == [] then 0 else |logs[0].entries| + TotalEntries(logs[1..])
  }

  // ---------------------------------------------------------------------------
  // Transitions
  // ---------------------------------------------------------------------------

  /** `handleNewValueChange`: the input's text is stored verbatim; it is validated only on Add. */
  function SetNewValue(s: AppState, text: string): (r: AppState)
    ensures r.newValue == text
    ensures r.logs == s.logs && r.currentLogIndex == s.currentLogIndex
  {
    s.(newValue := text)
  }

  /** `addLog`: append an unnamed log and make it current. */
  function AddLog(s: AppState): (r: AppState)
    ensures |r.logs| == |s.logs| + 1
    ensures r.logs[..|s.logs|] == s.logs
    ensures r.logs[|s.logs|] == Log("unnamed", "#", [])
    ensures r.currentLogIndex == |s.logs| && HasCurrentLog(r)
    ensures r.newValue == s.newValue
  {
    s.(currentLogIndex := |s.logs|, logs := s.logs + [UnnamedLog])
  }

  /**
   * `handleLogChange`: the selector offers the indices of the logs plus one
   * more entry, "(Add a new Log...)". An existing index is selected; any other
   * choice adds a log.
   */
  function SelectLog(s: AppState, newIndex: nat): (r: AppState)
    ensures newIndex < |s.logs| ==>
      r.currentLogIndex == newIndex && r.logs == s.logs && r.newValue == s.newValue
    ensures newIndex >= |s.logs| ==> r == AddLog(s)
    ensures r.logs == s.logs <==> newIndex < |s.logs|
    ensures HasCurrentLog(r)
  {
    if newIndex < |s.logs| then s.(currentLogIndex := newIndex) else AddLog(s)
  }

  /**
   * `deleteCurrentLog`. Without a current log, or when the user declines the
   * confirmation, nothing happens. Otherwise the current log is removed and
   * the index moves to min(old index, old length - 2): the log that followed,
   * or the new last log, or -1 when no log is left.
   * A negative index is excluded: `deleteCurrentLog` reads `logs[index].name`
   * for the confirmation prompt, which fails for it, and the render hides or
   * disables Delete then.
   */
  function DeleteCurrentLog(s: AppState, confirmed: bool): (r: AppState)
    requires 0 <= s.currentLogIndex
    ensures r == s <==> (s.currentLogIndex >= |s.logs| || !confirmed)
    ensures r != s ==>
      var i := s.currentLogIndex;
      && |r.logs| == |s.logs| - 1
      && (forall j :: 0 <= j < i ==> r.logs[j] == s.logs[j])
      && (forall j :: i <= j < |r.logs| ==> r.logs[j] == s.logs[j + 1])
      && r.currentLogIndex == (if i <= |s.logs| - 2 then i else |s.logs| - 2)
      && r.newValue == s.newValue
      && Consistent(r)
  {
    var i := s.currentLogIndex;
    if i >= |s.logs| || !confirmed then s
    else
      var newIndex := if i < |s.logs| - 2 then i else |s.logs| - 2;
      s.(currentLogIndex := newIndex, logs := s.logs[..i] + s.logs[i + 1..])
  }

  /**
   * `addNewValue`. The input text is parsed (`parse` stands for `parseFloat`,
   * None for NaN); an unparseable text or a missing current log changes
   * nothing, and the text is kept. Otherwise an entry stamped `now` is pushed
   * onto the current log and the input is cleared.
   * The parse is checked first, so a NaN input is harmless whatever the index;
   * with a number and a negative index the update in `addNewValue` would
   * fail, and the render hides the input then.
   */
  function AddNewValue(s: AppState, parse: string -> Option<Value>, now: Instant): (r: AppState)
    requires parse(s.newValue).Some? ==> 0 <= s.currentLogIndex
    ensures r == s <==> (parse(s.newValue).None? || s.currentLogIndex >= |s.logs|)
    ensures r != s ==>
      var i := s.currentLogIndex;
      && r.newValue == ""
      && r.currentLogIndex == i
      && |r.logs| == |s.logs|
      && (forall j :: 0 <= j < |s.logs| && j != i ==> r.logs[j] == s.logs[j])
      && r.logs[i].name == s.logs[i].name
      && r.logs[i].units == s.logs[i].units
      && r.logs[i].entries == s.logs[i].entries + [Entry(now, parse(s.newValue).value)]
  {
    match parse(s.newValue)
    case None => s
    case Some(v) =>
      if s.currentLogIndex >= |s.logs| then s
      else
        var log := s.logs[s.currentLogIndex];
        s.(newValue := "",
           logs := s.logs[s.currentLogIndex := log.(entries := log.entries + [Entry(now, v)])])
  }

  // ---------------------------------------------------------------------------
  // Properties
  // ---------------------------------------------------------------------------

  /** The default state is one empty "initial log", selected, with an empty input. */
  lemma DefaultStateShape()
    ensures DefaultState.logs == [Log("initial log", "#", [])]
    ensures DefaultState.currentLogIndex == 0 && DefaultState.newValue == ""
    ensures Consistent(DefaultState) && TotalEntries(DefaultState.logs) == 0
  {
  }

  /** In a consistent state there is a current log exactly when there is a log. */
  lemma ConsistentHasCurrentLog(s: AppState)
    requires Consistent(s)
    ensures HasCurrentLog(s) <==> s.logs != []
    ensures s.logs != [] ==> 0 <= s.currentLogIndex
  {
  }

  /** Every handler keeps a consistent state consistent. */
  lemma HandlersPreserveConsistency(s: AppState, text: string, newIndex: nat, confirmed: bool,
                                    parse: string -> Option<Value>, now: Instant)
    requires Consistent(s)
    ensures Consistent(SetNewValue(s, text))
    ensures Consistent(AddLog(s))
    ensures Consistent(SelectLog(s, newIndex))
    ensures 0 <= s.currentLogIndex ==> Consistent(DeleteCurrentLog(s, confirmed))
    ensures (parse(s.newValue).None? || 0 <= s.currentLogIndex) ==>
      Consistent(AddNewValue(s, parse, now))
  {
  }

  /** Total entries split over a concatenation of log lists. */
  lemma {:induction false} TotalEntriesAppend<T>(a: seq<Log<T>>, b: seq<Log<T>>)
    ensures TotalEntries(a + b) == TotalEntries(a) + TotalEntries(b)
  {
    if a == [] {
      assert a + b == b;
    } else {
      assert (a + b)[1..] == a[1..] + b;
      TotalEntriesAppend(a[1..], b);
    }
  }

  /** Total entries after one log of the list is replaced by another. */
  lemma TotalEntriesReplace<T>(logs: seq<Log<T>>, i: nat, log: Log<T>)
    requires i < |logs|
    ensures TotalEntries(logs[i := log]) == TotalEntries(logs) - |logs[i].entries| + |log.entries|
  {
    assert logs == logs[..i] + [logs[i]] + logs[i + 1..];
    assert logs[i := log] == logs[..i] + [log] + logs[i + 1..];
    TotalEntriesAppend(logs[..i] + [logs[i]], logs[i + 1..]);
    TotalEntriesAppend(logs[..i], [logs[i]]);
    TotalEntriesAppend(logs[..i] + [log], logs[i + 1..]);
    TotalEntriesAppend(logs[..i], [log]);
  }

  /** A successful Add logs exactly one entry in the whole book. */
  lemma AddNewValueAddsOneEntry(s: AppState, parse: string -> Option<Value>, now: Instant)
    requires HasCurrentLog(s) && parse(s.newValue).Some?
    ensures TotalEntries(AddNewValue(s, parse, now).logs) == TotalEntries(s.logs) + 1
  {
    var i := s.currentLogIndex;
    var log := s.logs[i];
    TotalEntriesReplace(s.logs, i, log.(entries := log.entries + [Entry(now, parse(s.newValue).value)]));
  }

  /**
   * Typing a number and pressing Add logs that number, stamped `now`, as the
   * last entry of the current log, and clears the input.
   */
  lemma TypedNumberIsLogged(s: AppState, text: string, parse: string -> Option<Value>, v: Value, now: Instant)
    requires HasCurrentLog(s) && parse(text) == Some(v)
    ensures var r := AddNewValue(SetNewValue(s, text), parse, now);
      var es := r.logs[s.currentLogIndex].entries;
      && |es| == |s.logs[s.currentLogIndex].entries| + 1
      && es[|es| - 1] == Entry(now, v)
      && r.newValue == ""
  {
  }

  /** Typing text that is not a number and pressing Add leaves the logs alone. */
  lemma TypedNonNumberIsIgnored(s: AppState, text: string, parse: string -> Option<Value>, now: Instant)
    requires parse(text).None?
    ensures AddNewValue(SetNewValue(s, text), parse, now) == SetNewValue(s, text)
  {
  }

  /**
   * Deletion removes exactly the current log: putting it back where it was
   * gives the old list.
   */
  lemma DeleteRemovesCurrentLog(s: AppState)
    requires HasCurrentLog(s)
    ensures var r := DeleteCurrentLog(s, true);
      var i := s.currentLogIndex;
      i <= |r.logs| && r.logs[..i] + [s.logs[i]] + r.logs[i..] == s.logs
  {
  }

  /** Deletion keeps every other log: as a multiset, the logs lose the current one only. */
  lemma DeleteKeepsOtherLogs(s: AppState)
    requires HasCurrentLog(s)
    ensures multiset(DeleteCurrentLog(s, true).logs) + multiset{s.logs[s.currentLogIndex]} == multiset(s.logs)
  {
    var i := s.currentLogIndex;
    DeleteRemovesCurrentLog(s);
    var r := DeleteCurrentLog(s, true);
    assert multiset(r.logs[..i] + [s.logs[i]] + r.logs[i..])
        == multiset(r.logs[..i]) + multiset{s.logs[i]} + multiset(r.logs[i..]);
    assert r.logs == r.logs[..i] + r.logs[i..];
  }

  /** Deletion loses exactly the entries of the deleted log. */
  lemma DeleteDropsCurrentEntries(s: AppState)
    requires HasCurrentLog(s)
    ensures TotalEntries(DeleteCurrentLog(s, true).logs)
         == TotalEntries(s.logs) - |s.logs[s.currentLogIndex].entries|
  {
    var i := s.currentLogIndex;
    assert s.logs == s.logs[..i] + [s.logs[i]] + s.logs[i + 1..];
    TotalEntriesAppend(s.logs[..i] + [s.logs[i]], s.logs[i + 1..]);
    TotalEntriesAppend(s.logs[..i], [s.logs[i]]);
    TotalEntriesAppend(s.logs[..i], s.logs[i + 1..]);
  }

  /** Deleting the log just added gives the old list back, with its last log selected. */
  lemma DeleteUndoesAddLog(s: AppState)
    ensures var r := DeleteCurrentLog(AddLog(s), true);
      r.logs == s.logs && r.currentLogIndex == |s.logs| - 1 && r.newValue == s.newValue
  {
    var a := AddLog(s);
    assert a.logs[..|s.logs|] == s.logs;
  }

  /** Deleting the middle of three logs selects the log that followed it. */
  lemma DeleteMiddleOfThree(a: Log<Instant>, b: Log<Instant>, c: Log<Instant>, text: string)
    ensures DeleteCurrentLog(AppState(text, 1, [a, b, c]), true) == AppState(text, 1, [a, c])
  {
  }

  /** Deleting the only log leaves no log and the index -1. */
  lemma DeleteOnlyLog(a: Log<Instant>, text: string)
    ensures DeleteCurrentLog(AppState(text, 0, [a]), true) == AppState(text, -1, [])
  {
  }
}
