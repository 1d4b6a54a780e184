/**
 * Loading the log book when the component is constructed, and the form in
 * which it is saved after every change. Saved state is JSON: entry times are
 * ISO-8601 strings there and become `Date`s again on load; states saved
 * before `currentLogIndex` existed lack that field.
 */
module Loading {
  import opened Wrappers
  import opened LogBook

  /**
   * The tree that `JSON.parse` gives back for a saved state: times are still
   * strings, and `currentLogIndex` may be missing.
   */
  datatype SavedState = SavedState(newValue: string, currentLogIndex: Option<int>, logs: seq<Log<string>>)

  /** The entries in the same order, each time stamp passed through `f`, each value kept. */
  function MapEntryTimes<A, B>(es: seq<Entry<A>>, f: A -> B): (r: seq<Entry<B>>)
    ensures |r| == |es|
    ensures forall k :: 0 <= k < |es| ==> r[k] == Entry(f(es[k].time), es[k].value)
  {
    if es == [] then []
    else MapEntryTimes(es[..|es| - 1], f) + [Entry(f(es[|es| - 1].time), es[|es| - 1].value)]
  }

  /** The logs in the same order, with names and units kept and every entry's time passed through `f`. */
  function MapLogTimes<A, B>(logs: seq<Log<A>>, f: A -> B): (r: seq<Log<B>>)
    ensures |r| == |logs|
    ensures forall k :: 0 <= k < |logs| ==>
      r[k] == Log(logs[k].name, logs[k].units, MapEntryTimes(logs[k].entries, f))
  {
    if logs == [] then []
    else
      var last := logs[|logs| - 1];
      MapLogTimes(logs[..|logs| - 1], f) + [Log(last.name, last.units, MapEntryTimes(last.entries, f))]
  }

  /**
   * The nested `forEach` of the constructor that turns every entry's time
   * string into a `Date` (`toDate` stands for `new Date(text)`).
   */
  method RemapTimes(logs: seq<Log<string>>, toDate: string -> Instant) returns (r: seq<Log<Instant>>)
    ensures r == MapLogTimes(logs, toDate)
  {
    r := [];
    var i := 0;
    while i < |logs|
      invariant 0 <= i <= |logs|
      invariant |r| == i
      invariant forall k :: 0 <= k < i ==>
        r[k] == Log(logs[k].name, logs[k].units, MapEntryTimes(logs[k].entries, toDate))
    {
      var log := logs[i];
      var entries: seq<Entry<Instant>> := [];
      var j := 0;
      while j < |log.entries|
        invariant 0 <= j <= |log.entries|
        invariant |entries| == j
        invariant forall k :: 0 <= k < j ==>
          entries[k] == Entry(toDate(log.entries[k].time), log.entries[k].value)
      {
        entries := entries + [Entry(toDate(log.entries[j].time), log.entries[j].value)];
        j := j + 1;
      }
      r := r + [Log(log.name, log.units, entries)];
      i := i + 1;
    }
  }

  /** The migration of a missing `currentLogIndex`: absent means 0. */
  function MigrateIndex(saved: Option<int>): (r: int)
    ensures saved.None? ==> r == 0
    ensures saved.Some? ==> r == saved.value
  {
    match saved
    case None => 0
    case Some(i) => i
  }

  /** A successfully parsed saved state, with its times rehydrated and its index migrated. */
  function Restore(saved: SavedState, toDate: string -> Instant): (r: AppState)
    ensures r.newValue == saved.newValue
    ensures r.currentLogIndex == MigrateIndex(saved.currentLogIndex)
    ensures r.logs == MapLogTimes(saved.logs, toDate)
  {
    AppState(saved.newValue, MigrateIndex(saved.currentLogIndex), MapLogTimes(saved.logs, toDate))
  }

  /**
   * The state the constructor starts from. `item` is what storage holds under
   * "state" (None when nothing is stored); `decode` stands for `JSON.parse`
   * together with the accesses to `state.logs` and `log.entries`, None when
   * any of them throws. No item, an empty item, or a failed decode all give
   * the default state.
   */
  function Load(item: Option<string>, decode: string -> Option<SavedState>, toDate: string -> Instant): (r: AppState)
    ensures (item.None? || item.value == "" || decode(item.value).None?) ==>
      r.logs == [Log("initial log", "#", [])] && r.currentLogIndex == 0 && r.newValue == ""
    ensures item.Some? && item.value != "" && decode(item.value).Some? ==>
      var saved := decode(item.value).value;
      && r.newValue == saved.newValue
      && r.currentLogIndex == (if saved.currentLogIndex.Some? then saved.currentLogIndex.value else 0)
      && r.logs == MapLogTimes(saved.logs, toDate)
      && |r.logs| == |saved.logs|
      && TotalEntries(r.logs) == TotalEntries(saved.logs)
  {
    if item.None? || item.value == "" then DefaultState
    else
      match decode(item.value)
      case None => DefaultState
      case Some(saved) =>
        var r := Restore(saved, toDate);
        RemapKeepsEntryCount(saved.logs, toDate);
        r
  }

  /**
   * What is written to storage after every change: `JSON.stringify` of the
   * whole state, `Date`s written by `toIso` (standing for `toISOString`).
   */
  function Persisted(s: AppState, toIso: Instant -> string): (r: SavedState)
    ensures r.newValue == s.newValue && r.currentLogIndex == Some(s.currentLogIndex)
    ensures r.logs == MapLogTimes(s.logs, toIso)
  {
    SavedState(s.newValue, Some(s.currentLogIndex), MapLogTimes(s.logs, toIso))
  }

  // ---------------------------------------------------------------------------
  // Properties
  // ---------------------------------------------------------------------------

  /** Rewriting times with `f` and then `g` is rewriting them once with any `h` that composes the two. */
  lemma {:induction false} MapLogTimesCompose<A, B, C>(logs: seq<Log<A>>, f: A -> B, g: B -> C, h: A -> C)
    requires forall t :: h(t) == g(f(t))
    ensures MapLogTimes(MapLogTimes(logs, f), g) == MapLogTimes(logs, h)
  {
    var lhs := MapLogTimes(MapLogTimes(logs, f), g);
    var rhs := MapLogTimes(logs, h);
    forall k | 0 <= k < |logs|
      ensures lhs[k] == rhs[k]
    {
      var es := logs[k].entries;
      var l := MapEntryTimes(MapEntryTimes(es, f), g);
      var m := MapEntryTimes(es, h);
      assert forall j :: 0 <= j < |l| ==> l[j] == m[j];
    }
  }

  /** Rewriting times with `f` and then with an inverse `g` of `f` gives the logs back. */
  lemma {:induction false} MapLogTimesInverse<A, B>(logs: seq<Log<A>>, f: A -> B, g: B -> A)
    requires forall t :: g(f(t)) == t
    ensures MapLogTimes(MapLogTimes(logs, f), g) == logs
  {
    var r := MapLogTimes(MapLogTimes(logs, f), g);
    forall k | 0 <= k < |logs|
      ensures r[k] == logs[k]
    {
      var es := logs[k].entries;
      var m := MapEntryTimes(MapEntryTimes(es, f), g);
      assert forall j :: 0 <= j < |es| ==> m[j] == es[j];
    }
  }

  /** Rehydrating times keeps the number of entries. */
  lemma {:induction false} RemapKeepsEntryCount<A, B>(logs: seq<Log<A>>, f: A -> B)
    ensures TotalEntries(MapLogTimes(logs, f)) == TotalEntries(logs)
  {
    if logs != [] {
      var r := MapLogTimes(logs, f);
      assert r[1..] == MapLogTimes(logs[1..], f);
      RemapKeepsEntryCount(logs[1..], f);
    }
  }

  /**
   * Loading keeps every log and every entry in order and rewrites nothing but
   * the times: once times are erased, the loaded logs are the saved ones.
   */
  lemma RestoreOnlyRewritesTimes(saved: SavedState, toDate: string -> Instant)
    ensures MapLogTimes(Restore(saved, toDate).logs, (t: Instant) => ())
         == MapLogTimes(saved.logs, (t: string) => ())
  {
    MapLogTimesCompose(saved.logs, toDate, (t: Instant) => (), (t: string) => ());
  }

  /** A state saved without `currentLogIndex` loads with the first log selected. */
  lemma MissingIndexLoadsAsZero(item: string, decode: string -> Option<SavedState>, toDate: string -> Instant)
    requires item != "" && decode(item).Some? && decode(item).value.currentLogIndex.None?
    ensures Load(Some(item), decode, toDate).currentLogIndex == 0
  {
  }

  /**
   * Saving and then restoring gives the same state back, provided times
   * survive the ISO-8601 text form (`toDate(toIso(t)) == t`).
   */
  lemma PersistRestoreRoundTrip(s: AppState, toIso: Instant -> string, toDate: string -> Instant)
    requires forall t :: toDate(toIso(t)) == t
    ensures Restore(Persisted(s, toIso), toDate) == s
  {
    MapLogTimesInverse(s.logs, toIso, toDate);
  }
}
