/** The attendance log kept by the `App` component: loaded once from the
    browser's local storage when the page mounts, prepended to by every
    recognised scan, and written back in full under `deepface_logs` after every
    change (frontend/src/App.jsx:57-74). */
module AttendanceLog {
  import opened Json
  import opened Wrappers

  /** One log entry: the object the attendance page builds from the server's
      `data` plus a `timestamp` field. */
  type Entry = map<string, Value>

  /** The local-storage key the log lives under. */
  const LogKey: string := "deepface_logs"

  /** `[log, ...prev]`: the newest entry first. */
  function Recorded(log: seq<Entry>, e: Entry): (r: seq<Entry>)
    ensures |r| == |log| + 1
    ensures r[0] == e
    ensures forall i :: 0 <= i < |log| ==> r[i + 1] == log[i]
  {
    [e] + log
  }

  /** The log after recording `es` one after another, `es[0]` first. */
  function RecordedAll(log: seq<Entry>, es: seq<Entry>): seq<Entry>
    decreases |es|
  {
    if es == [] then log else RecordedAll(Recorded(log, es[0]), es[1..])
  }

  function Reversed(s: seq<Entry>): (r: seq<Entry>)
    ensures |r| == |s|
    ensures forall k :: 0 <= k < |s| ==> r[k] == s[|s| - 1 - k]
  {
    if s == [] then [] else Reversed(s[1..]) + [s[0]]
  }

  /** Recording a run of entries leaves them newest-first in front of the
      earlier log, which keeps its order. */
  lemma {:induction false} RecordedAllIsNewestFirst(log: seq<Entry>, es: seq<Entry>)
    ensures RecordedAll(log, es) == Reversed(es) + log
    ensures forall k :: 0 <= k < |es| ==> RecordedAll(log, es)[k] == es[|es| - 1 - k]
    ensures forall k :: 0 <= k < |log| ==> RecordedAll(log, es)[|es| + k] == log[k]
    decreases |es|
  {
    if es != [] {
      var rest := Reversed(es[1..]);
      calc {
        RecordedAll(log, es);
        RecordedAll([es[0]] + log, es[1..]);
        { RecordedAllIsNewestFirst([es[0]] + log, es[1..]); }
        rest + ([es[0]] + log);
        { assert rest + ([es[0]] + log) == (rest + [es[0]]) + log; }
        Reversed(es) + log;
      }
    }
  }

  /** What a fresh page load finds: the saved list when one exists, else the
      initial empty list. */
  function Loaded(items: map<string, seq<Entry>>): (log: seq<Entry>)
    ensures LogKey in items ==> log == items[LogKey]
    ensures LogKey !in items ==> log == []
  {
    if LogKey in items then items[LogKey] else []
  }

  /** The browser's local storage; JSON encoding of the stored list is not
      modelled, so a key maps to the list itself. It outlives the page. */
  class LocalStorage {
    var items: map<string, seq<Entry>>

    constructor (items: map<string, seq<Entry>>)
      ensures this.items == items
    {
      this.items := items;
    }
  }

  /** The `App` component's log and backend-reachability state. */
  class App {
    const store: LocalStorage
    var logs: seq<Entry>
    var serverStatus: bool

    /** The saved copy is always the in-memory log. */
    ghost predicate Valid()
      reads this, store
    {
      LogKey in store.items && store.items[LogKey] == logs
    }

    /** Mounting: the state starts empty and reachable; the load effect reads
        the saved list; the save effect of the first render writes the still
        empty list; the re-render with the loaded list writes that one. */
    constructor (store: LocalStorage)
      modifies store
      ensures this.store == store && Valid()
      ensures logs == Loaded(old(store.items))
      ensures serverStatus
      ensures store.items == old(store.items)[LogKey := logs]
    {
      this.store := store;
      logs := [];
      serverStatus := true;
      new;
      var saved := if LogKey in store.items then Some(store.items[LogKey]) else None;
      store.items := store.items[LogKey := logs];
      if saved.Some? {
        logs := saved.value;
      }
      store.items := store.items[LogKey := logs];
    }

    /** `handleAttendanceLog` followed by the save effect. */
    method RecordAttendance(e: Entry)
      requires Valid()
      modifies this, store
      ensures Valid()
      ensures logs == Recorded(old(logs), e)
      ensures serverStatus == old(serverStatus)
      ensures store.items == old(store.items)[LogKey := logs]
    {
      logs := Recorded(logs, e);
      store.items := store.items[LogKey := logs];
    }
  }

  /** A page reload over the same storage finds exactly the log the previous
      page held. */
  method Reload(app: App) returns (next: App)
    requires app.Valid()
    modifies app.store
    ensures next.store == app.store && next.Valid()
    ensures next.logs == old(app.logs)
  {
    next := new App(app.store);
  }
}
