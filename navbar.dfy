/**
 * The search bar (components/Navbar.tsx): the text box, the filter panel and the debounced
 * live search. Timers are abstract: arming stores the call the timeout will make, and its
 * expiry is the explicit event `Elapse`.
 */
module Navbar {
  import opened Types

  /** The arguments of one `onSearch(searchValue, filters)` call. */
  datatype SearchCall = SearchCall(query: string, filters: SearchFilters)

  /** `keyof SearchFilters`. */
  datatype FilterKey = KindKey | StatusKey | RatingKey

  /**
   * What can happen to the search bar: the effect's first run after mounting, a change of the
   * text (a keystroke or a voice transcript), a filter change, "clear filters", the panel
   * toggle, and the expiry of the pending timer.
   */
  datatype Event = Mount | EditText(value: string) | EditFilter(key: FilterKey, value: string)
                 | Clear | ToggleFilters | Elapse

  /**
   * The component's state. `mounted` is the `isMounted` ref; `armed` is the call the pending
   * timer's closure will make, `None` when no timer is pending (idle).
   */
  datatype BoxState = BoxState(searchValue: string, filters: SearchFilters, showFilters: bool,
                               mounted: bool, armed: Option<SearchCall>)

  const InitialFilters := SearchFilters(Some(""), Some(""), None)

  /** The state of the first render. */
  function Initial(): BoxState {
    BoxState("", InitialFilters, false, false, None)
  }

  /** `{ ...prev, [key]: value }`: only the named field changes. */
  function SetFilter(f: SearchFilters, key: FilterKey, value: string): (g: SearchFilters)
    ensures g.kind == (if key == KindKey then Some(value) else f.kind)
    ensures g.status == (if key == StatusKey then Some(value) else f.status)
    ensures g.rating == (if key == RatingKey then Some(value) else f.rating)
  {
    match key
    case KindKey => f.(kind := Some(value))
    case StatusKey => f.(status := Some(value))
    case RatingKey => f.(rating := Some(value))
  }

  /**
   * One run of the debounce effect. The first run only sets the mounted flag; every later run
   * cancels the pending timer and arms a new one holding the current text and filters.
   */
  function RunEffect(s: BoxState): (r: BoxState)
    ensures r.mounted
    ensures r.searchValue == s.searchValue && r.filters == s.filters && r.showFilters == s.showFilters
    ensures !s.mounted ==> r.armed == s.armed
    ensures s.mounted ==> r.armed == Some(SearchCall(s.searchValue, s.filters))
  {
    if !s.mounted then s.(mounted := true)
    else s.(armed := Some(SearchCall(s.searchValue, s.filters)))
  }

  datatype StepResult = StepResult(next: BoxState, call: Option<SearchCall>)

  /**
   * The reaction to one event, and the `onSearch` call it makes, if any. Setting the text to
   * its current value does not re-render, so the effect does not run; a filter update or a
   * clear always builds a new object, so the effect always runs.
   */
  function Step(s: BoxState, e: Event): (r: StepResult)
    ensures !e.Elapse? ==> r.call == None
    ensures e.Elapse? ==> r.call == s.armed && r.next.armed == None
    ensures s.mounted ==> r.next.mounted
  {
    match e
    case Mount => StepResult(RunEffect(s), None)
    case EditText(v) =>
      if v == s.searchValue then StepResult(s, None)
      else StepResult(RunEffect(s.(searchValue := v)), None)
    case EditFilter(k, v) => StepResult(RunEffect(s.(filters := SetFilter(s.filters, k, v))), None)
    case Clear => StepResult(RunEffect(s.(filters := InitialFilters, showFilters := false)), None)
    case ToggleFilters => StepResult(s.(showFilters := !s.showFilters), None)
    case Elapse => StepResult(s.(armed := None), s.armed)
  }

  /** How many timer expiries a sequence of events holds. */
  function ElapseCount(events: seq<Event>): nat {
    if events == [] then 0 else (if events[0].Elapse? then 1 else 0) + ElapseCount(events[1..])
  }

  /** The final state after a sequence of events, and the `onSearch` calls made on the way. */
  datatype Trace = Trace(final: BoxState, calls: seq<SearchCall>)

  function Run(s: BoxState, events: seq<Event>): (t: Trace)
    ensures |t.calls| <= ElapseCount(events)
    ensures s.mounted ==> t.final.mounted
    decreases |events|
  {
    if events == [] then Trace(s, [])
    else
      var r := Step(s, events[0]);
      var t := Run(r.next, events[1..]);
      Trace(t.final, (if r.call.Some? then [r.call.value] else []) + t.calls)
  }

  /** A pending timer always holds the current text and filters, and is armed only after mounting. */
  ghost predicate SnapshotCurrent(s: BoxState) {
    s.armed.Some? ==> s.mounted && s.armed.value == SearchCall(s.searchValue, s.filters)
  }

  lemma InitialIsIdle()
    ensures SnapshotCurrent(Initial())
    ensures Initial().searchValue == "" && Initial().filters.kind == Some("") && Initial().filters.status == Some("")
  {
  }

  /** The effect's run on mount calls nothing and arms nothing; it only sets the flag. */
  lemma MountIsSilent()
    ensures Step(Initial(), Mount) == StepResult(Initial().(mounted := true), None)
  {
  }

  /** Every event keeps the pending timer's snapshot equal to the current values. */
  lemma StepKeepsSnapshot(s: BoxState, e: Event)
    requires SnapshotCurrent(s)
    ensures SnapshotCurrent(Step(s, e).next)
  {
  }

  /** When the timer elapses, `onSearch` receives the current text and filters, and the bar is idle again. */
  lemma ElapseDeliversCurrent(s: BoxState)
    requires SnapshotCurrent(s)
    ensures Step(s, Elapse).call == (if s.armed.Some? then Some(SearchCall(s.searchValue, s.filters)) else None)
    ensures Step(s, Elapse).next.armed == None
  {
  }

  /** After mounting, a change of the text or of the filters cancels any pending timer and arms a new one. */
  lemma EditRearms(s: BoxState, e: Event)
    requires s.mounted
    requires e.EditFilter? || e.Clear? || (e.EditText? && e.value != s.searchValue)
    ensures var n := Step(s, e).next; n.armed == Some(SearchCall(n.searchValue, n.filters))
  {
  }

  lemma {:induction false} RunAppend(s: BoxState, a: seq<Event>, b: seq<Event>)
    ensures Run(s, a + b) == Trace(Run(Run(s, a).final, b).final, Run(s, a).calls + Run(Run(s, a).final, b).calls)
    decreases |a|
  {
    if a == [] {
      assert a + b == b;
    } else {
      var r := Step(s, a[0]);
      var head := if r.call.Some? then [r.call.value] else [];
      assert (a + b)[0] == a[0] && (a + b)[1..] == a[1..] + b;
      RunAppend(r.next, a[1..], b);
      assert Run(s, a).calls == head + Run(r.next, a[1..]).calls;
      assert Run(s, a + b).calls == head + Run(r.next, a[1..] + b).calls;
    }
  }

  predicate NoElapse(events: seq<Event>) {
    forall i :: 0 <= i < |events| ==> !events[i].Elapse?
  }

  /**
   * A burst of events with no `Elapse` makes no call, keeps the snapshot current, keeps the
   * bar mounted, and leaves a timer pending once one was armed or a filter changed after mounting.
   */
  lemma {:induction false} QuietBurst(s: BoxState, events: seq<Event>)
    requires SnapshotCurrent(s)
    requires NoElapse(events)
    ensures var f := Run(s, events).final;
      && Run(s, events).calls == []
      && SnapshotCurrent(f)
      && (s.mounted ==> f.mounted)
      && (s.armed.Some? ==> f.armed.Some?)
      && (s.mounted && (exists i :: 0 <= i < |events| && (events[i].EditFilter? || events[i].Clear?)) ==> f.armed.Some?)
    decreases |events|
  {
    if events != [] {
      var r := Step(s, events[0]);
      StepKeepsSnapshot(s, events[0]);
      assert NoElapse(events[1..]) by {
        forall i | 0 <= i < |events[1..]| ensures !events[1..][i].Elapse? {
          assert events[1..][i] == events[i + 1];
        }
      }
      QuietBurst(r.next, events[1..]);
      if s.mounted && exists i :: 0 <= i < |events| && (events[i].EditFilter? || events[i].Clear?) {
        var i :| 0 <= i < |events| && (events[i].EditFilter? || events[i].Clear?);
        if i > 0 {
          assert events[1..][i - 1] == events[i];
        }
      }
    }
  }

  /**
   * A burst of edits followed by one `Elapse` makes at most one `onSearch` call, and that call
   * carries the text and filters left by the last edit.
   */
  lemma BurstThenElapse(s: BoxState, events: seq<Event>)
    requires SnapshotCurrent(s)
    requires NoElapse(events)
    ensures var f := Run(s, events).final;
      Run(s, events + [Elapse]).calls == (if f.armed.Some? then [SearchCall(f.searchValue, f.filters)] else [])
  {
    QuietBurst(s, events);
    RunAppend(s, events, [Elapse]);
    var f := Run(s, events).final;
    assert [Elapse][1..] == [];
    assert Run(f, [Elapse]).calls == (if f.armed.Some? then [f.armed.value] else []) + [];
  }

  function Keystrokes(values: seq<string>): (events: seq<Event>)
    ensures |events| == |values|
  {
    seq(|values|, i requires 0 <= i < |values| => EditText(values[i]))
  }

  lemma {:induction false} KeystrokesSetText(s: BoxState, values: seq<string>)
    requires values != []
    requires s.mounted && values[0] != s.searchValue
    ensures var f := Run(s, Keystrokes(values)).final;
      f.searchValue == values[|values| - 1] && f.filters == s.filters && f.mounted && f.armed.Some?
  {
    var r := Step(s, EditText(values[0]));
    assert Keystrokes(values)[0] == EditText(values[0]);
    if |values| > 1 {
      assert Keystrokes(values)[1..] == Keystrokes(values[1..]);
      KeystrokesKeepArmed(r.next, values[1..]);
    } else {
      assert Keystrokes(values)[1..] == [];
    }
  }

  lemma {:induction false} KeystrokesKeepArmed(s: BoxState, values: seq<string>)
    requires values != []
    requires s.mounted && s.armed.Some?
    ensures var f := Run(s, Keystrokes(values)).final;
      f.searchValue == values[|values| - 1] && f.filters == s.filters && f.mounted && f.armed.Some?
    decreases |values|
  {
    var r := Step(s, EditText(values[0]));
    assert Keystrokes(values)[0] == EditText(values[0]);
    if |values| > 1 {
      assert Keystrokes(values)[1..] == Keystrokes(values[1..]);
      KeystrokesKeepArmed(r.next, values[1..]);
    } else {
      assert Keystrokes(values)[1..] == [];
    }
  }

  /**
   * N keystrokes typed after mounting, then one expiry of the timer: exactly one `onSearch`
   * call, with the value after the last keystroke and the unchanged filters.
   */
  lemma KeystrokesThenElapse(s: BoxState, values: seq<string>)
    requires SnapshotCurrent(s) && s.mounted
    requires values != [] && values[0] != s.searchValue
    ensures Run(s, Keystrokes(values) + [Elapse]).calls == [SearchCall(values[|values| - 1], s.filters)]
  {
    KeystrokesSetText(s, values);
    BurstThenElapse(s, Keystrokes(values));
  }

  /** The search bar as a component: its state fields, and one method per handler. */
  class SearchBox {
    var searchValue: string
    var filters: SearchFilters
    var showFilters: bool
    var isMounted: bool
    /** The call the pending timeout will make; `None` when no timer is pending. */
    var timer: Option<SearchCall>

    function State(): BoxState
      reads this
    {
      BoxState(searchValue, filters, showFilters, isMounted, timer)
    }

    constructor ()
      ensures State() == Initial()
    {
      searchValue := "";
      filters := InitialFilters;
      showFilters := false;
      isMounted := false;
      timer := None;
    }

    /** The debounce `useEffect` body with its cleanup: first run sets the flag, later runs re-arm. */
    method Effect()
      modifies this`isMounted, this`timer
      ensures State() == RunEffect(old(State()))
    {
      if !isMounted {
        isMounted := true;
        return;
      }
      timer := Some(SearchCall(searchValue, filters));
    }

    /** The effect's run after the first render. */
    method Mount()
      modifies this
      ensures State() == Step(old(State()), Event.Mount).next
    {
      Effect();
    }

    /** `setSearchValue(value)`: the text box's `onChange`. */
    method SetSearchValue(value: string)
      modifies this
      ensures State() == Step(old(State()), EditText(value)).next
    {
      if value != searchValue {
        searchValue := value;
        Effect();
      }
    }

    /** `recognition.onresult`: the transcript replaces the text, exactly like an edit. */
    method OnVoiceResult(transcript: string)
      modifies this
      ensures State() == Step(old(State()), EditText(transcript)).next
    {
      SetSearchValue(transcript);
    }

    /** `updateFilter(key, value)`. */
    method UpdateFilter(key: FilterKey, value: string)
      modifies this
      ensures State() == Step(old(State()), EditFilter(key, value)).next
    {
      filters := SetFilter(filters, key, value);
      Effect();
    }

    /** `clearFilters`: both selects back to "all", the panel closed. */
    method ClearFilters()
      modifies this
      ensures State() == Step(old(State()), Clear).next
      ensures filters.kind == Some("") && filters.status == Some("") && !showFilters
    {
      filters := InitialFilters;
      showFilters := false;
      Effect();
    }

    /** The filter button: `setShowFilters(!showFilters)`. */
    method ToggleFilters()
      modifies this
      ensures State() == Step(old(State()), Event.ToggleFilters).next
    {
      showFilters := !showFilters;
    }

    /** The pending timeout fires: `onSearch` is called with the snapshot it holds. */
    method Elapse() returns (call: Option<SearchCall>)
      modifies this
      ensures State() == Step(old(State()), Event.Elapse).next
      ensures call == Step(old(State()), Event.Elapse).call
    {
      call := timer;
      timer := None;
    }
  }
}
