/**
 * The cache-or-fetch controller (`getWeatherData`) and the refresh handler.
 *
 * Every outside capability becomes an input of one cycle: the two clock
 * readings (the freshness check and the cache write each read the clock),
 * whether the platform offers geolocation, the outcome of the position
 * request, the outcome of the fetch with its JSON decoding, and whether the
 * storage accepts the write. A cycle
 * produces the new content of the storage slot and the effects it performed,
 * in order.
 */
module Controller {
  import opened Wrappers
  import opened Cache
  import Presenter

  /** What the position request delivers: coordinates to the success callback,
      a call of the error callback (denied permission or any platform error),
      or neither, when the request is never answered (it has no timeout). */
  datatype Location = Position(latitude: real, longitude: real) | PositionError | NoAnswer

  /** What `fetch` followed by `res.json()` delivers: a decoded response, or a
      network or decoding failure (a thrown error). */
  datatype FetchOutcome = Received(data: Response) | NetworkOrParseError

  /** The environment of one cycle. `checkTime` is the clock at the freshness
      check; `writeTime` is the clock when a successful response is cached;
      `storageWritable` is false when `setItem` throws because the storage
      quota is exceeded. */
  datatype Env = Env(
    checkTime: int,
    geolocationSupported: bool,
    location: Location,
    fetch: FetchOutcome,
    writeTime: int,
    storageWritable: bool)

  /** The three notices the widget raises with `alert`. */
  datatype AlertKind = Unsupported | LocationDenied | FetchFailed

  function AlertMessage(k: AlertKind): string {
    match k
    case Unsupported => "Your browser does not support geolocation."
    case LocationDenied => "Please enable location access to get weather details."
    case FetchFailed => "Error fetching weather data. Try again later."
  }

  /** The three notices are told apart by their texts. */
  lemma AlertMessagesDistinct(a: AlertKind, b: AlertKind)
    requires a != b
    ensures AlertMessage(a) != AlertMessage(b)
  {
    assert |AlertMessage(Unsupported)| == 42;
    assert |AlertMessage(LocationDenied)| == 53;
    assert |AlertMessage(FetchFailed)| == 45;
  }

  /** The observable effects of the controller. */
  datatype Effect =
    | LocationRequested
    | FetchIssued(latitude: real, longitude: real)
    | Stored(entry: Entry)
    | Removed
    | Display(data: Response)
    | Alert(kind: AlertKind)

  /** The slot after a step and the effects of that step. */
  datatype Step = Step(slot: Option<Entry>, effects: seq<Effect>)

  /** True when the slot holds an entry that is fresh at `now`. */
  predicate HitsCache(slot: Option<Entry>, now: int) {
    slot.Some? && IsFresh(slot.value, now)
  }

  /** One run of `getWeatherData` from the slot `slot`. */
  function Cycle(slot: Option<Entry>, env: Env): Step {
    if HitsCache(slot, env.checkTime) then
      Step(slot, [Display(slot.value.data)])
    else if !env.geolocationSupported then
      Step(slot, [Alert(Unsupported)])
    else
      match env.location
      case PositionError =>
        Step(slot, [LocationRequested, Alert(LocationDenied)])
      case NoAnswer =>
        Step(slot, [LocationRequested])
      case Position(lat, lon) =>
        var asked := [LocationRequested, FetchIssued(lat, lon)];
        match env.fetch
        case NetworkOrParseError =>
          Step(slot, asked + [Alert(FetchFailed)])
        case Received(d) =>
          if !IsSuccess(d) || !env.storageWritable then
            Step(slot, asked + [Alert(FetchFailed)])
          else
            var e := Entry(d, env.writeTime);
            Step(Some(e), asked + [Stored(e), Display(d)])
  }

  /** The refresh click: remove the slot, then run the cycle. */
  function Refresh(slot: Option<Entry>, env: Env): Step {
    var s := Cycle(None, env);
    Step(s.slot, [Removed] + s.effects)
  }

  /** Number of occurrences of `x` in `s`. */
  function Count(s: seq<Effect>, x: Effect): nat {
    multiset(s)[x]
  }

  /** True when the effects contain a fetch. */
  predicate Fetches(s: seq<Effect>) {
    exists i :: 0 <= i < |s| && s[i].FetchIssued?
  }

  /** True when the effects contain a display. */
  predicate Displays(s: seq<Effect>) {
    exists i :: 0 <= i < |s| && s[i].Display?
  }

  /** True when the effects contain a cache write. */
  predicate Writes(s: seq<Effect>) {
    exists i :: 0 <= i < |s| && s[i].Stored?
  }

  // ----- one cycle -----

  /** A fresh entry is displayed exactly as stored and the cycle returns: no
      position request, no fetch, no alert, and the slot is untouched. */
  lemma FreshHit(slot: Option<Entry>, env: Env)
    requires HitsCache(slot, env.checkTime)
    ensures Cycle(slot, env) == Step(slot, [Display(slot.value.data)])
    ensures Count(Cycle(slot, env).effects, LocationRequested) == 0
    ensures !Fetches(Cycle(slot, env).effects) && !Writes(Cycle(slot, env).effects)
  {
  }

  /** An entry exactly one hour old is not used: the cycle goes on to the
      platform (here, a position request when geolocation is available). */
  lemma HourOldEntryIsStale(d: Response, t: int, env: Env)
    requires env.checkTime == t + 3_600_000 && env.geolocationSupported
    ensures Cycle(Some(Entry(d, t)), env).effects[0] == LocationRequested
  {
  }

  /** A missed cache (empty or stale) with geolocation available makes exactly
      one position request, as the first effect; a fetch is issued exactly when
      coordinates arrive, once, right after the request and with those
      coordinates; and nothing is displayed that was not first written. */
  lemma MissRequestsLocationOnce(slot: Option<Entry>, env: Env)
    requires !HitsCache(slot, env.checkTime) && env.geolocationSupported
    ensures var s := Cycle(slot, env).effects;
      && s[0] == LocationRequested
      && Count(s, LocationRequested) == 1
      && (Fetches(s) <==> env.location.Position?)
      && (env.location.Position? ==>
            s[1] == FetchIssued(env.location.latitude, env.location.longitude))
      && (forall i :: 0 <= i < |s| && s[i].FetchIssued? ==> i == 1)
      && (forall j :: 0 <= j < |s| && s[j].Display? ==>
            exists i :: 0 <= i < j && s[i] == Stored(Entry(s[j].data, env.writeTime)))
  {
    var s := Cycle(slot, env).effects;
    if env.location.Position? {
      assert s[1].FetchIssued?;
      if env.fetch.Received? && IsSuccess(env.fetch.data) && env.storageWritable {
        assert s[2].Stored?;
      }
    } else if env.location.PositionError? {
      assert s == [LocationRequested, Alert(LocationDenied)];
    } else {
      assert s == [LocationRequested];
    }
  }

  /** A response whose `cod` is not the number 200, a network or decoding
      failure, or a write the storage refuses, leaves the slot unchanged,
      displays nothing and raises exactly one "Error fetching" notice, as the
      last effect. */
  lemma FetchFailureAlerts(slot: Option<Entry>, env: Env)
    requires !HitsCache(slot, env.checkTime) && env.geolocationSupported
    requires env.location.Position?
    requires env.fetch.NetworkOrParseError? || !IsSuccess(env.fetch.data) || !env.storageWritable
    ensures var r := Cycle(slot, env);
      && r.slot == slot
      && r.effects == [LocationRequested, FetchIssued(env.location.latitude, env.location.longitude), Alert(FetchFailed)]
      && !Writes(r.effects) && !Displays(r.effects)
  {
  }

  /** A successful response that the storage accepts replaces whatever the
      slot held with the response and the write-time clock; the cycle's effects
      are exactly the request, one fetch, the write and then the display of
      that same response. */
  lemma SuccessStoresThenDisplays(slot: Option<Entry>, env: Env)
    requires !HitsCache(slot, env.checkTime) && env.geolocationSupported
    requires env.location.Position? && env.fetch.Received? && IsSuccess(env.fetch.data)
    requires env.storageWritable
    ensures var r := Cycle(slot, env);
      && r.slot == Some(Entry(env.fetch.data, env.writeTime))
      && r.effects == [LocationRequested, FetchIssued(env.location.latitude, env.location.longitude),
                       Stored(Entry(env.fetch.data, env.writeTime)), Display(env.fetch.data)]
      && (exists i, j :: 0 <= i < j < |r.effects|
           && r.effects[i] == Stored(Entry(env.fetch.data, env.writeTime))
           && r.effects[j] == Display(env.fetch.data))
      && Count(r.effects, Display(env.fetch.data)) == 1
      && r.effects[|r.effects| - 1] == Display(env.fetch.data)
  {
    var r := Cycle(slot, env);
    assert r.effects[2] == Stored(Entry(env.fetch.data, env.writeTime));
    assert r.effects[3] == Display(env.fetch.data);
  }

  /** A failed position request or an absent geolocation capability leaves the
      slot unchanged, fetches nothing and raises the matching notice. */
  lemma LocationFailureAlerts(slot: Option<Entry>, env: Env)
    requires !HitsCache(slot, env.checkTime)
    requires !env.geolocationSupported || env.location.PositionError?
    ensures var r := Cycle(slot, env);
      && r.slot == slot
      && !Fetches(r.effects) && !Displays(r.effects) && !Writes(r.effects)
      && (!env.geolocationSupported ==> r.effects == [Alert(Unsupported)])
      && (env.geolocationSupported ==> r.effects == [LocationRequested, Alert(LocationDenied)])
  {
  }

  /** A position request that is never answered ends the cycle silently: the
      request is its only effect and the slot is unchanged. */
  lemma UnansweredRequestStops(slot: Option<Entry>, env: Env)
    requires !HitsCache(slot, env.checkTime) && env.geolocationSupported
    requires env.location.NoAnswer?
    ensures Cycle(slot, env) == Step(slot, [LocationRequested])
  {
  }

  /** The cycle changes the slot only by writing a successful response, and
      displays either the fresh entry it found or the response it just stored. */
  lemma CycleKeepsOrStoresSuccess(slot: Option<Entry>, env: Env)
    ensures var r := Cycle(slot, env);
      && (r.slot == slot || (r.slot.Some? && IsSuccess(r.slot.value.data)
                             && r.slot.value.timestamp == env.writeTime
                             && Stored(r.slot.value) in r.effects))
      && (forall j :: 0 <= j < |r.effects| && r.effects[j].Display? ==>
            (HitsCache(slot, env.checkTime) && r.effects[j].data == slot.value.data)
            || (exists i :: 0 <= i < j && r.effects[i] == Stored(Entry(r.effects[j].data, env.writeTime))))
  {
    var r := Cycle(slot, env);
    if !HitsCache(slot, env.checkTime) && env.geolocationSupported && env.location.Position?
       && env.fetch.Received? && IsSuccess(env.fetch.data) && env.storageWritable {
      assert r.effects[2] == Stored(Entry(env.fetch.data, env.writeTime));
    }
  }

  /** Refresh removes the slot first and then never takes the cached path: its
      effects after the removal are those of a cycle over an empty slot, and
      every display comes after a fetch and a write of the displayed data. */
  lemma RefreshNeverUsesCache(slot: Option<Entry>, env: Env)
    ensures var r := Refresh(slot, env);
      && r.effects[0] == Removed
      && r == Step(Cycle(None, env).slot, [Removed] + Cycle(None, env).effects)
      && (forall j :: 0 <= j < |r.effects| && r.effects[j].Display? ==>
            exists f, w :: 0 < f < w < j && r.effects[f].FetchIssued?
              && r.effects[w] == Stored(Entry(r.effects[j].data, env.writeTime)))
      && (env.geolocationSupported ==> r.effects[1] == LocationRequested)
  {
    var r := Refresh(slot, env);
    if env.geolocationSupported && env.location.Position? && env.fetch.Received?
       && IsSuccess(env.fetch.data) && env.storageWritable {
      assert r.effects[2].FetchIssued?;
      assert r.effects[3] == Stored(Entry(env.fetch.data, env.writeTime));
    }
  }

  /** Three concrete cycles: a cold start at (10, 20) whose response has
      cod 200 and temperature 25, shown as "25°C" on the mild background; a
      cold start whose position request is denied; and an entry one second old,
      shown without any request even though the network would fail. */
  lemma ConcreteCycles(d: Response, now: int)
    requires d.cod == Num(200) && d.temp == 25.0
    ensures Cycle(None, Env(now, true, Position(10.0, 20.0), Received(d), now, true)) ==
      Step(Some(Entry(d, now)), [LocationRequested, FetchIssued(10.0, 20.0), Stored(Entry(d, now)), Display(d)])
    ensures Presenter.Render(d).temperature == "25\U{00B0}C"
    ensures Presenter.Render(d).background == Presenter.Mild
    ensures Cycle(None, Env(now, true, PositionError, Received(d), now, true)) ==
      Step(None, [LocationRequested, Alert(LocationDenied)])
    ensures Cycle(Some(Entry(d, now - 1000)), Env(now, true, Position(10.0, 20.0), NetworkOrParseError, now, true)) ==
      Step(Some(Entry(d, now - 1000)), [Display(d)])
  {
    Presenter.TempLabelExamples();
  }

  // ----- a run of the widget -----

  /** What the page can do to the controller: run `getWeatherData` (the
      initial call, and the second half of a refresh click) or remove the
      slot (the first half of a refresh click). */
  datatype Trigger = Load(env: Env) | Clear

  /** The state after any sequence of triggers: the slot and all effects. */
  datatype State = State(slot: Option<Entry>, trace: seq<Effect>)

  function Handle(slot: Option<Entry>, t: Trigger): Step {
    match t
    case Load(env) => Cycle(slot, env)
    case Clear => Step(None, [Removed])
  }

  /** The state reached from the slot content found at page load. */
  function Run(initial: Option<Entry>, ts: seq<Trigger>): State
    decreases |ts|
  {
    if ts == [] then State(initial, [])
    else
      var prev := Run(initial, ts[..|ts| - 1]);
      var step := Handle(prev.slot, ts[|ts| - 1]);
      State(step.slot, prev.trace + step.effects)
  }

  /** Appending a trigger to a session appends its step. */
  lemma RunAppend(initial: Option<Entry>, ts: seq<Trigger>, t: Trigger)
    ensures var prev := Run(initial, ts);
      var step := Handle(prev.slot, t);
      Run(initial, ts + [t]) == State(step.slot, prev.trace + step.effects)
  {
    assert (ts + [t])[..|ts|] == ts;
  }

  /** A refresh click is a removal followed by a cycle. */
  lemma RefreshIsClearThenLoad(initial: Option<Entry>, ts: seq<Trigger>, env: Env)
    ensures var before := Run(initial, ts);
      var r := Refresh(before.slot, env);
      Run(initial, ts + [Clear, Load(env)]) == State(r.slot, before.trace + r.effects)
  {
    var ts1 := ts + [Clear];
    assert ts + [Clear, Load(env)] == ts1 + [Load(env)];
    assert (ts1 + [Load(env)])[..|ts1|] == ts1;
    assert ts1[..|ts|] == ts;
    assert Run(initial, ts1).trace == Run(initial, ts).trace + [Removed];
  }

  /** Every write to the slot holds a successful response. */
  ghost predicate StoresOnlySuccess(trace: seq<Effect>) {
    forall i :: 0 <= i < |trace| && trace[i].Stored? ==> IsSuccess(trace[i].entry.data)
  }

  /** The slot holds what the page found at load, or an entry written earlier
      in the session. */
  ghost predicate SlotAccounted(initial: Option<Entry>, st: State) {
    st.slot.Some? ==>
      st.slot == initial || exists i :: 0 <= i < |st.trace| && st.trace[i] == Stored(st.slot.value)
  }

  /** Every display shows the data found at load or data written to the slot
      before the display. */
  ghost predicate DisplaysAccounted(initial: Option<Entry>, trace: seq<Effect>) {
    forall j :: 0 <= j < |trace| && trace[j].Display? ==>
      (initial.Some? && trace[j].data == initial.value.data)
      || exists i :: 0 <= i < j && trace[i].Stored? && trace[i].entry.data == trace[j].data
  }

  /** Over any sequence of loads and refresh clicks, the controller writes only
      successful responses, the slot never holds anything but the content found
      at load or a written entry, and nothing is displayed that did not come
      from those two sources. */
  lemma {:induction false} RunInvariant(initial: Option<Entry>, ts: seq<Trigger>)
    ensures StoresOnlySuccess(Run(initial, ts).trace)
    ensures SlotAccounted(initial, Run(initial, ts))
    ensures DisplaysAccounted(initial, Run(initial, ts).trace)
    decreases |ts|
  {
    if ts != [] {
      var pre := ts[..|ts| - 1];
      RunInvariant(initial, pre);
      var prev := Run(initial, pre);
      var step := Handle(prev.slot, ts[|ts| - 1]);
      var st := Run(initial, ts);
      var n := |prev.trace|;
      assert st == State(step.slot, prev.trace + step.effects);
      assert forall k :: 0 <= k < n ==> st.trace[k] == prev.trace[k];
      // What the slot held before the step is accounted for in the longer trace.
      assert prev.slot.Some? && prev.slot != initial ==>
        exists i :: 0 <= i < n && st.trace[i] == Stored(prev.slot.value) by {
        if prev.slot.Some? && prev.slot != initial {
          var i :| 0 <= i < n && prev.trace[i] == Stored(prev.slot.value);
          assert st.trace[i] == Stored(prev.slot.value);
        }
      }
      match ts[|ts| - 1]
      case Clear =>
        assert st.trace == prev.trace + [Removed];
      case Load(env) =>
        if HitsCache(prev.slot, env.checkTime) {
          assert st.trace == prev.trace + [Display(prev.slot.value.data)];
          assert st.slot == prev.slot;
        } else if env.geolocationSupported && env.location.Position?
                  && env.fetch.Received? && IsSuccess(env.fetch.data) && env.storageWritable {
          var e := Entry(env.fetch.data, env.writeTime);
          assert step.effects == [LocationRequested, FetchIssued(env.location.latitude, env.location.longitude), Stored(e), Display(e.data)];
          assert st.trace[n + 2] == Stored(e);
          assert st.slot == Some(e);
        } else {
          assert step.slot == prev.slot;
          assert forall k :: 0 <= k < |step.effects| ==>
            step.effects[k].LocationRequested? || step.effects[k].FetchIssued? || step.effects[k].Alert?;
        }
    }
  }

  /** Storage and controller state of the page. `slot` is the storage slot;
      the ghost fields record what the page has done so far. */
  class Widget {
    var slot: Option<Entry>
    ghost var trace: seq<Effect>
    ghost var triggers: seq<Trigger>
    ghost const found: Option<Entry>

    /** The state is the run of the triggers so far from the slot found at load. */
    ghost predicate Valid()
      reads this
    {
      Run(found, triggers) == State(slot, trace)
    }

    /** The page as loaded, with whatever the storage slot held. */
    constructor (stored: Option<Entry>)
      ensures Valid()
      ensures slot == stored && found == stored && trace == [] && triggers == []
    {
      slot := stored;
      found := stored;
      trace := [];
      triggers := [];
    }

    /** `getWeatherData`: use a fresh entry, or locate, fetch, store and display. */
    method GetWeatherData(env: Env)
      requires Valid()
      modifies this
      ensures Valid()
      ensures triggers == old(triggers) + [Load(env)]
      ensures slot == Cycle(old(slot), env).slot
      ensures trace == old(trace) + Cycle(old(slot), env).effects
    {
      RunAppend(found, triggers, Load(env));
      triggers := triggers + [Load(env)];
      ghost var want := Cycle(slot, env);

      // Step 1: the cache.
      if slot.Some? {
        var entry := slot.value;
        if env.checkTime - entry.timestamp < CacheDuration {
          assert want.effects == [Display(entry.data)];
          trace := trace + [Display(entry.data)];
          return;
        }
      }

      // Step 2: the position.
      if !env.geolocationSupported {
        assert want.effects == [Alert(Unsupported)];
        trace := trace + [Alert(Unsupported)];
        return;
      }
      trace := trace + [LocationRequested];
      if env.location.PositionError? {
        assert want.effects == [LocationRequested, Alert(LocationDenied)];
        trace := trace + [Alert(LocationDenied)];
        return;
      }
      if env.location.NoAnswer? {
        assert want.effects == [LocationRequested];
        return;
      }

      // Step 3: the fetch.
      var lat, lon := env.location.latitude, env.location.longitude;
      trace := trace + [FetchIssued(lat, lon)];
      if env.fetch.NetworkOrParseError? || env.fetch.data.cod != Num(200) {
        assert want.effects == [LocationRequested, FetchIssued(lat, lon), Alert(FetchFailed)];
        trace := trace + [Alert(FetchFailed)];
        return;
      }

      // Step 4: store; a write the storage refuses throws into the same catch.
      var data := env.fetch.data;
      var e := Entry(data, env.writeTime);
      if !env.storageWritable {
        assert want.effects == [LocationRequested, FetchIssued(lat, lon), Alert(FetchFailed)];
        trace := trace + [Alert(FetchFailed)];
        return;
      }
      assert want == Step(Some(e), [LocationRequested, FetchIssued(lat, lon), Stored(e), Display(data)]);
      slot := Some(e);
      trace := trace + [Stored(e)];

      // Step 5: display.
      trace := trace + [Display(data)];
    }

    /** `localStorage.removeItem`: empty the slot. */
    method RemoveItem()
      requires Valid()
      modifies this
      ensures Valid()
      ensures triggers == old(triggers) + [Clear]
      ensures slot == None && trace == old(trace) + [Removed]
    {
      RunAppend(found, triggers, Clear);
      triggers := triggers + [Clear];
      slot := None;
      trace := trace + [Removed];
    }

    /** The refresh click handler: remove the slot, then run the cycle. */
    method OnRefresh(env: Env)
      requires Valid()
      modifies this
      ensures Valid()
      ensures triggers == old(triggers) + [Clear, Load(env)]
      ensures slot == Refresh(old(slot), env).slot
      ensures trace == old(trace) + Refresh(old(slot), env).effects
    {
      RemoveItem();
      GetWeatherData(env);
    }
  }
}
