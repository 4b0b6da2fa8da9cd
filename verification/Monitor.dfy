/** The device monitor of a scroll source (`src/daemon/monitor.rs:46-169`): it starts a receiver
    thread for each configured pointer device that is plugged in and cancels it when the device
    goes. Devices are told apart by their names. Opening a device and polling are left out. */
module Monitor {

  type Name = string
  type Path = string

  datatype Event =
    | Added(name: Name, path: Path, pointer: bool)
    | Removed(name: Name, path: Path, pointer: bool)

  // What one event makes of the map from names to the paths being read. `configured` says
  // whether a name matches one of the configured input devices.
  function Handle(configured: Name -> bool, live: map<Name, Path>, e: Event): map<Name, Path> {
    match e
    case Added(name, path, pointer) =>
      if pointer && configured(name) && name !in live then live[name := path] else live
    case Removed(name, _, pointer) =>
      if pointer then live - {name} else live
  }

  ghost function Live(configured: Name -> bool, events: seq<Event>, n: nat): map<Name, Path>
    requires n <= |events|
  {
    if n == 0 then map[] else Handle(configured, Live(configured, events, n - 1), events[n - 1])
  }

  /** The cancel token of a receiver thread, with the device it reads. */
  class Receiver {
    const path: Path
    ghost const name: Name
    var cancelled: bool

    constructor (path: Path, ghost name: Name)
      ensures this.path == path && this.name == name && !cancelled
    {
      this.path, this.name, cancelled := path, name, false;
    }

    method Cancel()
      modifies this
      ensures cancelled
    {
      cancelled := true;
    }
  }

  /** The loop's state: `receivers` is its map, `started` all threads it ever spawned. */
  class ReceiverMonitor {
    const configured: Name -> bool
    var receivers: map<Name, Receiver>
    ghost var started: set<Receiver>

    // The threads that run are exactly those in the map, each under the name it was started for.
    ghost predicate Valid()
      reads this, started
    {
      && (forall name :: name in receivers ==> receivers[name] in started && receivers[name].name == name)
      && (forall r :: r in started ==> (!r.cancelled <==> r.name in receivers && receivers[r.name] == r))
    }

    ghost function Value(): map<Name, Path>
      reads this
    {
      map name | name in receivers :: receivers[name].path
    }

    constructor (configured: Name -> bool)
      ensures Valid() && Value() == map[] && started == {} && this.configured == configured
    {
      this.configured, receivers, started := configured, map[], {};
    }

    method OnAdded(name: Name, path: Path, pointer: bool)
      requires Valid()
      modifies this
      ensures Valid() && Value() == Handle(configured, old(Value()), Added(name, path, pointer))
      ensures old(started) <= started && fresh(started - old(started))
    {
      if !pointer {
        return;
      }
      if configured(name) {
        if name in receivers {
          return;
        }
        var receiver := new Receiver(path, name);
        started := started + {receiver};
        receivers := receivers[name := receiver];
      }
    }

    method OnRemoved(name: Name, path: Path, pointer: bool)
      requires Valid()
      modifies this, started
      ensures Valid() && Value() == Handle(configured, old(Value()), Removed(name, path, pointer))
      ensures started == old(started)
    {
      if !pointer {
        return;
      }
      if name in receivers {
        var receiver := receivers[name];
        receivers := receivers - {name};
        receiver.Cancel();
      }
    }

    // The loop over the events it gets before it is cancelled.
    method Run(events: seq<Event>)
      requires Valid() && Value() == map[] && started == {}
      modifies this
      ensures Valid() && Value() == Live(configured, events, |events|)
      ensures fresh(started)
    {
      var i := 0;
      while i < |events|
        invariant 0 <= i <= |events|
        invariant Valid() && Value() == Live(configured, events, i)
        invariant fresh(started)
      {
        match events[i] {
          case Added(name, path, pointer) => OnAdded(name, path, pointer);
          case Removed(name, path, pointer) => OnRemoved(name, path, pointer);
        }
        i := i + 1;
      }
    }

    // After the loop every receiver that still runs is cancelled.
    method Shutdown()
      requires Valid()
      modifies this, started
      ensures started == old(started) && forall r :: r in started ==> r.cancelled
    {
      while receivers != map[]
        invariant Valid() && started == old(started)
        decreases |receivers|
      {
        var name :| name in receivers;
        var receiver := receivers[name];
        receivers := receivers - {name};
        receiver.Cancel();
      }
    }
  }

  // --- What is plugged in -------------------------------------------------------------------

  // One event on the configured pointer devices that are plugged in, by path.
  ghost function Plug(configured: Name -> bool, plugged: map<Path, Name>, e: Event): map<Path, Name> {
    match e
    case Added(name, path, pointer) => if pointer && configured(name) then plugged[path := name] else plugged
    case Removed(_, path, _) => plugged - {path}
  }

  ghost function Plugged(configured: Name -> bool, events: seq<Event>, n: nat): map<Path, Name>
    requires n <= |events|
  {
    if n == 0 then map[] else Plug(configured, Plugged(configured, events, n - 1), events[n - 1])
  }

  // A device keeps its name and its kind while it is plugged in, and no two have one path.
  ghost predicate Physical(configured: Name -> bool, events: seq<Event>) {
    forall i :: 0 <= i < |events| ==> Plausible(Plugged(configured, events, i), configured, events[i])
  }

  ghost predicate Plausible(plugged: map<Path, Name>, configured: Name -> bool, e: Event) {
    match e
    case Added(_, path, _) => path !in plugged
    case Removed(name, path, pointer) =>
      if pointer && configured(name) then path in plugged && plugged[path] == name else path !in plugged
  }

  ghost predicate Reads(live: map<Name, Path>, path: Path) {
    exists name :: name in live && live[name] == path
  }

  // Event i adds a device under the name of one that is already plugged in.
  ghost predicate SecondOfName(configured: Name -> bool, events: seq<Event>, i: nat)
    requires i < |events|
  {
    && events[i].Added? && events[i].pointer && configured(events[i].name)
    && exists path :: path in Plugged(configured, events, i) && Plugged(configured, events, i)[path] == events[i].name
  }

  // What is read is plugged in, under the name the map has it.
  ghost predicate Grounded(configured: Name -> bool, live: map<Name, Path>, plugged: map<Path, Name>) {
    forall name :: name in live ==>
      configured(name) && live[name] in plugged && plugged[live[name]] == name
  }

  /** No receiver outlives its device: whatever is read is plugged in. */
  lemma {:induction false} LiveArePlugged(configured: Name -> bool, events: seq<Event>, n: nat)
    requires Physical(configured, events) && n <= |events|
    ensures Grounded(configured, Live(configured, events, n), Plugged(configured, events, n))
  {
    if n > 0 {
      LiveArePlugged(configured, events, n - 1);
      GroundedStep(configured, Live(configured, events, n - 1), Plugged(configured, events, n - 1), events[n - 1]);
    }
  }

  lemma GroundedStep(configured: Name -> bool, live: map<Name, Path>, plugged: map<Path, Name>, e: Event)
    requires Plausible(plugged, configured, e) && Grounded(configured, live, plugged)
    ensures Grounded(configured, Handle(configured, live, e), Plug(configured, plugged, e))
  {
  }

  // Every configured device that is plugged in is read.
  ghost predicate AllRead(live: map<Name, Path>, plugged: map<Path, Name>) {
    forall path :: path in plugged ==> Reads(live, path)
  }

  lemma AllReadStep(configured: Name -> bool, live: map<Name, Path>, plugged: map<Path, Name>, e: Event)
    requires Plausible(plugged, configured, e) && Grounded(configured, live, plugged) && AllRead(live, plugged)
    ensures AllRead(Handle(configured, live, e), Plug(configured, plugged, e)) <==>
            !(e.Added? && e.pointer && configured(e.name) && exists path :: path in plugged && plugged[path] == e.name)
  {
    var live', plugged' := Handle(configured, live, e), Plug(configured, plugged, e);
    forall path | path in plugged
      ensures plugged[path] in live && live[plugged[path]] == path
    {
      assert Reads(live, path);
    }
    if e.Added? && e.pointer && configured(e.name) {
      if e.name in live {
        assert live[e.name] in plugged && plugged[live[e.name]] == e.name;
        assert live' == live && e.path in plugged' && !Reads(live, e.path);
      } else {
        assert live'[e.name] == e.path;
        forall path | path in plugged' ensures Reads(live', path) {
          assert path in plugged ==> live'[plugged[path]] == path;
        }
      }
    } else {
      forall path | path in plugged' ensures Reads(live', path) {
        assert live'[plugged[path]] == path;
      }
    }
  }

  ghost predicate AllReadAt(configured: Name -> bool, events: seq<Event>, n: nat)
    requires n <= |events|
  {
    AllRead(Live(configured, events, n), Plugged(configured, events, n))
  }

  lemma AllReadAfter(configured: Name -> bool, events: seq<Event>, m: nat, n: nat)
    requires Physical(configured, events) && m < |events| && n == m + 1 && AllReadAt(configured, events, m)
    ensures AllReadAt(configured, events, n) <==> !SecondOfName(configured, events, m)
  {
    LiveArePlugged(configured, events, m);
    AllReadStep(configured, Live(configured, events, m), Plugged(configured, events, m), events[m]);
  }

  // Through the first n events everything that is plugged in has been read.
  ghost predicate AlwaysRead(configured: Name -> bool, events: seq<Event>, n: nat)
    requires n <= |events|
  {
    forall k :: 0 <= k <= n ==> AllReadAt(configured, events, k)
  }

  // Among the first n events no device comes in beside one of its name.
  ghost predicate NoSecond(configured: Name -> bool, events: seq<Event>, n: nat)
    requires n <= |events|
  {
    forall i :: 0 <= i < n ==> !SecondOfName(configured, events, i)
  }

  lemma NoSecondSplit(configured: Name -> bool, events: seq<Event>, m: nat, n: nat)
    requires n == m + 1 <= |events|
    ensures NoSecond(configured, events, n) <==> NoSecond(configured, events, m) && !SecondOfName(configured, events, m)
  {
  }

  /** At every moment every configured device that is plugged in has its receiver, if and only if
      none is ever plugged in beside another one of the same name. */
  lemma {:induction false} AllReadIff(configured: Name -> bool, events: seq<Event>, n: nat)
    requires Physical(configured, events) && n <= |events|
    ensures AlwaysRead(configured, events, n) <==> NoSecond(configured, events, n)
  {
    if n == 0 {
      assert AllReadAt(configured, events, 0);
    } else {
      AllReadIff(configured, events, n - 1);
      NoSecondSplit(configured, events, n - 1, n);
      if AlwaysRead(configured, events, n - 1) {
        assert AllReadAt(configured, events, n - 1);
        AllReadAfter(configured, events, n - 1, n);
      }
    }
  }

  // Two mice of one kind come and the second one goes.
  ghost function TwoMice(): seq<Event> {
    [Added("mouse", "event3", true), Added("mouse", "event4", true), Removed("mouse", "event4", true)]
  }

  /** Unplugging the second mouse stops the receiver of the first. */
  lemma SecondMouseStopsTheFirst()
    ensures Physical(_ => true, TwoMice()) && SecondOfName(_ => true, TwoMice(), 1)
    ensures Live(_ => true, TwoMice(), 3) == map[] && Plugged(_ => true, TwoMice(), 3) == map["event3" := "mouse"]
  {
    var all: Name -> bool := _ => true;
    assert Plugged(all, TwoMice(), 1) == map["event3" := "mouse"];
    assert Plugged(all, TwoMice(), 2) == map["event3" := "mouse", "event4" := "mouse"];
    assert Live(all, TwoMice(), 1) == Live(all, TwoMice(), 2) == map["mouse" := "event3"];
  }
}
