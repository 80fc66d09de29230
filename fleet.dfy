/**
 * The fleet replacement of server/main.js: the start-up registration of
 * turtle2 (:84-103) and drawPaths (:41-83), which kills every registered
 * turtle, empties the turtle table and spawns one uniquely named turtle per
 * path. ROS service requests are appended to a log, the Mongo collection is
 * a map from record ids to documents, and every `pose` listener is kept as
 * the wrapper whose flag gates it and the record it updates.
 */
module Fleet {
  import opened Options
  import opened Turtle

  // ----- turtle names -----

  function DigitChar(d: nat): char
    requires d < 10
  {
    ('0' as int + d) as char
  }

  function DigitValue(c: char): nat {
    if '0' <= c <= '9' then (c as int - '0' as int) as nat else 0
  }

  /** The decimal text of n, as JavaScript's string conversion writes an integer. */
  function DecimalDigits(n: nat): (s: string)
    ensures |s| > 0
    ensures forall i :: 0 <= i < |s| ==> '0' <= s[i] <= '9'
    decreases n
  {
    if n < 10 then [DigitChar(n)] else DecimalDigits(n / 10) + [DigitChar(n % 10)]
  }

  /** Reading decimal text back. */
  function ParseDecimal(s: string): nat {
    if s == [] then 0 else ParseDecimal(s[..|s| - 1]) * 10 + DigitValue(s[|s| - 1])
  }

  lemma {:induction false} DecimalRoundTrip(n: nat)
    ensures ParseDecimal(DecimalDigits(n)) == n
    decreases n
  {
    var s := DecimalDigits(n);
    if n < 10 {
      assert s[..0] == [];
    } else {
      DecimalRoundTrip(n / 10);
      assert s[..|s| - 1] == DecimalDigits(n / 10);
    }
  }

  /** 'turtle' + turtleCounter (:51). */
  function TurtleName(k: nat): (name: string)
    ensures |name| > 6 && name[..6] == "turtle"
    ensures forall i :: 6 <= i < |name| ==> '0' <= name[i] <= '9'
  {
    "turtle" + DecimalDigits(k)
  }

  /** Different counter values give different names. */
  lemma TurtleNameInjective(j: nat, k: nat)
    ensures TurtleName(j) == TurtleName(k) ==> j == k
  {
    if TurtleName(j) == TurtleName(k) {
      assert DecimalDigits(j) == TurtleName(j)[6..];
      assert DecimalDigits(k) == TurtleName(k)[6..];
      DecimalRoundTrip(j);
      DecimalRoundTrip(k);
    }
  }

  /**
   * The turtles the start-up code names itself, turtle1 and turtle2, are the
   * names of counter values 1 and 2; the counter starts at 2 and only grows,
   * so no path turtle ever gets either.
   */
  lemma StartUpNames()
    ensures TurtleName(1) == "turtle1" && TurtleName(2) == "turtle2"
    ensures forall k: nat :: k > 2 ==> TurtleName(k) != "turtle1" && TurtleName(k) != "turtle2"
  {
    forall k: nat | k > 2
      ensures TurtleName(k) != "turtle1" && TurtleName(k) != "turtle2"
    {
      TurtleNameInjective(k, 1);
      TurtleNameInjective(k, 2);
    }
  }

  // ----- requests, records, registry -----

  /** A service request sent to turtlesim: /kill by name, or the /spawn the turtle constructor sends. */
  datatype Request = Kill(name: string) | Spawn(name: string, x: real, y: real, theta: real)

  /**
   * A document of the turtles collection. Path turtles are inserted with a
   * nested `pose`; turtle2 is inserted with flat x, y, theta and velocity
   * fields (:90-97), kept in `flat`. Pose updates set `pose`.
   */
  datatype TurtleDoc = TurtleDoc(name: string, pose: Option<Pose>, flat: Option<Pose>)

  /** The object literal {name, turtle, exists} of :59-63 and :85-89; `live` is its `exists`. */
  class TurtleWrapper {
    const name: string
    var turtle: Option<SimulatedTurtle>
    var live: bool

    constructor (name: string, turtle: SimulatedTurtle)
      ensures this.name == name && this.turtle == Some(turtle) && live
    {
      this.name := name;
      this.turtle := Some(turtle);
      live := true;
    }
  }

  /**
   * An entry of the `turtles` registry: the start-up pushes a wrapper (:103),
   * drawPaths pushes the SimulatedTurtle itself (:81).
   */
  datatype Entry = WrapperEntry(w: TurtleWrapper) | TurtleEntry(t: SimulatedTurtle)
  {
    /** `turtles[a].name`: the wrapper's name, or the turtle's own name field. */
    function Name(): string {
      match this
      case WrapperEntry(w) => w.name
      case TurtleEntry(t) => t.name
    }

    /** The object `turtles[a].exists = false` and `delete turtles[a].turtle` write to. */
    function Target(): object {
      match this
      case WrapperEntry(w) => w
      case TurtleEntry(t) => t
    }
  }

  /** What :44-45 leave behind: a wrapper silenced and emptied, or a turtle with an `exists` property of false. */
  ghost predicate Cleared(e: Entry)
    reads e.Target()
  {
    match e
    case WrapperEntry(w) => !w.live && w.turtle == None
    case TurtleEntry(t) => t.existsMark == Some(false)
  }

  /** The `pose` listener of a turtle: the wrapper whose flag it reads and the record it updates. */
  datatype Listener = Listener(gate: TurtleWrapper, record: nat)

  /** One kill request per registered turtle, in registry order (:42-43). */
  function KillRequests(es: seq<Entry>): (r: seq<Request>)
    ensures |r| == |es|
    ensures forall i :: 0 <= i < |es| ==> r[i] == Kill(es[i].Name())
  {
    seq(|es|, i requires 0 <= i < |es| => Kill(es[i].Name()))
  }

  /** The n spawn requests of a call that starts with the counter at k, in path order. */
  function SpawnRequests(paths: seq<seq<Point>>, k: nat, n: nat): seq<Request>
    requires n <= |paths| && forall b :: 0 <= b < n ==> |paths[b]| > 0
  {
    if n == 0 then []
    else SpawnRequests(paths, k, n - 1) + [Spawn(TurtleName(k + n), paths[n - 1][0].x, paths[n - 1][0].y, 0.0)]
  }

  /** The b-th spawn request names the b-th counter value after k and places the turtle at the b-th path's start. */
  lemma {:induction false} SpawnRequestsContents(paths: seq<seq<Point>>, k: nat, n: nat)
    requires n <= |paths| && forall b :: 0 <= b < n ==> |paths[b]| > 0
    ensures |SpawnRequests(paths, k, n)| == n
    ensures forall b :: 0 <= b < n ==>
              SpawnRequests(paths, k, n)[b] == Spawn(TurtleName(k + b + 1), paths[b][0].x, paths[b][0].y, 0.0)
  {
    if n > 0 {
      SpawnRequestsContents(paths, k, n - 1);
    }
  }

  /** How many turtles a drawPaths call spawns: up to the first empty path, whose `paths[b][0][0]` throws. */
  function SpawnedCount(paths: seq<seq<Point>>): (n: nat)
    ensures n <= |paths|
    ensures forall b :: 0 <= b < n ==> |paths[b]| > 0
    ensures n < |paths| ==> paths[n] == []
  {
    if paths == [] then 0
    else if paths[0] == [] then 0
    else 1 + SpawnedCount(paths[1..])
  }

  /**
   * The spawn loop stops at b, past the paths spawned so far, exactly at the
   * count; and it is the whole list exactly when no path is empty.
   */
  lemma SpawnedCountAt(paths: seq<seq<Point>>, b: nat)
    requires b <= SpawnedCount(paths) && (b == |paths| || |paths[b]| == 0)
    ensures b == SpawnedCount(paths)
    ensures b == |paths| <==> forall j :: 0 <= j < |paths| ==> |paths[j]| > 0
  {
    if b < |paths| {
      assert |paths[b]| == 0;
    }
  }

  /** The record a path turtle is inserted with (:64-73): its spawn waypoint, theta 0, no velocity. */
  function SpawnRecord(name: string, start: Point): TurtleDoc {
    TurtleDoc(name, Some(Pose(start.x, start.y, 0.0, 0.0, 0.0)), None)
  }

  /**
   * The table after a call that spawned n turtles, the counter starting at k
   * and the record ids at id0: one record per new turtle, under consecutive
   * fresh ids, holding its name and spawn pose.
   */
  function SpawnRecords(paths: seq<seq<Point>>, k: nat, id0: nat, n: nat): map<nat, TurtleDoc>
    requires n <= |paths| && forall b :: 0 <= b < n ==> |paths[b]| > 0
  {
    if n == 0 then map[]
    else SpawnRecords(paths, k, id0, n - 1)[id0 + n - 1 := SpawnRecord(TurtleName(k + n), paths[n - 1][0])]
  }

  /** The ids of SpawnRecords are exactly id0 .. id0 + n - 1, the b-th holding the b-th new turtle. */
  lemma {:induction false} SpawnRecordsContents(paths: seq<seq<Point>>, k: nat, id0: nat, n: nat)
    requires n <= |paths| && forall b :: 0 <= b < n ==> |paths[b]| > 0
    ensures forall id :: id in SpawnRecords(paths, k, id0, n) <==> id0 <= id < id0 + n
    ensures forall b :: 0 <= b < n ==> SpawnRecords(paths, k, id0, n)[id0 + b] == SpawnRecord(TurtleName(k + b + 1), paths[b][0])
  {
    if n > 0 {
      SpawnRecordsContents(paths, k, id0, n - 1);
    }
  }

  /** Names from one call never meet names from a later call, nor each other. */
  lemma SpawnNamesDistinct(k0: nat, n0: nat, k1: nat, i: nat, j: nat)
    requires k0 + n0 <= k1 && i < n0
    ensures TurtleName(k0 + i + 1) != TurtleName(k1 + j + 1)
    ensures j < n0 && i != j ==> TurtleName(k0 + i + 1) != TurtleName(k0 + j + 1)
  {
    TurtleNameInjective(k0 + i + 1, k1 + j + 1);
    TurtleNameInjective(k0 + i + 1, k0 + j + 1);
  }

  /**
   * What drawPaths leaves for a non-empty path: the turtle itself in the
   * registry, named after counter value k and drawing the path, with a
   * listener that is open and pointed at the turtle's record.
   */
  ghost predicate Placed(e: Entry, k: nat, path: seq<Point>, listener: Listener, record: nat)
    reads e.Target(), listener.gate
  {
    && e.TurtleEntry? && |path| > 0
    && e.t.name == TurtleName(k) && e.t.path == path && e.t.drawPathCalls == 1
    && listener.gate.live && listener.record == record
  }

  /**
   * Registry entry j holds the turtle of path j, with counter value k0 + j + 1
   * and record id id0 + j, and the listener it was given in ls.
   */
  ghost predicate AllPlaced(ts: seq<Entry>, ls: map<SimulatedTurtle, Listener>, paths: seq<seq<Point>>, k0: nat, id0: nat)
    reads set j | 0 <= j < |ts| :: ts[j].Target()
    reads set t | t in ls :: ls[t].gate
  {
    && |ts| <= |paths|
    && forall j :: 0 <= j < |ts| ==>
         ts[j].TurtleEntry? && ts[j].t in ls && Placed(ts[j], k0 + j + 1, paths[j], ls[ts[j].t], id0 + j)
  }

  /** The turtles registered directly, not through a wrapper, in ts. */
  function BareTurtles(ts: seq<Entry>): set<SimulatedTurtle>
  {
    if ts == [] then {}
    else BareTurtles(ts[..|ts| - 1]) + (if ts[|ts| - 1].TurtleEntry? then {ts[|ts| - 1].t} else {})
  }

  /** Registering one more placed turtle, under a key ls does not hold yet, keeps the earlier ones placed. */
  lemma AllPlacedSnoc(ts: seq<Entry>, ls: map<SimulatedTurtle, Listener>, paths: seq<seq<Point>>, k0: nat, id0: nat,
                      e: Entry, listener: Listener)
    requires AllPlaced(ts, ls, paths, k0, id0) && |ts| < |paths|
    requires e.TurtleEntry? && e.t !in ls && Placed(e, k0 + |ts| + 1, paths[|ts|], listener, id0 + |ts|)
    ensures AllPlaced(ts + [e], ls[e.t := listener], paths, k0, id0)
  {
    var ts', ls' := ts + [e], ls[e.t := listener];
    forall j | 0 <= j < |ts'|
      ensures ts'[j].TurtleEntry? && ts'[j].t in ls' && Placed(ts'[j], k0 + j + 1, paths[j], ls'[ts'[j].t], id0 + j)
    {
      if j < |ts| {
        assert ts'[j] == ts[j] && ts[j].t != e.t;
      }
    }
  }

  /**
   * `newTurtle.drawPath(paths[b], ...)` (:79) on a turtle that has just been
   * constructed: the turtle is left settled, having published the first
   * command of the alignment toward the path's first waypoint.
   */
  method Launch(t: SimulatedTurtle, path: seq<Point>)
    requires t.Valid() && t.Settled() && t.phase.Idle? && t.drawPathCalls == 0 && t.commands == []
    requires |path| > 0
    modifies t`commands, t`phase, t`timerPending, t`reached, t`completions, t`path, t`drawPathCalls
    ensures t.path == path && t.drawPathCalls == 1
    ensures Launched(t, path)
  {
    t.DrawPath(path);
  }

  /** t is settled after drawPath(path) started, and has published the first step toward path[0]. */
  ghost predicate Launched(t: SimulatedTurtle, path: seq<Point>)
    requires |path| > 0
    reads t
  {
    t.Valid() && t.Settled() && Started(t, path)
  }

  /** The first command t published is the first step of aligning toward the path's first waypoint. */
  ghost predicate Started(t: SimulatedTurtle, path: seq<Point>)
    requires |path| > 0
    reads t
  {
    && |t.commands| > 0 && t.publishInterval > 0.0
    && t.AlignStep(t.ThetaForGoalPosition(path[0]), 0.0, 0.0, t.commands[0])
  }

  /** The state of the Meteor start-up closure of server/main.js. */
  class Coordinator {
    /** The `turtles` registry. */
    var turtles: seq<Entry>
    var turtleCounter: nat
    /** The turtles collection; ids are never reused. */
    var records: map<nat, TurtleDoc>
    var nextRecordId: nat
    /** Every kill and spawn request issued, in order. */
    var requests: seq<Request>
    /** The `pose` listener each turtle was given; EventEmitter listeners are never removed. */
    var listeners: map<SimulatedTurtle, Listener>

    ghost predicate Valid()
      reads this
    {
      && turtleCounter >= 2
      && (forall id :: id in records ==> id < nextRecordId)
      && (forall t :: t in listeners ==> listeners[t].record < nextRecordId)
    }

    /**
     * The start-up (:9-14, :84-103): kill turtle1, spawn turtle2 at the
     * centre, register its wrapper and insert its flat record.
     */
    constructor ()
      ensures Valid()
      ensures turtleCounter == 2
      ensures requests == [Kill("turtle1"), Spawn("turtle2", 5.5, 5.5, 0.0)]
      ensures |turtles| == 1 && turtles[0].WrapperEntry? && fresh(turtles[0].w)
      ensures turtles[0].w.name == "turtle2" && turtles[0].w.live && turtles[0].w.turtle.Some?
      ensures fresh(turtles[0].w.turtle.value) && turtles[0].w.turtle.value.name == "turtle2"
      ensures records == map[0 := TurtleDoc("turtle2", None, Some(Pose(5.5, 5.5, 0.0, 0.0, 0.0)))]
      ensures nextRecordId == 1
      ensures listeners == map[turtles[0].w.turtle.value := Listener(turtles[0].w, 0)]
    {
      turtles := [];
      turtleCounter := 2;
      requests := [Kill("turtle1")];
      var t := new SimulatedTurtle(5.5, 5.5, 0.0, "turtle2");
      requests := requests + [Spawn("turtle2", 5.5, 5.5, 0.0)];
      var original := new TurtleWrapper("turtle2", t);
      records := map[0 := TurtleDoc("turtle2", None, Some(Pose(5.5, 5.5, 0.0, 0.0, 0.0)))];
      nextRecordId := 1;
      listeners := map[t := Listener(original, 0)];
      turtles := [WrapperEntry(original)];
    }

    /** The kill loop and the clearing of drawPaths (:42-48). */
    method KillAll()
      requires Valid()
      modifies this`turtles, this`requests, this`records
      modifies set e | e in turtles && e.WrapperEntry? :: e.w
      modifies (set e | e in turtles && e.TurtleEntry? :: e.t)`existsMark
      ensures Valid()
      ensures requests == old(requests) + KillRequests(old(turtles))
      ensures forall e :: e in old(turtles) ==> Cleared(e)
      ensures turtles == [] && records == map[]
      ensures turtleCounter == old(turtleCounter) && nextRecordId == old(nextRecordId) && listeners == old(listeners)
    {
      var registry := turtles;
      for a := 0 to |registry|
        invariant requests == old(requests) + KillRequests(registry[..a])
        invariant forall j :: 0 <= j < a ==> Cleared(registry[j])
      {
        assert registry[..a + 1] == registry[..a] + [registry[a]];
        requests := requests + [Kill(registry[a].Name())];
        match registry[a]
        case WrapperEntry(w) =>
          assert w == registry[a].Target();
          w.live := false;
          w.turtle := None;
        case TurtleEntry(t) =>
          assert t == registry[a].Target();
          t.existsMark := Some(false);
      }
      assert registry[..|registry|] == registry;
      turtles := [];
      records := map[];
    }

    /**
     * One pass of the spawn loop (:50-81) for a non-empty path: set the turtle
     * up, start drawPath over the whole path, and register the turtle itself.
     */
    method SpawnFor(path: seq<Point>) returns (t: SimulatedTurtle, gate: TurtleWrapper)
      requires Valid() && |path| > 0
      modifies this`turtleCounter, this`requests, this`records, this`nextRecordId, this`listeners, this`turtles
      ensures Valid()
      ensures turtleCounter == old(turtleCounter) + 1
      ensures fresh(t) && fresh(gate) && t !in old(listeners)
      ensures t.name == TurtleName(turtleCounter) && t.path == path && t.drawPathCalls == 1
      ensures t.xPosition == path[0].x && t.yPosition == path[0].y && t.theta == 0.0
      ensures gate.name == t.name && gate.turtle == Some(t) && gate.live
      ensures requests == old(requests) + [Spawn(t.name, path[0].x, path[0].y, 0.0)]
      ensures records == old(records)[old(nextRecordId) := SpawnRecord(t.name, path[0])]
      ensures nextRecordId == old(nextRecordId) + 1
      ensures listeners == old(listeners)[t := Listener(gate, old(nextRecordId))]
      ensures turtles == old(turtles) + [TurtleEntry(t)]
      ensures Placed(TurtleEntry(t), turtleCounter, path, listeners[t], old(nextRecordId))
      ensures Launched(t, path)
    {
      t, gate := SetUp(path);
      Launch(t, path);
      turtles := turtles + [TurtleEntry(t)];
    }

    /**
     * The set-up of one pass (:50-78): advance the counter and name the
     * turtle after it, construct the turtle at the first waypoint, insert its
     * record and attach its listener gated on a fresh wrapper.
     */
    method SetUp(path: seq<Point>) returns (t: SimulatedTurtle, gate: TurtleWrapper)
      requires Valid() && |path| > 0
      modifies this`turtleCounter, this`requests, this`records, this`nextRecordId, this`listeners
      ensures Valid()
      ensures turtleCounter == old(turtleCounter) + 1
      ensures fresh(t) && fresh(gate) && t !in old(listeners)
      ensures t.Valid() && t.Settled() && t.phase.Idle? && t.drawPathCalls == 0 && t.commands == []
      ensures t.name == TurtleName(turtleCounter)
      ensures t.xPosition == path[0].x && t.yPosition == path[0].y && t.theta == 0.0
      ensures gate.name == t.name && gate.turtle == Some(t) && gate.live
      ensures requests == old(requests) + [Spawn(t.name, path[0].x, path[0].y, 0.0)]
      ensures records == old(records)[old(nextRecordId) := SpawnRecord(t.name, path[0])]
      ensures nextRecordId == old(nextRecordId) + 1
      ensures listeners == old(listeners)[t := Listener(gate, old(nextRecordId))]
    {
      turtleCounter := turtleCounter + 1;
      var newTurtleName := TurtleName(turtleCounter);
      t := new SimulatedTurtle(path[0].x, path[0].y, 0.0, newTurtleName);
      requests := requests + [Spawn(newTurtleName, path[0].x, path[0].y, 0.0)];
      gate := new TurtleWrapper(newTurtleName, t);
      var id := nextRecordId;
      records := records[id := SpawnRecord(newTurtleName, path[0])];
      nextRecordId := nextRecordId + 1;
      listeners := listeners[t := Listener(gate, id)];
    }

    /**
     * drawPaths (:41-83). Every registered turtle is killed by name and
     * cleared; then each path in order gets the next counter value, and a
     * turtle of that name spawned at its first waypoint, drawing the whole
     * path. An empty path throws once its counter value is taken (false
     * here), and the paths after it are not spawned.
     */
    method DrawPaths(paths: seq<seq<Point>>) returns (ok: bool)
      requires Valid()
      modifies this, set e | e in turtles && e.WrapperEntry? :: e.w
      modifies (set e | e in turtles && e.TurtleEntry? :: e.t)`existsMark
      ensures Valid()
      ensures ok <==> forall b :: 0 <= b < |paths| ==> |paths[b]| > 0
      ensures turtleCounter == old(turtleCounter) + SpawnedCount(paths) + (if ok then 0 else 1)
      ensures forall e :: e in old(turtles) ==> Cleared(e)
      ensures Spawned(paths, old(turtleCounter), old(nextRecordId), old(listeners),
                      old(requests) + KillRequests(old(turtles)), SpawnedCount(paths))
    {
      KillAll();
      ok := SpawnAll(paths);
    }

    /**
     * The state after the first b passes of the spawn loop of a call that
     * found the counter at k0, the next record id at id0, the listeners l0
     * and the request log r0, on an emptied registry and table.
     */
    ghost predicate Spawned(paths: seq<seq<Point>>, k0: nat, id0: nat, l0: map<SimulatedTurtle, Listener>, r0: seq<Request>, b: nat)
      reads this`turtles, this`requests, this`records, this`nextRecordId, this`listeners
      reads set j | 0 <= j < |turtles| :: turtles[j].Target()
      reads set t | t in listeners :: listeners[t].gate
    {
      && b <= SpawnedCount(paths)
      && nextRecordId == id0 + b
      && requests == r0 + SpawnRequests(paths, k0, b)
      && |turtles| == b
      && AllPlaced(turtles, listeners, paths, k0, id0)
      && records == SpawnRecords(paths, k0, id0, b)
      && (forall t :: t in l0 ==> t in listeners && listeners[t] == l0[t])
      && listeners.Keys == l0.Keys + BareTurtles(turtles)
    }

    /**
     * The spawn loop of drawPaths (:49-82), on an empty registry and table:
     * it returns normally when no path is empty, and otherwise throws at the
     * first empty one.
     */
    method SpawnAll(paths: seq<seq<Point>>) returns (ok: bool)
      requires Valid() && turtles == [] && records == map[]
      modifies this`turtleCounter, this`requests, this`records, this`nextRecordId, this`listeners, this`turtles
      ensures Valid()
      ensures ok <==> forall b :: 0 <= b < |paths| ==> |paths[b]| > 0
      ensures turtleCounter == old(turtleCounter) + SpawnedCount(paths) + (if ok then 0 else 1)
      ensures Spawned(paths, old(turtleCounter), old(nextRecordId), old(listeners), old(requests), SpawnedCount(paths))
    {
      var b := SpawnPasses(paths);
      SpawnedCountAt(paths, b);
      ok := b == |paths|;
      if !ok {
        SkipEmpty(paths, b, old(turtleCounter), old(nextRecordId), old(listeners), old(requests));
      }
    }

    /** Before the first pass nothing is spawned yet. */
    lemma SpawnedAtStart(paths: seq<seq<Point>>)
      requires turtles == [] && records == map[]
      ensures Spawned(paths, turtleCounter, nextRecordId, listeners, requests, 0)
    {
      assert BareTurtles(turtles) == {} && SpawnRecords(paths, turtleCounter, nextRecordId, 0) == records;
      assert requests + SpawnRequests(paths, turtleCounter, 0) == requests;
    }

    /** The passes of the spawn loop over the leading non-empty paths; it stops at the end or at an empty path. */
    method SpawnPasses(paths: seq<seq<Point>>) returns (b: nat)
      requires Valid() && turtles == [] && records == map[]
      modifies this`turtleCounter, this`requests, this`records, this`nextRecordId, this`listeners, this`turtles
      ensures Valid() && Spawned(paths, old(turtleCounter), old(nextRecordId), old(listeners), old(requests), b)
      ensures turtleCounter == old(turtleCounter) + b
      ensures b == |paths| || |paths[b]| == 0
    {
      b := 0;
      SpawnedAtStart(paths);
      while b < |paths| && |paths[b]| > 0
        invariant Valid() && Spawned(paths, old(turtleCounter), old(nextRecordId), old(listeners), old(requests), b)
        invariant turtleCounter == old(turtleCounter) + b
      {
        SpawnNext(paths, b, old(turtleCounter), old(nextRecordId), old(listeners), old(requests));
        b := b + 1;
      }
    }

    /**
     * Pass b of the spawn loop for an empty path: the counter value is taken
     * (:50), then `paths[b][0][0]` throws and nothing else changes.
     */
    method SkipEmpty(paths: seq<seq<Point>>, b: nat,
                     ghost k0: nat, ghost id0: nat, ghost l0: map<SimulatedTurtle, Listener>, ghost r0: seq<Request>)
      requires Valid() && Spawned(paths, k0, id0, l0, r0, b)
      modifies this`turtleCounter
      ensures Valid() && Spawned(paths, k0, id0, l0, r0, b)
      ensures turtleCounter == old(turtleCounter) + 1
    {
      turtleCounter := turtleCounter + 1;
    }

    /**
     * Pass b of the spawn loop for a non-empty path, taking the state from b
     * to b + 1 passes.
     */
    method SpawnNext(paths: seq<seq<Point>>, b: nat,
                     ghost k0: nat, ghost id0: nat, ghost l0: map<SimulatedTurtle, Listener>, ghost r0: seq<Request>)
      requires Valid() && Spawned(paths, k0, id0, l0, r0, b)
      requires b < |paths| && |paths[b]| > 0 && turtleCounter == k0 + b
      modifies this`turtleCounter, this`requests, this`records, this`nextRecordId, this`listeners, this`turtles
      ensures Valid() && Spawned(paths, k0, id0, l0, r0, b + 1)
      ensures turtleCounter == k0 + b + 1
    {
      ghost var previous, previousListeners := turtles, listeners;
      ghost var previousRequests, previousRecords := requests, records;
      var newTurtle, newTurtleObj := SpawnFor(paths[b]);
      ghost var newTurtleName := newTurtle.name;
      assert AllPlaced(previous, previousListeners, paths, k0, id0);
      AllPlacedSnoc(previous, previousListeners, paths, k0, id0, TurtleEntry(newTurtle), Listener(newTurtleObj, id0 + b));
      assert newTurtleName == TurtleName(k0 + b + 1);
      assert requests == previousRequests + [Spawn(newTurtleName, paths[b][0].x, paths[b][0].y, 0.0)];
      assert requests == r0 + SpawnRequests(paths, k0, b + 1);
      assert records == previousRecords[id0 + b := SpawnRecord(newTurtleName, paths[b][0])];
      assert records == SpawnRecords(paths, k0, id0, b + 1);
      assert turtles[..|turtles| - 1] == previous;
      assert BareTurtles(turtles) == BareTurtles(previous) + {newTurtle};
    }

    /**
     * A pose sample reaches turtle t (:45-51 of the turtle, :74-78 and :98-102
     * here): the turtle takes the pose, and its listener sets the record's
     * pose only while its wrapper's flag is true. An update of a removed
     * record changes nothing.
     */
    method DeliverPose(t: SimulatedTurtle, p: Pose)
      requires Valid()
      modifies t`xPosition, t`yPosition, t`theta, t`angularVelocity, t`linearVelocity, this`records
      ensures Valid()
      ensures t.xPosition == p.x && t.yPosition == p.y && t.theta == p.theta
      ensures t.angularVelocity == p.angularVelocity && t.linearVelocity == p.linearVelocity
      ensures old(Forwards(t)) && listeners[t].record in old(records) ==>
                records == old(records)[listeners[t].record := old(records)[listeners[t].record].(pose := Some(p))]
      ensures !(old(Forwards(t)) && listeners[t].record in old(records)) ==> records == old(records)
    {
      t.SetCurrentPose(p);
      if t in listeners {
        var listener := listeners[t];
        if listener.gate.live && listener.record in records {
          records := records[listener.record := records[listener.record].(pose := Some(p))];
        }
      }
    }

    /** t's listener passes pose samples on. */
    ghost predicate Forwards(t: SimulatedTurtle)
      reads this, if t in listeners then {listeners[t].gate} else {}
    {
      t in listeners && listeners[t].gate.live
    }
  }

  /**
   * The first drawPaths after start-up silences turtle2: it is registered as
   * its wrapper (:103), so :44 turns off the flag its listener reads,
   * whatever the paths.
   */
  method StartUpTurtleSilenced(paths: seq<seq<Point>>) returns (forwards: bool)
    ensures !forwards
  {
    var c := new Coordinator();
    var original := c.turtles[0].w.turtle.value;
    ghost var wrapper := c.turtles[0].w;
    assert c.turtles == [WrapperEntry(wrapper)] && c.listeners[original].gate == wrapper;
    var ok := c.DrawPaths(paths);
    forwards := original in c.listeners && c.listeners[original].gate.live;
    assert Cleared(WrapperEntry(wrapper));
  }

  /**
   * A path turtle is registered as itself (:81), so a later drawPaths marks
   * the turtle and not the wrapper its listener reads: once replaced, the
   * turtle's listener still forwards, but to a record that is gone, so a
   * pose sample changes no record. Its controller is left as it was (:43-45
   * touch only `exists` and `turtle`), so it goes on driving.
   */
  method ReplacedTurtleStillListening(c: Coordinator, paths: seq<seq<Point>>, p: Pose)
    returns (forwards: bool, recordsKept: bool, stillDriving: bool)
    requires c.Valid() && |c.turtles| > 0
    requires forall e :: e in c.turtles ==> e.TurtleEntry?
    requires c.turtles[0].t in c.listeners && c.listeners[c.turtles[0].t].gate.live
    modifies c, set e | e in c.turtles :: e.Target()
    ensures forwards && recordsKept && stillDriving
  {
    var first := c.turtles[0].t;
    var phase0, commands0 := first.phase, first.commands;
    var record := c.listeners[first].record;
    ghost var k0, id0 := c.turtleCounter, c.nextRecordId;
    var ok := c.DrawPaths(paths);
    forwards := first in c.listeners && c.listeners[first].gate.live;
    SpawnRecordsContents(paths, k0, id0, SpawnedCount(paths));
    assert record !in c.records;
    var before := c.records;
    c.DeliverPose(first, p);
    recordsKept := c.records == before;
    stillDriving := first.phase == phase0 && first.commands == commands0;
  }
}
