/** The per-room state machine: a room's running/idle lifecycle, the banking
    of run segments into `elapsed`, attached items, the live elapsed time and
    total the timer shows, and the archive-on-close transition
    (app.js:31-37, 115-147, 163-168, 184-192, 217-234). Rooms are values here;
    the club state in module Cashier updates them in place. */
module Session {
  import opened Wrappers
  import Lists
  import opened Billing
  import Format

  /** The number of rooms (app.js:3). */
  const RoomsCount: nat := 5

  /** A wall-clock reading in milliseconds, as `Date.now()` returns it. It is
      positive, so the source's truthiness test `if (room.start)` holds exactly
      when a start time is recorded. */
  type Instant = t: int | t > 0 witness 1

  /** A room: `active`, the start of the open run segment (`null` when none),
      the banked milliseconds `elapsed`, and the attached items. */
  datatype Room = Room(
    id: string,
    name: string,
    active: bool,
    start: Option<Instant>,
    elapsed: int,
    items: seq<LineItem>)

  /** One closed session, as `endSession` pushes it onto the archive. */
  datatype ArchiveEntry = ArchiveEntry(
    id: nat,
    room: string,
    items: seq<LineItem>,
    elapsed: int,
    total: int,
    end: Instant)

  /** Why a command was refused. The source has no such results: it returns
      silently for an unknown room or product, and guards the two state changes
      that would lose data only by disabling their buttons. */
  datatype Error = RoomNotFound | ProductNotFound | AlreadyRunning | NothingToEnd

  /** A start time is recorded exactly when the room is running. */
  predicate Consistent(r: Room)
  {
    r.active <==> r.start.Some?
  }

  /** The room `i` (counting from 1) that initialisation creates. */
  function FreshRoom(i: nat): (r: Room)
    ensures Consistent(r) && !r.active && r.elapsed == 0 && r.items == []
    ensures r.id == "room" + Format.Decimal(i) && r.name == "Xona " + Format.Decimal(i)
  {
    Room("room" + Format.Decimal(i), "Xona " + Format.Decimal(i), false, None, 0, [])
  }

  /** Fresh rooms carry different ids, so finding a room by id is unambiguous. */
  lemma FreshRoomIdsDistinct(i: nat, j: nat)
    requires i != j
    ensures FreshRoom(i).id != FreshRoom(j).id
  {
    if FreshRoom(i).id == FreshRoom(j).id {
      var p := "room";
      assert Format.Decimal(i) == FreshRoom(i).id[|p|..];
      assert Format.Decimal(j) == FreshRoom(j).id[|p|..];
      Format.DecimalInjective(i, j);
    }
  }

  /** `state.rooms.find(r => r.id === roomId)`: the first room with that id. */
  function FindRoom(rooms: seq<Room>, id: string): (k: Option<nat>)
    ensures k.Some? ==> k.value < |rooms| && rooms[k.value].id == id
    ensures k.Some? ==> forall j :: 0 <= j < k.value ==> rooms[j].id != id
    ensures k.None? ==> forall j :: 0 <= j < |rooms| ==> rooms[j].id != id
  {
    Lists.Find(rooms, (x: Room) => x.id == id)
  }

  /** The elapsed time the timer shows at time `t`: the banked time plus the
      open segment, if any. It reads the room and changes nothing. */
  function LiveElapsed(r: Room, t: int): (e: int)
    ensures r.start.None? ==> e == r.elapsed
    ensures r.start.Some? ==> e - r.elapsed == t - r.start.value
    ensures r.start.Some? && r.start.value <= t ==> e >= r.elapsed
  {
    r.elapsed + (if r.start.Some? then t - r.start.value else 0)
  }

  /** While a room runs, its live elapsed time never decreases. */
  lemma LiveElapsedMonotone(r: Room, t1: int, t2: int)
    requires t1 <= t2
    ensures LiveElapsed(r, t1) <= LiveElapsed(r, t2)
  {
  }

  /** `calcRoomTotal(room, elapsedMs)`: the time charge of `elapsedMs` when it is
      given, of the live elapsed time at `now` otherwise, plus the items charge. */
  function CalcRoomTotal(r: Room, elapsedMs: Option<int>, now: int): (total: int)
    ensures var e := if elapsedMs.Some? then elapsedMs.value else LiveElapsed(r, now);
      var charge := total - ItemsPrice(r.items);
      (charge - 1) * MsPerHour < e * HourlyRate <= charge * MsPerHour
    ensures var e := if elapsedMs.Some? then elapsedMs.value else LiveElapsed(r, now);
      e >= 0 ==> total >= ItemsPrice(r.items) && (total == ItemsPrice(r.items) <==> e == 0)
  {
    var elapsed := if elapsedMs.Some? then elapsedMs.value else LiveElapsed(r, now);
    TimePrice(elapsed) + ItemsPrice(r.items)
  }

  /** An explicit elapsed time makes the clock irrelevant, and giving the live
      elapsed time (as `tick` does) agrees with reading the clock. */
  lemma CalcRoomTotalClock(r: Room, e: int, t1: int, t2: int)
    ensures CalcRoomTotal(r, Some(e), t1) == CalcRoomTotal(r, Some(e), t2)
    ensures CalcRoomTotal(r, Some(LiveElapsed(r, t1)), t2) == CalcRoomTotal(r, None, t1)
  {
  }

  /** The running total never decreases as time passes, and it is never negative
      once the banked time is and the items are. */
  lemma TotalMonotone(r: Room, t1: int, t2: int)
    requires t1 <= t2
    ensures CalcRoomTotal(r, None, t1) <= CalcRoomTotal(r, None, t2)
  {
    TimePriceMonotone(LiveElapsed(r, t1), LiveElapsed(r, t2));
  }

  lemma TotalNonNegative(r: Room, t: int)
    requires LiveElapsed(r, t) >= 0 && AllNonNegative(r.items)
    ensures CalcRoomTotal(r, None, t) >= 0
  {
    TimePriceSign(LiveElapsed(r, t));
  }

  /** `roomControl(id, 'start')`, guarded as the disabled Start button guards it:
      a running room refuses; an idle one records `now` as the start of a segment. */
  function Start(r: Room, now: Instant): (res: Result<Room, Error>)
    ensures res.Err? <==> r.active
    ensures res.Err? ==> res.error == AlreadyRunning
    ensures res.Ok? ==> res.value.active && res.value.start == Some(now)
    ensures res.Ok? ==> res.value == r.(active := true, start := Some(now))
  {
    if r.active then Err(AlreadyRunning) else Ok(r.(active := true, start := Some(now)))
  }

  /** The start branch as written, without the button: it overwrites `start`. */
  function StartAsWritten(r: Room, now: Instant): (r': Room)
    ensures r'.active && r'.start == Some(now) && r'.elapsed == r.elapsed && r'.items == r.items
  {
    r.(active := true, start := Some(now))
  }

  /** Started twice without the guard, a room forgets the first open segment:
      its live elapsed time falls by exactly the time between the two starts. */
  lemma StartAsWrittenLosesSegment(r: Room, t0: Instant, t1: Instant, t: int)
    requires r.active && r.start == Some(t0)
    ensures LiveElapsed(StartAsWritten(r, t1), t) == LiveElapsed(r, t) - (t1 - t0)
  {
  }

  /** `roomControl(id, 'stop')`: the room goes idle, and an open segment is banked
      into `elapsed` and closed. Stopping an idle room changes nothing else. */
  function Stop(r: Room, now: Instant): (r': Room)
    ensures !r'.active && r'.start.None?
    ensures r'.elapsed == LiveElapsed(r, now)
    ensures r.start.None? ==> r'.elapsed == r.elapsed
    ensures r'.items == r.items && r'.id == r.id && r'.name == r.name
  {
    var stopped := r.(active := false);
    if stopped.start.Some? then
      stopped.(elapsed := stopped.elapsed + (now - stopped.start.value), start := None)
    else stopped
  }

  /** The item-attach handler: the room's items grow by the new line at the end. */
  function Attach(r: Room, item: LineItem): (r': Room)
    ensures |r'.items| == |r.items| + 1 && r'.items[..|r.items|] == r.items
    ensures r'.items[|r.items|] == item
    ensures r' == r.(items := r'.items)
  {
    r.(items := r.items + [item])
  }

  /** Attaching adds exactly the new line's price * qty to the running total. */
  lemma AttachRaisesTotal(r: Room, item: LineItem, t: int)
    ensures CalcRoomTotal(Attach(r, item), None, t) == CalcRoomTotal(r, None, t) + LineTotal(item)
  {
    ItemsPriceAppend(r.items, item);
  }

  /** A closed session: the reset room and its archive entry. */
  datatype Closed = Closed(room: Room, entry: ArchiveEntry)

  /** `endSession`, guarded as the disabled End button guards it: a room with no
      items and nothing banked refuses. Otherwise the open segment is banked at
      `atTime`, the entry records the items, the elapsed time and the total at that
      moment, and the room is reset to idle with no items and no time. */
  function End(r: Room, atTime: Instant, entryId: nat): (res: Result<Closed, Error>)
    ensures res.Err? <==> r.items == [] && r.elapsed == 0
    ensures res.Err? ==> res.error == NothingToEnd
    ensures res.Ok? ==>
      var e := res.value.entry;
      e == ArchiveEntry(entryId, r.name, r.items, LiveElapsed(r, atTime),
                        CalcRoomTotal(r, None, atTime), atTime)
    ensures res.Ok? ==> res.value.room == Room(r.id, r.name, false, None, 0, [])
  {
    if r.items == [] && r.elapsed == 0 then Err(NothingToEnd)
    else
      var banked := Stop(r, atTime);
      var total := CalcRoomTotal(banked, None, atTime);
      var entry := ArchiveEntry(entryId, banked.name, banked.items, banked.elapsed, total, atTime);
      Ok(Closed(banked.(items := [], elapsed := 0), entry))
  }

  /** Each transition keeps "a start time is recorded iff running". */
  lemma TransitionsKeepConsistent(r: Room, now: Instant, item: LineItem, id: nat)
    requires Consistent(r)
    ensures Start(r, now).Ok? ==> Consistent(Start(r, now).value)
    ensures Consistent(Stop(r, now)) && Consistent(Attach(r, item))
    ensures End(r, now, id).Ok? ==> Consistent(End(r, now, id).value.room)
  {
  }

  /** A start or stop command at a moment of the clock. */
  datatype Event = StartAt(t: Instant) | StopAt(t: Instant)

  /** The room after the commands in order; a refused start leaves it as it was. */
  function Replay(r: Room, events: seq<Event>): (r': Room)
    ensures Consistent(r) ==> Consistent(r')
    ensures r'.items == r.items
    ensures events != [] ==> r'.active == events[|events| - 1].StartAt?
    decreases |events|
  {
    if events == [] then r
    else
      var next := match events[0]
        case StartAt(t) => (var res := Start(r, t); if res.Ok? then res.value else r)
        case StopAt(t) => Stop(r, t);
      Replay(next, events[1..])
  }

  /** The reference measure: how long a room is running from `from` to `until`
      if it is `running` at `from` and then sees `events`. A start keeps it
      running, a stop makes it idle; a second start opens no second segment. */
  function Occupied(running: bool, from: int, events: seq<Event>, until: int): int
    decreases |events|
  {
    if events == [] then (if running then until - from else 0)
    else (if running then events[0].t - from else 0)
         + Occupied(events[0].StartAt?, events[0].t, events[1..], until)
  }

  /** A start or a stop leaves the live elapsed time at its own instant unchanged. */
  lemma StepKeepsLiveElapsed(r: Room, e: Event, from: int)
    requires Consistent(r)
    ensures var next := match e
        case StartAt(t) => (var res := Start(r, t); if res.Ok? then res.value else r)
        case StopAt(t) => Stop(r, t);
      LiveElapsed(next, e.t) == LiveElapsed(r, from) + (if r.active then e.t - from else 0)
      && next.active == e.StartAt?
  {
  }

  /** No time is lost or counted twice: after any commands, the live elapsed time
      is what the room had plus the time it spent running. */
  lemma {:induction false} ReplayMeasuresRunningTime(r: Room, events: seq<Event>, from: int, until: int)
    requires Consistent(r)
    ensures LiveElapsed(Replay(r, events), until) == LiveElapsed(r, from) + Occupied(r.active, from, events, until)
    decreases |events|
  {
    if events != [] {
      var e := events[0];
      var next := match e
        case StartAt(t) => (var res := Start(r, t); if res.Ok? then res.value else r)
        case StopAt(t) => Stop(r, t);
      StepKeepsLiveElapsed(r, e, from);
      TransitionsKeepConsistent(r, e.t, LineItem(0, "", 0, 0), 0);
      ReplayMeasuresRunningTime(next, events[1..], e.t, until);
    }
  }

  /** Start at t0, stop at t1, start at t2, stop at t3 banks (t1 - t0) + (t3 - t2). */
  lemma TwoSegments(i: nat, t0: Instant, t1: Instant, t2: Instant, t3: Instant)
    ensures var r := Replay(FreshRoom(i), [StartAt(t0), StopAt(t1), StartAt(t2), StopAt(t3)]);
      !r.active && r.elapsed == (t1 - t0) + (t3 - t2)
  {
    var events := [StartAt(t0), StopAt(t1), StartAt(t2), StopAt(t3)];
    ReplayMeasuresRunningTime(FreshRoom(i), events, t0, t3);
    assert Occupied(false, t3, [], t3) == 0;
    assert Occupied(true, t2, events[3..], t3) == t3 - t2 by { assert events[3..][1..] == []; }
    assert Occupied(false, t1, events[2..], t3) == t3 - t2 by { assert events[2..][1..] == events[3..]; }
    assert Occupied(true, t0, events[1..], t3) == (t1 - t0) + (t3 - t2) by { assert events[1..][1..] == events[2..]; }
  }

  /** A second start is refused: the stop that follows banks one segment, from the first start. */
  lemma DoubleStartOneSegment(i: nat, t0: Instant, t1: Instant, t2: Instant)
    ensures var r := Replay(FreshRoom(i), [StartAt(t0), StartAt(t1), StopAt(t2)]);
      !r.active && r.elapsed == t2 - t0
  {
    var events := [StartAt(t0), StartAt(t1), StopAt(t2)];
    ReplayMeasuresRunningTime(FreshRoom(i), events, t0, t2);
    assert Occupied(true, t1, events[2..], t2) == t2 - t1 by { assert events[2..][1..] == []; }
    assert Occupied(true, t0, events[1..], t2) == t2 - t0 by { assert events[1..][1..] == events[2..]; }
  }

  /** Closing a session loses no money: the archived total is the total shown at
      the moment of closing, and it is not negative when nothing in the room is. */
  lemma EndKeepsTotal(r: Room, atTime: Instant, id: nat)
    requires End(r, atTime, id).Ok?
    requires LiveElapsed(r, atTime) >= 0 && AllNonNegative(r.items)
    ensures End(r, atTime, id).value.entry.total == CalcRoomTotal(r, None, atTime) >= 0
  {
    TotalNonNegative(r, atTime);
  }
}
