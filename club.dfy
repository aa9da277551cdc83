/** The club's state `{rooms, products, archive}` (app.js:6-10) and the
    commands that change it in place: loading, starting and stopping a room,
    attaching an item, ending a session, and editing the catalog. Ids that the
    source draws at random come from the counter `nextId`. */
module Cashier {
  import opened Wrappers
  import opened Billing
  import opened Session
  import opened Catalog

  /** The state as read back from storage; each part may be missing. */
  datatype Saved = Saved(
    rooms: Option<seq<Room>>,
    products: Option<seq<Product>>,
    archive: Option<seq<ArchiveEntry>>)

  /** What a command reports: done, or refused and nothing changed. */
  datatype Outcome = Done | Refused(reason: Error)

  /** A room the club can hold: a start time iff running, no negative banked
      time, and every line a positive quantity at a price that is not negative. */
  predicate WellFormed(r: Room)
  {
    Consistent(r) && r.elapsed >= 0 &&
    forall i :: 0 <= i < |r.items| ==> r.items[i].price >= 0 && r.items[i].qty >= 1
  }

  /** Saved data that a well-formed club wrote. */
  predicate SavedWellFormed(s: Saved)
  {
    (s.rooms.Some? ==> forall k :: 0 <= k < |s.rooms.value| ==> WellFormed(s.rooms.value[k])) &&
    (s.products.Some? ==> forall p :: p in s.products.value ==> p.price > 0) &&
    (s.archive.Some? ==> forall e :: e in s.archive.value ==> e.total >= 0)
  }

  /** The state `loadState` starts from: what storage held, or the empty state
      when it held nothing or nothing readable. */
  function Loaded(saved: Option<Saved>): Saved
  {
    if saved.Some? then saved.value else Saved(Some([]), Some([]), Some([]))
  }

  /** The room initialisation loop of `loadState`: rooms 1 to 5, in order. */
  method BuildRooms() returns (rooms: seq<Room>)
    ensures |rooms| == RoomsCount
    ensures forall k :: 0 <= k < |rooms| ==> rooms[k] == FreshRoom(k + 1) && WellFormed(rooms[k])
    ensures forall j, k :: 0 <= j < k < |rooms| ==> rooms[j].id != rooms[k].id
  {
    rooms := [];
    for i := 1 to RoomsCount + 1
      invariant |rooms| == i - 1
      invariant forall k :: 0 <= k < |rooms| ==> rooms[k] == FreshRoom(k + 1)
    {
      rooms := rooms + [FreshRoom(i)];
    }
    forall j, k | 0 <= j < k < |rooms|
      ensures rooms[j].id != rooms[k].id
    {
      FreshRoomIdsDistinct(j + 1, k + 1);
    }
  }

  /** A club loaded from a save whose first room was running since `t0` shows,
      at any later time `t`, that room's banked time plus everything since `t0`,
      the time the page was closed included: loading keeps the start. */
  method ResumeAfterReload(saved: Saved, t0: Instant, t: int) returns (running: bool, shown: int)
    requires saved.rooms.Some? && |saved.rooms.value| == RoomsCount
    requires Consistent(saved.rooms.value[0]) && saved.rooms.value[0].start == Some(t0)
    ensures running && shown == saved.rooms.value[0].elapsed + (t - t0)
  {
    var club := new Club.Load(Some(saved), 0);
    running := club.rooms[0].active;
    shown := LiveElapsed(club.rooms[0], t);
  }

  class Club {
    var rooms: seq<Room>
    var products: seq<Product>
    var archive: seq<ArchiveEntry>
    var nextId: nat

    /** The object invariant: five well-formed rooms, positive catalog prices,
        and no negative total in the archive. */
    ghost predicate Valid()
      reads this
    {
      |rooms| == RoomsCount &&
      (forall k :: 0 <= k < |rooms| ==> WellFormed(rooms[k])) &&
      (forall p :: p in products ==> p.price > 0) &&
      (forall e :: e in archive ==> e.total >= 0)
    }

    /** The clock reads `now` or later than every recorded start. */
    ghost predicate NotBefore(now: int)
      reads this
    {
      forall k :: 0 <= k < |rooms| ==> rooms[k].start.Some? ==> rooms[k].start.value <= now
    }

    /** `loadState`: keeps the saved rooms when there are exactly five of them
        (a running room keeps its start, so its timer resumes), builds five fresh
        rooms otherwise, fills in missing lists, and adds the default products
        to an empty catalog. */
    constructor Load(saved: Option<Saved>, firstId: nat)
      ensures var s := Loaded(saved);
        |rooms| == RoomsCount &&
        (s.rooms.Some? && |s.rooms.value| == RoomsCount ==> rooms == s.rooms.value) &&
        (!(s.rooms.Some? && |s.rooms.value| == RoomsCount) ==>
           forall k :: 0 <= k < RoomsCount ==> rooms[k] == FreshRoom(k + 1))
      ensures var s := Loaded(saved);
        var ps := if s.products.Some? then s.products.value else [];
        products == (if ps != [] then ps else DefaultProducts(firstId)) &&
        archive == (if s.archive.Some? then s.archive.value else [])
      ensures nextId >= firstId
      ensures SavedWellFormed(Loaded(saved)) ==> Valid()
    {
      var s := Loaded(saved);
      var built;
      if s.rooms.Some? && |s.rooms.value| == RoomsCount {
        built := s.rooms.value;
      } else {
        built := BuildRooms();
      }
      rooms := built;
      products := if s.products.Some? then s.products.value else [];
      archive := if s.archive.Some? then s.archive.value else [];
      nextId := firstId;
      new;
      InitDefaultProducts();
    }

    /** `initDefaultProducts`: an empty catalog gets the four default products. */
    method InitDefaultProducts()
      modifies this
      ensures old(products) != [] ==> products == old(products) && nextId == old(nextId)
      ensures old(products) == [] ==>
        products == DefaultProducts(old(nextId)) && nextId == old(nextId) + |products|
      ensures rooms == old(rooms) && archive == old(archive)
      ensures (forall p :: p in old(products) ==> p.price > 0) ==> forall q :: q in products ==> q.price > 0
    {
      if products != [] {
        return;
      }
      products := DefaultProducts(nextId);
      nextId := nextId + |products|;
    }

    /** `roomControl(id, 'start')`, refused for an unknown room and, in place of
        the disabled Start button, for a room that is already running. */
    method StartRoom(roomId: string, now: Instant) returns (outcome: Outcome)
      requires Valid()
      modifies this
      ensures Valid()
      ensures products == old(products) && archive == old(archive) && nextId == old(nextId)
      ensures match FindRoom(old(rooms), roomId)
        case None => outcome == Refused(RoomNotFound) && rooms == old(rooms)
        case Some(k) => match Start(old(rooms)[k], now)
          case Err(e) => outcome == Refused(e) && rooms == old(rooms)
          case Ok(r) => outcome == Done && rooms == old(rooms)[k := r]
    {
      var found := FindRoom(rooms, roomId);
      if found.None? {
        return Refused(RoomNotFound);
      }
      var k := found.value;
      var started := Start(rooms[k], now);
      if started.Err? {
        return Refused(started.error);
      }
      TransitionsKeepConsistent(rooms[k], now, LineItem(0, "", 0, 0), 0);
      rooms := rooms[k := started.value];
      outcome := Done;
    }

    /** `roomControl(id, 'stop')`: the room goes idle and its open segment, if
        any, is banked. */
    method StopRoom(roomId: string, now: Instant) returns (outcome: Outcome)
      requires Valid() && NotBefore(now)
      modifies this
      ensures Valid()
      ensures products == old(products) && archive == old(archive) && nextId == old(nextId)
      ensures match FindRoom(old(rooms), roomId)
        case None => outcome == Refused(RoomNotFound) && rooms == old(rooms)
        case Some(k) => outcome == Done && rooms == old(rooms)[k := Stop(old(rooms)[k], now)]
    {
      var found := FindRoom(rooms, roomId);
      if found.None? {
        return Refused(RoomNotFound);
      }
      var k := found.value;
      rooms := rooms[k := Stop(rooms[k], now)];
      outcome := Done;
    }

    /** The item-attach handler: the room gets one more line, a snapshot of the
        product's name and price, with the entered quantity or 1. */
    method AttachItem(roomId: string, productId: nat, qty: ParsedInt) returns (outcome: Outcome)
      requires Valid()
      modifies this
      ensures Valid()
      ensures products == old(products) && archive == old(archive)
      ensures match FindRoom(old(rooms), roomId)
        case None => outcome == Refused(RoomNotFound) && rooms == old(rooms) && nextId == old(nextId)
        case Some(k) => match FindProduct(old(products), productId)
          case None => outcome == Refused(ProductNotFound) && rooms == old(rooms) && nextId == old(nextId)
          case Some(j) =>
            outcome == Done && nextId == old(nextId) + 1 &&
            rooms == old(rooms)[k := Attach(old(rooms)[k], Snapshot(old(nextId), old(products)[j], qty))]
    {
      var found := FindRoom(rooms, roomId);
      if found.None? {
        return Refused(RoomNotFound);
      }
      var k := found.value;
      var pid := FindProduct(products, productId);
      if pid.None? {
        return Refused(ProductNotFound);
      }
      var product := products[pid.value];
      assert product in products;
      var item := Snapshot(nextId, product, qty);
      nextId := nextId + 1;
      rooms := rooms[k := Attach(rooms[k], item)];
      outcome := Done;
    }

    /** `endSession`: banks the open segment at `atTime`, appends exactly one
        archive entry with the items, elapsed time and total at that moment, and
        resets the room. In place of the disabled End button, a room with no items
        and nothing banked is refused. Other rooms and earlier entries stay. */
    method EndSession(roomId: string, atTime: Instant) returns (outcome: Outcome)
      requires Valid() && NotBefore(atTime)
      modifies this
      ensures Valid()
      ensures products == old(products)
      ensures match FindRoom(old(rooms), roomId)
        case None =>
          outcome == Refused(RoomNotFound) && rooms == old(rooms) && archive == old(archive) && nextId == old(nextId)
        case Some(k) => match End(old(rooms)[k], atTime, old(nextId))
          case Err(e) =>
            outcome == Refused(e) && rooms == old(rooms) && archive == old(archive) && nextId == old(nextId)
          case Ok(closed) =>
            outcome == Done && nextId == old(nextId) + 1 &&
            rooms == old(rooms)[k := closed.room] && archive == old(archive) + [closed.entry]
    {
      var found := FindRoom(rooms, roomId);
      if found.None? {
        return Refused(RoomNotFound);
      }
      var k := found.value;
      var closed := End(rooms[k], atTime, nextId);
      if closed.Err? {
        return Refused(closed.error);
      }
      assert AllNonNegative(rooms[k].items);
      EndKeepsTotal(rooms[k], atTime, nextId);
      archive := archive + [closed.value.entry];
      nextId := nextId + 1;
      rooms := rooms[k := closed.value.room];
      outcome := Done;
    }

    /** The add-product form: a product with a non-blank name and a positive price
        is appended; anything else is refused and nothing changes. */
    method AddProduct(name: string, price: ParsedInt) returns (added: bool)
      requires Valid()
      modifies this
      ensures Valid()
      ensures rooms == old(rooms) && archive == old(archive)
      ensures added <==> NewProduct(old(nextId), name, price).Some?
      ensures added ==> products == old(products) + [NewProduct(old(nextId), name, price).value]
                        && nextId == old(nextId) + 1
      ensures !added ==> products == old(products) && nextId == old(nextId)
    {
      var p := NewProduct(nextId, name, price);
      if p.None? {
        return false;
      }
      products := products + [p.value];
      nextId := nextId + 1;
      added := true;
    }

    /** `editProduct` with the answers to its two prompts (None: cancelled): the
        first product with the id is updated in place; an unknown id or a
        cancelled prompt changes nothing. */
    method EditProduct(id: nat, name: Option<string>, price: Option<ParsedInt>)
      requires Valid()
      modifies this
      ensures Valid()
      ensures rooms == old(rooms) && archive == old(archive) && nextId == old(nextId)
      ensures match FindProduct(old(products), id)
        case None => products == old(products)
        case Some(j) =>
          products == if name.None? || price.None? then old(products)
                      else old(products)[j := Edit(old(products)[j], name.value, price.value)]
    {
      var found := FindProduct(products, id);
      if found.None? || name.None? || price.None? {
        return;
      }
      var j := found.value;
      assert products[j] in products;
      products := products[j := Edit(products[j], name.value, price.value)];
    }

    /** `deleteProduct`: once confirmed, every product with the id is removed. */
    method DeleteProduct(id: nat, confirmed: bool)
      requires Valid()
      modifies this
      ensures Valid()
      ensures rooms == old(rooms) && archive == old(archive) && nextId == old(nextId)
      ensures products == if confirmed then WithoutId(old(products), id) else old(products)
    {
      if !confirmed {
        return;
      }
      WithoutIdMembers(products, id);
      products := WithoutId(products, id);
    }
  }
}
