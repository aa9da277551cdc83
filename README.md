# Computer-club cashier: session timekeeping and billing

A Dafny model of the core of a small computer-club cashier (`app.js`). The club
has five rooms. Each room is started and stopped any number of times, and the
time between a start and the next stop is banked into the room's `elapsed`
milliseconds. Items from the club's product catalog can be attached to a room.
When a session ends, the room is archived with its bill, and then reset. The
bill is `ceil(hours * 10000)` so'm for the time plus `price * qty` for each item.

Modules:

- `Billing` (billing.dfy): `calcTimePrice` as an exact integer ceiling, and the
  items sum.
- `Format` (format.dfy): the `hh:mm:ss` timer text, with `toString` and `padStart`
  written out as decimal digits.
- `Session` (session.dfy): a room as a value. It holds the start, stop, attach and
  end transitions, the live elapsed time and total that the timer shows, and
  `Replay`, a reference measure of running time over any sequence of start and
  stop commands.
- `Catalog` (catalog.dfy): products, the default catalog, find and filter by id,
  the edit and add form updates, `trim`, and the quantity of a new line.
- `Cashier` (club.dfy): class `Club`, the state `{rooms, products, archive}`,
  whose methods change it in place. Every method keeps the object invariant
  `Valid()`: five rooms, each with a start time exactly when running and no
  negative banked time; positive catalog prices; no negative archived total.
- `Lists` (lists.dfy): `find`, as the first matching position.
- `Wrappers` (wrappers.dfy): `Option` and `Result`.

The clock is a parameter. It is `now` for a command and `t` for a query. A clock
reading is a positive integer (`Instant`), as `Date.now()` is. Because of that,
the source's test `if (room.start)` holds exactly when a start is recorded.
`endSession` reads the clock twice. The model uses one `atTime` for both reads.
The live elapsed time and the totals are functions of the room and `t`, so they
change nothing. Two queries at the same `t` therefore agree.

The source guards four commands only by disabling their buttons (app.js:68-71):
Start while running, Stop and Magazin (attach) while idle, and End when the room
has no items and nothing banked. The model makes two of these guards explicit,
as typed refusals:

- Start on a running room is refused with `AlreadyRunning` (the Start button,
  app.js:68). Without that guard, `StartAsWritten` overwrites the start time and
  the open segment is lost.
- End on a room with no items and nothing banked is refused with `NothingToEnd`
  (the End button, app.js:71). The button tests the banked `elapsed`, not the live
  time. So a room that was just started, with nothing banked and no items, cannot
  be ended until it is stopped. The model keeps that behaviour.

Stop and attach keep the handlers' own behaviour, without their button guards.
Stopping an idle room is not refused: the code only clears `active`, and the
model does the same. The attach handler does not look at the room's status.

Unknown room or product ids are refused with `RoomNotFound` or `ProductNotFound`.
The source silently returns in those cases.

## Model

| member | source | states |
|---|---|---|
| `Billing.TimePrice` | app.js:158-161 | the charge is the least integer not below elapsedMs * 10000 / 3600000 (the exact ceiling) |
| `Billing.TimePriceZero` | app.js:158-161 | no elapsed time costs nothing |
| `Billing.TimePriceSign` | app.js:158-161 | the charge is never negative for a non-negative time, and positive exactly when some time has elapsed |
| `Billing.TimePriceMonotone` | app.js:158-161 | more time never costs less |
| `Billing.TimePriceExamples` | app.js:2-2 | one hour costs the hourly rate 10000; 90 minutes cost 15000; one millisecond is rounded up to 1 |
| `Billing.ItemsPrice` | app.js:166-166 | the items sum is not negative, and is at least any single line, when no price or quantity is negative |
| `Billing.ItemsPriceAppend` | app.js:166-166 | appending a line adds exactly its price * qty |
| `Billing.ItemsPriceConcat` | app.js:166-166 | the sum over two lists joined is the sum of their sums, so no line is lost or counted twice |
| `Billing.BillExample` | app.js:163-168 | 90 minutes plus 2 x 7000 plus 1 x 12000 comes to 41000 |
| `Format.Decimal` | app.js:156-156 | `toString` of a natural number is one or more digits with no leading zero; one digit below 10, at most two below 100 |
| `Format.DecimalRoundTrip` | app.js:156-156 | reading the digits back gives the number |
| `Format.DecimalInjective` | app.js:33-35 | different numbers get different digit strings |
| `Format.ToString` | app.js:156-156 | a negative number is a minus sign followed by the digits of its absolute value |
| `Format.Pad` | app.js:156-156 | `padStart(2, '0')`: at least two characters, the number's text at the end, only zeros before it |
| `Format.PadValue` | app.js:156-156 | a padded natural number is all digits and reads back as itself |
| `Format.PadBelowHundred` | app.js:152-153 | minutes and seconds are padded to exactly two characters |
| `Format.Split` | app.js:149-152 | h * 3600 + m * 60 + s = floor(ms / 1000), with 0 <= m < 60, 0 <= s < 60, and h >= 0 for ms >= 0 |
| `Format.FormatElapsed` | app.js:149-153 | `pad(h) + ":" + pad(m) + ":" + pad(s)` of the `Split` fields; its own contract only says the text has at least eight characters, and `FormatElapsedReadsBack` states what the text shows |
| `Format.FormatElapsedReadsBack` | app.js:149-156 | the text is h:mm:ss with colons in place, and its three fields read back as floor(ms / 1000) seconds |
| `Session.FreshRoom` | app.js:33-37 | a fresh room is idle, has no start, no time, no items, and is named `room<i>` / `Xona <i>` |
| `Session.FreshRoomIdsDistinct` | app.js:33-37 | the fresh rooms have pairwise different ids |
| `Lists.Find` | app.js:116-116 | the position found holds a matching element and no earlier one matches; None only when no element matches |
| `Session.FindRoom` | app.js:116-117 | finds the first room with the id, or reports that no room has it |
| `Session.LiveElapsed` | app.js:140-140 | the time `tick` shows, `elapsed + (now - start)` when a start is recorded: the banked time alone for an idle room, the banked time plus the open segment otherwise, and never less than the banked time once the clock has reached the start; its other properties are in `LiveElapsedMonotone` and `ReplayMeasuresRunningTime` |
| `Session.LiveElapsedMonotone` | app.js:140-140 | the live elapsed time never decreases as the clock advances |
| `Session.CalcRoomTotal` | app.js:163-168 | the total less the items sum is the time charge of the elapsed time used (the given one, else the live one), rounded up to a whole so'm; for a non-negative time the total is at least the items sum, and equals it exactly when no time elapsed; see also `CalcRoomTotalClock`, `TotalMonotone`, `TotalNonNegative` |
| `Session.CalcRoomTotalClock` | app.js:163-164 | with an explicit elapsed time the clock is not consulted; passing the live time, as `tick` does, equals reading the clock |
| `Session.TotalMonotone` | app.js:163-168 | the running total never decreases as the clock advances |
| `Session.TotalNonNegative` | app.js:163-168 | the total is not negative when the live time and the items are not |
| `Session.Start` | app.js:118-121 | refused exactly when the room is running; otherwise the room runs from `now` with its time and items unchanged |
| `Session.StartAsWritten` | app.js:118-120 | the unguarded start: running, start overwritten with `now`, time and items kept |
| `Session.StartAsWrittenLosesSegment` | app.js:118-120 | a second unguarded start lowers the live elapsed time by exactly the time between the two starts |
| `Session.Stop` | app.js:122-128 | the room is idle with no start, and its banked time is its live elapsed time at `now` (an idle room keeps its banked time); items unchanged |
| `Session.Attach` | app.js:189-189 | items grow by one at the end; earlier items and all other fields are kept |
| `Session.AttachRaisesTotal` | app.js:189-189 | attaching raises the running total by exactly the new line's price * qty |
| `Session.End` | app.js:217-234 | refused exactly when the room has no items and nothing banked; otherwise the entry records the room's name, its items, the live elapsed time and the live total at `atTime`, and the room is reset to idle, no start, no time, no items |
| `Session.EndKeepsTotal` | app.js:219-227 | the archived total equals the total shown at the moment of closing, and is not negative |
| `Session.TransitionsKeepConsistent` | app.js:118-127 | start, stop, attach and end keep "a start time is recorded iff the room is running" |
| `Session.Replay` | app.js:115-136 | any sequence of start and stop commands keeps the room consistent and its items, and leaves it running iff the last command was a start |
| `Session.StepKeepsLiveElapsed` | app.js:118-127 | a start or a stop does not change the live elapsed time at its own instant |
| `Session.ReplayMeasuresRunningTime` | app.js:118-127 | after any commands, live elapsed = what the room had + the time it spent running (no time lost or counted twice) |
| `Session.TwoSegments` | app.js:118-127 | start t0, stop t1, start t2, stop t3 leaves the room idle with exactly (t1 - t0) + (t3 - t2) banked |
| `Session.DoubleStartOneSegment` | app.js:118-127 | start t0, start t1, stop t2 banks exactly t2 - t0: one segment |
| `Catalog.DefaultProducts` | app.js:12-20 | four products with consecutive ids and positive prices |
| `Catalog.FindProduct` | app.js:187-188 | finds the first product with the id, or reports that none has it |
| `Catalog.WithoutId` | app.js:266-266 | no kept product has the id, the list does not grow, and a list without the id is unchanged |
| `Catalog.WithoutIdMembers` | app.js:266-266 | the kept products are exactly the listed products whose id differs |
| `Catalog.WithoutIdConcat` | app.js:266-266 | filtering distributes over concatenation, so the order of the kept products is preserved |
| `Catalog.WithoutIdIdempotent` | app.js:264-268 | deleting an id twice is the same as deleting it once |
| `Catalog.Trim` | app.js:260-260 | `trim`: a slice of the input with no space at either end, and only spaces cut off |
| `Catalog.QtyAsWritten` | app.js:186-186 | `parseInt(qty)` with 1 as the fallback: NaN and 0 give 1, every other number (negative ones too) is kept |
| `Catalog.QtyAsWrittenLowersBill` | app.js:186-189 | an entered "-3" gives a line with qty -3 that lowers the bill by 3 x price |
| `Catalog.Qty` | app.js:186-186 | the quantity is at least 1, is the entered number when that is at least 1, and agrees with the code whenever the code gives a quantity of at least 1 |
| `Catalog.Snapshot` | app.js:186-189 | the new line has the given id and the quantity `Qty` of the input (at least 1), and copies the product's name and price at that moment |
| `Catalog.EditAsWritten` | app.js:260-261 | a blank trimmed name keeps the old name; NaN or 0 keeps the old price; any other number (negative ones too) becomes the price |
| `Catalog.EditAsWrittenAcceptsNegativePrice` | app.js:246-261 | editing a price to "-500" sets it to -500, though the add form refuses that price |
| `Catalog.Edit` | app.js:253-263 | the edit with only positive prices accepted: a positive price stays positive, and the result agrees with the code whenever the code's price is positive |
| `Catalog.NewProduct` | app.js:243-247 | a product is made exactly when the trimmed name is not blank and the price is a positive number |
| `Cashier.BuildRooms` | app.js:31-39 | builds exactly five rooms, room i + 1 at index i, all well-formed, with pairwise different ids |
| `Cashier.Club.Load` | app.js:24-43 | keeps saved rooms when there are exactly five (so running rooms keep their start), builds fresh rooms otherwise, fills in missing lists, seeds an empty catalog; valid when the saved data was |
| `Cashier.ResumeAfterReload` | app.js:24-43 | a club loaded from a save of five rooms whose first room was running since `t0` has that room running, and at any later time shows its banked time plus everything since `t0`, the time the page was closed included |
| `Cashier.Club.InitDefaultProducts` | app.js:12-20 | an empty catalog gets the four defaults; a non-empty one is unchanged |
| `Cashier.Club.StartRoom` | app.js:115-121 | applies `Start` to the room with the id, in place; other rooms, products and archive unchanged; invariant kept |
| `Cashier.Club.StopRoom` | app.js:122-128 | applies `Stop` to the room with the id, in place; nothing else changes; invariant kept |
| `Cashier.Club.AttachItem` | app.js:184-192 | appends one snapshot line to the room with the id; refused for an unknown room or product; invariant kept |
| `Cashier.Club.EndSession` | app.js:217-234 | appends exactly one archive entry (from `End`) and resets that room; other rooms and earlier entries unchanged; invariant kept |
| `Cashier.Club.AddProduct` | app.js:243-251 | appends the new product exactly when `NewProduct` accepts it |
| `Cashier.Club.EditProduct` | app.js:253-263 | replaces the first product with the id by its edit; an unknown id or a cancelled prompt changes nothing |
| `Cashier.Club.DeleteProduct` | app.js:264-268 | once confirmed, the catalog becomes the products without that id; otherwise unchanged |

## Findings

| source | as written | input that shows it | evidently intended | confidence | as-written member | corrected member |
|---|---|---|---|---|---|---|
| app.js:186 | the fallback to 1 after `parseInt(qty)` replaces only NaN and 0, so a negative quantity is attached | quantity "-3" on Chips at 5000 so'm: a line of qty -3 that lowers the bill by 15000 | a new line has a quantity of at least 1; the fallback is meant for unusable input | medium, not executed | `Catalog.QtyAsWrittenLowersBill` | `Catalog.Qty` |
| app.js:261 | the fallback to the old price after `parseInt(pr)` replaces only NaN and 0, so an edited price can be negative | editing Chips' price to "-500" gives a price of -500 | prices stay positive, as the add form demands (app.js:246); a value that is not positive keeps the old price | high, not executed | `Catalog.EditAsWrittenAcceptsNegativePrice` | `Catalog.Edit` |

`Cashier.Club.AttachItem` and `Cashier.Club.EditProduct` use the corrected
`Qty` and `Edit`. That is what makes "totals are never negative" part of the
club's invariant.

## Left out

- DOM rendering, event wiring, the modal, and `tick`'s writes to the page
  (app.js:49-113, 138-147, 170-201, 237-251) are presentation. Only the formula
  that `tick` displays is modelled (`LiveElapsed`, `CalcRoomTotal`, `FormatElapsed`).
- `setInterval`/`clearInterval` timers (app.js:121, 128, 224, 302-306) are
  scheduling, not state. Resuming after a reload is modelled by `Load`
  keeping the saved start time (`Cashier.ResumeAfterReload`).
- `localStorage`, `JSON.parse`/`stringify`, `saveState` and `location.reload`
  (app.js:24-29, 45-47, 270-275) are storage I/O. What storage held is the
  `Saved` parameter of `Load`, with `None` for empty or unreadable storage.
- `Date.now()` is replaced by the `now`/`atTime` parameters. Clock monotonicity
  (no reading earlier than a recorded start) is a precondition of `StopRoom` and
  `EndSession`, as `NotBefore`.
- `genId` (app.js:22) draws random ids. The model uses the counter `nextId`,
  seeded by `Load`, instead.
- `calcTimePrice` uses floating-point division and `Math.ceil`. The model uses
  exact integer ceiling division, so float rounding error is not modelled. The
  two differ on some inputs: 18,360 ms gives 52 in the source and 51 in the model,
  and 35,640 ms gives 100 in the source and 99 in the model.
- `parseInt` itself is not modelled: its result is a `ParsedInt` parameter. The
  answers to `prompt` and `confirm` are also parameters. `alert` is left out.
- `Catalog.Trim` knows tab, line feed, carriage return, vertical tab, form feed,
  space, no-break space, the line and paragraph separators and the byte-order
  mark. It does not know the other Unicode space separators that `String.prototype.trim` also removes.
- The CSV export (app.js:277-290) is Blob/URL I/O. It is also broken as written:
  the escaped `\${` emits the literal placeholder text instead of the cell value.
- Clearing the archive (app.js:292-295) is a confirm-driven UI action outside
  the billing core.
- The `archived` flag that fresh rooms carry (app.js:36) is never read or
  changed, so the model does not keep it.
- The model stores rooms as values inside `Club.rooms`. Room object identity
  (a `room` captured by a timer or a modal handler) is not modelled.
- `Cashier.Club.StopRoom`: the disabled Stop button for an idle room
  (app.js:69) is not encoded. Stopping an idle room through the handler only
  clears `active`, which the model keeps, so the guard protects no data.
- `Cashier.Club.AttachItem`: the disabled Magazin button for an idle room
  (app.js:70) is not encoded. The handler itself attaches to an idle room, and
  the bill of a room with items and no time stays correct, so the model allows it.
- `Cashier.Club.Load` states `Valid()` only when the saved data was
  well-formed (`SavedWellFormed`). Storage that was edited by hand can hold
  rooms that break the invariant, and the source does not check for that.
