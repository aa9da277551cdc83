/** The billing calculator: the time charge of a room session and the
    charge for the items attached to it (app.js:158-168). All amounts are
    integers in so'm. */
module Billing {

  /** Price of one hour of room time, in so'm (app.js:2). */
  const HourlyRate: int := 10000

  /** Milliseconds in one hour, the divisor of `calcTimePrice`. */
  const MsPerHour: int := 1000 * 60 * 60

  /** An item attached to a room: a snapshot of a product's name and price
      at the moment it was attached, and the quantity bought. */
  datatype LineItem = LineItem(id: nat, name: string, price: int, qty: int)

  /** The time charge for `elapsedMs` milliseconds, `ceil(hours * HourlyRate)`
      computed exactly: the least integer not below elapsedMs * HourlyRate / MsPerHour. */
  function TimePrice(elapsedMs: int): (price: int)
    ensures (price - 1) * MsPerHour < elapsedMs * HourlyRate <= price * MsPerHour
  {
    (elapsedMs * HourlyRate + MsPerHour - 1) / MsPerHour
  }

  lemma TimePriceZero()
    ensures TimePrice(0) == 0
  {
  }

  /** No time, no charge; some time, some charge. */
  lemma TimePriceSign(elapsedMs: int)
    requires elapsedMs >= 0
    ensures TimePrice(elapsedMs) >= 0
    ensures TimePrice(elapsedMs) > 0 <==> elapsedMs > 0
  {
  }

  lemma TimePriceMonotone(a: int, b: int)
    requires a <= b
    ensures TimePrice(a) <= TimePrice(b)
  {
  }

  /** One hour costs exactly the hourly rate; ninety minutes cost 15000. */
  lemma TimePriceExamples()
    ensures TimePrice(MsPerHour) == HourlyRate
    ensures TimePrice(90 * 60 * 1000) == 15000
    ensures TimePrice(1) == 1
  {
  }

  /** What one line contributes to the bill. */
  function LineTotal(item: LineItem): int
  {
    item.price * item.qty
  }

  predicate NonNegative(item: LineItem)
  {
    item.price >= 0 && item.qty >= 0
  }

  predicate AllNonNegative(items: seq<LineItem>)
  {
    forall i :: 0 <= i < |items| ==> NonNegative(items[i])
  }

  /** The items charge: the left-to-right sum of price * qty over the items,
      as the `reduce` starting from 0 computes it. */
  function ItemsPrice(items: seq<LineItem>): (sum: int)
    ensures AllNonNegative(items) ==> sum >= 0
    ensures AllNonNegative(items) ==> forall i :: 0 <= i < |items| ==> LineTotal(items[i]) <= sum
  {
    if items == [] then 0
    else ItemsPrice(items[..|items| - 1]) + LineTotal(items[|items| - 1])
  }

  /** Appending a line adds exactly that line's price * qty. */
  lemma ItemsPriceAppend(items: seq<LineItem>, item: LineItem)
    ensures ItemsPrice(items + [item]) == ItemsPrice(items) + LineTotal(item)
  {
    assert (items + [item])[..|items|] == items;
  }

  /** The items charge distributes over concatenation: no line is lost or counted twice. */
  lemma {:induction false} ItemsPriceConcat(a: seq<LineItem>, b: seq<LineItem>)
    ensures ItemsPrice(a + b) == ItemsPrice(a) + ItemsPrice(b)
  {
    if b == [] {
      assert a + b == a;
    } else {
      var front, last := b[..|b| - 1], b[|b| - 1];
      assert b == front + [last];
      assert a + b == (a + front) + [last];
      calc {
        ItemsPrice(a + b);
        ItemsPrice((a + front) + [last]);
        { ItemsPriceAppend(a + front, last); }
        ItemsPrice(a + front) + LineTotal(last);
        { ItemsPriceConcat(a, front); }
        ItemsPrice(a) + ItemsPrice(front) + LineTotal(last);
        { ItemsPriceAppend(front, last); }
        ItemsPrice(a) + ItemsPrice(front + [last]);
        ItemsPrice(a) + ItemsPrice(b);
      }
    }
  }

  /** The worked example: 90 minutes, two colas at 7000 and a hot-dog at 12000. */
  lemma BillExample()
    ensures TimePrice(90 * 60 * 1000)
            + ItemsPrice([LineItem(1, "Coca-Cola 0.5L", 7000, 2), LineItem(2, "Hot-Dog", 12000, 1)])
            == 41000
  {
    var items := [LineItem(1, "Coca-Cola 0.5L", 7000, 2), LineItem(2, "Hot-Dog", 12000, 1)];
    assert items[..1][..0] == [];
    assert ItemsPrice(items[..1]) == 14000;
    assert ItemsPrice(items) == 26000;
  }
}
