/** The product catalog: the default products, lookup by id, deletion, the
    edit and add forms' state updates, and the quantity a new line item gets
    (app.js:12-20, 186-189, 243-268). `parseInt` results and the answers to
    `prompt` are parameters. */
module Catalog {
  import opened Wrappers
  import Lists
  import opened Billing

  datatype Product = Product(id: nat, name: string, price: int)

  /** What `parseInt` returned: NaN, or an integer. */
  datatype ParsedInt = NotANumber | Number(n: int)

  /** The four products a club starts with, numbered from `firstId`. */
  function DefaultProducts(firstId: nat): (ps: seq<Product>)
    ensures |ps| == 4
    ensures forall i :: 0 <= i < |ps| ==> ps[i].id == firstId + i && ps[i].price > 0
  {
    [ Product(firstId, "Coca-Cola 0.5L", 7000),
      Product(firstId + 1, "Chips", 5000),
      Product(firstId + 2, "Hot-Dog", 12000),
      Product(firstId + 3, "Mineral Water", 4000) ]
  }

  /** `state.products.find(x => x.id === id)`: the first product with that id. */
  function FindProduct(ps: seq<Product>, id: nat): (k: Option<nat>)
    ensures k.Some? ==> k.value < |ps| && ps[k.value].id == id
    ensures k.Some? ==> forall j :: 0 <= j < k.value ==> ps[j].id != id
    ensures k.None? ==> forall j :: 0 <= j < |ps| ==> ps[j].id != id
  {
    Lists.Find(ps, (x: Product) => x.id == id)
  }

  /** `state.products.filter(x => x.id !== id)`. */
  function WithoutId(ps: seq<Product>, id: nat): (kept: seq<Product>)
    ensures forall i :: 0 <= i < |kept| ==> kept[i].id != id
    ensures |kept| <= |ps|
    ensures (forall j :: 0 <= j < |ps| ==> ps[j].id != id) ==> kept == ps
  {
    if ps == [] then []
    else if ps[0].id == id then WithoutId(ps[1..], id)
    else [ps[0]] + WithoutId(ps[1..], id)
  }

  /** The kept products are exactly the listed products whose id differs. */
  lemma {:induction false} WithoutIdMembers(ps: seq<Product>, id: nat)
    ensures forall p :: p in WithoutId(ps, id) <==> p in ps && p.id != id
  {
    if ps != [] {
      WithoutIdMembers(ps[1..], id);
      assert forall p :: p in ps <==> p == ps[0] || p in ps[1..];
    }
  }

  /** Filtering keeps the order of what it keeps: it distributes over concatenation. */
  lemma {:induction false} WithoutIdConcat(a: seq<Product>, b: seq<Product>, id: nat)
    ensures WithoutId(a + b, id) == WithoutId(a, id) + WithoutId(b, id)
  {
    if a == [] {
      assert a + b == b;
    } else {
      var ab := a + b;
      assert ab[0] == a[0] && ab[1..] == a[1..] + b;
      WithoutIdConcat(a[1..], b, id);
      if a[0].id == id {
        assert WithoutId(ab, id) == WithoutId(a[1..] + b, id);
        assert WithoutId(a, id) == WithoutId(a[1..], id);
      } else {
        var x, y := WithoutId(a[1..], id), WithoutId(b, id);
        assert WithoutId(ab, id) == [a[0]] + (x + y);
        assert WithoutId(a, id) == [a[0]] + x;
        assert [a[0]] + (x + y) == ([a[0]] + x) + y;
      }
    }
  }

  /** Deleting twice is deleting once. */
  lemma WithoutIdIdempotent(ps: seq<Product>, id: nat)
    ensures WithoutId(WithoutId(ps, id), id) == WithoutId(ps, id)
  {
  }

  /** The characters `String.prototype.trim` removes that this model knows of. */
  predicate IsSpace(c: char)
  {
    c == ' ' || c == '\t' || c == '\n' || c == '\r' || c == '\U{000B}' || c == '\U{000C}'
    || c == '\U{00A0}' || c == '\U{2028}' || c == '\U{2029}' || c == '\U{FEFF}'
  }

  function TrimStart(s: string): (t: string)
    ensures |t| <= |s| && t == s[|s| - |t|..]
    ensures t == [] || !IsSpace(t[0])
    ensures forall i :: 0 <= i < |s| - |t| ==> IsSpace(s[i])
  {
    if s != [] && IsSpace(s[0]) then TrimStart(s[1..]) else s
  }

  function TrimEnd(s: string): (t: string)
    ensures |t| <= |s| && t == s[..|t|]
    ensures t == [] || !IsSpace(t[|t| - 1])
    ensures forall i :: |t| <= i < |s| ==> IsSpace(s[i])
  {
    if s != [] && IsSpace(s[|s| - 1]) then TrimEnd(s[..|s| - 1]) else s
  }

  /** `s.trim()`: the slice of `s` left when the spaces at both ends are cut off. */
  function Trim(s: string): (t: string)
    ensures var lo := |s| - |TrimStart(s)|;
      lo + |t| <= |s| && t == s[lo..lo + |t|] &&
      (forall i :: 0 <= i < lo ==> IsSpace(s[i])) &&
      (forall i :: lo + |t| <= i < |s| ==> IsSpace(s[i]))
    ensures t == [] || (!IsSpace(t[0]) && !IsSpace(t[|t| - 1]))
  {
    TrimEnd(TrimStart(s))
  }

  /** `parseInt(qty) || 1` as written: NaN and 0 become 1, any other number,
      negative ones included, is taken as it is. */
  function QtyAsWritten(input: ParsedInt): (qty: int)
    ensures input.Number? && input.n != 0 ==> qty == input.n
    ensures input.NotANumber? || input.n == 0 ==> qty == 1
  {
    if input.Number? && input.n != 0 then input.n else 1
  }

  /** A typed "-3" gives a line with quantity -3, which lowers the bill. */
  lemma QtyAsWrittenLowersBill(items: seq<LineItem>)
    ensures var item := LineItem(0, "Chips", 5000, QtyAsWritten(Number(-3)));
      item.qty == -3 && ItemsPrice(items + [item]) == ItemsPrice(items) - 15000
  {
    ItemsPriceAppend(items, LineItem(0, "Chips", 5000, -3));
  }

  /** The quantity of a new line: the parsed number when it is at least 1, the
      default 1 otherwise. */
  function Qty(input: ParsedInt): (qty: int)
    ensures qty >= 1
    ensures input.Number? && input.n >= 1 ==> qty == input.n
    ensures QtyAsWritten(input) >= 1 ==> qty == QtyAsWritten(input)
  {
    if input.Number? && input.n >= 1 then input.n else 1
  }

  /** The new line item: a snapshot of the product's name and price now. */
  function Snapshot(id: nat, p: Product, input: ParsedInt): (item: LineItem)
    ensures item.id == id && item.qty == Qty(input)
    ensures item.name == p.name && item.price == p.price && item.qty >= 1
    ensures p.price >= 0 ==> NonNegative(item)
  {
    LineItem(id, p.name, p.price, Qty(input))
  }

  /** `editProduct` after both prompts were answered, as written: a blank name
      keeps the old one, and NaN or 0 keep the old price; any other number,
      negative ones included, becomes the price. */
  function EditAsWritten(p: Product, name: string, price: ParsedInt): (q: Product)
    ensures q.id == p.id
    ensures q.name == if Trim(name) != [] then Trim(name) else p.name
    ensures price.Number? && price.n != 0 ==> q.price == price.n
    ensures price.NotANumber? || price.n == 0 ==> q.price == p.price
  {
    Product(p.id, if Trim(name) != [] then Trim(name) else p.name,
            if price.Number? && price.n != 0 then price.n else p.price)
  }

  /** Editing the price of Chips to "-500" makes it negative, which the add form refuses. */
  lemma EditAsWrittenAcceptsNegativePrice()
    ensures EditAsWritten(Product(2, "Chips", 5000), "Chips", Number(-500)).price == -500
    ensures NewProduct(2, "Chips", Number(-500)).None?
  {
  }

  /** `editProduct` with the price rule of the add form: only a positive number
      replaces the price, so a product with a positive price keeps one. */
  function Edit(p: Product, name: string, price: ParsedInt): (q: Product)
    ensures q.id == p.id
    ensures q.name == if Trim(name) != [] then Trim(name) else p.name
    ensures price.Number? && price.n > 0 ==> q.price == price.n
    ensures !(price.Number? && price.n > 0) ==> q.price == p.price
    ensures p.price > 0 ==> q.price > 0
    ensures EditAsWritten(p, name, price).price > 0 ==> q == EditAsWritten(p, name, price)
  {
    Product(p.id, if Trim(name) != [] then Trim(name) else p.name,
            if price.Number? && price.n > 0 then price.n else p.price)
  }

  /** The add-product form: `parseInt(price) || 0`, then a blank name or a price
      that is not positive is refused. */
  function NewProduct(id: nat, name: string, price: ParsedInt): (p: Option<Product>)
    ensures p.Some? <==> Trim(name) != [] && price.Number? && price.n > 0
    ensures p.Some? ==> p.value == Product(id, Trim(name), price.n)
  {
    var n := if price.Number? && price.n != 0 then price.n else 0;
    if Trim(name) == [] || n <= 0 then None else Some(Product(id, Trim(name), n))
  }
}
