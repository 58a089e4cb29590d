/**
 * The quote form's line items: adding a blank line, editing a line's
 * service, description, quantity or unit price, removing a line, and the
 * subtotal, discount and total shown under the table. Money and
 * quantities are exact reals; the form's number parsing and the
 * discount field's string-to-number conversion happen before these
 * functions see the values.
 */
module Quotes {
  import opened Optional
  import Seqs
  import Catalog

  datatype QuoteItem = QuoteItem(
    serviceId: Option<string>,
    description: string,
    quantity: real,
    unitPrice: real,
    total: real)

  /** The line `addItem` appends. */
  const BlankItem := QuoteItem(None, "", 1.0, 0.0, 0.0)

  /** A line whose total is its quantity times its unit price. */
  predicate Consistent(item: QuoteItem) {
    item.total == item.quantity * item.unitPrice
  }

  predicate AllConsistent(items: seq<QuoteItem>) {
    forall i :: 0 <= i < |items| ==> Consistent(items[i])
  }

  // ----------------------------------------------------------- add/remove

  function AddItem(items: seq<QuoteItem>): (r: seq<QuoteItem>)
    ensures |r| == |items| + 1
    ensures r[..|items|] == items
    ensures r[|items|] == BlankItem
  {
    items + [BlankItem]
  }

  /**
   * `items.filter((_, i) => i !== index)`: the line at `index` goes, the rest
   * keep their order; an index outside the list removes nothing.
   */
  function RemoveItem(items: seq<QuoteItem>, index: int): (r: seq<QuoteItem>)
    ensures 0 <= index < |items| ==> |r| == |items| - 1
    ensures 0 <= index < |items| ==> forall i :: 0 <= i < |r| ==> r[i] == (if i < index then items[i] else items[i + 1])
    ensures !(0 <= index < |items|) ==> r == items
  {
    if 0 <= index < |items| then items[..index] + items[index + 1..] else items
  }

  /** Removing a line takes exactly that line out of the multiset of lines. */
  lemma RemoveItemMultiset(items: seq<QuoteItem>, index: int)
    requires 0 <= index < |items|
    ensures multiset(RemoveItem(items, index)) + multiset{items[index]} == multiset(items)
  {
    assert items == items[..index] + [items[index]] + items[index + 1..];
  }

  /** Removing the line just added gives back the original lines. */
  lemma RemoveUndoesAdd(items: seq<QuoteItem>)
    ensures RemoveItem(AddItem(items), |items|) == items
  {
  }

  // ----------------------------------------------------------- editing

  /** The four fields the table's inputs edit. */
  datatype Edit =
    | SetService(value: string)
    | SetDescription(text: string)
    | SetQuantity(quantity: real)
    | SetUnitPrice(price: real)

  /**
   * `updateItem` on one line. Picking a non-empty service id that the
   * catalogue knows copies the service's id, name and price and recomputes
   * the total from the line's quantity; an unknown id changes nothing.
   * Clearing the service (the empty id) only stores the empty id. Editing
   * the quantity or price recomputes the total; editing the description
   * does not.
   */
  function EditItem(item: QuoteItem, e: Edit, services: seq<Catalog.Service>): (r: QuoteItem)
    ensures e.SetService? && e.value != "" && Catalog.Find(services, e.value).None? ==> r == item
    ensures e.SetService? && e.value != "" && Catalog.Find(services, e.value).Some? ==>
      var s := Catalog.Find(services, e.value).value;
      r == item.(serviceId := Some(s.id), description := s.name, unitPrice := s.unitPrice,
                 total := item.quantity * s.unitPrice)
    ensures e.SetService? && e.value == "" ==> r == item.(serviceId := Some(""))
    ensures e.SetDescription? ==> r == item.(description := e.text)
    ensures e.SetQuantity? ==> r.quantity == e.quantity && r.total == e.quantity * item.unitPrice
    ensures e.SetUnitPrice? ==> r.unitPrice == e.price && r.total == item.quantity * e.price
    ensures e.SetQuantity? || e.SetUnitPrice? ==> r.serviceId == item.serviceId && r.description == item.description
  {
    match e
    case SetService(value) =>
      if value != "" then
        match Catalog.Find(services, value)
        case Some(s) => item.(serviceId := Some(s.id), description := s.name, unitPrice := s.unitPrice,
                              total := item.quantity * s.unitPrice)
        case None => item
      else item.(serviceId := Some(value))
    case SetDescription(text) => item.(description := text)
    case SetQuantity(q) => item.(quantity := q, total := q * item.unitPrice)
    case SetUnitPrice(p) => item.(unitPrice := p, total := item.quantity * p)
  }

  /** `updateItem(index, field, value)`: only the line at `index` changes. */
  function UpdateItem(items: seq<QuoteItem>, index: nat, e: Edit, services: seq<Catalog.Service>): (r: seq<QuoteItem>)
    requires index < |items|
    ensures |r| == |items|
    ensures r[index] == EditItem(items[index], e, services)
    ensures forall i :: 0 <= i < |items| && i != index ==> r[i] == items[i]
  {
    items[index := EditItem(items[index], e, services)]
  }

  /** Every edit keeps a consistent line consistent, and a quantity or price edit makes any line consistent. */
  lemma EditKeepsConsistent(item: QuoteItem, e: Edit, services: seq<Catalog.Service>)
    ensures Consistent(item) ==> Consistent(EditItem(item, e, services))
    ensures e.SetQuantity? || e.SetUnitPrice? ==> Consistent(EditItem(item, e, services))
  {
  }

  /** The table's actions, as a user issues them. */
  datatype Action = Add | Remove(index: int) | Update(index: int, edit: Edit)

  /** An update addressed to a line that is not there is not issued: the table only renders existing lines. */
  function Step(items: seq<QuoteItem>, a: Action, services: seq<Catalog.Service>): seq<QuoteItem> {
    match a
    case Add => AddItem(items)
    case Remove(i) => RemoveItem(items, i)
    case Update(i, e) => if 0 <= i < |items| then UpdateItem(items, i, e, services) else items
  }

  function Run(items: seq<QuoteItem>, actions: seq<Action>, services: seq<Catalog.Service>): seq<QuoteItem>
    decreases |actions|
  {
    if |actions| == 0 then items else Run(Step(items, actions[0], services), actions[1..], services)
  }

  /** One action keeps every line's total equal to quantity times unit price. */
  lemma StepKeepsConsistent(items: seq<QuoteItem>, a: Action, services: seq<Catalog.Service>)
    requires AllConsistent(items)
    ensures AllConsistent(Step(items, a, services))
  {
    var next := Step(items, a, services);
    match a {
      case Add =>
        assert next == items + [BlankItem];
        forall i | 0 <= i < |next|
          ensures Consistent(next[i])
        {
          if i < |items| { assert next[i] == items[i]; }
        }
      case Remove(i) =>
      case Update(i, e) =>
        if 0 <= i < |items| {
          EditKeepsConsistent(items[i], e, services);
        }
    }
  }

  /** Starting from consistent lines (a new quote has none), every line's total stays quantity times unit price. */
  lemma {:induction false} RunKeepsConsistent(items: seq<QuoteItem>, actions: seq<Action>, services: seq<Catalog.Service>)
    requires AllConsistent(items)
    ensures AllConsistent(Run(items, actions, services))
    decreases |actions|
  {
    if |actions| > 0 {
      StepKeepsConsistent(items, actions[0], services);
      RunKeepsConsistent(Step(items, actions[0], services), actions[1..], services);
    }
  }

  // ----------------------------------------------------------- totals

  function LineTotal(item: QuoteItem): real {
    item.total
  }

  function Subtotal(items: seq<QuoteItem>): real {
    Seqs.Sum(LineTotal, items)
  }

  /** `subtotal × (discount / 100)`. */
  function Discount(subtotal: real, discountPercent: real): real {
    subtotal * (discountPercent / 100.0)
  }

  /** The quote's total: the subtotal less the percentage discount. */
  function Total(items: seq<QuoteItem>, discountPercent: real): (r: real)
    ensures r == Subtotal(items) - Discount(Subtotal(items), discountPercent)
    ensures discountPercent == 0.0 ==> r == Subtotal(items)
  {
    Subtotal(items) - Discount(Subtotal(items), discountPercent)
  }

  /** With non-negative line totals and a discount the field allows (0 to 100), the total lies between 0 and the subtotal. */
  lemma TotalBounds(items: seq<QuoteItem>, discountPercent: real)
    requires forall i :: 0 <= i < |items| ==> items[i].total >= 0.0
    requires 0.0 <= discountPercent <= 100.0
    ensures 0.0 <= Total(items, discountPercent) <= Subtotal(items)
  {
    Seqs.SumNonNegative(LineTotal, items);
    ScaleBounds(Subtotal(items), discountPercent / 100.0);
  }

  lemma ScaleBounds(s: real, f: real)
    requires 0.0 <= s && 0.0 <= f <= 1.0
    ensures 0.0 <= s * f <= s
  {
    assert s * f + s * (1.0 - f) == s;
    assert 0.0 <= s * (1.0 - f);
  }

  /** A blank line adds nothing to the subtotal. */
  lemma AddKeepsSubtotal(items: seq<QuoteItem>)
    ensures Subtotal(AddItem(items)) == Subtotal(items)
  {
    Seqs.SumAppend(LineTotal, items, [BlankItem]);
  }

  /** Removing a line takes exactly its total off the subtotal. */
  lemma RemoveSubtractsLine(items: seq<QuoteItem>, index: int)
    requires 0 <= index < |items|
    ensures Subtotal(RemoveItem(items, index)) == Subtotal(items) - items[index].total
  {
    assert items == items[..index] + ([items[index]] + items[index + 1..]);
    Seqs.SumAppend(LineTotal, items[..index], [items[index]] + items[index + 1..]);
    Seqs.SumAppend(LineTotal, [items[index]], items[index + 1..]);
    Seqs.SumAppend(LineTotal, items[..index], items[index + 1..]);
  }
}
