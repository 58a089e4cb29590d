/**
 * The stock dashboard: entry and exit movements recorded from the movement
 * dialog, the stock classification and badge, the summary cards and the
 * list filters. Field names follow the dashboard (`current_stock`,
 * `min_stock`, `unit_cost`, `category`), not the schema types.
 */
module Inventory {
  import opened Optional
  import Seqs
  import Text
  import Movements

  datatype Item = Item(
    id: string,
    name: string,
    sku: Option<string>,
    category: Option<string>,
    currentStock: int,
    minStock: int,
    unitCost: real)

  /** The movement dialog's direction: "in" adds stock, "out" removes it. */
  datatype DialogKind = In | Out

  datatype Dialog = Dialog(open: bool, item: Option<Item>, kind: DialogKind)

  /** The dialog's state after a completed movement (closed, no item, direction "in"). */
  const ClosedDialog := Dialog(false, None, In)

  /**
   * What pressing "confirm" in the dialog does. `Ignored` means no write at
   * all. `StockWritten` carries the stock update that was sent and, when the
   * backend accepted it, the movement insert sent afterwards; `dialog`,
   * `quantityText` and `notes` are the dialog's state and its two input
   * fields afterwards, and `refetch` says whether the list is reloaded.
   * `Ignored` leaves the dialog and its fields as they were.
   */
  datatype MovementOutcome =
    | Ignored
    | StockWritten(itemId: string, newStock: int, record: Option<Movements.Row>, dialog: Dialog,
                   quantityText: string, notes: string, refetch: bool)

  // ------------------------------------------------------------ movements

  /** The quantity typed in the dialog, if usable: non-empty, a number, and positive. */
  function DialogQuantity(text: string): (q: Option<int>)
    ensures q.Some? ==> q.value > 0
    ensures q.Some? ==> text != "" && Text.ParseInt(text) == Some(q.value)
    ensures text != "" && Text.ParseInt(text).Some? && Text.ParseInt(text).value > 0 ==> q.Some?
  {
    if text == "" then None
    else match Text.ParseInt(text)
      case None => None
      case Some(n) => if n <= 0 then None else Some(n)
  }

  /** Typing a positive number gives that quantity back. */
  lemma DialogQuantityOfNumber(n: int)
    requires n > 0
    ensures DialogQuantity(Text.IntToString(n)) == Some(n)
  {
    Text.ParseIntOfIntToString(n, "");
    assert Text.IntToString(n) + "" == Text.IntToString(n);
  }

  /** The stock after a movement: an entry adds, an exit subtracts but stops at zero. */
  function NewStock(kind: DialogKind, current: int, quantity: int): (r: int)
    requires quantity > 0
    ensures kind == In ==> r == current + quantity
    ensures kind == Out ==> r >= 0 && r <= if current > 0 then current else 0
    ensures kind == Out && quantity <= current ==> r == current - quantity
    ensures kind == Out && quantity >= current ==> r == 0
  {
    if kind == In then current + quantity
    else if current - quantity > 0 then current - quantity else 0
  }

  /** The history kind for a dialog direction, as the history page reads kinds. */
  function RecordedKind(kind: DialogKind): (k: string)
    ensures Movements.IsKnownKind(k)
  {
    if kind == In then "entry" else "exit"
  }

  /** The history kind the dashboard code actually writes: the Portuguese filter names. */
  function DashboardWrittenKind(kind: DialogKind): string {
    if kind == In then "entrada" else "saida"
  }

  /** `movementNotes || null`. */
  function NotesValue(notes: string): Movements.Value {
    if notes == "" then Movements.Null else Movements.Str(notes)
  }

  /** The movement insert as the dashboard code sends it. */
  function DashboardInsert(item: Item, kind: DialogKind, quantity: int, notes: string): Movements.Row {
    map["inventory_item_id" := Movements.Str(item.id),
        "movement_type" := Movements.Str(DashboardWrittenKind(kind)),
        "quantity" := Movements.Num(quantity),
        "notes" := NotesValue(notes)]
  }

  /** The insert the movement table and the history page expect. */
  function HistoryInsert(item: Item, kind: DialogKind, quantity: int, newStock: int, notes: string): Movements.Row {
    map["item_id" := Movements.Str(item.id),
        "type" := Movements.Str(RecordedKind(kind)),
        "quantity" := Movements.Num(quantity),
        "previous_quantity" := Movements.Num(item.currentStock),
        "new_quantity" := Movements.Num(newStock),
        "reason" := NotesValue(notes)]
  }

  /**
   * The dashboard's insert names three columns the movement table lacks
   * and omits the previous and new quantities, so the table cannot take
   * it. Were it stored, the history page would find no kind in it: the
   * row would be badged "Perda", carry no sign, and be hidden by the
   * filter named after the dialog's direction.
   */
  lemma DashboardInsertLost(item: Item, kind: DialogKind, quantity: int, notes: string, id: string, unit: Option<string>)
    ensures !Movements.Insertable(DashboardInsert(item, kind, quantity, notes))
    ensures var m := Movements.ReadMovement(id, DashboardInsert(item, kind, quantity, notes), unit);
      && m.kind == ""
      && Movements.Badge(m.kind) == "Perda"
      && Movements.QuantitySign(m.kind) == ""
      && !Movements.Keeps(DashboardWrittenKind(kind), m.kind)
  {
    var row := DashboardInsert(item, kind, quantity, notes);
    assert "inventory_item_id" in row.Keys;
    assert "inventory_item_id" !in Movements.MovementColumns;
    assert "type" !in row;
  }

  /**
   * The kind values the dashboard writes are misread even where the page
   * looks for them: "entrada" and "saida" are badged "Perda", carry no
   * sign, and their own filter hides them.
   */
  lemma DashboardKindMisread(kind: DialogKind)
    ensures Movements.Badge(DashboardWrittenKind(kind)) == "Perda"
    ensures Movements.QuantitySign(DashboardWrittenKind(kind)) == ""
    ensures !Movements.Keeps(DashboardWrittenKind(kind), DashboardWrittenKind(kind))
  {
  }

  /** With the recorded kind, the history page shows the dialog's own filter name, badge and sign. */
  lemma RecordedKindReadBack(kind: DialogKind)
    ensures Movements.Keeps(DashboardWrittenKind(kind), RecordedKind(kind))
    ensures Movements.Badge(RecordedKind(kind)) == if kind == In then "Entrada" else "Sa\U{ED}da"
    ensures Movements.QuantitySign(RecordedKind(kind)) == if kind == In then "+" else "-"
  {
  }

  /**
   * The intended insert is one the table takes, and the history page reads
   * it back as the movement made: the item, the kind under the dialog's
   * filter name with its badge and sign, the quantity and the notes.
   */
  lemma HistoryInsertReadBack(item: Item, kind: DialogKind, quantity: int, newStock: int, notes: string,
                              id: string, unit: Option<string>)
    ensures Movements.Insertable(HistoryInsert(item, kind, quantity, newStock, notes))
    ensures var m := Movements.ReadMovement(id, HistoryInsert(item, kind, quantity, newStock, notes), unit);
      && m.itemId == item.id && m.kind == RecordedKind(kind) && m.quantity == quantity
      && m.reason == (if notes == "" then None else Some(notes))
      && Movements.Keeps(DashboardWrittenKind(kind), m.kind)
      && Movements.Badge(m.kind) == (if kind == In then "Entrada" else "Sa\U{ED}da")
      && Movements.QuantitySign(m.kind) == (if kind == In then "+" else "-")
  {
    RecordedKindReadBack(kind);
  }

  /**
   * Confirming the movement dialog, as coded. Nothing is written without an
   * item or a positive quantity; otherwise the new stock is sent, and only
   * when the backend accepts it is the movement insert sent, the list
   * reloaded and the dialog closed and cleared. The insert's own result is
   * not read, so the reload and reset follow whatever becomes of it.
   */
  function HandleMovement(dialog: Dialog, quantityText: string, notes: string, success: bool): (r: MovementOutcome)
    ensures r.Ignored? <==> dialog.item.None? || DialogQuantity(quantityText).None?
    ensures r.StockWritten? ==>
      && r.itemId == dialog.item.value.id
      && r.newStock == NewStock(dialog.kind, dialog.item.value.currentStock, DialogQuantity(quantityText).value)
      && (r.record.Some? <==> success)
      && (r.refetch <==> success)
      && r.dialog == (if success then ClosedDialog else dialog)
      && r.quantityText == (if success then "" else quantityText)
      && r.notes == (if success then "" else notes)
    ensures r.StockWritten? && r.record.Some? ==>
      r.record.value == DashboardInsert(dialog.item.value, dialog.kind, DialogQuantity(quantityText).value, notes)
    ensures r.StockWritten? && dialog.item.value.currentStock >= 0 ==> r.newStock >= 0
  {
    match (dialog.item, DialogQuantity(quantityText))
    case (None, _) => Ignored
    case (_, None) => Ignored
    case (Some(item), Some(q)) =>
      var stock := NewStock(dialog.kind, item.currentStock, q);
      if success then
        StockWritten(item.id, stock, Some(DashboardInsert(item, dialog.kind, q, notes)), ClosedDialog, "", "", true)
      else
        StockWritten(item.id, stock, None, dialog, quantityText, notes, false)
  }

  /**
   * Opening the dialog again does not touch its fields, so after an
   * accepted movement a second confirm, on any item, writes nothing until
   * a quantity is typed again; after a refused one the same confirm can
   * be retried as it stands.
   */
  lemma ConfirmAfterConfirm(dialog: Dialog, quantityText: string, notes: string, success: bool,
                            reopened: Dialog, again: bool)
    requires HandleMovement(dialog, quantityText, notes, success).StockWritten?
    ensures var r := HandleMovement(dialog, quantityText, notes, success);
      var next := HandleMovement(reopened, r.quantityText, r.notes, again);
      && (success ==> next.Ignored?)
      && (!success && reopened == dialog ==> next == HandleMovement(dialog, quantityText, notes, again))
  {
    var r := HandleMovement(dialog, quantityText, notes, success);
    if success {
      assert DialogQuantity(r.quantityText).None?;
    }
  }

  /**
   * The confirmation with the intended insert: everything as coded except
   * the row sent, which the table takes and the history page reads back.
   */
  function HandleMovementCorrected(dialog: Dialog, quantityText: string, notes: string, success: bool): (r: MovementOutcome)
    ensures var coded := HandleMovement(dialog, quantityText, notes, success);
      && (r.Ignored? <==> coded.Ignored?)
      && (r.StockWritten? ==> r.(record := None) == coded.(record := None) && (r.record.Some? <==> coded.record.Some?))
    ensures r.StockWritten? && r.record.Some? ==>
      && Movements.Insertable(r.record.value)
      && forall id, unit :: Movements.ReadMovement(id, r.record.value, unit).kind == RecordedKind(dialog.kind)
    ensures r.StockWritten? && r.record.Some? ==>
      Movements.NumberColumn(r.record.value, "quantity") == DialogQuantity(quantityText).value
      && Movements.NumberColumn(r.record.value, "new_quantity") == r.newStock
  {
    var coded := HandleMovement(dialog, quantityText, notes, success);
    if coded.StockWritten? && coded.record.Some? then
      var q := DialogQuantity(quantityText).value;
      HistoryInsertReadBack(dialog.item.value, dialog.kind, q, coded.newStock, notes, "", None);
      coded.(record := Some(HistoryInsert(dialog.item.value, dialog.kind, q, coded.newStock, notes)))
    else coded
  }

  /** The exit button is disabled for an item with no stock. */
  predicate ExitDisabled(item: Item) {
    item.currentStock == 0
  }

  // ------------------------------------------------------- classification

  datatype StockStatus = OutOfStock | LowStock | NormalStock

  /** The status badge's classification: zero first, then at or below the minimum. */
  function Status(item: Item): StockStatus {
    if item.currentStock == 0 then OutOfStock
    else if item.currentStock <= item.minStock then LowStock
    else NormalStock
  }

  function StatusLabel(s: StockStatus): string {
    match s
    case OutOfStock => "Sem Estoque"
    case LowStock => "Estoque Baixo"
    case NormalStock => "Normal"
  }

  /** The predicate the "low stock" card and filter share. */
  predicate IsLow(item: Item) {
    item.currentStock <= item.minStock && item.currentStock > 0
  }

  predicate IsOut(item: Item) {
    item.currentStock == 0
  }

  /** The stock filter's test for one item; an unknown filter value keeps nothing. */
  predicate MatchesStock(item: Item, stockFilter: string) {
    || stockFilter == "all"
    || (stockFilter == "low" && IsLow(item))
    || (stockFilter == "out" && IsOut(item))
    || (stockFilter == "ok" && item.currentStock > item.minStock)
  }

  /**
   * For stock and minimum that are not negative, each item passes exactly
   * one of the "out", "low" and "ok" filters, and it is the one whose label
   * its badge shows.
   */
  lemma StockFiltersPartition(item: Item)
    requires item.currentStock >= 0 && item.minStock >= 0
    ensures MatchesStock(item, "out") <==> Status(item) == OutOfStock
    ensures MatchesStock(item, "low") <==> Status(item) == LowStock
    ensures MatchesStock(item, "ok") <==> Status(item) == NormalStock
    ensures ExitDisabled(item) <==> StatusLabel(Status(item)) == "Sem Estoque"
  {
  }

  /** The badge reads "Estoque Baixo" exactly for stock in (0, min] when stock is not negative. */
  lemma LowBadgeRange(item: Item)
    requires item.currentStock >= 0
    ensures StatusLabel(Status(item)) == "Sem Estoque" <==> item.currentStock == 0
    ensures StatusLabel(Status(item)) == "Estoque Baixo" <==> 0 < item.currentStock <= item.minStock
    ensures StatusLabel(Status(item)) == "Normal" <==> item.currentStock > item.minStock && item.currentStock != 0
  {
  }

  // ------------------------------------------------------------- summary

  datatype Stats = Stats(totalItems: nat, lowStock: nat, outOfStock: nat, totalValue: real)

  function StockValue(item: Item): real {
    item.currentStock as real * item.unitCost
  }

  /** The four summary cards. */
  function ComputeStats(items: seq<Item>): (r: Stats)
    ensures r.totalItems == |items|
    ensures r.lowStock + r.outOfStock <= r.totalItems
    ensures (forall i :: 0 <= i < |items| ==> items[i].currentStock >= 0 && items[i].unitCost >= 0.0) ==> r.totalValue >= 0.0
    ensures r.lowStock == |Seqs.Filter(IsLow, items)| && r.outOfStock == |Seqs.Filter(IsOut, items)|
  {
    Seqs.FilterDisjointCounts(IsLow, IsOut, items);
    TotalValueNonNegative(items);
    Stats(|items|, |Seqs.Filter(IsLow, items)|, |Seqs.Filter(IsOut, items)|, Seqs.Sum(StockValue, items))
  }

  lemma TotalValueNonNegative(items: seq<Item>)
    ensures (forall i :: 0 <= i < |items| ==> items[i].currentStock >= 0 && items[i].unitCost >= 0.0) ==>
      Seqs.Sum(StockValue, items) >= 0.0
  {
    if forall i :: 0 <= i < |items| ==> items[i].currentStock >= 0 && items[i].unitCost >= 0.0 {
      Seqs.SumNonNegative(StockValue, items);
    }
  }

  /** The cards count exactly the items whose badge is "Estoque Baixo" and "Sem Estoque", when no stock is negative. */
  lemma {:induction false} StatsMatchBadges(items: seq<Item>)
    requires forall i :: 0 <= i < |items| ==> items[i].currentStock >= 0
    ensures ComputeStats(items).lowStock == |Seqs.Filter((it: Item) => Status(it) == LowStock, items)|
    ensures ComputeStats(items).outOfStock == |Seqs.Filter((it: Item) => Status(it) == OutOfStock, items)|
  {
    if |items| > 0 {
      StatsMatchBadges(items[1..]);
    }
  }

  /** Adding an item adds its stock value to the total value card. */
  lemma TotalValueOfAppend(items: seq<Item>, item: Item)
    ensures ComputeStats([]).totalValue == 0.0
    ensures ComputeStats(items + [item]).totalValue == ComputeStats(items).totalValue + StockValue(item)
  {
    Seqs.SumAppend(StockValue, items, [item]);
  }

  // -------------------------------------------------------------- filters

  predicate MatchesSearch(item: Item, search: string) {
    Text.IncludesIgnoringCase(item.name, search)
    || (item.sku.Some? && Text.IncludesIgnoringCase(item.sku.value, search))
  }

  predicate MatchesCategory(item: Item, categoryFilter: string) {
    categoryFilter == "all" || item.category == Some(categoryFilter)
  }

  predicate Matches(item: Item, search: string, categoryFilter: string, stockFilter: string) {
    MatchesSearch(item, search) && MatchesCategory(item, categoryFilter) && MatchesStock(item, stockFilter)
  }

  /** The table's rows: the items passing search, category and stock filters, in order. */
  function FilteredItems(items: seq<Item>, search: string, categoryFilter: string, stockFilter: string): (r: seq<Item>)
    ensures Seqs.IsSubsequence(r, items)
    ensures forall it :: it in r <==> it in items && Matches(it, search, categoryFilter, stockFilter)
  {
    Seqs.Filter((it: Item) => Matches(it, search, categoryFilter, stockFilter), items)
  }

  /** With an empty search and both filters on "all", every item is listed. */
  lemma FiltersOffKeepAll(items: seq<Item>)
    ensures FilteredItems(items, "", "all", "all") == items
  {
    forall i | 0 <= i < |items|
      ensures Matches(items[i], "", "all", "all")
    {
      Text.IncludesIgnoringCaseBasics(items[i].name);
    }
    Seqs.FilterKeepsAll((it: Item) => Matches(it, "", "all", "all"), items);
  }

  /** The search matches the name or the SKU regardless of letter case. */
  lemma SearchIgnoresCase(item: Item, search: string)
    ensures MatchesSearch(item, Text.Lower(search)) <==> MatchesSearch(item, search)
  {
    Text.LowerIdempotent(search);
  }

  /** The index of the first item in category `c`, or `|items|` when there is none. */
  function FirstIndex(items: seq<Item>, c: string): (k: nat)
    ensures k <= |items|
    ensures k < |items| ==> items[k].category == Some(c)
    ensures forall i :: 0 <= i < k ==> items[i].category != Some(c)
    decreases |items|
  {
    if |items| == 0 then 0
    else if items[0].category == Some(c) then 0
    else 1 + FirstIndex(items[1..], c)
  }

  /** Some item is in category `c`. */
  predicate HasCategory(items: seq<Item>, c: string) {
    exists i :: 0 <= i < |items| && items[i].category == Some(c)
  }

  lemma HasCategoryFirst(items: seq<Item>)
    requires |items| > 0
    ensures forall c :: HasCategory(items, c) <==> items[0].category == Some(c) || HasCategory(items[1..], c)
  {
    forall c | HasCategory(items, c)
      ensures items[0].category == Some(c) || HasCategory(items[1..], c)
    {
      var i :| 0 <= i < |items| && items[i].category == Some(c);
      if i > 0 { assert items[1..][i - 1] == items[i]; }
    }
    forall c | HasCategory(items[1..], c)
      ensures HasCategory(items, c)
    {
      var i :| 0 <= i < |items[1..]| && items[1..][i].category == Some(c);
      assert items[i + 1] == items[1..][i];
    }
  }

  /** In a list without repeats, nothing after a prefix occurs in it. */
  lemma PrefixFresh(seen: seq<string>, r: seq<string>)
    requires seen <= r
    requires forall i, j :: 0 <= i < j < |r| ==> r[i] != r[j]
    ensures forall i :: |seen| <= i < |r| ==> r[i] !in seen
  {
    forall i | |seen| <= i < |r|
      ensures r[i] !in seen
    {
      forall k | 0 <= k < |seen|
        ensures seen[k] != r[i]
      {
        assert r[k] == seen[k];
      }
    }
  }

  /** One step of the scan: a non-empty category not yet collected is appended. */
  function Collect(item: Item, seen: seq<string>): (next: seq<string>)
    ensures seen <= next
  {
    match item.category
    case Some(c) => if c != "" && c !in seen then seen + [c] else seen
    case None => seen
  }

  /**
   * The ordering step of the scan: if the rest of the scan lists its new
   * categories by first index in the remaining items, the whole scan lists
   * them by first index in all the items.
   */
  lemma CollectOrder(items: seq<Item>, seen: seq<string>, r: seq<string>)
    requires |items| > 0
    requires Collect(items[0], seen) <= r
    requires forall i, j :: |Collect(items[0], seen)| <= i < j < |r| ==> FirstIndex(items[1..], r[i]) < FirstIndex(items[1..], r[j])
    requires forall i, j :: 0 <= i < j < |r| ==> r[i] != r[j]
    requires forall i :: |seen| <= i < |r| ==> r[i] !in seen && r[i] != ""
    ensures forall i, j :: |seen| <= i < j < |r| ==> FirstIndex(items, r[i]) < FirstIndex(items, r[j])
  {
    var next := Collect(items[0], seen);
    if items[0].category.Some? && items[0].category.value != "" && items[0].category.value !in seen {
      // the new category sits at |seen|, so no later entry repeats it
      assert r[|seen|] == next[|seen|] == items[0].category.value;
    }
    assert forall i :: |next| <= i < |r| ==> items[0].category != Some(r[i]);
    if |next| > |seen| {
      assert r[|seen|] == next[|seen|];
      assert FirstIndex(items, r[|seen|]) == 0;
    }
  }

  /** `[...new Set(items.map(i => i.category).filter(Boolean))]`: the distinct non-empty categories, first occurrence first. */
  function Categories(items: seq<Item>): (r: seq<string>)
    ensures forall i, j :: 0 <= i < j < |r| ==> r[i] != r[j]
    ensures forall c :: c in r <==> c != "" && HasCategory(items, c)
    ensures forall i, j :: 0 <= i < j < |r| ==> FirstIndex(items, r[i]) < FirstIndex(items, r[j])
  {
    CategoriesFrom(items, [])
  }

  /** The options already collected, then each new non-empty category in the order the scan meets it. */
  function CategoriesFrom(items: seq<Item>, seen: seq<string>): (r: seq<string>)
    requires forall i, j :: 0 <= i < j < |seen| ==> seen[i] != seen[j]
    ensures forall i, j :: 0 <= i < j < |r| ==> r[i] != r[j]
    ensures forall c :: c in r <==> c in seen || (c != "" && HasCategory(items, c))
    ensures seen <= r
    ensures forall i :: |seen| <= i < |r| ==> r[i] != ""
    ensures forall i, j :: |seen| <= i < j < |r| ==> FirstIndex(items, r[i]) < FirstIndex(items, r[j])
    decreases |items|
  {
    if |items| == 0 then seen
    else
      var next := Collect(items[0], seen);
      var r := CategoriesFrom(items[1..], next);
      assert r[..|seen|] == next[..|seen|] == seen;
      PrefixFresh(seen, r);
      CollectOrder(items, seen, r);
      HasCategoryFirst(items);
      r
  }
}
