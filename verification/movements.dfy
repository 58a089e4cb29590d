/**
 * The stock movement history page: the type filter, the badge and the
 * signed quantity shown for each movement. The page reads the movement
 * kind as a raw string, so values outside the declared kinds are possible.
 */
module Movements {
  import opened Optional
  import Seqs
  import Text

  /**
   * A row of the history, as the page reads it: `unit` is the joined
   * item's unit, absent when the row's item is missing.
   */
  datatype Movement = Movement(id: string, itemId: string, kind: string, quantity: int, reason: Option<string>,
                               unit: Option<string>)

  // ------------------------------------------------------------ stored rows

  /** A column value as sent to or read from the backend. */
  datatype Value = Str(s: string) | Num(n: int) | Null

  /** A row of the movement table, by column name. */
  type Row = map<string, Value>

  /** The columns of the movement table, as its declared row type lists them. */
  const MovementColumns: set<string> := {"id", "item_id", "type", "quantity", "previous_quantity", "new_quantity",
                                        "reason", "service_order_id", "recorded_by", "created_at"}

  /** The columns a new row must carry; the others are optional or filled by the backend. */
  const RequiredColumns: set<string> := {"item_id", "type", "quantity", "previous_quantity", "new_quantity"}

  /** An insert the table can take: only its own columns, and every required one. */
  predicate Insertable(row: Row) {
    row.Keys <= MovementColumns && RequiredColumns <= row.Keys
  }

  /** A text column; a missing or non-text value reads as "", which matches no kind. */
  function TextColumn(row: Row, column: string): string {
    if column in row && row[column].Str? then row[column].s else ""
  }

  /** A number column; a missing or non-number value reads as 0. */
  function NumberColumn(row: Row, column: string): int {
    if column in row && row[column].Num? then row[column].n else 0
  }

  /** A stored row as the history page sees it, with the id the backend gave it. */
  function ReadMovement(id: string, row: Row, unit: Option<string>): Movement {
    Movement(id, TextColumn(row, "item_id"), TextColumn(row, "type"), NumberColumn(row, "quantity"),
             if "reason" in row && row["reason"].Str? then Some(row["reason"].s) else None, unit)
  }

  /** The kinds the history page recognises. */
  predicate IsKnownKind(kind: string) {
    kind == "entry" || kind == "exit" || kind == "adjustment"
  }

  /** The filter values with a dedicated meaning; every other value keeps everything. */
  predicate IsNarrowingFilter(typeFilter: string) {
    typeFilter == "entrada" || typeFilter == "saida" || typeFilter == "ajuste"
  }

  /** The movement kind a narrowing filter value selects. */
  function KindSelectedBy(typeFilter: string): (kind: string)
    requires IsNarrowingFilter(typeFilter)
    ensures IsKnownKind(kind)
  {
    if typeFilter == "entrada" then "entry" else if typeFilter == "saida" then "exit" else "adjustment"
  }

  /** Whether the type filter keeps a movement of the given kind. */
  predicate Keeps(typeFilter: string, kind: string) {
    if typeFilter == "all" then true
    else if typeFilter == "entrada" then kind == "entry"
    else if typeFilter == "saida" then kind == "exit"
    else if typeFilter == "ajuste" then kind == "adjustment"
    else true
  }

  /** The movements shown under a type filter: a subsequence of the loaded ones. */
  function FilterMovements(movements: seq<Movement>, typeFilter: string): (r: seq<Movement>)
    ensures Seqs.IsSubsequence(r, movements)
    ensures !IsNarrowingFilter(typeFilter) ==> r == movements
    ensures IsNarrowingFilter(typeFilter) ==>
      forall i :: 0 <= i < |r| ==> r[i].kind == KindSelectedBy(typeFilter)
    ensures forall m :: m in r <==> m in movements && Keeps(typeFilter, m.kind)
  {
    var keep := (m: Movement) => Keeps(typeFilter, m.kind);
    if !IsNarrowingFilter(typeFilter) then
      Seqs.FilterKeepsAll(keep, movements);
      Seqs.Filter(keep, movements)
    else
      Seqs.Filter(keep, movements)
  }

  /** A narrowing filter keeps exactly its own kind; any other filter value keeps every kind. */
  lemma KeepsExactly(typeFilter: string, kind: string)
    ensures IsNarrowingFilter(typeFilter) ==> (Keeps(typeFilter, kind) <==> kind == KindSelectedBy(typeFilter))
    ensures !IsNarrowingFilter(typeFilter) ==> Keeps(typeFilter, kind)
  {
  }

  /** Losses, and any unrecognised kind, appear only when the filter does not narrow. */
  lemma LossShownOnlyUnfiltered(typeFilter: string, kind: string)
    requires !IsKnownKind(kind)
    ensures Keeps(typeFilter, kind) <==> !IsNarrowingFilter(typeFilter)
  {
  }

  /** The badge label; every kind other than the three recognised ones reads "Perda". */
  function Badge(kind: string): (badge: string)
    ensures badge == "Perda" <==> !IsKnownKind(kind)
  {
    if kind == "entry" then "Entrada"
    else if kind == "exit" then "Sa\U{ED}da"
    else if kind == "adjustment" then "Ajuste"
    else "Perda"
  }

  /** The sign written before the quantity: "+" for an entry, "-" for an exit, nothing otherwise. */
  function QuantitySign(kind: string): (sign: string)
    ensures sign == "+" <==> kind == "entry"
    ensures sign == "-" <==> kind == "exit"
    ensures sign == "" <==> !(kind == "entry" || kind == "exit")
  {
    if kind == "entry" then "+" else if kind == "exit" then "-" else ""
  }

  /** The unit after the quantity; a missing item renders nothing. */
  function UnitText(unit: Option<string>): string {
    if unit.Some? then unit.value else ""
  }

  /**
   * The quantity cell: the sign, the quantity, a space and the unit. Read
   * back after the sign, `parseInt` gives the quantity.
   */
  function QuantityText(m: Movement): (text: string)
    ensures QuantitySign(m.kind) <= text
    ensures Text.ParseInt(text[|QuantitySign(m.kind)|..]) == Some(m.quantity)
    ensures |text| > |UnitText(m.unit)| && text[|text| - |UnitText(m.unit)| - 1..] == " " + UnitText(m.unit)
  {
    var sign, rest := QuantitySign(m.kind), NumberAndUnit(m.quantity, m.unit);
    assert (sign + rest)[|sign|..] == rest;
    assert (sign + rest)[|sign + rest| - |UnitText(m.unit)| - 1..] == rest[|rest| - |UnitText(m.unit)| - 1..];
    sign + rest
  }

  /** The cell after the sign: the number, a space and the unit. */
  function NumberAndUnit(quantity: int, unit: Option<string>): (r: string)
    ensures Text.ParseInt(r) == Some(quantity)
    ensures |r| > |UnitText(unit)| && r[|r| - |UnitText(unit)| - 1..] == " " + UnitText(unit)
  {
    var number, tail := Text.IntToString(quantity), " " + UnitText(unit);
    Text.ParseIntOfIntToString(quantity, tail);
    assert (number + tail)[|number + tail| - |tail|..] == tail;
    number + tail
  }

  /**
   * The filter, the badge and the sign agree: under a narrowing filter a
   * kept movement carries that filter's badge, and a signed quantity is
   * shown exactly for the entry and exit badges.
   */
  lemma FilterBadgeSignAgree(typeFilter: string, kind: string)
    ensures IsNarrowingFilter(typeFilter) && Keeps(typeFilter, kind) ==>
      Badge(kind) == (if typeFilter == "entrada" then "Entrada" else if typeFilter == "saida" then "Sa\U{ED}da" else "Ajuste")
    ensures QuantitySign(kind) == "+" <==> Badge(kind) == "Entrada"
    ensures QuantitySign(kind) == "-" <==> Badge(kind) == "Sa\U{ED}da"
  {
  }
}
