/**
 * The equipment list: its search and status filter, the status counters,
 * the next-maintenance alert, and the status change that reloads the list.
 * This screen stores statuses in Portuguese ("disponivel", "em_uso",
 * "manutencao", "inativo"), kept here as the strings it compares. Day
 * differences are computed by a caller-supplied function.
 */
module Equipment {
  import opened Optional
  import Seqs
  import Text

  const Available := "disponivel"
  const InUse := "em_uso"
  const Maintenance := "manutencao"
  const Inactive := "inativo"

  datatype Equipment = Equipment(
    id: string,
    name: string,
    serialNumber: Option<string>,
    status: string,
    nextMaintenance: Option<string>)

  /** The status badge: the four known statuses by name, anything else verbatim. */
  function StatusBadge(status: string): (r: string)
    ensures status == Available ==> r == "Dispon\U{ED}vel"
    ensures status == InUse ==> r == "Em Uso"
    ensures status == Maintenance ==> r == "Manuten\U{E7}\U{E3}o"
    ensures status == Inactive ==> r == "Inativo"
    ensures status !in {Available, InUse, Maintenance, Inactive} ==> r == status
  {
    if status == Available then "Dispon\U{ED}vel"
    else if status == InUse then "Em Uso"
    else if status == Maintenance then "Manuten\U{E7}\U{E3}o"
    else if status == Inactive then "Inativo"
    else status
  }

  // ----------------------------------------------------------- filter

  /** Name or serial number contains the search, ignoring case; a missing serial never matches. */
  predicate MatchesSearch(e: Equipment, search: string) {
    Text.IncludesIgnoringCase(e.name, search)
      || (e.serialNumber.Some? && Text.IncludesIgnoringCase(e.serialNumber.value, search))
  }

  predicate MatchesStatus(e: Equipment, statusFilter: string) {
    statusFilter == "all" || e.status == statusFilter
  }

  function FilteredEquipment(equipment: seq<Equipment>, search: string, statusFilter: string): (r: seq<Equipment>)
    ensures Seqs.IsSubsequence(r, equipment)
    ensures forall e :: e in r <==> e in equipment && MatchesSearch(e, search) && MatchesStatus(e, statusFilter)
  {
    Seqs.Filter((e: Equipment) => MatchesSearch(e, search) && MatchesStatus(e, statusFilter), equipment)
  }

  /** With no search and the "all" status, the whole list is shown, in order. */
  lemma NoFilterKeepsAll(equipment: seq<Equipment>)
    ensures FilteredEquipment(equipment, "", "all") == equipment
  {
    var p := (e: Equipment) => MatchesSearch(e, "") && MatchesStatus(e, "all");
    forall i | 0 <= i < |equipment|
      ensures p(equipment[i])
    {
      Text.IncludesIgnoringCaseBasics(equipment[i].name);
    }
    Seqs.FilterKeepsAll(p, equipment);
  }

  /** A specific status shows only equipment in that status. */
  lemma StatusFilterExact(equipment: seq<Equipment>, search: string, statusFilter: string)
    requires statusFilter != "all"
    ensures forall e :: e in FilteredEquipment(equipment, search, statusFilter) ==> e.status == statusFilter
  {
  }

  // ----------------------------------------------------------- stats

  datatype Stats = Stats(total: nat, available: nat, inUse: nat, maintenance: nat)

  predicate IsAvailable(e: Equipment) { e.status == Available }
  predicate IsInUse(e: Equipment) { e.status == InUse }
  predicate IsInMaintenance(e: Equipment) { e.status == Maintenance }

  /** The counters over the whole list; inactive and unknown statuses are counted only in the total. */
  function ComputeStats(equipment: seq<Equipment>): (r: Stats)
    ensures r.total == |equipment|
    ensures r.available == |Seqs.Filter(IsAvailable, equipment)|
    ensures r.inUse == |Seqs.Filter(IsInUse, equipment)|
    ensures r.maintenance == |Seqs.Filter(IsInMaintenance, equipment)|
    ensures r.available + r.inUse + r.maintenance <= r.total
  {
    Seqs.FilterDisjointCounts3(IsAvailable, IsInUse, IsInMaintenance, equipment);
    Stats(|equipment|,
          |Seqs.Filter(IsAvailable, equipment)|,
          |Seqs.Filter(IsInUse, equipment)|,
          |Seqs.Filter(IsInMaintenance, equipment)|)
  }

  // ----------------------------------------------------------- maintenance alert

  datatype Alert = Overdue | Soon(days: int) | Scheduled(days: int)

  /**
   * The alert for a next-maintenance date `days` away: none without a date
   * (an empty date counts as none), "Atrasada" when past, a warning within
   * a week, and a plain notice otherwise.
   */
  function MaintenanceAlert(next: Option<string>, daysUntil: string -> int): (r: Option<Alert>)
    ensures r.None? <==> next.None? || next.value == ""
    ensures r.Some? ==> (r.value.Overdue? <==> daysUntil(next.value) < 0)
    ensures r.Some? ==> (r.value.Soon? <==> 0 <= daysUntil(next.value) <= 7)
    ensures r.Some? ==> (r.value.Scheduled? <==> daysUntil(next.value) > 7)
    ensures r.Some? && !r.value.Overdue? ==> r.value.days == daysUntil(next.value)
  {
    if next.None? || next.value == "" then None
    else
      var days := daysUntil(next.value);
      if days < 0 then Some(Overdue)
      else if days <= 7 then Some(Soon(days))
      else Some(Scheduled(days))
  }

  /** The alert's text: "Atrasada", or "Em <days> dias" with the day count `parseInt` reads back. */
  function AlertText(a: Alert): (r: string)
    ensures a.Overdue? <==> r == "Atrasada"
    ensures !a.Overdue? ==> "Em " <= r && |r| >= 8 && r[|r| - 5..] == " dias"
    ensures !a.Overdue? ==> Text.ParseInt(r[3..]) == Some(a.days)
  {
    match a
    case Overdue => "Atrasada"
    case Soon(d) => DaysText(d)
    case Scheduled(d) => DaysText(d)
  }

  /** "Em <days> dias". */
  function DaysText(days: int): (r: string)
    ensures "Em " <= r && |r| >= 8 && r[|r| - 5..] == " dias"
    ensures Text.ParseInt(r[3..]) == Some(days)
  {
    var rest := Text.IntToString(days) + " dias";
    Text.ParseIntOfIntToString(days, " dias");
    assert ("Em " + rest)[3..] == rest;
    assert rest[|rest| - 5..] == " dias";
    "Em " + rest
  }

  /** How far off an alert says the maintenance is: overdue, within the week, later. */
  function Urgency(a: Alert): nat {
    match a
    case Overdue => 0
    case Soon(_) => 1
    case Scheduled(_) => 2
  }

  /**
   * A nearer date never gets a calmer alert: of two dated items, the one
   * due sooner is at least as urgent, so an overdue later item makes the
   * earlier one overdue too, and a plain notice never shows for an item
   * due sooner than one with the warning.
   */
  lemma NearerIsAsUrgent(next1: string, next2: string, daysUntil: string -> int)
    requires next1 != "" && next2 != ""
    requires daysUntil(next1) <= daysUntil(next2)
    ensures var a1, a2 := MaintenanceAlert(Some(next1), daysUntil), MaintenanceAlert(Some(next2), daysUntil);
      && a1.Some? && a2.Some?
      && Urgency(a1.value) <= Urgency(a2.value)
      && (a2.value.Overdue? ==> a1.value.Overdue?)
      && (a2.value.Soon? ==> !a1.value.Scheduled?)
  {
  }

  /** A dated item's text: "Atrasada" exactly when past, otherwise the day count, read back. */
  lemma DatedAlertText(next: string, daysUntil: string -> int)
    requires next != ""
    ensures var a := MaintenanceAlert(Some(next), daysUntil);
      && a.Some?
      && (AlertText(a.value) == "Atrasada" <==> daysUntil(next) < 0)
      && (daysUntil(next) >= 0 ==> Text.ParseInt(AlertText(a.value)[3..]) == Some(daysUntil(next)))
  {
  }

  // ----------------------------------------------------------- status change

  /** `fetchEquipment`: the list is replaced only when the query returns data. */
  function Fetch(current: seq<Equipment>, fetched: Option<seq<Equipment>>): (r: seq<Equipment>)
    ensures fetched.Some? ==> r == fetched.value
    ensures fetched.None? ==> r == current
  {
    fetched.GetOr(current)
  }

  /** A status change reloads the list only when the update succeeded; otherwise the shown list stays. */
  function UpdateStatus(current: seq<Equipment>, success: bool, fetched: Option<seq<Equipment>>): (r: seq<Equipment>)
    ensures !success ==> r == current
    ensures success ==> r == Fetch(current, fetched)
  {
    if success then Fetch(current, fetched) else current
  }

  /** The backend's `update({ status }).eq("id", id)` on the stored equipment. */
  function SetStatus(table: seq<Equipment>, id: string, status: string): seq<Equipment> {
    Seqs.UpdateWhere(table, (e: Equipment) => e.id == id, (e: Equipment) => e.(status := status))
  }

  /**
   * A successful status change followed by a reload shows the stored list
   * with the new status on exactly the changed equipment, which the filter
   * for that status then lists.
   */
  lemma StatusChangeReloaded(current: seq<Equipment>, table: seq<Equipment>, id: string, status: string)
    ensures var shown := UpdateStatus(current, true, Some(SetStatus(table, id, status)));
      && |shown| == |table|
      && (forall i :: 0 <= i < |table| && table[i].id != id ==> shown[i] == table[i])
      && (forall i :: 0 <= i < |table| && table[i].id == id ==>
            shown[i] == table[i].(status := status) && shown[i] in FilteredEquipment(shown, "", status))
  {
    var shown := UpdateStatus(current, true, Some(SetStatus(table, id, status)));
    forall i | 0 <= i < |table| && table[i].id == id
      ensures shown[i] in FilteredEquipment(shown, "", status)
    {
      Text.IncludesIgnoringCaseBasics(shown[i].name);
    }
  }
}
