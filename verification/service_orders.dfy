/**
 * The service-order detail view: the status lifecycle driven by its action
 * buttons (scheduled, then in progress, then completed; cancel from either
 * of the first two), the timestamps stamped on those transitions, and the
 * before/after checklists. Timestamps are opaque strings supplied by the
 * caller; each backend update is reduced to its `success` flag.
 */
module ServiceOrders {
  import opened Optional
  import Seqs

  datatype Status = Scheduled | InProgress | Completed | Cancelled

  datatype ChecklistItem = ChecklistItem(id: string, text: string, completed: bool)

  /** The fields of an order this view reads and writes. */
  datatype Order = Order(
    id: string,
    status: Status,
    actualStart: Option<string>,
    actualEnd: Option<string>,
    checklistBefore: Option<seq<ChecklistItem>>,
    checklistAfter: Option<seq<ChecklistItem>>,
    notes: Option<string>)

  /** The status badge's label. */
  function StatusLabel(s: Status): (r: string)
    ensures r == "Agendada" <==> s == Scheduled
    ensures r == "Em Andamento" <==> s == InProgress
    ensures r == "Conclu\U{ED}da" <==> s == Completed
    ensures r == "Cancelada" <==> s == Cancelled
  {
    match s
    case Scheduled => "Agendada"
    case InProgress => "Em Andamento"
    case Completed => "Conclu\U{ED}da"
    case Cancelled => "Cancelada"
  }

  // ----------------------------------------------------------- lifecycle

  /** The lifecycle's transitions, as a relation. */
  predicate Transition(from: Status, to: Status) {
    (from == Scheduled && to == InProgress)
    || (from == InProgress && to == Completed)
    || ((from == Scheduled || from == InProgress) && to == Cancelled)
  }

  /** The action buttons the view renders for a status. */
  datatype Action = Start | Finish | Cancel

  function Target(a: Action): Status {
    match a
    case Start => InProgress
    case Finish => Completed
    case Cancel => Cancelled
  }

  /** Whether the button for an action is shown: Start when scheduled, Finish when in progress, Cancel in either. */
  predicate Offered(status: Status, a: Action) {
    match a
    case Start => status == Scheduled
    case Finish => status == InProgress
    case Cancel => status == Scheduled || status == InProgress
  }

  /** The buttons offer exactly the lifecycle's transitions, and nothing from a finished order. */
  lemma OfferedIsTransition(status: Status, a: Action)
    ensures Offered(status, a) <==> Transition(status, Target(a))
    ensures status == Completed || status == Cancelled ==> !Offered(status, a)
  {
  }

  /** The fields an update to `newStatus` writes; `now` is the current timestamp. */
  datatype Updates = Updates(status: Status, actualStart: Option<string>, actualEnd: Option<string>)

  function StatusUpdates(newStatus: Status, now: string): (u: Updates)
    ensures u.status == newStatus
    ensures u.actualStart.Some? <==> newStatus == InProgress
    ensures u.actualEnd.Some? <==> newStatus == Completed
    ensures u.actualStart.Some? ==> u.actualStart.value == now
    ensures u.actualEnd.Some? ==> u.actualEnd.value == now
  {
    if newStatus == InProgress then Updates(newStatus, Some(now), None)
    else if newStatus == Completed then Updates(newStatus, None, Some(now))
    else Updates(newStatus, None, None)
  }

  /** `{ ...order, ...updates }`: the written fields replace the order's, the rest stay. */
  function Apply(order: Order, u: Updates): Order {
    order.(status := u.status,
           actualStart := if u.actualStart.Some? then u.actualStart else order.actualStart,
           actualEnd := if u.actualEnd.Some? then u.actualEnd else order.actualEnd)
  }

  /**
   * Changing the status. Only when the backend accepts the update does the
   * local order change: its status becomes `newStatus`, starting stamps
   * `actualStart`, completing stamps `actualEnd`, and nothing else moves.
   */
  function UpdateStatus(order: Order, newStatus: Status, now: string, success: bool): (r: Order)
    ensures !success ==> r == order
    ensures success ==> r.status == newStatus
    ensures success ==> r.actualStart == (if newStatus == InProgress then Some(now) else order.actualStart)
    ensures success ==> r.actualEnd == (if newStatus == Completed then Some(now) else order.actualEnd)
    ensures r.id == order.id && r.checklistBefore == order.checklistBefore
    ensures r.checklistAfter == order.checklistAfter && r.notes == order.notes
  {
    if success then Apply(order, StatusUpdates(newStatus, now)) else order
  }

  /** A click on an action button; a click on a button that is not shown has no effect. */
  datatype Click = Click(action: Action, now: string, success: bool)

  function ApplyClick(order: Order, c: Click): (r: Order)
    ensures !Offered(order.status, c.action) ==> r == order
  {
    if Offered(order.status, c.action) then UpdateStatus(order, Target(c.action), c.now, c.success) else order
  }

  function Run(order: Order, clicks: seq<Click>): Order
    decreases |clicks|
  {
    if |clicks| == 0 then order else Run(ApplyClick(order, clicks[0]), clicks[1..])
  }

  /** An order in progress has a start stamp, and a completed one has both stamps. */
  predicate WellStamped(order: Order) {
    && (order.status == InProgress ==> order.actualStart.Some?)
    && (order.status == Completed ==> order.actualStart.Some? && order.actualEnd.Some?)
  }

  /**
   * Any sequence of button clicks, each accepted or refused by the backend,
   * keeps the stamps consistent with the status, and every status change it
   * makes is a lifecycle transition.
   */
  lemma {:induction false} RunKeepsStamps(order: Order, clicks: seq<Click>)
    requires WellStamped(order)
    ensures WellStamped(Run(order, clicks))
    ensures Run(order, clicks).status == order.status || Reachable(order.status, Run(order, clicks).status)
    decreases |clicks|
  {
    if |clicks| > 0 {
      var next := ApplyClick(order, clicks[0]);
      RunKeepsStamps(next, clicks[1..]);
      if next.status != order.status {
        assert Transition(order.status, next.status);
      }
    }
  }

  /** The statuses reachable by one or more lifecycle transitions. */
  predicate Reachable(from: Status, to: Status) {
    Transition(from, to) || (from == Scheduled && to == Completed)
  }

  /** Once completed or cancelled, no click changes an order. */
  lemma {:induction false} FinishedIsFinal(order: Order, clicks: seq<Click>)
    requires order.status == Completed || order.status == Cancelled
    ensures Run(order, clicks) == order
    decreases |clicks|
  {
    if |clicks| > 0 {
      FinishedIsFinal(ApplyClick(order, clicks[0]), clicks[1..]);
    }
  }

  // ----------------------------------------------------------- checklists

  const DefaultBefore := [
    ChecklistItem("1", "Foto do local antes de come\U{E7}ar", false),
    ChecklistItem("2", "Verificar ferramentas necess\U{E1}rias", false),
    ChecklistItem("3", "Confirmar escopo com cliente", false)
  ]

  const DefaultAfter := [
    ChecklistItem("1", "Foto do servi\U{E7}o conclu\U{ED}do", false),
    ChecklistItem("2", "Local limpo e organizado", false),
    ChecklistItem("3", "Assinatura do cliente", false)
  ]

  /** `stored || defaults`: a stored list, even an empty one, wins over the defaults. */
  function InitialChecklist(stored: Option<seq<ChecklistItem>>, defaults: seq<ChecklistItem>): (r: seq<ChecklistItem>)
    ensures stored.Some? ==> r == stored.value
    ensures stored.None? ==> r == defaults
  {
    stored.GetOr(defaults)
  }

  /** An order without stored checklists starts from three open items before and three after. */
  lemma DefaultChecklists(order: Order)
    requires order.checklistBefore.None? && order.checklistAfter.None?
    ensures |InitialChecklist(order.checklistBefore, DefaultBefore)| == 3
    ensures |InitialChecklist(order.checklistAfter, DefaultAfter)| == 3
    ensures forall i :: 0 <= i < 3 ==> !InitialChecklist(order.checklistBefore, DefaultBefore)[i].completed
    ensures forall i :: 0 <= i < 3 ==> !InitialChecklist(order.checklistAfter, DefaultAfter)[i].completed
  {
  }

  /** `order.notes || ""`. */
  function InitialNotes(order: Order): (r: string)
    ensures order.notes.Some? ==> r == order.notes.value
    ensures order.notes.None? ==> r == ""
  {
    order.notes.GetOr("")
  }

  /** Ticking an item: the entries with that id flip `completed`; ids, texts and order stay. */
  function Toggle(list: seq<ChecklistItem>, id: string): (r: seq<ChecklistItem>)
    ensures |r| == |list|
    ensures forall i :: 0 <= i < |list| ==> r[i].id == list[i].id && r[i].text == list[i].text
    ensures forall i :: 0 <= i < |list| ==> r[i].completed == (if list[i].id == id then !list[i].completed else list[i].completed)
  {
    Seqs.UpdateWhere(list, (c: ChecklistItem) => c.id == id, (c: ChecklistItem) => c.(completed := !c.completed))
  }

  /** Ticking the same item twice restores the list. */
  lemma ToggleTwice(list: seq<ChecklistItem>, id: string)
    ensures Toggle(Toggle(list, id), id) == list
  {
    var r := Toggle(Toggle(list, id), id);
    assert forall i :: 0 <= i < |list| ==> r[i] == list[i];
  }

  /** Ticking an item that is not on the list changes nothing. */
  lemma ToggleAbsent(list: seq<ChecklistItem>, id: string)
    requires forall i :: 0 <= i < |list| ==> list[i].id != id
    ensures Toggle(list, id) == list
  {
    var r := Toggle(list, id);
    assert forall i :: 0 <= i < |list| ==> r[i] == list[i];
  }

  /** Which of the two lists a toggle addresses. */
  datatype Side = Before | After

  /** The view's editable state: the two checklists and the notes being edited. */
  datatype Draft = Draft(before: seq<ChecklistItem>, after: seq<ChecklistItem>, notes: string)

  function InitialDraft(order: Order): Draft {
    Draft(InitialChecklist(order.checklistBefore, DefaultBefore),
          InitialChecklist(order.checklistAfter, DefaultAfter),
          InitialNotes(order))
  }

  /** `toggleChecklistItem(type, id)`: only the addressed list changes. */
  function ToggleItem(d: Draft, side: Side, id: string): (r: Draft)
    ensures side == Before ==> r.before == Toggle(d.before, id) && r.after == d.after
    ensures side == After ==> r.after == Toggle(d.after, id) && r.before == d.before
    ensures r.notes == d.notes
  {
    match side
    case Before => d.(before := Toggle(d.before, id))
    case After => d.(after := Toggle(d.after, id))
  }

  /** Saving the checklists and notes: the local order takes the draft only when the backend accepts it. */
  function SaveChecklists(order: Order, d: Draft, success: bool): (r: Order)
    ensures !success ==> r == order
    ensures success ==> r.checklistBefore == Some(d.before) && r.checklistAfter == Some(d.after) && r.notes == Some(d.notes)
    ensures r.id == order.id && r.status == order.status
    ensures r.actualStart == order.actualStart && r.actualEnd == order.actualEnd
  {
    if success then order.(checklistBefore := Some(d.before), checklistAfter := Some(d.after), notes := Some(d.notes))
    else order
  }

  /** After a successful save, reopening the order shows exactly the saved draft. */
  lemma SaveThenReload(order: Order, d: Draft)
    ensures InitialDraft(SaveChecklists(order, d, true)) == d
  {
  }
}
