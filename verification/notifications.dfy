/**
 * The notification inbox hook: realtime service-order events prepend a
 * notification, and the inbox can mark one or all as read, be cleared,
 * and report its unread count. The realtime channel itself is not
 * modelled; its two handlers are functions of the event rows. Generated
 * ids and the current time are parameters.
 */
module Notifications {
  import Seqs
  import ServiceOrders

  datatype NotificationType = ServiceOrder | Quote | Inventory | Contract | System

  datatype Notification = Notification(
    id: string,
    kind: NotificationType,
    title: string,
    description: string,
    createdAt: string,
    read: bool,
    link: string)

  /** The service-order columns the handlers read. */
  datatype OrderRow = OrderRow(id: string, orderNumber: string, title: string, scheduledDate: string,
                               status: ServiceOrders.Status)

  function OrderLink(row: OrderRow): string {
    "/manager/service-orders/" + row.id
  }

  /** The status names used in the update notification (note "Em andamento", lower-case a). */
  function StatusLabel(s: ServiceOrders.Status): (r: string)
    ensures r == "Agendada" <==> s == ServiceOrders.Scheduled
    ensures r == "Em andamento" <==> s == ServiceOrders.InProgress
    ensures r == "Conclu\U{ED}da" <==> s == ServiceOrders.Completed
    ensures r == "Cancelada" <==> s == ServiceOrders.Cancelled
  {
    match s
    case Scheduled => "Agendada"
    case InProgress => "Em andamento"
    case Completed => "Conclu\U{ED}da"
    case Cancelled => "Cancelada"
  }

  /** A new service order: one unread notification goes in front, the rest follow unchanged. */
  function OnInsert(prev: seq<Notification>, row: OrderRow, id: string, now: string): (r: seq<Notification>)
    ensures |r| == |prev| + 1 && r[1..] == prev
    ensures !r[0].read && r[0].kind == ServiceOrder && r[0].id == id
    ensures r[0].link == OrderLink(row)
  {
    [Notification(id, ServiceOrder, "Nova OS agendada", row.title + " para " + row.scheduledDate, now, false, OrderLink(row))]
      + prev
  }

  /** An updated service order: a notification is prepended only when its status changed. */
  function OnUpdate(prev: seq<Notification>, oldRow: OrderRow, newRow: OrderRow, id: string, now: string): (r: seq<Notification>)
    ensures oldRow.status == newRow.status ==> r == prev
    ensures oldRow.status != newRow.status ==> |r| == |prev| + 1 && r[1..] == prev
    ensures oldRow.status != newRow.status ==>
      !r[0].read && r[0].description == "Status: " + StatusLabel(newRow.status) && r[0].link == OrderLink(newRow)
  {
    if oldRow.status != newRow.status then
      [Notification(id, ServiceOrder, "OS " + newRow.orderNumber + " atualizada", "Status: " + StatusLabel(newRow.status),
                    now, false, OrderLink(newRow))]
        + prev
    else prev
  }

  predicate IsUnread(n: Notification) {
    !n.read
  }

  function UnreadCount(ns: seq<Notification>): (r: nat)
    ensures r <= |ns|
    ensures r == 0 <==> forall i :: 0 <= i < |ns| ==> ns[i].read
  {
    var unread := Seqs.Filter(IsUnread, ns);
    assert (|unread| == 0 <==> forall i :: 0 <= i < |ns| ==> ns[i].read) by {
      if |unread| > 0 {
        assert unread[0] in unread;
      } else {
        forall i | 0 <= i < |ns|
          ensures ns[i].read
        {
          assert ns[i] !in unread;
        }
      }
    }
    |unread|
  }

  /** Every event handler adds exactly one unread notification or none. */
  lemma PrependCountsUnread(n: Notification, prev: seq<Notification>)
    ensures UnreadCount([n] + prev) == UnreadCount(prev) + (if n.read then 0 else 1)
  {
    Seqs.FilterAppend(IsUnread, [n], prev);
  }

  function MarkAsRead(ns: seq<Notification>, id: string): (r: seq<Notification>)
    ensures |r| == |ns|
    ensures forall i :: 0 <= i < |ns| ==> r[i] == (if ns[i].id == id then ns[i].(read := true) else ns[i])
  {
    Seqs.UpdateWhere(ns, (n: Notification) => n.id == id, (n: Notification) => n.(read := true))
  }

  lemma MarkAsReadIdempotent(ns: seq<Notification>, id: string)
    ensures MarkAsRead(MarkAsRead(ns, id), id) == MarkAsRead(ns, id)
  {
    var once := MarkAsRead(ns, id);
    var twice := MarkAsRead(once, id);
    assert forall i :: 0 <= i < |ns| ==> twice[i] == once[i];
  }

  /** After marking `id` read, the unread ones are exactly the previously unread ones with another id. */
  lemma {:induction false} MarkAsReadUnread(ns: seq<Notification>, id: string)
    ensures UnreadCount(MarkAsRead(ns, id)) == |Seqs.Filter((n: Notification) => !n.read && n.id != id, ns)|
    ensures UnreadCount(MarkAsRead(ns, id)) <= UnreadCount(ns)
    decreases |ns|
  {
    if |ns| > 0 {
      var tail := MarkAsRead(ns[1..], id);
      assert MarkAsRead(ns, id) == [MarkAsRead(ns, id)[0]] + tail;
      Seqs.FilterAppend(IsUnread, [MarkAsRead(ns, id)[0]], tail);
      assert ns == [ns[0]] + ns[1..];
      Seqs.FilterAppend(IsUnread, [ns[0]], ns[1..]);
      Seqs.FilterAppend((n: Notification) => !n.read && n.id != id, [ns[0]], ns[1..]);
      MarkAsReadUnread(ns[1..], id);
    }
  }

  function MarkAllAsRead(ns: seq<Notification>): (r: seq<Notification>)
    ensures |r| == |ns|
    ensures forall i :: 0 <= i < |ns| ==> r[i] == ns[i].(read := true)
    ensures UnreadCount(r) == 0
  {
    Seqs.UpdateWhere(ns, (n: Notification) => true, (n: Notification) => n.(read := true))
  }

  function Clear(ns: seq<Notification>): (r: seq<Notification>)
    ensures r == [] && UnreadCount(r) == 0
  {
    []
  }

  // ------------------------------------------------------------- inbox runs

  /** What can happen to the inbox: the two realtime handlers and the three inbox actions. */
  datatype Event =
    | Inserted(row: OrderRow, id: string, now: string)
    | Updated(oldRow: OrderRow, newRow: OrderRow, id: string, now: string)
    | MarkedRead(id: string)
    | MarkedAllRead
    | Cleared

  function Handle(ns: seq<Notification>, e: Event): seq<Notification> {
    match e
    case Inserted(row, id, now) => OnInsert(ns, row, id, now)
    case Updated(oldRow, newRow, id, now) => OnUpdate(ns, oldRow, newRow, id, now)
    case MarkedRead(id) => MarkAsRead(ns, id)
    case MarkedAllRead => MarkAllAsRead(ns)
    case Cleared => Clear(ns)
  }

  function Run(ns: seq<Notification>, events: seq<Event>): seq<Notification>
    decreases |events|
  {
    if |events| == 0 then ns else Run(Handle(ns, events[0]), events[1..])
  }

  /** How many notifications an event prepends: one per insert and per status change. */
  function Arrival(e: Event): nat {
    if e.Inserted? || (e.Updated? && e.oldRow.status != e.newRow.status) then 1 else 0
  }

  function Arrivals(events: seq<Event>): nat
    decreases |events|
  {
    if |events| == 0 then 0 else Arrival(events[0]) + Arrivals(events[1..])
  }

  /** Realtime events only: nothing is marked read or cleared. */
  predicate Incoming(e: Event) {
    e.Inserted? || e.Updated?
  }

  /** One event adds to the unread count at most what it prepends, and exactly that when it is incoming. */
  lemma HandleUnread(ns: seq<Notification>, e: Event)
    ensures UnreadCount(Handle(ns, e)) <= UnreadCount(ns) + Arrival(e)
    ensures Incoming(e) ==> UnreadCount(Handle(ns, e)) == UnreadCount(ns) + Arrival(e)
  {
    match e
    case Inserted(row, id, now) =>
      var r := OnInsert(ns, row, id, now);
      assert r == [r[0]] + ns;
      PrependCountsUnread(r[0], ns);
    case Updated(oldRow, newRow, id, now) =>
      var r := OnUpdate(ns, oldRow, newRow, id, now);
      if oldRow.status != newRow.status {
        assert r == [r[0]] + ns;
        PrependCountsUnread(r[0], ns);
      }
    case MarkedRead(id) =>
      MarkAsReadUnread(ns, id);
    case MarkedAllRead =>
    case Cleared =>
  }

  /**
   * Over any run of events, the unread count grows by at most the number
   * of notifications prepended, and by exactly that many when only
   * realtime events arrive.
   */
  lemma {:induction false} RunUnread(ns: seq<Notification>, events: seq<Event>)
    ensures UnreadCount(Run(ns, events)) <= UnreadCount(ns) + Arrivals(events)
    ensures (forall j :: 0 <= j < |events| ==> Incoming(events[j])) ==>
      UnreadCount(Run(ns, events)) == UnreadCount(ns) + Arrivals(events)
    decreases |events|
  {
    if |events| > 0 {
      HandleUnread(ns, events[0]);
      RunUnread(Handle(ns, events[0]), events[1..]);
      assert forall j :: 0 <= j < |events[1..]| ==> events[1..][j] == events[j + 1];
    }
  }

  /**
   * After clearing the inbox, the unread count is at most the number of
   * notifications prepended since, and exactly that number while only
   * realtime events arrive.
   */
  lemma ClearThenRun(ns: seq<Notification>, events: seq<Event>)
    ensures Run(ns, [Cleared] + events) == Run([], events)
    ensures UnreadCount(Run(ns, [Cleared] + events)) <= Arrivals(events)
    ensures (forall j :: 0 <= j < |events| ==> Incoming(events[j])) ==>
      UnreadCount(Run(ns, [Cleared] + events)) == Arrivals(events)
  {
    assert ([Cleared] + events)[1..] == events;
    RunUnread([], events);
  }
}
