/**
 * The services catalogue: the active switch on each service, and the
 * lookup by id the quote form uses when a service is picked for a line.
 */
module Catalog {
  import opened Optional
  import Seqs

  datatype Service = Service(id: string, name: string, unitPrice: real, isActive: bool)

  /** The outcome of flipping a service's switch: the flag sent to the backend and the list shown afterwards. */
  datatype ToggleResult = ToggleResult(sent: bool, services: seq<Service>)

  /**
   * Flipping the switch of `service`. The update sent is the negation of the
   * flag the row was rendered with; on success every listed service with
   * that id has its own flag flipped, and on error the list stays.
   */
  function ToggleActive(services: seq<Service>, service: Service, success: bool): (r: ToggleResult)
    ensures r.sent == !service.isActive
    ensures !success ==> r.services == services
    ensures |r.services| == |services|
    ensures forall i :: 0 <= i < |services| ==>
      r.services[i] == (if success && services[i].id == service.id then services[i].(isActive := !services[i].isActive) else services[i])
  {
    var shown := if success
      then Seqs.UpdateWhere(services, (s: Service) => s.id == service.id, (s: Service) => s.(isActive := !s.isActive))
      else services;
    ToggleResult(!service.isActive, shown)
  }

  /** Two successful flips of the same service restore the list. */
  lemma ToggleTwice(services: seq<Service>, service: Service)
    ensures ToggleActive(ToggleActive(services, service, true).services, service, true).services == services
  {
    var r := ToggleActive(ToggleActive(services, service, true).services, service, true).services;
    assert forall i :: 0 <= i < |services| ==> r[i] == services[i];
  }

  /** When the row shows the listed state, the flag shown after a successful flip is the flag that was sent. */
  lemma ToggleShowsSent(services: seq<Service>, i: nat)
    requires i < |services|
    ensures ToggleActive(services, services[i], true).services[i].isActive == ToggleActive(services, services[i], true).sent
  {
  }

  /** Position `k` holds the first service with id `id`. */
  predicate IsFirstWithId(services: seq<Service>, id: string, k: int) {
    0 <= k < |services| && services[k].id == id && forall j :: 0 <= j < k ==> services[j].id != id
  }

  /** `services.find(s => s.id === id)`: the first service with that id. */
  function Find(services: seq<Service>, id: string): (r: Option<Service>)
    ensures r.None? <==> forall i :: 0 <= i < |services| ==> services[i].id != id
    ensures r.Some? ==> exists k :: IsFirstWithId(services, id, k) && services[k] == r.value
    decreases |services|
  {
    if |services| == 0 then None
    else if services[0].id == id then Some(services[0])
    else
      var r := Find(services[1..], id);
      assert r.Some? ==> exists k :: IsFirstWithId(services, id, k) && services[k] == r.value by {
        if r.Some? {
          var k :| IsFirstWithId(services[1..], id, k) && services[1..][k] == r.value;
          assert IsFirstWithId(services, id, k + 1);
        }
      }
      r
  }
}
