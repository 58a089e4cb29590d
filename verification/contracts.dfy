/**
 * The contracts list: the status and search filters applied to the
 * fetched contracts, the days left before a contract's end date, and the
 * "expiring soon" flag. The status filter runs as part of the query; it
 * is modelled as the same predicate applied to the fetched rows. Day
 * differences come from a caller-supplied function.
 */
module Contracts {
  import opened Optional
  import Seqs
  import Text

  datatype ContractStatus = Active | Suspended | Cancelled | Expired

  datatype Contract = Contract(
    id: string,
    contractNumber: string,
    title: string,
    clientName: Option<string>,
    status: ContractStatus,
    endDate: Option<string>)

  function StatusKey(s: ContractStatus): string {
    match s
    case Active => "active"
    case Suspended => "suspended"
    case Cancelled => "cancelled"
    case Expired => "expired"
  }

  /** The status badge's label. */
  function StatusLabel(s: ContractStatus): (r: string)
    ensures r == "Ativo" <==> s == Active
    ensures r == "Suspenso" <==> s == Suspended
    ensures r == "Cancelado" <==> s == Cancelled
    ensures r == "Expirado" <==> s == Expired
  {
    match s
    case Active => "Ativo"
    case Suspended => "Suspenso"
    case Cancelled => "Cancelado"
    case Expired => "Expirado"
  }

  /** The client cell: the client's name, or "Sem cliente" when there is none or it is empty. */
  function ClientLabel(c: Contract): (r: string)
    ensures c.clientName.Some? && c.clientName.value != "" ==> r == c.clientName.value
    ensures c.clientName.None? || c.clientName.value == "" ==> r == "Sem cliente"
  {
    if c.clientName.Some? && c.clientName.value != "" then c.clientName.value else "Sem cliente"
  }

  // ----------------------------------------------------------- filters

  predicate MatchesStatus(c: Contract, statusFilter: string) {
    statusFilter == "all" || StatusKey(c.status) == statusFilter
  }

  /** Number, title or client name contains the search, ignoring case. */
  predicate MatchesSearch(c: Contract, search: string) {
    || Text.IncludesIgnoringCase(c.contractNumber, search)
    || Text.IncludesIgnoringCase(c.title, search)
    || (c.clientName.Some? && Text.IncludesIgnoringCase(c.clientName.value, search))
  }

  /** `search ? filtered.filter(...) : filtered`: an empty search keeps every contract. */
  function SearchFilter(contracts: seq<Contract>, search: string): (r: seq<Contract>)
    ensures search == "" ==> r == contracts
    ensures search != "" ==> forall c :: c in r <==> c in contracts && MatchesSearch(c, search)
    ensures Seqs.IsSubsequence(r, contracts)
  {
    if search == "" then
      Seqs.SubsequenceReflexive(contracts);
      contracts
    else Seqs.Filter((c: Contract) => MatchesSearch(c, search), contracts)
  }

  /** Both filters accept the contract. */
  predicate Passes(c: Contract, statusFilter: string, search: string) {
    MatchesStatus(c, statusFilter) && (search == "" || MatchesSearch(c, search))
  }

  /** The list shown: no data counts as none, then the status filter, then the search. */
  function ShownContracts(data: Option<seq<Contract>>, statusFilter: string, search: string): (r: seq<Contract>)
    ensures forall c :: c in r <==> data.Some? && c in data.value && Passes(c, statusFilter, search)
    ensures data.None? ==> r == []
  {
    var fetched := data.GetOr([]);
    SearchFilter(Seqs.Filter((c: Contract) => MatchesStatus(c, statusFilter), fetched), search)
  }

  /** The shown list keeps the fetched order. */
  lemma ShownIsSubsequence(data: seq<Contract>, statusFilter: string, search: string)
    ensures Seqs.IsSubsequence(ShownContracts(Some(data), statusFilter, search), data)
  {
    var byStatus := Seqs.Filter((c: Contract) => MatchesStatus(c, statusFilter), data);
    Seqs.SubsequenceTransitive(ShownContracts(Some(data), statusFilter, search), byStatus, data);
  }

  // ----------------------------------------------------------- expiry

  /** `getDaysUntilExpiry`: no end date (or an empty one) gives no day count. */
  function DaysUntilExpiry(endDate: Option<string>, daysUntil: string -> int): (r: Option<int>)
    ensures r.None? <==> endDate.None? || endDate.value == ""
    ensures r.Some? ==> r.value == daysUntil(endDate.value)
  {
    if endDate.None? || endDate.value == "" then None else Some(daysUntil(endDate.value))
  }

  /** A contract ends within the next 30 days, and not today or earlier. */
  predicate IsExpiringSoon(days: Option<int>) {
    days.Some? && days.value <= 30 && days.value > 0
  }

  /** The "N dias restantes" note appears exactly for an end date 1 to 30 days away; an open-ended contract never shows it. */
  lemma ExpiringSoonExactly(c: Contract, daysUntil: string -> int)
    ensures IsExpiringSoon(DaysUntilExpiry(c.endDate, daysUntil)) <==>
      c.endDate.Some? && c.endDate.value != "" && 0 < daysUntil(c.endDate.value) <= 30
    ensures c.endDate.None? ==> !IsExpiringSoon(DaysUntilExpiry(c.endDate, daysUntil))
  {
  }
}
