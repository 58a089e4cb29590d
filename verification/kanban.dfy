/**
 * The sales-pipeline board: leads grouped into one column per pipeline
 * stage, moved between stages by drag and drop, deleted after a
 * confirmation, and contacted through a pre-filled WhatsApp link.
 * Each backend write is reduced to the `success` flag of its response.
 */
module Kanban {
  import opened Optional
  import Seqs
  import Text

  datatype Stage = Stage(id: string, name: string, order: int, color: string)

  datatype Client = Client(name: string, phone: Option<string>)

  datatype Lead = Lead(id: string, stageId: string, title: string, visitDate: Option<string>, client: Option<Client>)

  datatype Toast = Toast(title: string, description: string, destructive: bool)

  /** The board's state: the loaded stages and leads, and the lead being dragged, if any. */
  datatype Board = Board(stages: seq<Stage>, leads: seq<Lead>, dragged: Option<Lead>)

  /** The single update a drop sends: set the lead's stage. */
  datatype MoveRequest = MoveRequest(leadId: string, stageId: string)

  datatype DropResult = DropResult(board: Board, request: Option<MoveRequest>, toast: Option<Toast>)

  datatype DeleteResult = DeleteResult(leads: seq<Lead>, requested: bool, toast: Option<Toast>)

  // -------------------------------------------------------------- columns

  /** The column of one stage: the leads tagged with it, in load order. */
  function Column(leads: seq<Lead>, stageId: string): (r: seq<Lead>)
    ensures Seqs.IsSubsequence(r, leads)
    ensures forall l :: l in r <==> l in leads && l.stageId == stageId
  {
    Seqs.Filter((l: Lead) => l.stageId == stageId, leads)
  }

  predicate DistinctStageIds(stages: seq<Stage>) {
    forall i, j :: 0 <= i < j < |stages| ==> stages[i].id != stages[j].id
  }

  /**
   * With distinct stage ids, a lead tagged with the id of stage `k` appears
   * in column `k` and in no other column.
   */
  lemma ExactlyOneColumn(stages: seq<Stage>, leads: seq<Lead>, lead: Lead, k: int)
    requires DistinctStageIds(stages)
    requires lead in leads
    requires 0 <= k < |stages| && lead.stageId == stages[k].id
    ensures forall j :: 0 <= j < |stages| ==> (lead in Column(leads, stages[j].id) <==> j == k)
  {
    var i :| 0 <= i < |leads| && leads[i] == lead;
    assert lead in Column(leads, stages[k].id);
  }

  /** A lead whose stage is not among the loaded stages is shown in no column. */
  lemma UnknownStageHidden(stages: seq<Stage>, leads: seq<Lead>, lead: Lead)
    requires forall j :: 0 <= j < |stages| ==> stages[j].id != lead.stageId
    ensures forall j :: 0 <= j < |stages| ==> lead !in Column(leads, stages[j].id)
  {
  }

  // ---------------------------------------------------------------- drops

  function DragStart(b: Board, lead: Lead): (r: Board)
    ensures r.dragged == Some(lead) && r.leads == b.leads && r.stages == b.stages
  {
    b.(dragged := Some(lead))
  }

  /** `stages.find(s => s.id === id)`: the first stage with that id. */
  function FindStage(stages: seq<Stage>, id: string): (r: Option<Stage>)
    ensures r.None? <==> forall i :: 0 <= i < |stages| ==> stages[i].id != id
    ensures r.Some? ==> r.value.id == id
    ensures r.Some? ==> exists k :: 0 <= k < |stages| && stages[k] == r.value && (forall j :: 0 <= j < k ==> stages[j].id != id)
  {
    if |stages| == 0 then None
    else if stages[0].id == id then Some(stages[0])
    else
      var r := FindStage(stages[1..], id);
      if r.Some? then
        ghost var k :| 0 <= k < |stages[1..]| && stages[1..][k] == r.value && (forall j :: 0 <= j < k ==> stages[1..][j].id != id);
        assert stages[k + 1] == r.value;
        r
      else r
  }

  /** The stage named in the success toast: the target's name, or "Nova etapa" when it is unknown or blank. */
  function TargetName(stages: seq<Stage>, stageId: string): (name: string)
    ensures name != ""
    ensures FindStage(stages, stageId).Some? && FindStage(stages, stageId).value.name != "" ==>
      name == FindStage(stages, stageId).value.name
    ensures FindStage(stages, stageId).None? ==> name == "Nova etapa"
  {
    match FindStage(stages, stageId)
    case Some(s) => if s.name != "" then s.name else "Nova etapa"
    case None => "Nova etapa"
  }

  function MovedToast(stageName: string): Toast {
    Toast("Lead movido", "Lead atualizado para \"" + stageName + "\".", false)
  }

  const MoveFailedToast := Toast("Erro ao mover lead", "N\U{E3}o foi poss\U{ED}vel atualizar a etapa. Tente novamente.", true)

  /** The drop guard: a lead is being dragged and the target is not its current stage. */
  predicate WillMove(b: Board, stageId: string) {
    b.dragged.Some? && b.dragged.value.stageId != stageId
  }

  /**
   * Dropping onto a stage column. Without a dragged lead, or onto the
   * dragged lead's own stage, nothing is sent and nothing changes. Otherwise
   * one update is sent; on success every lead with the dragged lead's id
   * takes the target stage and a toast names it, on failure the list stays
   * as it was. The drag state is cleared in every case.
   */
  function Drop(b: Board, stageId: string, success: bool): (r: DropResult)
    ensures r.board.dragged.None? && r.board.stages == b.stages
    ensures !WillMove(b, stageId) ==> r.request.None? && r.toast.None? && r.board.leads == b.leads
    ensures WillMove(b, stageId) ==> r.request == Some(MoveRequest(b.dragged.value.id, stageId))
    ensures WillMove(b, stageId) && !success ==> r.board.leads == b.leads && r.toast == Some(MoveFailedToast)
    ensures WillMove(b, stageId) && success ==>
      && |r.board.leads| == |b.leads|
      && (forall i :: 0 <= i < |b.leads| && b.leads[i].id == b.dragged.value.id ==>
            r.board.leads[i] == b.leads[i].(stageId := stageId))
      && (forall i :: 0 <= i < |b.leads| && b.leads[i].id != b.dragged.value.id ==> r.board.leads[i] == b.leads[i])
      && r.toast == Some(MovedToast(TargetName(b.stages, stageId)))
  {
    if !WillMove(b, stageId) then DropResult(b.(dragged := None), None, None)
    else
      var id := b.dragged.value.id;
      var request := Some(MoveRequest(id, stageId));
      if success then
        var moved := Seqs.UpdateWhere(b.leads, (l: Lead) => l.id == id, (l: Lead) => l.(stageId := stageId));
        DropResult(Board(b.stages, moved, None), request, Some(MovedToast(TargetName(b.stages, stageId))))
      else
        DropResult(b.(dragged := None), request, Some(MoveFailedToast))
  }

  predicate UniqueLeadIds(leads: seq<Lead>) {
    forall i, j :: 0 <= i < j < |leads| ==> leads[i].id != leads[j].id
  }

  /**
   * After a successful move of lead `i` to another stage, it sits in the
   * target column and in no other, and every other lead keeps its column.
   */
  lemma MoveChangesOnlyTheDraggedColumn(b: Board, stageId: string, i: int)
    requires WillMove(b, stageId) && UniqueLeadIds(b.leads)
    requires 0 <= i < |b.leads| && b.leads[i].id == b.dragged.value.id
    ensures var after := Drop(b, stageId, true).board.leads;
      && b.leads[i].(stageId := stageId) in Column(after, stageId)
      && (forall s: string :: s != stageId ==> forall l :: l in Column(after, s) ==> l.id != b.dragged.value.id)
      && (forall s: string, l: Lead :: l.id != b.dragged.value.id ==> (l in Column(after, s) <==> l in Column(b.leads, s)))
  {
    var after := Drop(b, stageId, true).board.leads;
    assert after[i] == b.leads[i].(stageId := stageId);
    forall s: string, l: Lead | l.id != b.dragged.value.id
      ensures l in Column(after, s) <==> l in Column(b.leads, s)
    {
      if l in Column(after, s) {
        var j :| 0 <= j < |after| && after[j] == l;
        assert b.leads[j] == l;
      }
      if l in Column(b.leads, s) {
        var j :| 0 <= j < |b.leads| && b.leads[j] == l;
        assert after[j] == l;
      }
    }
    forall s: string, l: Lead | s != stageId && l in Column(after, s)
      ensures l.id != b.dragged.value.id
    {
      var j :| 0 <= j < |after| && after[j] == l;
    }
  }

  /**
   * Dragging a listed lead and dropping it onto another stage, with a
   * successful update: the request names that lead and the target, exactly
   * that lead takes the target stage, and the drag is over.
   */
  lemma DragThenDrop(b: Board, lead: Lead, stageId: string)
    requires UniqueLeadIds(b.leads) && lead in b.leads && lead.stageId != stageId
    ensures var r := Drop(DragStart(b, lead), stageId, true);
      && r.board.dragged.None?
      && r.request == Some(MoveRequest(lead.id, stageId))
      && |r.board.leads| == |b.leads|
      && forall i :: 0 <= i < |b.leads| ==>
           r.board.leads[i] == (if b.leads[i] == lead then lead.(stageId := stageId) else b.leads[i])
  {
    var r := Drop(DragStart(b, lead), stageId, true);
    var k :| 0 <= k < |b.leads| && b.leads[k] == lead;
    forall i | 0 <= i < |b.leads|
      ensures r.board.leads[i] == (if b.leads[i] == lead then lead.(stageId := stageId) else b.leads[i])
    {
      if b.leads[i].id == lead.id && i != k {
        assert false;
      }
    }
  }

  /** A concrete move: lead "Jardim A" goes from "Novo" to "Visita Agendada". */
  lemma DropScenario()
    ensures var l1 := Lead("l1", "s1", "Jardim A", None, None);
      var b := Board([Stage("s1", "Novo", 0, ""), Stage("s2", "Visita Agendada", 1, "")], [l1], None);
      && Column(b.leads, "s1") == [l1] && Column(b.leads, "s2") == []
      && var r := Drop(DragStart(b, l1), "s2", true);
      && Column(r.board.leads, "s1") == [] && Column(r.board.leads, "s2") == [l1.(stageId := "s2")]
      && r.toast == Some(MovedToast("Visita Agendada"))
  {
    var l1 := Lead("l1", "s1", "Jardim A", None, None);
    var stages := [Stage("s1", "Novo", 0, ""), Stage("s2", "Visita Agendada", 1, "")];
    var b := Board(stages, [l1], None);
    var r := Drop(DragStart(b, l1), "s2", true);
    assert r.board.leads == [l1.(stageId := "s2")];
    assert FindStage(stages, "s2") == Some(stages[1]) by {
      assert stages[1..] == [stages[1]];
    }
  }

  // ------------------------------------------------------------- deletion

  const DeletedToast := Toast("Lead exclu\U{ED}do", "O lead foi removido com sucesso.", false)

  const DeleteFailedToast := Toast("Erro ao excluir lead", "N\U{E3}o foi poss\U{ED}vel excluir o lead. Tente novamente.", true)

  /** Leads other than `leadId`, in order. */
  function Without(leads: seq<Lead>, leadId: string): (r: seq<Lead>)
    ensures Seqs.IsSubsequence(r, leads)
    ensures forall l :: l in r <==> l in leads && l.id != leadId
  {
    Seqs.Filter((l: Lead) => l.id != leadId, leads)
  }

  /**
   * Deleting a lead. A declined confirmation sends nothing; otherwise a
   * delete is sent, and only its success removes the lead from the list.
   */
  function Delete(leads: seq<Lead>, leadId: string, confirmed: bool, success: bool): (r: DeleteResult)
    ensures r.requested <==> confirmed
    ensures !confirmed ==> r.leads == leads && r.toast.None?
    ensures confirmed && success ==> r.leads == Without(leads, leadId) && r.toast == Some(DeletedToast)
    ensures confirmed && !success ==> r.leads == leads && r.toast == Some(DeleteFailedToast)
  {
    if !confirmed then DeleteResult(leads, false, None)
    else if success then DeleteResult(Without(leads, leadId), true, Some(DeletedToast))
    else DeleteResult(leads, true, Some(DeleteFailedToast))
  }

  /** A successful delete removes the lead from every column and leaves each column otherwise as it was. */
  lemma DeleteClearsEveryColumn(leads: seq<Lead>, leadId: string, stageId: string)
    ensures Column(Delete(leads, leadId, true, true).leads, stageId) == Without(Column(leads, stageId), leadId)
  {
    Seqs.FilterCommutes((l: Lead) => l.stageId == stageId, (l: Lead) => l.id != leadId, leads);
  }

  // -------------------------------------------------------- contact link

  const Greeting := "Ol\U{E1}! Aqui \U{E9} da Guaimb\U{EA}s Paisagismo. "

  /** The visit date phrase: the formatted visit date, or "em breve" when none is set. */
  function VisitPhrase(visitDate: Option<string>, formatVisit: string -> string): string {
    if visitDate.Some? && visitDate.value != "" then formatVisit(visitDate.value) else "em breve"
  }

  function VisitTemplate(phrase: string): string {
    Greeting + "Confirmamos sua visita t\U{E9}cnica agendada para " + phrase
    + ". Qualquer d\U{FA}vida, estamos \U{E0} disposi\U{E7}\U{E3}o!"
  }

  function QuoteTemplate(title: string): string {
    Greeting + "Enviamos o or\U{E7}amento para o projeto \"" + title
    + "\". Ficamos \U{E0} disposi\U{E7}\U{E3}o para esclarecer qualquer d\U{FA}vida!"
  }

  function GenericTemplate(title: string): string {
    Greeting + "Entramos em contato sobre \"" + title + "\"."
  }

  const VisitStageName := "Visita Agendada"

  const QuoteStageName := "Or\U{E7}amento Enviado"

  /**
   * The pre-filled message, chosen by the stage's name. Every message opens
   * with the company greeting; the quote and generic messages name the lead.
   * `formatVisit` stands for the date formatting of the visit timestamp.
   */
  function WhatsAppMessage(lead: Lead, stage: Stage, formatVisit: string -> string): (m: string)
    ensures Greeting <= m
    ensures stage.name == VisitStageName ==> m == VisitTemplate(VisitPhrase(lead.visitDate, formatVisit))
    ensures stage.name == QuoteStageName ==> m == QuoteTemplate(lead.title)
    ensures stage.name != VisitStageName && stage.name != QuoteStageName ==> m == GenericTemplate(lead.title)
    ensures stage.name != VisitStageName ==> Text.Contains(m, lead.title)
  {
    if stage.name == VisitStageName then
      VisitTemplate(VisitPhrase(lead.visitDate, formatVisit))
    else if stage.name == QuoteStageName then
      Text.ContainsInfix(Greeting + "Enviamos o or\U{E7}amento para o projeto \"", lead.title,
        "\". Ficamos \U{E0} disposi\U{E7}\U{E3}o para esclarecer qualquer d\U{FA}vida!");
      QuoteTemplate(lead.title)
    else
      Text.ContainsInfix(Greeting + "Entramos em contato sobre \"", lead.title, "\".");
      GenericTemplate(lead.title)
  }

  /** The client's phone when there is one to call: a client with a non-empty phone. */
  function ContactPhone(lead: Lead): (p: Option<string>)
    ensures p.Some? <==> lead.client.Some? && lead.client.value.phone.Some? && lead.client.value.phone.value != ""
    ensures p.Some? ==> p == lead.client.value.phone
  {
    match lead.client
    case Some(c) => if c.phone.Some? && c.phone.value != "" then c.phone else None
    case None => None
  }

  /** The phone part of the link: country code 55 followed by the phone's digits only. */
  function PhoneSegment(phone: string): (r: string)
    ensures "55" <= r
    ensures forall i :: 0 <= i < |r| ==> Text.IsDigit(r[i])
    ensures r[2..] == Text.Digits(phone)
  {
    "55" + Text.Digits(phone)
  }

  /**
   * A phone written as "(DDD) XXXXX-XXXX" gives "55" followed by its digit
   * groups: for "(37) 99999-0000" the segment is "5537999990000".
   */
  lemma FormattedPhoneSegment(ddd: string, first: string, last: string)
    requires forall i :: 0 <= i < |ddd| ==> Text.IsDigit(ddd[i])
    requires forall i :: 0 <= i < |first| ==> Text.IsDigit(first[i])
    requires forall i :: 0 <= i < |last| ==> Text.IsDigit(last[i])
    ensures PhoneSegment("(" + ddd + ") " + first + "-" + last) == "55" + ddd + first + last
  {
    var p1 := "(" + ddd;
    assert Text.Digits(p1) == ddd by {
      Text.DigitsAppend("(", ddd);
      Text.DigitsOfNonDigits("(");
      Text.DigitsOfDigits(ddd);
    }
    var p2 := p1 + ") ";
    assert Text.Digits(p2) == ddd by {
      Text.DigitsAppend(p1, ") ");
      Text.DigitsOfNonDigits(") ");
    }
    var p3 := p2 + first;
    assert Text.Digits(p3) == ddd + first by {
      Text.DigitsAppend(p2, first);
      Text.DigitsOfDigits(first);
    }
    var p4 := p3 + "-";
    assert Text.Digits(p4) == ddd + first by {
      Text.DigitsAppend(p3, "-");
      Text.DigitsOfNonDigits("-");
    }
    var p5 := p4 + last;
    assert Text.Digits(p5) == ddd + first + last by {
      Text.DigitsAppend(p4, last);
      Text.DigitsOfDigits(last);
    }
    assert p5 == "(" + ddd + ") " + first + "-" + last;
    var r := PhoneSegment(p5);
    assert r == r[..2] + r[2..];
  }

  lemma PhoneSegmentExample()
    ensures PhoneSegment("(37) 99999-0000") == "5537999990000"
  {
    var ddd, first, last := "37", "99999", "0000";
    assert "(37) 99999-0000" == "(" + ddd + ") " + first + "-" + last;
    assert "5537999990000" == "55" + ddd + first + last;
    FormattedPhoneSegment(ddd, first, last);
  }

  const LinkPrefix := "https://wa.me/"

  const TextParameter := "?text="

  /** The phone a wa.me link dials: the digits right after the prefix. */
  function LinkPhone(link: string): Option<string> {
    if LinkPrefix <= link then
      var rest := link[|LinkPrefix|..];
      Some(rest[..Text.PrefixWhile(Text.IsDigit, rest)])
    else None
  }

  /** The pre-filled text of a wa.me link: what follows "?text=" after the phone digits. */
  function LinkText(link: string): Option<string> {
    if LinkPrefix <= link then
      var rest := link[|LinkPrefix|..];
      var k := Text.PrefixWhile(Text.IsDigit, rest);
      if TextParameter <= rest[k..] then Some(rest[k + |TextParameter|..]) else None
    else None
  }

  /** A link built from an all-digit phone and a text gives both back. */
  lemma LinkParsesBack(phone: string, text: string)
    requires forall i :: 0 <= i < |phone| ==> Text.IsDigit(phone[i])
    ensures LinkPhone(LinkPrefix + phone + TextParameter + text) == Some(phone)
    ensures LinkText(LinkPrefix + phone + TextParameter + text) == Some(text)
  {
    var link := LinkPrefix + phone + TextParameter + text;
    var rest := link[|LinkPrefix|..];
    assert rest == phone + (TextParameter + text);
    Text.PrefixWhileAll(Text.IsDigit, phone);
    Text.PrefixWhileStops(Text.IsDigit, phone, TextParameter + text);
    assert rest[..|phone|] == phone;
    assert rest[|phone|..] == TextParameter + text;
  }

  /**
   * The WhatsApp deep link, offered only when the client has a phone.
   * `encode` stands for `encodeURIComponent`. Read back, the link dials
   * "55" and the phone's digits and carries the encoded message.
   */
  function WhatsAppLink(lead: Lead, stage: Stage, formatVisit: string -> string, encode: string -> string): (r: Option<string>)
    ensures r.None? <==> ContactPhone(lead).None?
    ensures r.Some? ==> LinkPrefix + "55" <= r.value
    ensures r.Some? ==> LinkPhone(r.value) == Some(PhoneSegment(ContactPhone(lead).value))
    ensures r.Some? ==> LinkText(r.value) == Some(encode(WhatsAppMessage(lead, stage, formatVisit)))
  {
    match ContactPhone(lead)
    case None => None
    case Some(phone) =>
      var segment := PhoneSegment(phone);
      var text := encode(WhatsAppMessage(lead, stage, formatVisit));
      LinkParsesBack(segment, text);
      assert (LinkPrefix + segment + TextParameter + text)[..|LinkPrefix| + 2] == LinkPrefix + "55";
      Some(LinkPrefix + segment + TextParameter + text)
  }
}
