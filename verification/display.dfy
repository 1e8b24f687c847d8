/**
 * The fallbacks of the agent cards and the detail panel (app-3.py lines
 * 10-15, 101, 168-177, 192-193 and 215). Layout and markup are not modelled.
 */
module Display {
  import opened Wrappers
  import opened Agents
  import opened Text

  /** One entry of the status configuration table. */
  datatype StatusStyle = StatusStyle(caption: string, icon: string, color: string)

  const StatusConfig: map<string, StatusStyle> := map[
    "available" := StatusStyle("Disponible", "\U{1F7E2}", "#22c55e"),
    "on_call" := StatusStyle("En llamada", "\U{1F4DE}", "#f59e0b"),
    "busy" := StatusStyle("Atendiendo ticket", "\U{1F535}", "#3b82f6"),
    "away" := StatusStyle("Fuera de escritorio", "\U{1F534}", "#ef4444")]

  /**
   * `STATUS_CONFIG.get(agent.get("status", "away"), STATUS_CONFIG["away"])`:
   * a recognised status gets its own entry, anything else the `away` entry.
   */
  function StyleFor(s: FeedStatus): (st: StatusStyle)
    ensures s.Recognised() ==> RawOf(s).value in StatusConfig && st == StatusConfig[RawOf(s).value]
    ensures !s.Recognised() ==> st == StatusConfig["away"]
  {
    var key := RawOf(s).GetOr("away");
    if key in StatusConfig then StatusConfig[key] else StatusConfig["away"]
  }

  /** The configuration covers exactly the statuses of the sort order. */
  lemma StatusConfigCoversOrder()
    ensures StatusConfig.Keys == set s | s in StatusOrder
  {
  }

  /**
   * Missing and unrecognised statuses render exactly like `away`, although
   * they sort after it and are not counted as away.
   */
  lemma UnrecognisedLooksAway(s: FeedStatus)
    requires !s.Recognised()
    ensures StyleFor(s) == StyleFor(Away)
  {
  }

  /** The ticket badge: the count when above zero, nothing otherwise (missing reads as 0). */
  function TicketBadge(a: Agent): (b: Option<int>)
    ensures b.Some? <==> a.openTicketsCount.Some? && a.openTicketsCount.value > 0
    ensures b.Some? ==> b.value == a.openTicketsCount.value
  {
    var count := a.openTicketsCount.GetOr(0);
    if count > 0 then Some(count) else None
  }

  /** The label used for a ticket whose type is missing or empty. */
  const DefaultTicketLabel: string := "TICKET"

  /** `(t.get('type') or 'TICKET').upper()`: an empty type is falsy too. */
  function TicketLabel(t: Ticket): (l: string)
    ensures t.kind.None? || t.kind == Some("") ==> l == DefaultTicketLabel
    ensures t.kind.Some? && t.kind.value != "" ==> |l| == |t.kind.value|
    ensures t.kind.Some? && t.kind.value != "" ==> l == Upper(t.kind.value)
    ensures forall i :: 0 <= i < |l| ==> !IsLowerAscii(l[i])
  {
    match t.kind
    case Some(k) => if k != "" then Upper(k) else DefaultTicketLabel
    case None => DefaultTicketLabel
  }

  const Amber: string := "#f59e0b"
  const Blue: string := "#3b82f6"

  /** The accent of a ticket's type label: amber exactly for the type "Llamadas". */
  function TicketAccent(t: Ticket): (c: string)
    ensures c == Amber <==> t.kind == Some("Llamadas")
    ensures c != Amber ==> c == Blue
  {
    if t.kind == Some("Llamadas") then Amber else Blue
  }

  /**
   * The accent is decided by the raw type, not by the label shown: "llamadas"
   * and "Llamadas" share the label "LLAMADAS" but only the latter is amber.
   */
  lemma LabelDoesNotDecideAccent()
    ensures var lower, proper := Ticket(None, Some("llamadas"), None), Ticket(None, Some("Llamadas"), None);
      && TicketLabel(lower) == TicketLabel(proper) == "LLAMADAS"
      && TicketAccent(lower) == Blue
      && TicketAccent(proper) == Amber
  {
    var lower, proper := Ticket(None, Some("llamadas"), None), Ticket(None, Some("Llamadas"), None);
    LlamadasUpper();
  }

  lemma LlamadasUpper()
    ensures Upper("llamadas") == "LLAMADAS"
    ensures Upper("Llamadas") == "LLAMADAS"
  {
    assert Upper("llamadas") == "LLAMADAS";
  }

  /** The error box appears only when the error text is present and non-empty. */
  function ShowsError(error: Option<string>): (shown: bool)
    ensures shown <==> error.Some? && |error.value| > 0
  {
    match error
    case Some(e) => e != ""
    case None => false
  }
}
