/**
 * The detail-panel selection kept in the session (app-3.py lines 156-157,
 * 172, 183-190 and 218-219): the email of the selected agent, or nothing.
 */
module Selection {
  import opened Wrappers
  import opened Agents

  /** The key a card's "Ver detalle" button toggles: `agent.get("email", "")`. */
  function CardKey(a: Agent): (k: string)
    ensures a.email.Some? ==> k == a.email.value
    ensures a.email.None? ==> k == ""
  {
    a.email.GetOr("")
  }

  /** Pressing a card's button: closes the panel if `key` is selected, else selects it. */
  function Toggle(sel: Option<string>, key: string): (r: Option<string>)
    ensures r.None? <==> sel == Some(key)
    ensures r.Some? ==> r.value == key
  {
    if sel == Some(key) then None else Some(key)
  }

  /** Pressing "Cerrar panel". */
  function Close(sel: Option<string>): (r: Option<string>)
    ensures r.None?
  {
    None
  }

  /** Pressing the same card twice restores the state before the first press. */
  lemma ToggleTwice(sel: Option<string>, key: string)
    requires sel.None? || sel == Some(key)
    ensures Toggle(Toggle(sel, key), key) == sel
  {
  }

  /**
   * `next((a for a in agents if a.get("email") == selected), None)`: the
   * first agent whose email is the selected key. The lookup is only made
   * while something is selected.
   */
  function Resolve(agents: seq<Agent>, sel: Option<string>): (r: Option<Agent>)
    ensures sel.None? ==> r.None?
    ensures r.Some? ==> exists i :: (&& 0 <= i < |agents|
                                     && agents[i] == r.value
                                     && agents[i].email == sel
                                     && forall j :: 0 <= j < i ==> agents[j].email != sel)
    ensures r.None? && sel.Some? ==> forall i :: 0 <= i < |agents| ==> agents[i].email != sel
  {
    if sel.None? || agents == [] then None
    else if agents[0].email == sel then Some(agents[0])
    else
      var r := Resolve(agents[1..], sel);
      if r.Some? then
        ghost var i :| (&& 0 <= i < |agents[1..]|
                        && agents[1..][i] == r.value
                        && agents[1..][i].email == sel
                        && forall j :: 0 <= j < i ==> agents[1..][j].email != sel);
        assert agents[i + 1] == r.value;
        r
      else r
  }

  /**
   * An agent whose feed record has no email can never be shown in the
   * panel: its button selects "", and lookup compares against the missing
   * value, which is never equal to a string.
   */
  lemma NoEmailNeverResolved(agents: seq<Agent>, sel: Option<string>, a: Agent)
    requires a.email.None?
    ensures Resolve(agents, Toggle(sel, CardKey(a))) != Some(a)
    ensures Resolve(agents, sel) != Some(a)
  {
  }
}
