/** The selection rule of the game board page
    (frontend/pages/page_definitions/game_board.py): at most one element, named
    by its type and id, is selected; clicking it again with toggling on
    deselects it; any other element becomes the selection. Highlighting is
    recorded as (element, on) pairs; whether an element has a visual is a
    parameter. */
module GameBoards {
  import opened Wrappers
  import BasePages
  import ElementManagers

  type ElementKey = (string, string)

  /** The selection after clicking `key`. */
  function NextSelection(selected: Option<ElementKey>, key: ElementKey, toggle: bool): Option<ElementKey>
  {
    if selected == Some(key) && toggle then None else Some(key)
  }

  /** Clicking the same element twice with toggling on leaves nothing
      selected when it was not selected before, and restores the selection
      when it was; without toggling, clicking is idempotent. */
  lemma SelectTwice(selected: Option<ElementKey>, key: ElementKey)
    ensures NextSelection(NextSelection(selected, key, true), key, true) == (if selected == Some(key) then selected else None)
    ensures NextSelection(NextSelection(selected, key, false), key, false) == NextSelection(selected, key, false)
    ensures NextSelection(selected, key, true).None? <==> selected == Some(key)
    ensures NextSelection(selected, key, false) == Some(key)
  {
  }

  class GameBoard {
    const page: BasePages.Page
    /** `selected_element_id`. */
    var selected: Option<ElementKey>
    /** `ability_panel_id`. */
    var abilityPanelId: Option<string>

    constructor (page: BasePages.Page)
      ensures this.page == page && selected == None && abilityPanelId == None
    {
      this.page := page;
      selected := None;
      abilityPanelId := None;
    }

    /** `_select_element`. The previous selection is looked up and
        un-highlighted first (KeyError when the lookup fails, with nothing
        else changed); then the same element with toggling on is deselected
        and None returned; otherwise the element is looked up (KeyError), is
        highlighted, becomes the selection and is returned. Both lookups go
        through the page's `get_element` as written, which hands type and id
        to the element manager in swapped order. */
    method SelectElement(elementType: string, elementId: string, toggle: bool, hasVisual: ElementManagers.ElementWrapper -> bool)
      returns (r: Result<Option<ElementManagers.ElementWrapper>>, highlights: seq<(ElementManagers.ElementWrapper, bool)>)
      modifies this`selected
      ensures r.Ok? ==> selected == NextSelection(old(selected), (elementType, elementId), toggle)
      ensures r.Err? ==> r.error == KeyError && selected == old(selected)
      ensures old(selected).Some? && page.GetElementAsWritten(old(selected).value.0, old(selected).value.1).Err? ==> r == Err(KeyError) && highlights == []
      ensures old(selected).Some? && page.GetElementAsWritten(old(selected).value.0, old(selected).value.1).Ok? &&
              hasVisual(page.GetElementAsWritten(old(selected).value.0, old(selected).value.1).value) ==>
                highlights != [] && highlights[0] == (page.GetElementAsWritten(old(selected).value.0, old(selected).value.1).value, false)
      ensures r == Ok(None) <==> old(selected) == Some((elementType, elementId)) && toggle && page.GetElementAsWritten(elementType, elementId).Ok?
      ensures r.Ok? && r.value.Some? ==> page.GetElementAsWritten(elementType, elementId) == Ok(r.value.value)
      ensures r.Ok? && r.value.Some? && hasVisual(r.value.value) ==> highlights != [] && highlights[|highlights| - 1] == (r.value.value, true)
      ensures forall h :: h in highlights && h.1 ==> r.Ok? && r.value == Some(h.0)
      ensures |highlights| <= 2
      ensures elementId !in page.elements.collections && !(old(selected) == Some((elementType, elementId)) && toggle) ==>
                r == Err(KeyError) && selected == old(selected)
    {
      highlights := [];
      if selected.Some? {
        var (prevType, prevId) := selected.value;
        var prev := page.GetElementAsWritten(prevType, prevId);
        if prev.Err? {
          return Err(KeyError), highlights;
        }
        if hasVisual(prev.value) {
          highlights := highlights + [(prev.value, false)];
        }
      }
      if selected == Some((elementType, elementId)) && toggle {
        selected := None;
        return Ok(None), highlights;
      }
      var element := page.GetElementAsWritten(elementType, elementId);
      if element.Err? {
        return Err(KeyError), highlights;
      }
      if hasVisual(element.value) {
        highlights := highlights + [(element.value, true)];
      }
      selected := Some((elementType, elementId));
      return Ok(Some(element.value)), highlights;
    }

    /** `_close_ability_menu`: an open panel (a non-empty id) is removed and
        forgotten; `removed` is the id handed to the element manager. */
    method CloseAbilityMenu() returns (removed: Option<string>)
      modifies this`abilityPanelId
      ensures old(abilityPanelId).Some? && old(abilityPanelId).value != "" ==> abilityPanelId == None && removed == old(abilityPanelId)
      ensures old(abilityPanelId).None? || old(abilityPanelId) == Some("") ==> abilityPanelId == old(abilityPanelId) && removed == None
    {
      removed := None;
      if abilityPanelId.Some? && abilityPanelId.value != "" {
        removed := abilityPanelId;
        abilityPanelId := None;
      }
    }
  }
}
