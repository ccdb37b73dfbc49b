/** A named group of elements with a bounded selection
    (frontend/pages/page_elements/element_group.py): the elements by name in
    insertion order, the same elements sorted by z-order (highest first), and
    the selected names, oldest first, kept within `max_selectable` by an
    overselection policy. The answer of an element's `on_select` hook is a
    parameter. */
module ElementGroups {
  import opened Wrappers
  import Elements
  import opened ElementManagers

  datatype OverselectionPolicy = RemoveOldest | PreventNew

  predicate NoDuplicates(s: seq<string>)
  {
    forall i, j :: 0 <= i < j < |s| ==> s[i] != s[j]
  }

  /** The selection is full and the policy applies. */
  predicate AtLimit(selected: seq<string>, maxSelectable: Option<int>, overridePolicy: bool)
  {
    maxSelectable.Some? && !overridePolicy && |selected| >= maxSelectable.value
  }

  /** The selection after `select` of a known name, or the error it raises:
      popping the oldest of an empty selection (a limit of zero or less)
      raises IndexError. */
  function Selection(selected: seq<string>, name: string, maxSelectable: Option<int>, policy: OverselectionPolicy,
                     overridePolicy: bool, accepted: bool): Result<seq<string>>
  {
    if name in selected then Ok(selected)
    else if AtLimit(selected, maxSelectable, overridePolicy) && policy == PreventNew then Ok(selected)
    else if AtLimit(selected, maxSelectable, overridePolicy) && selected == [] then Err(IndexError)
    else
      var kept := if AtLimit(selected, maxSelectable, overridePolicy) then selected[1..] else selected;
      Ok(if accepted then kept + [name] else kept)
  }

  /** What `select` promises: an already-selected name changes nothing; at the
      limit PREVENT_NEW changes nothing and REMOVE_OLDEST evicts the front;
      the name goes at the back exactly when its hook accepts it and it is
      not prevented; names stay unique; and without override a selection
      within the limit stays within it. */
  lemma SelectionMeaning(selected: seq<string>, name: string, maxSelectable: Option<int>, policy: OverselectionPolicy,
                         overridePolicy: bool, accepted: bool)
    requires NoDuplicates(selected)
    ensures var r := Selection(selected, name, maxSelectable, policy, overridePolicy, accepted);
            && (name in selected ==> r == Ok(selected))
            && (name !in selected && AtLimit(selected, maxSelectable, overridePolicy) && policy == PreventNew ==> r == Ok(selected))
            && (r.Err? <==> name !in selected && AtLimit(selected, maxSelectable, overridePolicy) && policy == RemoveOldest && selected == [])
            && (r.Err? ==> r.error == IndexError)
            && (r.Ok? ==> NoDuplicates(r.value))
            && (r.Ok? ==> (name in r.value <==> name in selected || (accepted && !(AtLimit(selected, maxSelectable, overridePolicy) && policy == PreventNew))))
            && (r.Ok? && name !in selected && name in r.value ==> r.value[|r.value| - 1] == name)
            && (r.Ok? && name !in selected && AtLimit(selected, maxSelectable, overridePolicy) && policy == RemoveOldest ==>
                  r.value[..|selected| - 1] == selected[1..])
            && (r.Ok? && maxSelectable.Some? && !overridePolicy && |selected| <= maxSelectable.value ==> |r.value| <= maxSelectable.value)
  {
    var r := Selection(selected, name, maxSelectable, policy, overridePolicy, accepted);
    if r.Ok? && name !in selected && AtLimit(selected, maxSelectable, overridePolicy) && policy == RemoveOldest {
      assert r.value[..|selected| - 1] == selected[1..];
    }
  }

  /** `deselect` on the names: a name that is not selected changes nothing. */
  function Deselection(selected: seq<string>, name: string): seq<string>
  {
    if name in selected then Elements.RemoveFirst(selected, name) else selected
  }

  /** Deselecting removes exactly that name and keeps the others in order of
      selection. */
  lemma {:induction false} DeselectionMeaning(selected: seq<string>, name: string)
    requires NoDuplicates(selected)
    ensures NoDuplicates(Deselection(selected, name))
    ensures forall n :: n in Deselection(selected, name) <==> n in selected && n != name
    ensures name !in selected ==> Deselection(selected, name) == selected
    ensures name in selected ==> |Deselection(selected, name)| == |selected| - 1
  {
    if selected != [] && selected[0] != name {
      var rest := selected[1..];
      DeselectionMeaning(rest, name);
      assert selected == [selected[0]] + rest;
      assert selected[0] !in rest by {
        forall k | 0 <= k < |rest|
          ensures rest[k] != selected[0]
        {
          assert rest[k] == selected[k + 1];
        }
      }
      var d := Deselection(rest, name);
      assert Deselection(selected, name) == [selected[0]] + d;
      forall j | 0 <= j < |d|
        ensures d[j] != selected[0]
      {
        assert d[j] in d;
      }
    } else if selected != [] {
      assert selected == [selected[0]] + selected[1..];
      assert forall n :: n in selected[1..] ==> n != name;
    }
  }

  /** Selecting a name and then deselecting it gives back the selection,
      when its hook accepts it and there was room. */
  lemma SelectThenDeselect(selected: seq<string>, name: string, maxSelectable: Option<int>, policy: OverselectionPolicy, overridePolicy: bool)
    requires NoDuplicates(selected) && name !in selected && !AtLimit(selected, maxSelectable, overridePolicy)
    ensures Selection(selected, name, maxSelectable, policy, overridePolicy, true) == Ok(selected + [name])
    ensures Deselection(selected + [name], name) == selected
  {
    RemoveLast(selected, name);
  }

  lemma {:induction false} RemoveLast(selected: seq<string>, name: string)
    requires name !in selected
    ensures Elements.RemoveFirst(selected + [name], name) == selected
  {
    if selected != [] {
      assert (selected + [name])[1..] == selected[1..] + [name];
      RemoveLast(selected[1..], name);
    }
  }

  /** The elements registered under the names, in order, or KeyError at the
      first name that is not registered. */
  function LookupAll(entries: seq<ElementWrapper>, names: seq<string>): Result<seq<ElementWrapper>>
  {
    if names == [] then Ok([])
    else
      match LookupAll(entries, names[..|names| - 1])
      case Err(e) => Err(e)
      case Ok(ws) =>
        match Find(entries, names[|names| - 1])
        case None => Err(KeyError)
        case Some(w) => Ok(ws + [w])
  }

  predicate AllKnown(entries: seq<ElementWrapper>, names: seq<string>)
  {
    forall i :: 0 <= i < |names| ==> Find(entries, names[i]).Some?
  }

  /** The lookup succeeds exactly when every name is registered, and then
      gives, name by name, the element registered under it. */
  lemma {:induction false} LookupAllMeaning(entries: seq<ElementWrapper>, names: seq<string>)
    ensures LookupAll(entries, names).Ok? <==> AllKnown(entries, names)
    ensures LookupAll(entries, names).Err? ==> LookupAll(entries, names).error == KeyError
    ensures LookupAll(entries, names).Ok? ==>
              var ws := LookupAll(entries, names).value;
              |ws| == |names| && forall i :: 0 <= i < |names| ==> ws[i] == Find(entries, names[i]).value
  {
    if names != [] {
      var init := names[..|names| - 1];
      LookupAllMeaning(entries, init);
      assert forall i :: 0 <= i < |init| ==> init[i] == names[i];
    }
  }

  class ElementGroup {
    const groupName: string
    /** `elements`, as its values in insertion order. */
    var entries: seq<ElementWrapper>
    /** `flattened_elements_list`. */
    var flattened: seq<ElementWrapper>
    /** `selected_ids`, oldest first. */
    var selected: seq<string>
    /** None for no limit. */
    var maxSelectable: Option<int>
    var policy: OverselectionPolicy
    var active: bool

    /** Names are unique, the flattened list holds the registered elements
        sorted by z-order, and no name is selected twice. */
    predicate Valid()
      reads this
    {
      && DistinctNames(entries)
      && ZSorted(flattened)
      && multiset(flattened) == multiset(entries)
      && NoDuplicates(selected)
    }

    /** Every selected name is registered. */
    predicate SelectionKnown()
      reads this
    {
      AllKnown(entries, selected)
    }

    constructor (groupName: string, maxSelectable: Option<int>, policy: OverselectionPolicy)
      ensures Valid() && SelectionKnown()
      ensures this.groupName == groupName && this.maxSelectable == maxSelectable && this.policy == policy
      ensures entries == [] && flattened == [] && selected == [] && active
    {
      this.groupName := groupName;
      entries := [];
      flattened := [];
      selected := [];
      this.maxSelectable := maxSelectable;
      this.policy := policy;
      active := true;
    }

    /** `get_element`: the element registered under the name, or KeyError. */
    function GetElement(name: string): (r: Result<ElementWrapper>)
      reads this
      ensures r.Ok? <==> exists i :: 0 <= i < |entries| && entries[i].registeredName == name
      ensures r.Ok? ==> r.value in entries && r.value.registeredName == name
      ensures r.Err? ==> r.error == KeyError
    {
      match Find(entries, name)
      case None => Err(KeyError)
      case Some(w) => Ok(w)
    }

    /** `add_element`: KeyError for a taken name; otherwise the element is
        registered last and takes its place in the z-order. */
    method AddElement(e: ElementWrapper) returns (r: Result<()>)
      requires Valid()
      modifies this`entries, this`flattened
      ensures Valid()
      ensures old(Find(entries, e.registeredName)).Some? ==> r == Err(KeyError) && entries == old(entries) && flattened == old(flattened)
      ensures old(Find(entries, e.registeredName)).None? ==>
                r == Ok(()) && entries == old(entries) + [e] && flattened == InsertByZ(old(flattened), e)
      ensures old(SelectionKnown()) ==> SelectionKnown()
    {
      if Find(entries, e.registeredName).Some? {
        return Err(KeyError);
      }
      InsertByZSorts(flattened, e);
      ghost var before := entries;
      entries := entries + [e];
      flattened := InsertByZ(flattened, e);
      FindExtends(before, e, selected);
      return Ok(());
    }

    /** `remove_element`: KeyError for an unknown name; otherwise the element
        leaves the selection, the registry and the z-order. */
    method RemoveElement(name: string) returns (r: Result<ElementWrapper>)
      requires Valid()
      modifies this`entries, this`flattened, this`selected
      ensures Valid()
      ensures old(Find(entries, name)).None? ==>
                r == Err(KeyError) && entries == old(entries) && flattened == old(flattened) && selected == old(selected)
      ensures old(Find(entries, name)).Some? ==>
                var w := old(Find(entries, name)).value;
                && r == Ok(w)
                && entries == Elements.RemoveFirst(old(entries), w)
                && flattened == Elements.RemoveFirst(old(flattened), w)
                && selected == Deselection(old(selected), name)
                && name !in selected
      ensures old(SelectionKnown()) ==> SelectionKnown()
    {
      var found := Find(entries, name);
      if found.None? {
        return Err(KeyError);
      }
      var w := found.value;
      DeselectionMeaning(selected, name);
      ghost var before := entries;
      KnownSubset(entries, selected, Deselection(selected, name));
      selected := Deselection(selected, name);
      assert w in multiset(flattened);
      RemoveKeepsSorted(flattened, w);
      flattened := Elements.RemoveFirst(flattened, w);
      entries := Elements.RemoveFirst(entries, w);
      RemoveKeepsDistinct(before, w);
      FindAfterRemove(before, w, selected);
      return Ok(w);
    }

    /** `clear` as written: the registry and the z-order are emptied and the
        registered names returned, but the selection is kept. */
    method ClearAsWritten() returns (names: seq<string>)
      requires Valid()
      modifies this`entries, this`flattened
      ensures Valid()
      ensures entries == [] && flattened == [] && selected == old(selected)
      ensures |names| == |old(entries)| && forall i :: 0 <= i < |names| ==> names[i] == old(entries)[i].registeredName
    {
      names := Names(entries);
      entries := [];
      flattened := [];
    }

    /** `clear` as evidently intended: the selection goes with the elements,
        so every selected name stays registered. */
    method Clear() returns (names: seq<string>)
      requires Valid()
      modifies this`entries, this`flattened, this`selected
      ensures Valid() && SelectionKnown()
      ensures entries == [] && flattened == [] && selected == []
      ensures |names| == |old(entries)| && forall i :: 0 <= i < |names| ==> names[i] == old(entries)[i].registeredName
    {
      names := Names(entries);
      entries := [];
      flattened := [];
      selected := [];
    }

    method SetActive(active: bool)
      modifies this`active
      ensures this.active == active
    {
      this.active := active;
    }

    method SetOverselectionPolicy(policy: OverselectionPolicy)
      modifies this`policy
      ensures this.policy == policy
    {
      this.policy := policy;
    }

    /** `select`: KeyError for an unknown name, IndexError when the oldest
        must go from an empty selection; None when PREVENT_NEW refuses the
        name; otherwise the element. `accepted` is its `on_select` answer and
        `evicted` the name REMOVE_OLDEST dropped. */
    method Select(name: string, overridePolicy: bool, accepted: bool) returns (r: Result<Option<ElementWrapper>>, evicted: Option<string>)
      requires Valid()
      modifies this`selected
      ensures Valid()
      ensures old(Find(entries, name)).None? ==> r == Err(KeyError) && selected == old(selected)
      ensures old(Find(entries, name)).Some? ==>
                var s := Selection(old(selected), name, maxSelectable, policy, overridePolicy, accepted);
                && (s.Err? ==> r == Err(s.error) && selected == old(selected))
                && (s.Ok? ==> selected == s.value)
                && (s.Ok? && name !in old(selected) && AtLimit(old(selected), maxSelectable, overridePolicy) && policy == PreventNew ==> r == Ok(None))
                && (s.Ok? && !(name !in old(selected) && AtLimit(old(selected), maxSelectable, overridePolicy) && policy == PreventNew) ==>
                      r == Ok(Some(old(Find(entries, name)).value)))
      ensures evicted.Some? <==> r.Ok? && name !in old(selected) && AtLimit(old(selected), maxSelectable, overridePolicy) && policy == RemoveOldest
      ensures evicted.Some? ==> evicted.value == old(selected)[0] && evicted.value !in selected
      ensures old(SelectionKnown()) ==> SelectionKnown()
    {
      SelectionMeaning(selected, name, maxSelectable, policy, overridePolicy, accepted);
      evicted := None;
      var found := Find(entries, name);
      if found.None? {
        return Err(KeyError), None;
      }
      var element := found.value;
      if name in selected {
        return Ok(Some(element)), None;
      }
      if maxSelectable.Some? && !overridePolicy {
        if |selected| >= maxSelectable.value {
          if policy == RemoveOldest {
            if selected == [] {
              return Err(IndexError), None;
            }
            evicted := Some(selected[0]);
            selected := selected[1..];
          } else {
            return Ok(None), None;
          }
        }
      }
      if accepted {
        selected := selected + [name];
      }
      KnownAfterSelect(entries, old(selected), selected, name);
      return Ok(Some(element)), evicted;
    }

    /** `deselect`: None when the name is not selected or no longer
        registered; the name leaves the selection either way. */
    method Deselect(name: string) returns (r: Option<ElementWrapper>)
      requires Valid()
      modifies this`selected
      ensures Valid()
      ensures selected == Deselection(old(selected), name)
      ensures r.Some? <==> name in old(selected) && Find(entries, name).Some?
      ensures r.Some? ==> r == Find(entries, name)
      ensures old(SelectionKnown()) ==> SelectionKnown()
    {
      DeselectionMeaning(selected, name);
      if name !in selected {
        return None;
      }
      var found := Find(entries, name);
      KnownSubset(entries, selected, Deselection(selected, name));
      selected := Deselection(selected, name);
      return found;
    }

    /** `toggle_element`: deselects a selected name and tries to select any
        other, passing on the error `select` raises. */
    method Toggle(name: string, overridePolicy: bool, accepted: bool) returns (r: Result<()>)
      requires Valid()
      modifies this`selected
      ensures Valid()
      ensures name in old(selected) ==> r == Ok(()) && selected == Deselection(old(selected), name) && name !in selected
      ensures name !in old(selected) && old(Find(entries, name)).None? ==> r == Err(KeyError) && selected == old(selected)
      ensures name !in old(selected) && old(Find(entries, name)).Some? ==>
                var s := Selection(old(selected), name, maxSelectable, policy, overridePolicy, accepted);
                && selected == (if s.Ok? then s.value else old(selected))
                && r == (if s.Ok? then Ok(()) else Err(s.error))
      ensures old(SelectionKnown()) ==> SelectionKnown()
    {
      if name in selected {
        var found := Deselect(name);
        DeselectionMeaning(old(selected), name);
        r := Ok(());
      } else {
        var chosen, evicted := Select(name, overridePolicy, accepted);
        r := if chosen.Ok? then Ok(()) else Err(chosen.error);
      }
    }

    /** `get_selected_elements`: the selected elements, oldest first, or
        KeyError at a selected name that is no longer registered. */
    method GetSelectedElements() returns (r: Result<seq<ElementWrapper>>)
      ensures r == LookupAll(entries, selected)
    {
      var ws: seq<ElementWrapper> := [];
      var i := 0;
      while i < |selected|
        invariant 0 <= i <= |selected|
        invariant LookupAll(entries, selected[..i]) == Ok(ws)
      {
        assert selected[..i + 1][..i] == selected[..i];
        var found := Find(entries, selected[i]);
        if found.None? {
          LookupStops(entries, selected, i + 1);
          return Err(KeyError);
        }
        ws := ws + [found.value];
        i := i + 1;
      }
      assert selected[..i] == selected;
      return Ok(ws);
    }

    /** `deselect_all`: the selected elements, oldest first, and an empty
        selection; KeyError, with the selection kept, when a selected name is
        no longer registered. */
    method DeselectAll() returns (r: Result<seq<ElementWrapper>>)
      requires Valid()
      modifies this`selected
      ensures Valid()
      ensures r == LookupAll(entries, old(selected))
      ensures r.Ok? ==> selected == []
      ensures r.Err? ==> selected == old(selected)
      ensures old(SelectionKnown()) ==> r.Ok?
    {
      LookupAllMeaning(entries, selected);
      r := GetSelectedElements();
      if r.Ok? {
        selected := [];
      }
    }
  }

  /** After `clear` as written, a selected name outlives its element and
      `deselect_all` raises KeyError; with the selection cleared too it
      succeeds. */
  method ClearThenDeselectAll(intended: bool) returns (r: Result<seq<ElementWrapper>>)
    ensures !intended ==> r == Err(KeyError)
    ensures intended ==> r == Ok([])
  {
    var group := new ElementGroup("cards", Some(1), RemoveOldest);
    var card := new ElementWrapper("card", "cards", None, 0, true);
    var added := group.AddElement(card);
    var chosen, evicted := group.Select("card", false, true);
    assert group.selected == ["card"];
    var names;
    if intended {
      names := group.Clear();
    } else {
      names := group.ClearAsWritten();
    }
    r := group.DeselectAll();
  }

  /** The names of elements, in order. */
  function Names(ws: seq<ElementWrapper>): (ns: seq<string>)
    ensures |ns| == |ws| && forall i :: 0 <= i < |ws| ==> ns[i] == ws[i].registeredName
  {
    if ws == [] then [] else Names(ws[..|ws| - 1]) + [ws[|ws| - 1].registeredName]
  }

  /** A lookup that fails at a name fails for every longer list of names. */
  lemma {:induction false} LookupStops(entries: seq<ElementWrapper>, names: seq<string>, j: nat)
    requires j <= |names| && LookupAll(entries, names[..j]).Err?
    ensures LookupAll(entries, names) == LookupAll(entries, names[..j])
  {
    if j < |names| {
      assert names[..|names| - 1][..j] == names[..j];
      LookupStops(entries, names[..|names| - 1], j);
    } else {
      assert names[..j] == names;
    }
  }

  /** Registering one more element under a new name keeps every earlier
      lookup and keeps the names unique. */
  lemma FindExtends(entries: seq<ElementWrapper>, e: ElementWrapper, selected: seq<string>)
    requires DistinctNames(entries) && Find(entries, e.registeredName).None?
    ensures DistinctNames(entries + [e])
    ensures AllKnown(entries, selected) ==> AllKnown(entries + [e], selected)
  {
    forall n | Find(entries, n).Some?
      ensures Find(entries + [e], n).Some?
    {
      var i :| 0 <= i < |entries| && entries[i].registeredName == n;
      assert (entries + [e])[i] == entries[i];
    }
  }

  /** After an element leaves the registry, every selected name other than
      its own is still registered. */
  lemma FindAfterRemove(entries: seq<ElementWrapper>, w: ElementWrapper, selected: seq<string>)
    requires DistinctNames(entries) && w in entries
    requires w.registeredName !in selected
    ensures AllKnown(entries, selected) ==> AllKnown(Elements.RemoveFirst(entries, w), selected)
  {
    if AllKnown(entries, selected) {
      forall k | 0 <= k < |selected|
        ensures Find(Elements.RemoveFirst(entries, w), selected[k]).Some?
      {
        var n := selected[k];
        var i :| 0 <= i < |entries| && entries[i].registeredName == n;
        assert entries[i] != w;
        assert entries[i] in multiset(Elements.RemoveFirst(entries, w));
        var j :| 0 <= j < |Elements.RemoveFirst(entries, w)| && Elements.RemoveFirst(entries, w)[j] == entries[i];
      }
    }
  }

  /** Fewer selected names stay registered. */
  lemma KnownSubset(entries: seq<ElementWrapper>, before: seq<string>, after: seq<string>)
    requires forall n :: n in after ==> n in before
    ensures AllKnown(entries, before) ==> AllKnown(entries, after)
  {
    if AllKnown(entries, before) {
      forall k | 0 <= k < |after|
        ensures Find(entries, after[k]).Some?
      {
        assert after[k] in after;
        var j :| 0 <= j < |before| && before[j] == after[k];
      }
    }
  }

  /** `select` only adds the registered name it was given. */
  lemma KnownAfterSelect(entries: seq<ElementWrapper>, before: seq<string>, after: seq<string>, name: string)
    requires Find(entries, name).Some?
    requires forall n :: n in after ==> n in before || n == name
    ensures AllKnown(entries, before) ==> AllKnown(entries, after)
  {
    if AllKnown(entries, before) {
      forall k | 0 <= k < |after|
        ensures Find(entries, after[k]).Some?
      {
        if after[k] != name {
          assert after[k] in after;
          var j :| 0 <= j < |before| && before[j] == after[k];
        }
      }
    }
  }
}
