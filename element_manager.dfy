/** The element manager (frontend/pages/page_elements/element_manager.py):
    element wrappers kept in named collections, keyed by their registered
    names in insertion order, plus one flattened list of all of them sorted by
    z-order, highest first, which decides who sees a gesture first. */
module ElementManagers {
  import opened Wrappers
  import Elements

  /** `element_parent`: the registered name of the parent and, when not
      empty, the collection it lives in. */
  datatype ParentRef = ParentRef(parentRegisteredName: string, parentGroupingName: string)

  /** The element wrapper as the manager uses it: its names, its parent
      reference, its z-order, whether it has an interactable component, and
      the parent/child links that `add_child` and `remove_element` update. */
  class ElementWrapper {
    const registeredName: string
    const groupingName: string
    const elementParent: Option<ParentRef>
    const zOrder: int
    const interactable: bool
    var parent: ElementWrapper?
    var children: seq<ElementWrapper>

    constructor (registeredName: string, groupingName: string, elementParent: Option<ParentRef>, zOrder: int, interactable: bool)
      ensures this.registeredName == registeredName && this.groupingName == groupingName
      ensures this.elementParent == elementParent && this.zOrder == zOrder && this.interactable == interactable
      ensures parent == null && children == []
    {
      this.registeredName := registeredName;
      this.groupingName := groupingName;
      this.elementParent := elementParent;
      this.zOrder := zOrder;
      this.interactable := interactable;
      parent := null;
      children := [];
    }

    /** `add_child`, as `Element.add_child` does it for the links: ValueError
        for a child already attached, otherwise appended with this as parent. */
    method AddChild(child: ElementWrapper) returns (r: Result<()>)
      modifies this`children, child`parent
      ensures child in old(children) <==> r == Err(ValueError)
      ensures child in old(children) ==> children == old(children) && child.parent == old(child.parent)
      ensures child !in old(children) ==> r == Ok(()) && children == old(children) + [child] && child.parent == this
    {
      if child in children {
        return Err(ValueError);
      }
      children := children + [child];
      child.parent := this;
      return Ok(());
    }

    ghost function ParentSet(): set<ElementWrapper>
      reads this
    {
      if parent == null then {} else {parent}
    }

    /** The parent step of `remove_element`: `parent.children.remove(self)`
        (ValueError, reported as false, when the list does not hold it) and
        `parent = None`; nothing happens without a parent. */
    method LeaveParent() returns (ok: bool)
      modifies this`parent, ParentSet()`children
      ensures old(parent) == null ==> ok && parent == null
      ensures old(parent) != null ==> (ok <==> this in old(parent.children))
      ensures old(parent) != null && !ok ==> parent == old(parent) && parent.children == old(parent.children)
      ensures old(parent) != null && ok ==> parent == null && old(parent).children == Elements.RemoveFirst(old(parent.children), this)
    {
      if parent == null {
        return true;
      }
      if this !in parent.children {
        return false;
      }
      parent.children := Elements.RemoveFirst(parent.children, this);
      parent := null;
      return true;
    }
  }

  /** The flattened list is ordered by z-order, highest first. */
  predicate ZSorted(xs: seq<ElementWrapper>)
  {
    forall i, j :: 0 <= i < j < |xs| ==> xs[i].zOrder >= xs[j].zOrder
  }

  /** Where a stable sort puts a newcomer with z-order z: after every element
      whose z-order is at least z. */
  function Slot(xs: seq<ElementWrapper>, z: int): (k: nat)
    ensures k <= |xs|
    ensures forall i :: 0 <= i < k ==> xs[i].zOrder >= z
    ensures k < |xs| ==> xs[k].zOrder < z
  {
    if xs == [] || xs[0].zOrder < z then 0 else 1 + Slot(xs[1..], z)
  }

  /** `append` followed by `_sort_flattened_by_z_order` on a sorted list
      (Python's sort is stable, also with `reverse=True`). */
  function InsertByZ(xs: seq<ElementWrapper>, e: ElementWrapper): seq<ElementWrapper>
  {
    var k := Slot(xs, e.zOrder);
    xs[..k] + [e] + xs[k..]
  }

  /** The insertion is the stable sort of the list with the newcomer appended:
      sorted, the same elements, the old elements in their old order, and the
      newcomer after every element whose z-order is at least its own and
      before every element whose z-order is lower. */
  lemma InsertByZSorts(xs: seq<ElementWrapper>, e: ElementWrapper)
    requires ZSorted(xs)
    ensures var r := InsertByZ(xs, e);
            var k := Slot(xs, e.zOrder);
            && ZSorted(r)
            && multiset(r) == multiset(xs) + multiset{e}
            && r[k] == e && r[..k] + r[k + 1..] == xs
            && (forall i :: 0 <= i < k ==> r[i].zOrder >= e.zOrder)
            && (forall i :: k < i < |r| ==> r[i].zOrder < e.zOrder)
  {
    InsertAt(xs, e);
    SplicedAt(xs, e, Slot(xs, e.zOrder));
  }

  /** Putting an element at position k: what is around it is the old list. */
  lemma SplicedAt(xs: seq<ElementWrapper>, e: ElementWrapper, k: nat)
    requires k <= |xs|
    ensures var r := xs[..k] + [e] + xs[k..];
            && r[k] == e && r[..k] + r[k + 1..] == xs
            && multiset(r) == multiset(xs) + multiset{e}
  {
    var r := xs[..k] + [e] + xs[k..];
    assert xs == xs[..k] + xs[k..];
    assert r[..k] == xs[..k] && r[k + 1..] == xs[k..];
  }

  /** The positions of the list after the insertion. */
  lemma InsertAt(xs: seq<ElementWrapper>, e: ElementWrapper)
    requires ZSorted(xs)
    ensures var r := InsertByZ(xs, e);
            var k := Slot(xs, e.zOrder);
            && |r| == |xs| + 1
            && (forall i :: 0 <= i < k ==> r[i] == xs[i])
            && r[k] == e
            && (forall i :: k < i < |r| ==> r[i] == xs[i - 1] && r[i].zOrder < e.zOrder)
            && ZSorted(r)
  {
    var k := Slot(xs, e.zOrder);
    var r := InsertByZ(xs, e);
    forall i | k < i < |r|
      ensures r[i] == xs[i - 1] && r[i].zOrder < e.zOrder
    {
      assert r[i] == xs[i - 1];
      if i - 1 > k {
        assert xs[k].zOrder >= xs[i - 1].zOrder;
      }
    }
    SplicedSorted(xs, e, k, r);
  }

  /** A sorted list with e spliced in at position k stays sorted when what
      precedes k is at least e's z-order and what follows is below it. */
  lemma SplicedSorted(xs: seq<ElementWrapper>, e: ElementWrapper, k: nat, r: seq<ElementWrapper>)
    requires ZSorted(xs) && k <= |xs| && |r| == |xs| + 1 && r[k] == e
    requires forall i :: 0 <= i < k ==> r[i] == xs[i] && xs[i].zOrder >= e.zOrder
    requires forall i :: k < i < |r| ==> r[i] == xs[i - 1] && r[i].zOrder < e.zOrder
    ensures ZSorted(r)
  {
    forall i, j | 0 <= i < j < |r|
      ensures r[i].zOrder >= r[j].zOrder
    {
      if j < k {
        assert r[i] == xs[i] && r[j] == xs[j];
      } else if i > k {
        assert r[i] == xs[i - 1] && r[j] == xs[j - 1];
      }
    }
  }

  /** Removing an element keeps the list sorted. */
  lemma {:induction false} RemoveKeepsSorted(xs: seq<ElementWrapper>, x: ElementWrapper)
    requires ZSorted(xs)
    ensures ZSorted(Elements.RemoveFirst(xs, x))
  {
    if xs != [] && xs[0] != x {
      TailSorted(xs);
      RemoveKeepsSorted(xs[1..], x);
      HeadAboveRemoved(xs, x);
      SortedCons(xs[0], Elements.RemoveFirst(xs[1..], x));
      assert Elements.RemoveFirst(xs, x) == [xs[0]] + Elements.RemoveFirst(xs[1..], x);
    }
  }

  lemma TailSorted(xs: seq<ElementWrapper>)
    requires xs != [] && ZSorted(xs)
    ensures ZSorted(xs[1..])
  {
    var t := xs[1..];
    forall i, j | 0 <= i < j < |t|
      ensures t[i].zOrder >= t[j].zOrder
    {
      assert t[i] == xs[i + 1] && t[j] == xs[j + 1];
    }
  }

  /** The head of a sorted list is above everything left in its tail. */
  lemma HeadAboveRemoved(xs: seq<ElementWrapper>, x: ElementWrapper)
    requires xs != [] && ZSorted(xs)
    ensures forall y :: y in Elements.RemoveFirst(xs[1..], x) ==> xs[0].zOrder >= y.zOrder
  {
    forall y | y in Elements.RemoveFirst(xs[1..], x)
      ensures xs[0].zOrder >= y.zOrder
    {
      Elements.RemoveFirstWithin(xs[1..], x, y);
      var m :| 0 <= m < |xs[1..]| && xs[1..][m] == y;
      assert xs[1..][m] == xs[m + 1];
    }
  }

  lemma SortedCons(h: ElementWrapper, rest: seq<ElementWrapper>)
    requires ZSorted(rest) && forall y :: y in rest ==> h.zOrder >= y.zOrder
    ensures ZSorted([h] + rest)
  {
    var r := [h] + rest;
    forall i, j | 0 <= i < j < |r|
      ensures r[i].zOrder >= r[j].zOrder
    {
      assert r[j] == rest[j - 1];
      if i > 0 {
        assert r[i] == rest[i - 1];
      }
    }
  }

  /** The wrapper registered under a name in a collection. */
  function Find(group: seq<ElementWrapper>, name: string): (r: Option<ElementWrapper>)
    ensures r.Some? <==> exists i :: 0 <= i < |group| && group[i].registeredName == name
    ensures r.Some? ==> r.value in group && r.value.registeredName == name
  {
    if group == [] then None
    else if group[0].registeredName == name then Some(group[0])
    else
      var r := Find(group[1..], name);
      assert forall i :: 1 <= i < |group| ==> group[i] == group[1..][i - 1];
      r
  }

  /** Registered names are keys: each occurs once in a collection. */
  predicate DistinctNames(group: seq<ElementWrapper>)
  {
    forall i, j :: 0 <= i < j < |group| ==> group[i].registeredName != group[j].registeredName
  }

  predicate AllDistinct(cs: map<string, seq<ElementWrapper>>)
  {
    forall t :: t in cs ==> DistinctNames(cs[t])
  }

  /** `clear_group_by_name` as written: the loop over the collection's values
      clears the collection inside its body, so after the first element has
      been taken out of the flattened list (ValueError when it is not there)
      the next step of the loop raises RuntimeError. Returns the outcome, the
      collection and the flattened list. */
  function ClearGroupAsWritten<T(==)>(group: seq<T>, flattened: seq<T>): (Result<()>, seq<T>, seq<T>)
  {
    if group == [] then (Ok(()), group, flattened)
    else if group[0] !in flattened then (Err(ValueError), group, flattened)
    else (Err(RuntimeError), [], Elements.RemoveFirst(flattened, group[0]))
  }

  /** The flattened list without any element of the group. */
  function Without<T(==)>(flattened: seq<T>, group: seq<T>): (r: seq<T>)
    ensures forall i :: 0 <= i < |r| ==> r[i] in flattened && r[i] !in group
    ensures forall i :: 0 <= i < |flattened| && flattened[i] !in group ==> flattened[i] in r
    ensures |r| <= |flattened|
  {
    if flattened == [] then []
    else
      var rest := Without(flattened[..|flattened| - 1], group);
      var last := flattened[|flattened| - 1];
      assert flattened == flattened[..|flattened| - 1] + [last];
      if last in group then rest else rest + [last]
  }

  /** `clear_group_by_name` as its documentation intends it: the collection
      is emptied and every one of its elements leaves the flattened list, the
      others staying in order. */
  function ClearGroup<T(==)>(group: seq<T>, flattened: seq<T>): (Result<()>, seq<T>, seq<T>)
  {
    (Ok(()), [], Without(flattened, group))
  }

  /** With two elements in the collection, the code as written raises
      RuntimeError and leaves the second one in the flattened list although
      the collection is now empty; the intended version removes both. */
  lemma ClearGroupAsWrittenLeaks()
    ensures ClearGroupAsWritten([1, 2], [1, 2]) == (Err(RuntimeError), [], [2])
    ensures ClearGroup([1, 2], [1, 2]) == (Ok(()), [], [])
  {
    assert [1, 2][1..] == [2];
    assert Without([1, 2], [1, 2]) == [];
  }

  /** Clearing a collection keeps the flattened list sorted: the result is a
      subsequence of it. */
  lemma {:induction false} WithoutKeepsSorted(flattened: seq<ElementWrapper>, group: seq<ElementWrapper>)
    requires ZSorted(flattened)
    ensures ZSorted(Without(flattened, group))
  {
    if flattened != [] {
      var init := flattened[..|flattened| - 1];
      var last := flattened[|flattened| - 1];
      WithoutKeepsSorted(init, group);
      var rest := Without(init, group);
      if last !in group {
        forall i | 0 <= i < |rest|
          ensures rest[i].zOrder >= last.zOrder
        {
          var k :| 0 <= k < |init| && init[k] == rest[i];
        }
      }
    }
  }

  /** The first element of the flattened list that has an interactable
      component and accepts the gesture. */
  function FirstTaker<G>(flattened: seq<ElementWrapper>, g: G, accepts: (ElementWrapper, G) -> bool): (r: Option<ElementWrapper>)
    ensures r.Some? ==> r.value in flattened && r.value.interactable && accepts(r.value, g)
  {
    if flattened == [] then None
    else if flattened[0].interactable && accepts(flattened[0], g) then Some(flattened[0])
    else FirstTaker(flattened[1..], g, accepts)
  }

  /** The gestures no element takes, in their order. */
  function Unconsumed<G>(gestures: seq<G>, flattened: seq<ElementWrapper>, accepts: (ElementWrapper, G) -> bool): seq<G>
  {
    if gestures == [] then []
    else
      var rest := Unconsumed(gestures[..|gestures| - 1], flattened, accepts);
      if FirstTaker(flattened, gestures[|gestures| - 1], accepts).None? then rest + [gestures[|gestures| - 1]] else rest
  }

  /** A gesture goes to the first interactable element that accepts it: no
      element before that one would have taken it, and a gesture no element
      takes is left over. */
  lemma {:induction false} FirstTakerMeaning<G>(flattened: seq<ElementWrapper>, g: G, accepts: (ElementWrapper, G) -> bool)
    ensures FirstTaker(flattened, g, accepts).None? <==>
            forall i :: 0 <= i < |flattened| ==> !(flattened[i].interactable && accepts(flattened[i], g))
    ensures FirstTaker(flattened, g, accepts).Some? ==>
            exists k :: 0 <= k < |flattened| && flattened[k] == FirstTaker(flattened, g, accepts).value &&
              forall i :: 0 <= i < k ==> !(flattened[i].interactable && accepts(flattened[i], g))
  {
    if flattened != [] {
      FirstTakerMeaning(flattened[1..], g, accepts);
      if !(flattened[0].interactable && accepts(flattened[0], g)) {
        if FirstTaker(flattened, g, accepts).Some? {
          var k :| 0 <= k < |flattened[1..]| && flattened[1..][k] == FirstTaker(flattened, g, accepts).value &&
                   forall i :: 0 <= i < k ==> !(flattened[1..][i].interactable && accepts(flattened[1..][i], g));
          assert flattened[k + 1] == FirstTaker(flattened, g, accepts).value;
        }
      } else {
        assert flattened[0] == FirstTaker(flattened, g, accepts).value;
      }
    }
  }

  /** The left-over gestures are exactly, and in order, those that no
      interactable element accepts: a gesture is left over iff nobody takes
      it, and the left-overs are an order-keeping selection of the input. */
  lemma {:induction false} UnconsumedMeaning<G>(gestures: seq<G>, flattened: seq<ElementWrapper>, accepts: (ElementWrapper, G) -> bool)
    ensures |Unconsumed(gestures, flattened, accepts)| <= |gestures|
    ensures forall g :: g in gestures && FirstTaker(flattened, g, accepts).None? ==> g in Unconsumed(gestures, flattened, accepts)
    ensures forall g :: g in Unconsumed(gestures, flattened, accepts) ==> g in gestures && FirstTaker(flattened, g, accepts).None?
  {
    if gestures != [] {
      var init := gestures[..|gestures| - 1];
      UnconsumedMeaning(init, flattened, accepts);
      assert gestures == init + [gestures[|gestures| - 1]];
    }
  }

  class ElementManager {
    /** `_element_collections`: collection name to its wrappers, in
        insertion order. */
    var collections: map<string, seq<ElementWrapper>>
    /** `_flattened_collection`. */
    var flattened: seq<ElementWrapper>

    predicate Valid()
      reads this
    {
      && ZSorted(flattened)
      && AllDistinct(collections)
    }

    /** Every wrapper held in some collection. */
    ghost function Members(): set<ElementWrapper>
      reads this
    {
      set t, w | t in collections && w in collections[t] :: w
    }

    constructor ()
      ensures Valid() && collections == map[] && flattened == []
    {
      collections := map[];
      flattened := [];
    }

    /** `create_collection`: an existing collection is returned untouched, a
        new name gets an empty one. */
    method CreateCollection(t: string) returns (group: seq<ElementWrapper>)
      modifies this`collections
      ensures t in old(collections) ==> collections == old(collections) && group == collections[t]
      ensures t !in old(collections) ==> collections == old(collections)[t := []] && group == []
    {
      if t !in collections {
        collections := collections[t := []];
      }
      group := collections[t];
    }

    /** `get_collection`: KeyError for an unknown name. */
    function GetCollection(t: string): (r: Result<seq<ElementWrapper>>)
      reads this
      ensures r.Ok? <==> t in collections
      ensures r.Ok? ==> r.value == collections[t]
      ensures r.Err? ==> r.error == KeyError
    {
      if t in collections then Ok(collections[t]) else Err(KeyError)
    }

    /** `get_element_wrapper`: the wrapper registered under the name in the
        collection; KeyError when either is unknown. */
    function GetElementWrapper(registeredName: string, groupingName: string): (r: Result<ElementWrapper>)
      reads this
      ensures r.Ok? <==> groupingName in collections && exists i :: 0 <= i < |collections[groupingName]| && collections[groupingName][i].registeredName == registeredName
      ensures r.Ok? ==> r.value in collections[groupingName] && r.value.registeredName == registeredName
      ensures r.Err? ==> r.error == KeyError
    {
      match GetCollection(groupingName)
      case Err(e) => Err(e)
      case Ok(group) =>
        match Find(group, registeredName)
        case None => Err(KeyError)
        case Some(w) => Ok(w)
    }

    /** `add_element`. The collection is created on demand; a name already
        registered there raises ValueError. The wrapper is then stored. With a
        parent reference, the parent's collection (its own when the reference
        names none) must exist (KeyError) and hold the parent (ValueError),
        which adopts the wrapper; these failures come after the wrapper is
        stored, so it stays in its collection but not in the flattened list.
        Finally the wrapper takes its place in the flattened list by z-order. */
    method AddElement(e: ElementWrapper) returns (r: Result<()>)
      requires Valid()
      modifies this, e, Members()`children
      ensures Valid()
      ensures collections.Keys == old(collections).Keys + {e.groupingName}
      ensures forall t :: t in old(collections) && t != e.groupingName ==> collections[t] == old(collections)[t]
      ensures var group := if e.groupingName in old(collections) then old(collections)[e.groupingName] else [];
              && (Find(group, e.registeredName).Some? ==> r == Err(ValueError) && collections[e.groupingName] == group && flattened == old(flattened))
              && (Find(group, e.registeredName).None? ==> collections[e.groupingName] == group + [e])
      ensures r.Ok? ==> flattened == InsertByZ(old(flattened), e)
      ensures r.Err? ==> flattened == old(flattened)
      ensures r.Ok? && e.elementParent.Some? ==> e.parent != null && e in e.parent.children
    {
      ghost var members := Members();
      var group := CreateCollection(e.groupingName);
      if Find(group, e.registeredName).Some? {
        return Err(ValueError);
      }
      assert DistinctNames(group + [e]);
      KeysStayDistinct(collections, e.groupingName, group + [e]);
      collections := collections[e.groupingName := group + [e]];
      assert collections.Keys == old(collections).Keys + {e.groupingName};
      assert forall t :: t in old(collections) && t != e.groupingName ==> collections[t] == old(collections)[t];
      r := Ok(());
      if e.elementParent.Some? {
        var found := FindParent(e);
        if found.Err? {
          r := Err(found.error);
        } else {
          var p := found.value;
          assert p in members || p == e;
          r := p.AddChild(e);
        }
      }
      if r.Ok? {
        InsertByZSorts(flattened, e);
        flattened := InsertByZ(flattened, e);
      }
    }

    /** The parent lookup of `add_element`: the parent's collection (its own
        when the reference names none) must exist (KeyError) and hold the
        parent (ValueError). */
    function FindParent(e: ElementWrapper): (r: Result<ElementWrapper>)
      reads this
      requires e.elementParent.Some?
      ensures var ref := e.elementParent.value;
              var pt := if ref.parentGroupingName != "" then ref.parentGroupingName else e.groupingName;
              && (pt !in collections ==> r == Err(KeyError))
              && (pt in collections && Find(collections[pt], ref.parentRegisteredName).None? ==> r == Err(ValueError))
              && (r.Ok? ==> pt in collections && r.value in collections[pt] && r.value.registeredName == ref.parentRegisteredName)
    {
      var ref := e.elementParent.value;
      var pt := if ref.parentGroupingName != "" then ref.parentGroupingName else e.groupingName;
      if pt !in collections then Err(KeyError)
      else
        match Find(collections[pt], ref.parentRegisteredName)
        case None => Err(ValueError)
        case Some(p) => Ok(p)
    }

    /** Every wrapper that some wrapper of a collection names as parent. */
    ghost function Parents(): set<ElementWrapper>
      reads this, Members()
    {
      set w | w in Members() && w.parent != null :: w.parent
    }

    /** `remove_element`. KeyError for an unknown collection; an unknown name
        changes nothing. Otherwise the wrapper leaves its parent's children
        (ValueError when that list does not hold it), forgets its parent, and
        leaves the flattened list and its collection. Its own children stay
        as they are. */
    method RemoveElement(t: string, key: string) returns (r: Result<()>)
      requires Valid()
      modifies this, Members()`parent, Parents()`children
      ensures Valid()
      ensures t !in old(collections) ==> r == Err(KeyError) && collections == old(collections) && flattened == old(flattened)
      ensures t in old(collections) && Find(old(collections)[t], key).None? ==>
                r == Ok(()) && collections == old(collections) && flattened == old(flattened)
      ensures t in old(collections) && Find(old(collections)[t], key).Some? ==>
                var w := Find(old(collections)[t], key).value;
                && (r.Err? <==> old(w.parent) != null && w !in old(w.parent.children))
                && (r.Err? ==> r == Err(ValueError) && collections == old(collections) && flattened == old(flattened))
                && (r.Ok? ==>
                      && w.parent == null
                      && (old(w.parent) != null ==> old(w.parent).children == Elements.RemoveFirst(old(w.parent.children), w))
                      && flattened == Elements.RemoveFirst(old(flattened), w)
                      && collections == old(collections)[t := Elements.RemoveFirst(old(collections)[t], w)])
    {
      if t !in collections {
        return Err(KeyError);
      }
      var found := Find(collections[t], key);
      if found.None? {
        return Ok(());
      }
      var w := found.value;
      assert w in Members();
      var ok := w.LeaveParent();
      if !ok {
        return Err(ValueError);
      }
      Forget(t, w);
      return Ok(());
    }

    /** The list part of `remove_element`: the wrapper leaves the flattened
        list (a sorted list stays sorted without re-sorting) and its
        collection. */
    method Forget(t: string, w: ElementWrapper)
      requires Valid() && t in collections
      modifies this`flattened, this`collections
      ensures Valid()
      ensures flattened == Elements.RemoveFirst(old(flattened), w)
      ensures collections == old(collections)[t := Elements.RemoveFirst(old(collections)[t], w)]
    {
      RemoveKeepsSorted(flattened, w);
      flattened := Elements.RemoveFirst(flattened, w);
      var group := Elements.RemoveFirst(collections[t], w);
      RemoveKeepsDistinct(collections[t], w);
      KeysStayDistinct(collections, t, group);
      collections := collections[t := group];
    }

    /** `clear_group_by_name` as written, see ClearGroupAsWritten. */
    method ClearGroupByNameAsWritten(t: string) returns (r: Result<()>)
      requires Valid()
      modifies this
      ensures t !in old(collections) ==> r == Err(KeyError) && collections == old(collections) && flattened == old(flattened)
      ensures t in old(collections) ==>
                var (res, group, fl) := ClearGroupAsWritten(old(collections)[t], old(flattened));
                r == res && collections == old(collections)[t := group] && flattened == fl
    {
      if t !in collections {
        return Err(KeyError);
      }
      var group := collections[t];
      if group == [] {
        return Ok(());
      }
      if group[0] !in flattened {
        return Err(ValueError);
      }
      flattened := Elements.RemoveFirst(flattened, group[0]);
      collections := collections[t := []];
      return Err(RuntimeError);
    }

    /** `clear_group_by_name` as intended: the collection is emptied and all
        of its wrappers leave the flattened list, which stays sorted. */
    method ClearGroupByName(t: string) returns (r: Result<()>)
      requires Valid()
      modifies this
      ensures Valid()
      ensures t !in old(collections) ==> r == Err(KeyError) && collections == old(collections) && flattened == old(flattened)
      ensures t in old(collections) ==>
                var (res, group, fl) := ClearGroup(old(collections)[t], old(flattened));
                r == res && collections == old(collections)[t := group] && flattened == fl
    {
      if t !in collections {
        return Err(KeyError);
      }
      WithoutKeepsSorted(flattened, collections[t]);
      flattened := Without(flattened, collections[t]);
      collections := collections[t := []];
      return Ok(());
    }

    /** `clear_all`. */
    method ClearAll()
      modifies this
      ensures Valid() && collections == map[] && flattened == []
    {
      collections := map[];
      flattened := [];
    }

    /** `handle_gestures`: each gesture is offered to the elements in the
        flattened order, skipping those without an interactable component,
        and goes to the first that accepts it; the gestures nobody took come
        back in order. Whether an element accepts a gesture is the parameter
        `accepts`. */
    method HandleGestures<G>(gestures: seq<G>, accepts: (ElementWrapper, G) -> bool)
      returns (remaining: seq<G>, takers: seq<Option<ElementWrapper>>)
      ensures remaining == Unconsumed(gestures, flattened, accepts)
      ensures |takers| == |gestures|
      ensures forall i :: 0 <= i < |gestures| ==> takers[i] == FirstTaker(flattened, gestures[i], accepts)
    {
      remaining := [];
      takers := [];
      var i := 0;
      while i < |gestures|
        invariant 0 <= i <= |gestures|
        invariant remaining == Unconsumed(gestures[..i], flattened, accepts)
        invariant |takers| == i
        invariant forall k :: 0 <= k < i ==> takers[k] == FirstTaker(flattened, gestures[k], accepts)
      {
        var g := gestures[i];
        var taker: Option<ElementWrapper> := None;
        var j := 0;
        while j < |flattened|
          invariant 0 <= j <= |flattened|
          invariant FirstTaker(flattened, g, accepts) == if taker.Some? then taker else FirstTaker(flattened[j..], g, accepts)
        {
          var w := flattened[j];
          assert flattened[j..] == [w] + flattened[j + 1..];
          if w.interactable && accepts(w, g) {
            taker := Some(w);
            break;
          }
          j := j + 1;
        }
        assert gestures[..i + 1][..i] == gestures[..i];
        if taker.None? {
          remaining := remaining + [g];
        }
        takers := takers + [taker];
        i := i + 1;
      }
      assert gestures[..i] == gestures;
    }
  }

  /** Replacing one collection by one with distinct names keeps every
      collection's names distinct. */
  lemma KeysStayDistinct(cs: map<string, seq<ElementWrapper>>, t: string, group: seq<ElementWrapper>)
    requires AllDistinct(cs)
    requires DistinctNames(group)
    ensures AllDistinct(cs[t := group])
  {
  }

  /** Dropping a wrapper keeps the names of a collection distinct. */
  lemma {:induction false} RemoveKeepsDistinct(group: seq<ElementWrapper>, w: ElementWrapper)
    requires DistinctNames(group)
    ensures DistinctNames(Elements.RemoveFirst(group, w))
  {
    if group != [] && group[0] != w {
      TailDistinct(group);
      RemoveKeepsDistinct(group[1..], w);
      HeadNameUnused(group, w);
      DistinctCons(group[0], Elements.RemoveFirst(group[1..], w));
      assert Elements.RemoveFirst(group, w) == [group[0]] + Elements.RemoveFirst(group[1..], w);
    }
  }

  lemma TailDistinct(group: seq<ElementWrapper>)
    requires group != [] && DistinctNames(group)
    ensures DistinctNames(group[1..])
  {
    var t := group[1..];
    forall i, j | 0 <= i < j < |t|
      ensures t[i].registeredName != t[j].registeredName
    {
      assert t[i] == group[i + 1] && t[j] == group[j + 1];
    }
  }

  /** The head's name is not used by anything left in the tail. */
  lemma HeadNameUnused(group: seq<ElementWrapper>, w: ElementWrapper)
    requires group != [] && DistinctNames(group)
    ensures forall y :: y in Elements.RemoveFirst(group[1..], w) ==> group[0].registeredName != y.registeredName
  {
    forall y | y in Elements.RemoveFirst(group[1..], w)
      ensures group[0].registeredName != y.registeredName
    {
      Elements.RemoveFirstWithin(group[1..], w, y);
      var m :| 0 <= m < |group[1..]| && group[1..][m] == y;
      assert group[1..][m] == group[m + 1];
    }
  }

  lemma DistinctCons(h: ElementWrapper, rest: seq<ElementWrapper>)
    requires DistinctNames(rest) && forall y :: y in rest ==> h.registeredName != y.registeredName
    ensures DistinctNames([h] + rest)
  {
    var r := [h] + rest;
    forall i, j | 0 <= i < j < |r|
      ensures r[i].registeredName != r[j].registeredName
    {
      assert r[j] == rest[j - 1];
      if i > 0 {
        assert r[i] == rest[i - 1];
      }
    }
  }
}
