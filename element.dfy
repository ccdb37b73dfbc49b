/** Page elements (frontend/pages/page_elements/element.py): a hitbox that
    decides which pointer positions an element answers, and the parent/child
    tree in which every child keeps an offset from its parent's top-left
    corner. Coordinates are whole pixels. */
module Elements {
  import opened Wrappers

  type Pos = (int, int)

  function Add(a: Pos, b: Pos): Pos { (a.0 + b.0, a.1 + b.1) }

  function Sub(a: Pos, b: Pos): Pos { (a.0 - b.0, a.1 - b.1) }

  /** `RectangleHitbox` (a pygame Rect) and `CircleHitbox`. */
  datatype Hitbox =
    | Rectangle(left: int, top: int, width: int, height: int)
    | Circle(cx: int, cy: int, radius: int)

  /** `contains_point`: a Rect holds the points of its half-open area; a
      circle the points whose squared distance from the centre is at most the
      squared radius. */
  predicate ContainsPoint(h: Hitbox, q: Pos)
  {
    match h
    case Rectangle(l, t, w, hh) => l <= q.0 < l + w && t <= q.1 < t + hh
    case Circle(cx, cy, r) => (q.0 - cx) * (q.0 - cx) + (q.1 - cy) * (q.1 - cy) <= r * r
  }

  /** `set_position`: a Rect moves its top-left corner there; the circle's
      `set_position` has an empty body, so a circle stays where it is. */
  function MoveTo(h: Hitbox, p: Pos): (r: Hitbox)
    ensures r.Rectangle? <==> h.Rectangle?
    ensures h.Circle? ==> r == h
    ensures h.Rectangle? ==> r.width == h.width && r.height == h.height && r.left == p.0 && r.top == p.1
  {
    match h
    case Rectangle(_, _, w, hh) => Rectangle(p.0, p.1, w, hh)
    case Circle(_, _, _) => h
  }

  /** `get_size`: the bounding box's size. */
  function Size(h: Hitbox): Pos
  {
    match h
    case Rectangle(_, _, w, hh) => (w, hh)
    case Circle(_, _, r) => (2 * r, 2 * r)
  }

  /** `get_topleft` as written: for a circle it answers (cx - r, cy + r),
      which with pygame's downward y axis is the bottom-left corner. */
  function TopLeftAsWritten(h: Hitbox): Pos
  {
    match h
    case Rectangle(l, t, _, _) => (l, t)
    case Circle(cx, cy, r) => (cx - r, cy + r)
  }

  /** `get_topleft` as its documentation promises it: the top-left corner of
      the bounding box, (cx - r, cy - r) for a circle. */
  function TopLeft(h: Hitbox): Pos
  {
    match h
    case Rectangle(l, t, _, _) => (l, t)
    case Circle(cx, cy, r) => (cx - r, cy - r)
  }

  predicate InBox(corner: Pos, size: Pos, q: Pos)
  {
    corner.0 <= q.0 <= corner.0 + size.0 && corner.1 <= q.1 <= corner.1 + size.1
  }

  /** A square no larger than r * r has a root within -r..r. */
  lemma SquareBound(a: int, r: int)
    requires r >= 0 && a * a <= r * r
    ensures -r <= a <= r
  {
    if a > r {
      Outgrows(r, a - r);
    } else if a < -r {
      Outgrows(r, -a - r);
    }
  }

  lemma Outgrows(r: int, k: int)
    requires r >= 0 && k > 0
    ensures (r + k) * (r + k) > r * r
  {
    assert (r + k) * (r + k) == r * r + 2 * r * k + k * k;
    assert r * k >= 0 && k * k >= k;
  }

  /** Every point a hitbox answers lies in its bounding box, as `get_topleft`
      and `get_size` describe it. */
  lemma {:induction false} BoundingBoxCovers(h: Hitbox, q: Pos)
    requires h.Circle? ==> h.radius >= 0
    requires ContainsPoint(h, q)
    ensures InBox(TopLeft(h), Size(h), q)
  {
    if h.Circle? {
      var dx, dy := q.0 - h.cx, q.1 - h.cy;
      assert dx * dx <= h.radius * h.radius by {
        assert 0 <= dy * dy;
      }
      assert dy * dy <= h.radius * h.radius by {
        assert 0 <= dx * dx;
      }
      SquareBound(dx, h.radius);
      SquareBound(dy, h.radius);
    }
  }

  /** As written, the topmost point of a circle of radius 5 around the origin
      lies above the box that `get_topleft` and `get_size` describe. */
  lemma TopLeftAsWrittenMissesCircle()
    ensures ContainsPoint(Circle(0, 0, 5), (0, -5))
    ensures !InBox(TopLeftAsWritten(Circle(0, 0, 5)), Size(Circle(0, 0, 5)), (0, -5))
    ensures TopLeftAsWritten(Circle(0, 0, 5)) != TopLeft(Circle(0, 0, 5))
  {
  }

  /** A circle answers a point exactly when it answers its mirror image
      through the centre, and a larger radius answers at least as much. */
  lemma CircleSymmetric(cx: int, cy: int, r: int, r': int, dx: int, dy: int)
    requires 0 <= r <= r'
    ensures ContainsPoint(Circle(cx, cy, r), (cx + dx, cy + dy)) <==> ContainsPoint(Circle(cx, cy, r), (cx - dx, cy - dy))
    ensures ContainsPoint(Circle(cx, cy, r), (cx + dx, cy + dy)) ==> ContainsPoint(Circle(cx, cy, r'), (cx + dx, cy + dy))
  {
    assert (-dx) * (-dx) == dx * dx && (-dy) * (-dy) == dy * dy;
    assert r * r <= r' * r' by {
      assert r * r <= r * r' <= r' * r';
    }
  }

  /** Moving a rectangle by d moves the points it answers by d. */
  lemma MoveTranslates(h: Hitbox, d: Pos, q: Pos)
    requires h.Rectangle?
    ensures ContainsPoint(MoveTo(h, Add(TopLeft(h), d)), Add(q, d)) <==> ContainsPoint(h, q)
  {
  }

  /** A hitbox after a move: a circle is untouched and a rectangle keeps its
      size. */
  predicate Moved(before: Hitbox, after: Hitbox)
  {
    && (before.Circle? ==> after == before)
    && (before.Rectangle? ==> after.Rectangle? && after.width == before.width && after.height == before.height)
  }

  /** The event that `handle_gesture` posts for the element that takes the
      gesture. */
  datatype ElementEvent = ElementEvent(elementId: string, mousePos: Pos)

  /** `children.remove(child)`: drops the first occurrence. */
  function RemoveFirst<T(==)>(xs: seq<T>, x: T): (r: seq<T>)
    ensures x in xs ==> |r| == |xs| - 1
    ensures x !in xs ==> r == xs
    ensures multiset(r) == multiset(xs) - multiset{x}
  {
    if xs == [] then []
    else
      assert xs == [xs[0]] + xs[1..];
      if xs[0] == x then xs[1..] else [xs[0]] + RemoveFirst(xs[1..], x)
  }

  /** Removing what was just appended restores the list. */
  lemma {:induction false} RemoveAppended<T>(xs: seq<T>, x: T)
    requires x !in xs
    ensures RemoveFirst(xs + [x], x) == xs
  {
    if xs != [] {
      assert (xs + [x])[1..] == xs[1..] + [x];
      RemoveAppended(xs[1..], x);
    }
  }

  /** Removing adds nothing: what is left was in the list. */
  lemma {:induction false} RemoveFirstWithin<T>(xs: seq<T>, x: T, y: T)
    requires y in RemoveFirst(xs, x)
    ensures y in xs
  {
    if xs != [] && xs[0] != x && y != xs[0] {
      assert RemoveFirst(xs, x) == [xs[0]] + RemoveFirst(xs[1..], x);
      RemoveFirstWithin(xs[1..], x, y);
    }
  }

  /** The elements of a subtree, within a ghost bound S. */
  ghost function SubAll(cs: seq<Element>, S: set<Element>): (r: set<Element>)
    reads S`children
    ensures r <= S
    ensures forall c :: c in cs ==> c.Subtree(S) <= r
    decreases S, 1, |cs|
  {
    if cs == [] then {} else SubAll(cs[..|cs| - 1], S) + cs[|cs| - 1].Subtree(S)
  }

  class Element {
    const elementId: string
    var hitbox: Hitbox
    var isInteractable: bool
    const zOrder: int
    var relativeOffset: Pos
    var parent: Element?
    var children: seq<Element>

    constructor (elementId: string, hitbox: Hitbox, isInteractable: bool, zOrder: int)
      ensures this.elementId == elementId && this.hitbox == hitbox
      ensures this.isInteractable == isInteractable && this.zOrder == zOrder
      ensures relativeOffset == (0, 0) && parent == null && children == []
    {
      this.elementId := elementId;
      this.hitbox := hitbox;
      this.isInteractable := isInteractable;
      this.zOrder := zOrder;
      relativeOffset := (0, 0);
      parent := null;
      children := [];
    }

    /** This element and everything below it, as far as S reaches. */
    ghost function Subtree(S: set<Element>): (r: set<Element>)
      reads S`children
      ensures r <= S
      ensures this in r <==> this in S
      decreases S, 0
    {
      if this !in S then {} else {this} + SubAll(children, S - {this})
    }

    /** The children form a tree inside S: no element is its own descendant
        (each step down leaves S smaller) and two children share no
        descendant. */
    ghost predicate Tree(S: set<Element>)
      reads S`children
      decreases S
    {
      && this in S
      && (forall c :: c in children ==> c.Tree(S - {this}))
      && (forall i, j :: 0 <= i < j < |children| ==> children[i].Subtree(S - {this}) !! children[j].Subtree(S - {this}))
    }

    /** The subtree stands at p: a rectangle's top-left corner is p, and each
        child stands at p plus its offset. */
    ghost predicate Placed(p: Pos, S: set<Element>)
      reads S`children, Subtree(S)`hitbox, Subtree(S)`relativeOffset
      decreases S
    {
      && this in S
      && (hitbox.Rectangle? ==> TopLeft(hitbox) == p)
      && forall c :: c in children ==> c in S - {this} && c.Placed(Add(p, c.relativeOffset), S - {this})
    }

    /** `handle_gesture`: an element that is not interactable, a gesture
        without a position, or a position outside the hitbox is passed over;
        otherwise the element posts its event and takes the gesture. */
    method HandleGesture(mousePos: Option<Pos>) returns (taken: bool, posted: Option<ElementEvent>)
      ensures taken <==> isInteractable && mousePos.Some? && ContainsPoint(hitbox, mousePos.value)
      ensures taken ==> posted == Some(ElementEvent(elementId, mousePos.value))
      ensures !taken ==> posted == None
      ensures taken && (hitbox.Circle? ==> hitbox.radius >= 0) ==> InBox(TopLeft(hitbox), Size(hitbox), mousePos.value)
    {
      if !isInteractable {
        return false, None;
      }
      if mousePos.None? || !ContainsPoint(hitbox, mousePos.value) {
        return false, None;
      }
      if hitbox.Circle? ==> hitbox.radius >= 0 {
        BoundingBoxCovers(hitbox, mousePos.value);
      }
      return true, Some(ElementEvent(elementId, mousePos.value));
    }

    /** `set_position`: moves this hitbox to p and every child, recursively,
        to p plus the child's offset. Only hitboxes of the subtree change. */
    method SetPosition(p: Pos, ghost S: set<Element>)
      requires Tree(S)
      modifies Subtree(S)`hitbox
      ensures Placed(p, S)
      ensures forall e :: e in Subtree(S) ==> Moved(old(e.hitbox), e.hitbox)
      decreases S
    {
      hitbox := MoveTo(hitbox, p);
      var i := 0;
      while i < |children|
        invariant 0 <= i <= |children|
        invariant hitbox == MoveTo(old(hitbox), p)
        invariant forall j :: 0 <= j < i ==> children[j].Placed(Add(p, children[j].relativeOffset), S - {this})
        invariant forall e :: e in Subtree(S) ==> Moved(old(e.hitbox), e.hitbox)
      {
        var c := children[i];
        c.SetPosition(Add(p, c.relativeOffset), S - {this});
        i := i + 1;
      }
    }

    /** `add_position`: `set_position` at the current top-left plus d, the
        corner being the one `get_topleft` answers as written (a circle's
        bottom-left corner). */
    method AddPosition(d: Pos, ghost S: set<Element>)
      requires Tree(S)
      modifies Subtree(S)`hitbox
      ensures Placed(Add(old(TopLeftAsWritten(hitbox)), d), S)
      ensures forall e :: e in Subtree(S) ==> Moved(old(e.hitbox), e.hitbox)
      ensures old(hitbox).Rectangle? ==> TopLeftAsWritten(hitbox) == Add(old(TopLeftAsWritten(hitbox)), d)
    {
      SetPosition(Add(TopLeftAsWritten(hitbox), d), S);
    }

    /** `add_child`. ValueError when the child is already attached here.
        Otherwise it is appended, points back to this element, takes the given
        offset or, without one, the difference of the two corners that
        `get_topleft` answers as written, and its subtree is placed at this
        element's corner plus that offset. S bounds the
        child's subtree and leaves this element out, so the child is not an
        ancestor of this element. */
    method AddChild(child: Element, offset: Option<Pos>, ghost S: set<Element>) returns (r: Result<()>)
      requires child.Tree(S) && this !in S
      modifies this`children, child`parent, child`relativeOffset, child.Subtree(S)`hitbox
      ensures child in old(children) <==> r == Err(ValueError)
      ensures child in old(children) ==>
                children == old(children) && child.parent == old(child.parent) &&
                child.relativeOffset == old(child.relativeOffset) && child.hitbox == old(child.hitbox)
      ensures child !in old(children) ==>
                && r == Ok(())
                && children == old(children) + [child]
                && child.parent == this
                && child.relativeOffset == (if offset.Some? then offset.value else Sub(TopLeftAsWritten(old(child.hitbox)), TopLeftAsWritten(hitbox)))
                && child.Placed(Add(TopLeftAsWritten(hitbox), child.relativeOffset), S)
                && (offset.None? ==> child.hitbox == old(child.hitbox))
      ensures forall e :: e in old(child.Subtree(S)) ==> Moved(old(e.hitbox), e.hitbox)
    {
      if child in children {
        return Err(ValueError);
      }
      children := children + [child];
      child.parent := this;
      var off := if offset.Some? then offset.value else Sub(TopLeftAsWritten(child.hitbox), TopLeftAsWritten(hitbox));
      child.relativeOffset := off;
      child.SetPosition(Add(TopLeftAsWritten(hitbox), off), S);
      return Ok(());
    }

    /** `remove_child`. ValueError when the child is not attached here;
        otherwise its first occurrence is dropped, and it forgets its parent
        and its offset. */
    method RemoveChild(child: Element) returns (r: Result<()>)
      modifies this`children, child`parent, child`relativeOffset
      ensures child !in old(children) <==> r == Err(ValueError)
      ensures child !in old(children) ==>
                children == old(children) && child.parent == old(child.parent) && child.relativeOffset == old(child.relativeOffset)
      ensures child in old(children) ==>
                r == Ok(()) && children == RemoveFirst(old(children), child) && child.parent == null && child.relativeOffset == (0, 0)
    {
      if child !in children {
        return Err(ValueError);
      }
      children := RemoveFirst(children, child);
      child.parent := null;
      child.relativeOffset := (0, 0);
      return Ok(());
    }
  }
}
