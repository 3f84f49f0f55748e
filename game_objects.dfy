/**
 * Hitboxes, game objects and the id-keyed object table of GameObjectManager.kt.
 * Integer sums such as `x + width` are unbounded here (Kotlin's 32-bit overflow is not modelled).
 */
module GameObjects {

  /**
   * `RectHitbox`, the only subclass of the sealed `Hitbox` class. Its `x` and `y` are
   * declared `var` in the source but nothing reassigns them: a moved hitbox is a new one.
   */
  datatype Hitbox = RectHitbox(x: int, y: int, width: int, height: int)

  /**
   * `RectHitbox.contains`: inclusive on all four edges. For a rectangle of positive size
   * the points it contains are exactly the corners of the unit cells it covers.
   */
  function Contains(h: Hitbox, px: int, py: int): (r: bool)
    ensures CoversCell(h, px, py) ==> r
    ensures h.width > 0 && h.height > 0 ==>
      (r <==> CoversCell(h, px, py) || CoversCell(h, px - 1, py) || CoversCell(h, px, py - 1) || CoversCell(h, px - 1, py - 1))
  {
    px >= h.x && px <= h.x + h.width && py >= h.y && py <= h.y + h.height
  }

  /**
   * `RectHitbox.intersects` against another rectangle: strict overlap. The offset from b's
   * corner to a's lies strictly between minus a's size and b's size; for rectangles of
   * positive size this says that their common part (from the larger left edge to the
   * smaller right edge, and likewise vertically) has positive width and positive height.
   */
  function Intersects(a: Hitbox, b: Hitbox): (r: bool)
    ensures r <==> -a.width < a.x - b.x < b.width && -a.height < a.y - b.y < b.height
    ensures a.width > 0 && a.height > 0 && b.width > 0 && b.height > 0 ==>
      (r <==> Max(a.x, b.x) < Min(a.x + a.width, b.x + b.width) && Max(a.y, b.y) < Min(a.y + a.height, b.y + b.height))
  {
    a.x < b.x + b.width && a.x + a.width > b.x && a.y < b.y + b.height && a.y + a.height > b.y
  }

  function Max(p: int, q: int): int { if p < q then q else p }

  function Min(p: int, q: int): int { if p < q then p else q }

  /** The unit cell at (px, py) lies inside the rectangle: the half-open reading of a hitbox. */
  predicate CoversCell(h: Hitbox, px: int, py: int)
  {
    h.x <= px < h.x + h.width && h.y <= py < h.y + h.height
  }

  /** Intersection does not depend on the order of the two rectangles. */
  lemma IntersectsSymmetric(a: Hitbox, b: Hitbox)
    ensures Intersects(a, b) <==> Intersects(b, a)
  {
  }

  /**
   * For rectangles of positive size, strict overlap means exactly that the two
   * rectangles cover a common unit cell.
   */
  lemma IntersectsIffSharedCell(a: Hitbox, b: Hitbox)
    requires a.width > 0 && a.height > 0 && b.width > 0 && b.height > 0
    ensures Intersects(a, b) <==> exists px, py :: CoversCell(a, px, py) && CoversCell(b, px, py)
  {
    if Intersects(a, b) {
      var px := if a.x < b.x then b.x else a.x;
      var py := if a.y < b.y then b.y else a.y;
      assert CoversCell(a, px, py) && CoversCell(b, px, py);
    }
  }

  /** Intersecting rectangles of non-negative size have a point that both `contains` accept. */
  lemma IntersectionIsContained(a: Hitbox, b: Hitbox)
    requires a.width >= 0 && a.height >= 0 && b.width >= 0 && b.height >= 0
    requires Intersects(a, b)
    ensures exists px, py :: Contains(a, px, py) && Contains(b, px, py)
  {
    var px := if a.x < b.x then b.x else a.x;
    var py := if a.y < b.y then b.y else a.y;
    assert Contains(a, px, py) && Contains(b, px, py);
  }

  /**
   * Rectangles that only touch along an edge share points but do not intersect: a neighbour
   * flush against the right edge, and one flush against the bottom edge.
   */
  lemma TouchingEdgesDoNotIntersect(a: Hitbox, w: int, h: int)
    requires a.width >= 0 && a.height >= 0 && w >= 0 && h >= 0
    ensures !Intersects(a, RectHitbox(a.x + a.width, a.y, w, h))
    ensures Contains(a, a.x + a.width, a.y) && Contains(RectHitbox(a.x + a.width, a.y, w, h), a.x + a.width, a.y)
    ensures !Intersects(a, RectHitbox(a.x, a.y + a.height, w, h))
    ensures Contains(a, a.x, a.y + a.height) && Contains(RectHitbox(a.x, a.y + a.height, w, h), a.x, a.y + a.height)
  {
  }

  /** A game object (`Object`): an id, a replaceable hitbox, a tag and an enabled flag. */
  class Object {
    const elementId: int
    var hitbox: Hitbox
    var tag: string
    var isEnabled: bool

    constructor (elementId: int, hitbox: Hitbox)
      ensures this.elementId == elementId && this.hitbox == hitbox && tag == "" && isEnabled
    {
      this.elementId := elementId;
      this.hitbox := hitbox;
      tag := "";
      isEnabled := true;
    }

    /** The `x` getter: the hitbox's left edge, the smallest abscissa the hitbox contains. */
    function X(): (r: int)
      reads this
      ensures forall px, py :: Contains(hitbox, px, py) ==> r <= px
      ensures hitbox.width >= 0 && hitbox.height >= 0 ==> Contains(hitbox, r, hitbox.y)
    {
      hitbox.x
    }

    /** The `y` getter: the hitbox's top edge, the smallest ordinate the hitbox contains. */
    function Y(): (r: int)
      reads this
      ensures forall px, py :: Contains(hitbox, px, py) ==> r <= py
      ensures hitbox.width >= 0 && hitbox.height >= 0 ==> Contains(hitbox, hitbox.x, r)
    {
      hitbox.y
    }

    /**
     * `Object.contains`, delegated to the hitbox: the points from the object's position to
     * its position plus its size, edges included.
     */
    function ContainsPoint(px: int, py: int): (r: bool)
      reads this
      ensures r <==> X() <= px <= X() + hitbox.width && Y() <= py <= Y() + hitbox.height
      ensures hitbox.width >= 0 && hitbox.height >= 0 && px == X() && py == Y() ==> r
    {
      Contains(hitbox, px, py)
    }

    /**
     * `Object.intersects`, delegated to the hitboxes: the test reads the same from either
     * side, and two intersecting objects of non-negative size share a point both contain.
     */
    function IntersectsWith(other: Object): (r: bool)
      reads this, other
      ensures r <==> Intersects(other.hitbox, hitbox)
      ensures r && hitbox.width >= 0 && hitbox.height >= 0 && other.hitbox.width >= 0 && other.hitbox.height >= 0 ==>
        exists px, py :: Contains(hitbox, px, py) && Contains(other.hitbox, px, py)
    {
      if Intersects(hitbox, other.hitbox) && hitbox.width >= 0 && hitbox.height >= 0 && other.hitbox.width >= 0 && other.hitbox.height >= 0 then
        IntersectionIsContained(hitbox, other.hitbox);
        true
      else
        Intersects(hitbox, other.hitbox)
    }
  }

  /** The test `getObjectAtPoint` applies to each object. */
  predicate HitAt(o: Object, px: int, py: int)
    reads o
  {
    o.isEnabled && o.ContainsPoint(px, py)
  }

  /** The test `getIntersections` applies to each candidate `o` against `current`. */
  predicate Collides(current: Object, o: Object)
    reads current, o
  {
    o != current && o.isEnabled && current.IntersectsWith(o)
  }

  /** The sequence `s` without the element `x`, the others in their order. */
  function Without(s: seq<int>, x: int): (r: seq<int>)
    ensures forall y :: y in r <==> y in s && y != x
    ensures |r| <= |s|
  {
    if s == [] then []
    else Without(s[..|s| - 1], x) + (if s[|s| - 1] == x then [] else [s[|s| - 1]])
  }

  /** Dropping an element keeps a duplicate-free sequence duplicate-free. */
  lemma {:induction false} WithoutDistinct(s: seq<int>, x: int)
    requires DistinctIds(s)
    ensures DistinctIds(Without(s, x))
  {
    if s != [] {
      var init := s[..|s| - 1];
      assert DistinctIds(init);
      WithoutDistinct(init, x);
      assert s[|s| - 1] !in init;
    }
  }

  predicate DistinctIds(s: seq<int>)
  {
    forall i, j :: 0 <= i < j < |s| ==> s[i] != s[j]
  }

  /** `GameObjectManager`: objects keyed by element id, kept in insertion order. */
  class GameObjectManager {
    var gameObjects: map<int, Object>
    /** The key order of the source's `LinkedHashMap`: order of first insertion. */
    var order: seq<int>

    /** Every key appears once in `order`, and distinct keys hold distinct objects. */
    ghost predicate Valid()
      reads this
    {
      && DistinctIds(order)
      && (forall id :: id in gameObjects ==> id in order)
      && (forall k :: 0 <= k < |order| ==> order[k] in gameObjects)
      && (forall i, j :: i in gameObjects && j in gameObjects && i != j ==> gameObjects[i] != gameObjects[j])
    }

    constructor ()
      ensures Valid() && gameObjects == map[] && order == []
    {
      gameObjects := map[];
      order := [];
    }

    /** `addGameObject`: stores a new object under `elementId`, replacing any previous one in place. */
    method AddGameObject(elementId: int, hitbox: Hitbox, tag: string) returns (obj: Object)
      requires Valid()
      modifies this
      ensures Valid() && fresh(obj)
      ensures obj.elementId == elementId && obj.hitbox == hitbox && obj.tag == tag && obj.isEnabled
      ensures gameObjects == old(gameObjects)[elementId := obj]
      ensures order == if elementId in old(gameObjects) then old(order) else old(order) + [elementId]
    {
      obj := new Object(elementId, hitbox);
      obj.tag := tag;
      if elementId !in gameObjects {
        order := order + [elementId];
      }
      gameObjects := gameObjects[elementId := obj];
    }

    /** `removeGameObject`: forgets that id only. */
    method RemoveGameObject(elementId: int)
      requires Valid()
      modifies this
      ensures Valid()
      ensures gameObjects == old(gameObjects) - {elementId} && order == Without(old(order), elementId)
      ensures GetGameObject(elementId) == null
    {
      WithoutDistinct(order, elementId);
      gameObjects := gameObjects - {elementId};
      order := Without(order, elementId);
      assert forall k :: 0 <= k < |order| ==> order[k] in order;
    }

    /** `getGameObject`: the object stored under the id, or null. */
    function GetGameObject(elementId: int): (r: Object?)
      reads this
      ensures r != null <==> elementId in gameObjects
      ensures r != null ==> r == gameObjects[elementId]
    {
      if elementId in gameObjects then gameObjects[elementId] else null
    }

    /** `getObjectAtPoint`: the first enabled object, in insertion order, whose hitbox contains the point. */
    method GetObjectAtPoint(px: int, py: int) returns (r: Object?)
      requires Valid()
      ensures r == null <==> forall k :: 0 <= k < |order| ==> !HitAt(gameObjects[order[k]], px, py)
      ensures r != null ==> exists k :: 0 <= k < |order| && r == gameObjects[order[k]] && HitAt(r, px, py)
                                     && (forall j :: 0 <= j < k ==> !HitAt(gameObjects[order[j]], px, py))
    {
      var i := 0;
      while i < |order|
        invariant 0 <= i <= |order|
        invariant forall j :: 0 <= j < i ==> !HitAt(gameObjects[order[j]], px, py)
      {
        var o := gameObjects[order[i]];
        if o.isEnabled && o.ContainsPoint(px, py) {
          return o;
        }
        i := i + 1;
      }
      return null;
    }

    /** The objects among `ids`, in that order, that collide with `current`. */
    ghost function Colliding(current: Object, ids: seq<int>): seq<Object>
      requires forall k :: 0 <= k < |ids| ==> ids[k] in gameObjects
      reads this, current, gameObjects.Values
    {
      if ids == [] then []
      else
        var o := gameObjects[ids[|ids| - 1]];
        Colliding(current, ids[..|ids| - 1]) + (if Collides(current, o) then [o] else [])
    }

    lemma {:induction false} CollidingMembers(current: Object, ids: seq<int>)
      requires forall k :: 0 <= k < |ids| ==> ids[k] in gameObjects
      ensures forall o :: o in Colliding(current, ids) <==>
        (exists k :: 0 <= k < |ids| && o == gameObjects[ids[k]]) && Collides(current, o)
    {
      if ids != [] {
        var init := ids[..|ids| - 1];
        CollidingMembers(current, init);
        forall o ensures o in Colliding(current, ids) <==>
          (exists k :: 0 <= k < |ids| && o == gameObjects[ids[k]]) && Collides(current, o)
        {
          if (exists k :: 0 <= k < |ids| && o == gameObjects[ids[k]]) && Collides(current, o) {
            var k :| 0 <= k < |ids| && o == gameObjects[ids[k]];
            if k < |ids| - 1 {
              assert init[k] == ids[k];
            }
          }
          if o in Colliding(current, init) {
            var k :| 0 <= k < |init| && o == gameObjects[init[k]];
            assert ids[k] == init[k];
          }
        }
      }
    }

    /**
     * `getIntersections`: empty for an unknown id; otherwise, in insertion order, exactly the
     * enabled objects other than the current one whose hitbox intersects the current one's.
     */
    method GetIntersections(elementId: int) returns (r: seq<Object>)
      requires Valid()
      ensures elementId !in gameObjects ==> r == []
      ensures elementId in gameObjects ==> r == Colliding(gameObjects[elementId], order)
      ensures elementId in gameObjects ==> forall o :: o in r <==>
        (exists id :: id in gameObjects && id != elementId && o == gameObjects[id])
        && o.isEnabled && Intersects(gameObjects[elementId].hitbox, o.hitbox)
    {
      if elementId !in gameObjects {
        return [];
      }
      var current := gameObjects[elementId];
      r := [];
      var i := 0;
      while i < |order|
        invariant 0 <= i <= |order|
        invariant r == Colliding(current, order[..i])
      {
        var o := gameObjects[order[i]];
        if o != current && o.isEnabled && current.IntersectsWith(o) {
          r := r + [o];
        }
        assert order[..i + 1][..i] == order[..i];
        i := i + 1;
      }
      assert order[..i] == order;
      CollidingMembers(current, order);
      forall o ensures o in r <==>
        (exists id :: id in gameObjects && id != elementId && o == gameObjects[id])
        && o.isEnabled && Intersects(current.hitbox, o.hitbox)
      {
        if o in r {
          var k :| 0 <= k < |order| && o == gameObjects[order[k]];
          assert order[k] in gameObjects && order[k] != elementId;
        }
        if exists id :: id in gameObjects && id != elementId && o == gameObjects[id] {
          var id :| id in gameObjects && id != elementId && o == gameObjects[id];
          var k :| 0 <= k < |order| && order[k] == id;
        }
      }
    }

    /**
     * `updateHitboxPosition`: the object's hitbox is replaced by one at (x, y) of the same
     * size; an unknown id changes nothing.
     */
    method UpdateHitboxPosition(elementId: int, x: int, y: int)
      requires Valid()
      modifies if elementId in gameObjects then {gameObjects[elementId]} else {}
      ensures elementId in gameObjects ==>
        var obj := gameObjects[elementId];
        && obj.hitbox == RectHitbox(x, y, old(obj.hitbox.width), old(obj.hitbox.height))
        && obj.X() == x && obj.Y() == y
        && obj.tag == old(obj.tag) && obj.isEnabled == old(obj.isEnabled)
    {
      if elementId in gameObjects {
        var obj := gameObjects[elementId];
        obj.hitbox := RectHitbox(x, y, obj.hitbox.width, obj.hitbox.height);
      }
    }
  }
}
