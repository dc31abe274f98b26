/**
 * Proximity between interactors and interactables.  Each frame every
 * interactor's box is tested against every interactable's box; the last
 * overlapping interactable becomes its in-range target, interactables it
 * does not overlap lose their highlight, and a newly targeted interactable
 * gains a highlight stamped with the current time.
 */
module Interaction {
  import opened Optional

  datatype Vec2 = Vec2(x: real, y: real)

  /** An entity of the scene, by identity. */
  type Entity = nat

  datatype Interactor = Interactor(width: real, height: real)

  /** `first` stays true until the interactable has been used. */
  datatype Interactable = Interactable(id: string, height: real, width: real, first: bool)

  datatype InteractionEvent = InteractionEvent(id: string)

  function Abs(x: real): real {
    if x < 0.0 then -x else x
  }

  /**
   * Whether two boxes, each centred at its position, overlap.  Boxes that
   * only touch along an edge overlap.
   */
  function AabbOverlap(pos1: Vec2, width1: real, height1: real, pos2: Vec2, width2: real, height2: real): (r: bool)
    ensures r <==>
      && Abs(pos1.x - pos2.x) <= (width1 + width2) / 2.0
      && Abs(pos1.y - pos2.y) <= (height1 + height2) / 2.0
  {
    var halfWidth1, halfHeight1 := width1 / 2.0, height1 / 2.0;
    var halfWidth2, halfHeight2 := width2 / 2.0, height2 / 2.0;
    var left1, right1 := pos1.x - halfWidth1, pos1.x + halfWidth1;
    var top1, bottom1 := pos1.y + halfHeight1, pos1.y - halfHeight1;
    var left2, right2 := pos2.x - halfWidth2, pos2.x + halfWidth2;
    var top2, bottom2 := pos2.y + halfHeight2, pos2.y - halfHeight2;
    !(right1 < left2 || left1 > right2 || top1 < bottom2 || bottom1 > top2)
  }

  /** The test does not depend on which box is given first. */
  lemma AabbOverlapSymmetric(pos1: Vec2, width1: real, height1: real, pos2: Vec2, width2: real, height2: real)
    ensures AabbOverlap(pos1, width1, height1, pos2, width2, height2)
        == AabbOverlap(pos2, width2, height2, pos1, width1, height1)
  {
  }

  datatype InteractorEntity = InteractorEntity(entity: Entity, position: Vec2, interactor: Interactor)

  datatype InteractableEntity = InteractableEntity(entity: Entity, position: Vec2, interactable: Interactable)

  predicate Overlaps(a: InteractorEntity, b: InteractableEntity) {
    AabbOverlap(a.position, a.interactor.width, a.interactor.height,
                b.position, b.interactable.width, b.interactable.height)
  }

  /** A query yields each entity once. */
  predicate DistinctEntities(items: seq<InteractableEntity>) {
    forall i, j | 0 <= i < j < |items| :: items[i].entity != items[j].entity
  }

  predicate DistinctInteractors(actors: seq<InteractorEntity>) {
    forall i, j | 0 <= i < j < |actors| :: actors[i].entity != actors[j].entity
  }

  /** The position in `items` of the last interactable that `a` overlaps. */
  function LastOverlap(a: InteractorEntity, items: seq<InteractableEntity>): (r: Option<nat>)
    ensures r.Some? ==>
      && r.value < |items|
      && Overlaps(a, items[r.value])
      && forall j | r.value < j < |items| :: !Overlaps(a, items[j])
    ensures r.None? ==> forall j | 0 <= j < |items| :: !Overlaps(a, items[j])
    decreases |items|
  {
    if items == [] then None
    else if Overlaps(a, items[|items| - 1]) then Some(|items| - 1)
    else LastOverlap(a, items[..|items| - 1])
  }

  /** The interactables that `a` does not overlap. */
  function NonOverlapping(a: InteractorEntity, items: seq<InteractableEntity>): set<Entity> {
    set j | 0 <= j < |items| && !Overlaps(a, items[j]) :: items[j].entity
  }

  lemma NonOverlappingSnoc(a: InteractorEntity, items: seq<InteractableEntity>, b: InteractableEntity)
    ensures NonOverlapping(a, items + [b]) ==
      NonOverlapping(a, items) + if Overlaps(a, b) then {} else {b.entity}
  {
    var s := items + [b];
    forall e | e in NonOverlapping(a, s)
      ensures e in NonOverlapping(a, items) + if Overlaps(a, b) then {} else {b.entity}
    {
      var j :| 0 <= j < |s| && !Overlaps(a, s[j]) && s[j].entity == e;
      if j < |items| {
        assert s[j] == items[j];
      }
    }
    forall e | e in NonOverlapping(a, items) ensures e in NonOverlapping(a, s) {
      var j :| 0 <= j < |items| && !Overlaps(a, items[j]) && items[j].entity == e;
      assert s[j] == items[j];
    }
    if !Overlaps(a, b) {
      assert s[|items|] == b;
    }
  }

  /** The in-range and highlight components of the world. */
  datatype Components = Components(inRange: map<Entity, string>, highlights: map<Entity, real>)

  /**
   * One interactor's pass.  Non-overlapping interactables lose their
   * highlight.  Then, comparing the in-range id it had with the target
   * found: a new or different target is recorded and highlighted at time
   * `now`; losing every target removes the in-range id; otherwise nothing
   * more changes.
   */
  function DetectOne(c: Components, a: InteractorEntity, items: seq<InteractableEntity>, now: real): (r: Components)
    requires DistinctEntities(items)
    ensures r.inRange - {a.entity} == c.inRange - {a.entity}
    ensures a.entity in r.inRange <==> LastOverlap(a, items).Some?
    ensures LastOverlap(a, items).Some? ==>
      r.inRange[a.entity] == items[LastOverlap(a, items).value].interactable.id
    ensures forall j | 0 <= j < |items| && !Overlaps(a, items[j]) :: items[j].entity !in r.highlights
    ensures forall e | e in r.highlights ::
      (e in c.highlights && r.highlights[e] == c.highlights[e]) || r.highlights[e] == now
    ensures LastOverlap(a, items).Some? && (a.entity !in c.inRange || c.inRange[a.entity] != r.inRange[a.entity]) ==>
      items[LastOverlap(a, items).value].entity in r.highlights &&
      r.highlights[items[LastOverlap(a, items).value].entity] == now
    ensures a.entity in c.inRange && LastOverlap(a, items).Some? && c.inRange[a.entity] == r.inRange[a.entity] ==>
      r == Components(c.inRange, c.highlights - NonOverlapping(a, items))
    ensures r.highlights ==
      if LastOverlap(a, items).Some? && (a.entity !in c.inRange || c.inRange[a.entity] != r.inRange[a.entity])
      then (c.highlights - NonOverlapping(a, items))[items[LastOverlap(a, items).value].entity := now]
      else c.highlights - NonOverlapping(a, items)
  {
    var found := LastOverlap(a, items);
    var highlights := c.highlights - NonOverlapping(a, items);
    if found.Some? && (a.entity !in c.inRange || c.inRange[a.entity] != items[found.value].interactable.id) then
      var target := items[found.value];
      assert target.entity !in NonOverlapping(a, items);
      Components(c.inRange[a.entity := target.interactable.id], highlights[target.entity := now])
    else if found.None? && a.entity in c.inRange then
      Components(c.inRange - {a.entity}, highlights)
    else
      Components(c.inRange, highlights)
  }

  /** Every interactor's pass, in query order. */
  function DetectAll(c: Components, actors: seq<InteractorEntity>, items: seq<InteractableEntity>, now: real): (r: Components)
    requires DistinctEntities(items)
    decreases |actors|
  {
    if actors == [] then c
    else DetectOne(DetectAll(c, actors[..|actors| - 1], items, now), actors[|actors| - 1], items, now)
  }

  /**
   * After the whole pass each interactor is in range exactly when it
   * overlaps some interactable, and then holds the id of the last one.
   */
  lemma {:induction false} DetectAllInRange(c: Components, actors: seq<InteractorEntity>, items: seq<InteractableEntity>, now: real, i: nat)
    requires DistinctEntities(items) && DistinctInteractors(actors) && i < |actors|
    ensures var r := DetectAll(c, actors, items, now);
      && (actors[i].entity in r.inRange <==> LastOverlap(actors[i], items).Some?)
      && (LastOverlap(actors[i], items).Some? ==>
            r.inRange[actors[i].entity] == items[LastOverlap(actors[i], items).value].interactable.id)
    decreases |actors|
  {
    var n := |actors| - 1;
    var before := DetectAll(c, actors[..n], items, now);
    if i < n {
      DetectAllInRange(c, actors[..n], items, now, i);
      assert actors[..n][i] == actors[i];
      assert actors[i].entity != actors[n].entity;
      var r := DetectOne(before, actors[n], items, now);
      assert actors[i].entity in r.inRange - {actors[n].entity} <==> actors[i].entity in before.inRange - {actors[n].entity};
    }
  }

  /** The interactors' in-range ids and the interactables' highlights. */
  class World {
    var inRange: map<Entity, string>
    var highlights: map<Entity, real>

    function Snapshot(): Components
      reads this
    {
      Components(inRange, highlights)
    }

    constructor (inRange: map<Entity, string>, highlights: map<Entity, real>)
      ensures Snapshot() == Components(inRange, highlights)
    {
      this.inRange := inRange;
      this.highlights := highlights;
    }

    /**
     * The inner loop of the pass for interactor `a`: every interactable it
     * does not overlap loses its highlight, and the last one it overlaps is
     * reported by id and by entity.
     */
    method ScanInteractables(a: InteractorEntity, items: seq<InteractableEntity>)
      returns (foundOverlap: Option<string>, interactableEntity: Option<Entity>)
      modifies this`highlights
      ensures highlights == old(highlights) - NonOverlapping(a, items)
      ensures LastOverlap(a, items).None? ==> foundOverlap.None? && interactableEntity.None?
      ensures LastOverlap(a, items).Some? ==>
        var k := LastOverlap(a, items).value;
        foundOverlap == Some(items[k].interactable.id) && interactableEntity == Some(items[k].entity)
    {
      foundOverlap, interactableEntity := None, None;
      var j := 0;
      while j < |items|
        invariant 0 <= j <= |items|
        invariant highlights == old(highlights) - NonOverlapping(a, items[..j])
        invariant LastOverlap(a, items[..j]).None? ==> foundOverlap.None? && interactableEntity.None?
        invariant LastOverlap(a, items[..j]).Some? ==>
          var k := LastOverlap(a, items[..j]).value;
          foundOverlap == Some(items[k].interactable.id) && interactableEntity == Some(items[k].entity)
      {
        var b := items[j];
        assert items[..j + 1] == items[..j] + [b];
        NonOverlappingSnoc(a, items[..j], b);
        if Overlaps(a, b) {
          foundOverlap := Some(b.interactable.id);
          interactableEntity := Some(b.entity);
        } else {
          highlights := highlights - {b.entity};
        }
        j := j + 1;
      }
      assert items[..j] == items;
    }

    /**
     * The overlap pass of one frame at elapsed time `now`; component
     * insertions and removals take effect in the order they are issued.
     */
    method DetectOverlaps(actors: seq<InteractorEntity>, items: seq<InteractableEntity>, now: real)
      requires DistinctEntities(items)
      modifies this
      ensures Snapshot() == DetectAll(old(Snapshot()), actors, items, now)
    {
      var i := 0;
      while i < |actors|
        invariant 0 <= i <= |actors|
        invariant Snapshot() == DetectAll(old(Snapshot()), actors[..i], items, now)
      {
        var a := actors[i];
        var foundOverlap, interactableEntity := ScanInteractables(a, items);
        var current := if a.entity in inRange then Some(inRange[a.entity]) else None;
        if current.None? && foundOverlap.Some? {
          inRange := inRange[a.entity := foundOverlap.value];
          if interactableEntity.Some? {
            highlights := highlights[interactableEntity.value := now];
          }
        } else if current.Some? && foundOverlap.Some? && current.value != foundOverlap.value {
          inRange := inRange[a.entity := foundOverlap.value];
          if interactableEntity.Some? {
            highlights := highlights[interactableEntity.value := now];
          }
        } else if current.Some? && foundOverlap.None? {
          inRange := inRange - {a.entity};
        }
        assert actors[..i + 1][..i] == actors[..i];
        i := i + 1;
      }
      assert actors[..i] == actors;
    }
  }

  /**
   * With two overlapping interactables, switching the target from the
   * first to the second leaves the first one highlighted as well.
   */
  lemma StaleHighlightOnSwitch(now: real)
    requires now != 1.0
    ensures var a := InteractorEntity(0, Vec2(0.0, 0.0), Interactor(10.0, 10.0));
      var first := InteractableEntity(1, Vec2(5.0, 0.0), Interactable("fireplace", 10.0, 10.0, true));
      var second := InteractableEntity(2, Vec2(-5.0, 0.0), Interactable("stereo", 10.0, 10.0, true));
      var r := DetectOne(Components(map[0 := "fireplace"], map[1 := 1.0]), a, [first, second], now);
      r.inRange == map[0 := "stereo"] && r.highlights == map[1 := 1.0, 2 := now]
  {
    var a := InteractorEntity(0, Vec2(0.0, 0.0), Interactor(10.0, 10.0));
    var first := InteractableEntity(1, Vec2(5.0, 0.0), Interactable("fireplace", 10.0, 10.0, true));
    var second := InteractableEntity(2, Vec2(-5.0, 0.0), Interactable("stereo", 10.0, 10.0, true));
    var items := [first, second];
    assert Overlaps(a, first) && Overlaps(a, second);
    assert LastOverlap(a, items) == Some(1);
    assert NonOverlapping(a, items) == {};
  }

  /**
   * An interactor of size 10 at the origin and an interactable "fireplace"
   * of size 10 at (5, 0): the pass records the fireplace as in range and
   * highlights it at the current time.
   */
  lemma EnterRangeScenario(now: real)
    ensures var a := InteractorEntity(0, Vec2(0.0, 0.0), Interactor(10.0, 10.0));
      var fire := InteractableEntity(1, Vec2(5.0, 0.0), Interactable("fireplace", 10.0, 10.0, true));
      DetectOne(Components(map[], map[]), a, [fire], now) == Components(map[0 := "fireplace"], map[1 := now])
  {
    var a := InteractorEntity(0, Vec2(0.0, 0.0), Interactor(10.0, 10.0));
    var fire := InteractableEntity(1, Vec2(5.0, 0.0), Interactable("fireplace", 10.0, 10.0, true));
    assert Overlaps(a, fire);
    assert LastOverlap(a, [fire]) == Some(0);
  }
}
