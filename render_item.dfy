/** The `RenderItem` entity: a drawable game object whose fields the collision step and
    the builders update in place. */
module RenderItems {
  import opened Geometry
  import opened Collision

  /** UINT ObjCBIndex = -1: the all-ones 32-bit value until a builder assigns an index. */
  const UnassignedIndex: nat := 0xFFFF_FFFF

  class RenderItem {
    /** The translation row (_41, _42, _43) of the World matrix. */
    var world: Float3
    /** Index of this item's object constant buffer. */
    var objCBIndex: nat
    /** The `Type` tag. */
    var kind: Kind
    var gameOver: bool
    var removeAsteroid: bool
    var dontMove: bool
    /** DrawIndexedInstanced parameters. */
    var indexCount: nat
    var startIndexLocation: nat
    var baseVertexLocation: int

    /** `std::make_unique<RenderItem>()` followed by the assignment of its `Type`: the
        object is value-initialised, so the three flags start false, World is the
        identity (translation row at the origin), ObjCBIndex is -1 as a UINT and the draw
        range is empty. */
    constructor (kind: Kind)
      ensures this.kind == kind && world == Float3(0.0, 0.0, 0.0)
      ensures objCBIndex == UnassignedIndex
      ensures !gameOver && !removeAsteroid && !dontMove
      ensures indexCount == 0 && startIndexLocation == 0 && baseVertexLocation == 0
    {
      this.kind := kind;
      world := Float3(0.0, 0.0, 0.0);
      objCBIndex := UnassignedIndex;
      gameOver, removeAsteroid, dontMove := false, false, false;
      indexCount, startIndexLocation, baseVertexLocation := 0, 0, 0;
    }

    /** The collision/update step. Walks a copy of `opaqueList` from `offset + 1`,
        comparing this item's World (as it was on entry) with each later item's, applies
        the rule table of `Collision.Step` to the copy and to this item's flags, and
        returns the copy. Only after the loop, and only if `dontMove` is false, is World
        stored moved by this item's per-frame step. */
    method CheckCollision(opaqueList: seq<RenderItem>, offset: nat) returns (result: seq<RenderItem>)
      modifies this`world, this`gameOver, this`removeAsteroid
      ensures var o := Scan(Body(kind, old(world)), old(Entries(opaqueList)), offset, offset + 1,
                            Flags(old(gameOver), old(removeAsteroid)));
              result == Items(o.list) && gameOver == o.flags.gameOver && removeAsteroid == o.flags.removeAsteroid
      ensures world == if dontMove then old(world) else Moved(kind, old(world))
    {
      var translation := world;
      if kind == Asteroid {
        translation := Translated(world, AsteroidStep);
      }
      if kind == Projectile {
        translation := Translated(world, ProjectileStep);
      }

      ghost var me := Body(kind, world);
      var flags := Flags(gameOver, removeAsteroid);
      ghost var goal := Scan(me, Entries(opaqueList), offset, offset + 1, flags);
      var list := opaqueList;
      var i := offset + 1;
      assert Scan(me, Entries(list), offset, i, flags) == goal;
      while i < |list|
        invariant offset < i
        invariant world == old(world) && me == Body(kind, world)
        invariant Scan(me, Entries(list), offset, i, flags) == goal
        decreases |list| - i
      {
        ghost var before, f0, prev := list, flags, i;
        var other := list[i];
        if Overlaps(world, other.world) {
          if kind == Asteroid && other.kind == Player {
            flags := flags.(gameOver := !flags.gameOver);
            list := [];
          } else if kind == Player && other.kind == Asteroid {
            flags := flags.(gameOver := !flags.gameOver);
            list := [];
          } else if kind == Asteroid && other.kind == Projectile {
            flags := flags.(removeAsteroid := !flags.removeAsteroid);
            list := EraseAt(list, offset);
            list := EraseAt(list, i - 1);
          } else if kind == Projectile && other.kind == Asteroid {
            flags := flags.(removeAsteroid := !flags.removeAsteroid);
            list := EraseAt(list, i - 1);
            list := EraseAt(list, offset);
          }
        }
        i := i + 1;
        ScanOnItems(me, before, offset, prev, f0, list, flags, i);
      }
      assert goal == Outcome(Entries(list), flags);
      gameOver, removeAsteroid := flags.gameOver, flags.removeAsteroid;
      if !dontMove {
        world := translation;
      }
      result := list;
    }
  }

  /** The opaque list as the loop sees it: each item with its tag and translation. */
  function Entries(list: seq<RenderItem>): (es: seq<Entry<RenderItem>>)
    reads list
    ensures Items(es) == list
    ensures forall j :: 0 <= j < |list| ==> es[j].body == Body(list[j].kind, list[j].world)
  {
    seq(|list|, j requires 0 <= j < |list| reads list => Entry(list[j], Body(list[j].kind, list[j].world)))
  }

  /** One round of the loop read on the item list itself: what `Step` makes of the
      entries is the entries of the list after the same erasures. */
  lemma StepOnItems(me: Body, list: seq<RenderItem>, offset: nat, i: nat, f: Flags)
    requires offset < i < |list|
    ensures var o := Step(me, Entries(list), offset, i, f);
            var rule := if Overlaps(me.pos, list[i].world) then RuleFor(me.kind, list[i].kind) else NoRule;
            && (rule == NoRule ==> o == Outcome(Entries(list), f))
            && (rule == EndGame ==> o == Outcome(Entries([]), f.(gameOver := !f.gameOver)))
            && (rule == AsteroidFirst ==>
                  o == Outcome(Entries(EraseAt(EraseAt(list, offset), i - 1)), f.(removeAsteroid := !f.removeAsteroid)))
            && (rule == ProjectileFirst ==>
                  o == Outcome(Entries(EraseAt(EraseAt(list, i - 1), offset)), f.(removeAsteroid := !f.removeAsteroid)))
  {
    EntriesErase(list, offset);
    EntriesErase(EraseAt(list, offset), i - 1);
    EntriesErase(list, i - 1);
    EntriesErase(EraseAt(list, i - 1), offset);
  }

  /** One round of the loop on the item list: when `after` and `g` are what the branch
      selected by the pair at `i` makes of `before` and `f`, the rest of the walk from
      `i + 1` over `after` ends where the walk from `i` over `before` does. */
  lemma ScanOnItems(me: Body, before: seq<RenderItem>, offset: nat, i: nat, f: Flags, after: seq<RenderItem>, g: Flags, next: nat)
    requires offset < i < |before| && next == i + 1
    requires var rule := if Overlaps(me.pos, before[i].world) then RuleFor(me.kind, before[i].kind) else NoRule;
             && (rule == NoRule ==> after == before && g == f)
             && (rule == EndGame ==> after == [] && g == f.(gameOver := !f.gameOver))
             && (rule == AsteroidFirst ==>
                   after == EraseAt(EraseAt(before, offset), i - 1) && g == f.(removeAsteroid := !f.removeAsteroid))
             && (rule == ProjectileFirst ==>
                   after == EraseAt(EraseAt(before, i - 1), offset) && g == f.(removeAsteroid := !f.removeAsteroid))
    ensures Scan(me, Entries(before), offset, i, f) == Scan(me, Entries(after), offset, next, g)
  {
    StepOnItems(me, before, offset, i, f);
    assert Step(me, Entries(before), offset, i, f) == Outcome(Entries(after), g);
  }

  /** Taking an item out of the list takes its entry out of the loop's view. */
  lemma EntriesErase(list: seq<RenderItem>, k: nat)
    requires k < |list|
    ensures Entries(EraseAt(list, k)) == EraseAt(Entries(list), k)
  {
  }
}
