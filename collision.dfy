/** The per-entity collision/update step of `RenderItem::CheckCollision`, stated on values.

    The loop of CheckCollision walks a by-value copy of the opaque list from `offset + 1`
    upwards, compares the calling item's translation with each later item's, applies a
    small rule table keyed on the two type tags (clearing or erasing from the copy, and
    toggling the caller's flags) and returns the copy. Nothing it compares changes during
    the loop (only the caller's two flags do, and the loop reads them only to toggle
    them), so each list entry is modelled as the item together with a snapshot of its tag
    and translation, and the loop as the recursive function `Scan`. The class method in
    render_item.dfy is proved against `Scan`. */
module Collision {
  import opened Geometry

  /** The `Type` tag strings the builders assign: "testBox", "player", "asteroid",
      "projectile". */
  datatype Kind = TestBox | Player | Asteroid | Projectile

  /** What the loop reads of an item: its tag and the translation row of its World. */
  datatype Body = Body(kind: Kind, pos: Float3)

  /** One element of the opaque list: the item (a pointer in the source) and its body. */
  datatype Entry<T> = Entry(item: T, body: Body)

  /** The calling item's `gameOver` and `RemoveAsteroid` flags. */
  datatype Flags = Flags(gameOver: bool, removeAsteroid: bool)

  /** What the loop leaves behind: the (copied) list and the caller's flags. */
  datatype Outcome<T> = Outcome(list: seq<Entry<T>>, flags: Flags)

  /** The items of a list of entries, in order. */
  function Items<T>(es: seq<Entry<T>>): (r: seq<T>)
    ensures |r| == |es| && forall j :: 0 <= j < |es| ==> r[j] == es[j].item
  {
    seq(|es|, j requires 0 <= j < |es| => es[j].item)
  }

  /** The row of the rule table a pair of tags selects. */
  datatype Rule = NoRule | EndGame | AsteroidFirst | ProjectileFirst

  /** The half-width of the proximity box on each axis. */
  const HalfExtent: real := 0.25

  /** Per-frame z movement of an asteroid and of a projectile. */
  const AsteroidStep: real := -0.01
  const ProjectileStep: real := 0.01

  function Abs(r: real): real
  {
    if r < 0.0 then -r else r
  }

  /** The proximity test: every component of `a` lies within `b`'s value plus or minus
      0.25, bounds included. */
  predicate Overlaps(a: Float3, b: Float3)
  {
    a.x <= b.x + HalfExtent && a.x >= b.x - HalfExtent &&
    a.y <= b.y + HalfExtent && a.y >= b.y - HalfExtent &&
    a.z <= b.z + HalfExtent && a.z >= b.z - HalfExtent
  }

  /** Equivalently, the two positions are at most 0.25 apart on each axis. */
  lemma OverlapsWithin(a: Float3, b: Float3)
    ensures Overlaps(a, b) <==> Abs(a.x - b.x) <= HalfExtent && Abs(a.y - b.y) <= HalfExtent && Abs(a.z - b.z) <= HalfExtent
  {
  }

  /** The proximity test does not depend on which of the two items calls it. */
  lemma OverlapsSymmetric(a: Float3, b: Float3)
    ensures Overlaps(a, b) == Overlaps(b, a)
  {
  }

  /** The rule table: the first matching row of the if/else-if chain. The asteroid/asteroid
      row is commented out in the source, so that pair selects no rule. */
  function RuleFor(me: Kind, other: Kind): (r: Rule)
    ensures r != NoRule ==> me != other && (me == Asteroid || other == Asteroid)
    ensures me == TestBox || other == TestBox ==> r == NoRule
  {
    if me == Asteroid && other == Player then EndGame
    else if me == Player && other == Asteroid then EndGame
    else if me == Asteroid && other == Projectile then AsteroidFirst
    else if me == Projectile && other == Asteroid then ProjectileFirst
    else NoRule
  }

  /** The rule table seen from both sides: an asteroid meeting the player ends the game
      whichever of the two calls, an asteroid/projectile pair selects the two erase rows
      in mirror image, and every other pairing (asteroid/asteroid and anything with the
      test box included) does nothing. */
  lemma RuleTable(a: Kind, b: Kind)
    ensures RuleFor(a, b) == EndGame <==> (a == Asteroid && b == Player) || (a == Player && b == Asteroid)
    ensures RuleFor(a, b) == AsteroidFirst <==> RuleFor(b, a) == ProjectileFirst
    ensures RuleFor(a, b) == EndGame <==> RuleFor(b, a) == EndGame
    ensures RuleFor(a, b) != NoRule ==> a != b && (a == Asteroid || b == Asteroid)
    ensures a == TestBox || b == TestBox ==> RuleFor(a, b) == NoRule
  {
  }

  /** The position the caller's World is stored with after the loop, unless `dontMove`:
      asteroids move by -0.01 on z, projectiles by +0.01, every other tag stays put. */
  function Moved(k: Kind, p: Float3): (q: Float3)
    ensures q.x == p.x && q.y == p.y
    ensures k == Asteroid ==> q.z == p.z + AsteroidStep
    ensures k == Projectile ==> q.z == p.z + ProjectileStep
    ensures k != Asteroid && k != Projectile ==> q == p
  {
    if k == Asteroid then Translated(p, AsteroidStep)
    else if k == Projectile then Translated(p, ProjectileStep)
    else p
  }

  /** The position after `n` frames of the update step with nothing to collide with. */
  function Drift(k: Kind, p: Float3, n: nat): Float3
  {
    if n == 0 then p else Moved(k, Drift(k, p, n - 1))
  }

  /** A lone asteroid advanced for `n` frames has moved by exactly 0.01 per frame towards
      the camera along z, and nowhere else. */
  lemma {:induction false} LoneAsteroidDrifts(p: Float3, n: nat)
    ensures Drift(Asteroid, p, n) == Float3(p.x, p.y, p.z - (n as real) * 0.01)
  {
    if n > 0 {
      LoneAsteroidDrifts(p, n - 1);
    }
  }

  /** `std::vector::erase(begin() + k)`: the element at `k` goes and everything after it
      moves down one place. */
  function EraseAt<T>(s: seq<T>, k: nat): (r: seq<T>)
    requires k < |s|
    ensures |r| == |s| - 1
  {
    seq(|s| - 1, j requires 0 <= j < |s| - 1 => if j < k then s[j] else s[j + 1])
  }

  /** Erasing one position removes exactly one occurrence of the erased element. */
  lemma EraseAtMultiset<T>(s: seq<T>, k: nat)
    requires k < |s|
    ensures multiset(EraseAt(s, k)) == multiset(s) - multiset{s[k]}
  {
    assert EraseAt(s, k) == s[..k] + s[k + 1..];
    assert s == s[..k] + [s[k]] + s[k + 1..];
  }

  /** The sequence with exactly positions `a` and `b` removed, all the other elements kept
      in their original order. */
  function Without<T>(s: seq<T>, a: nat, b: nat): seq<T>
    requires a < b < |s|
  {
    s[..a] + s[a + 1..b] + s[b + 1..]
  }

  /** `Without` keeps every other element, in order, and drops exactly the two named ones. */
  lemma WithoutAt<T>(s: seq<T>, a: nat, b: nat)
    requires a < b < |s|
    ensures |Without(s, a, b)| == |s| - 2
    ensures forall j :: 0 <= j < a ==> Without(s, a, b)[j] == s[j]
    ensures forall j :: a <= j < b - 1 ==> Without(s, a, b)[j] == s[j + 1]
    ensures forall j :: b - 1 <= j < |s| - 2 ==> Without(s, a, b)[j] == s[j + 2]
    ensures multiset(Without(s, a, b)) + multiset{s[a], s[b]} == multiset(s)
  {
    assert s == s[..a] + [s[a]] + s[a + 1..b] + [s[b]] + s[b + 1..];
  }

  /** The asteroid-first row: erasing `offset` and then `i - 1` removes exactly the
      positions `offset` and `i` of the list it started from. */
  lemma {:induction false} AsteroidFirstErasesPair<T>(s: seq<T>, offset: nat, i: nat)
    requires offset < i < |s|
    ensures EraseAt(EraseAt(s, offset), i - 1) == Without(s, offset, i)
  {
    var r := EraseAt(EraseAt(s, offset), i - 1);
    WithoutAt(s, offset, i);
    assert |r| == |Without(s, offset, i)|;
    forall j | 0 <= j < |r|
      ensures r[j] == Without(s, offset, i)[j]
    {
    }
  }

  /** The projectile-first row as written: erasing `i - 1` and then `offset` removes the
      positions `offset` and `i - 1`, which is the pair `offset`, `i` only when the two are
      adjacent. */
  lemma {:induction false} ProjectileFirstErases<T>(s: seq<T>, offset: nat, i: nat)
    requires offset < i < |s|
    ensures |EraseAt(EraseAt(s, i - 1), offset)| == |s| - 2
    ensures offset + 1 < i ==> EraseAt(EraseAt(s, i - 1), offset) == Without(s, offset, i - 1)
    ensures offset + 1 == i ==> EraseAt(EraseAt(s, i - 1), offset) == Without(s, offset, i)
  {
    var r := EraseAt(EraseAt(s, i - 1), offset);
    if offset + 1 < i {
      WithoutAt(s, offset, i - 1);
      forall j | 0 <= j < |r|
        ensures r[j] == Without(s, offset, i - 1)[j]
      {
      }
    } else {
      WithoutAt(s, offset, i);
      forall j | 0 <= j < |r|
        ensures r[j] == Without(s, offset, i)[j]
      {
      }
    }
  }

  /** No element occurs twice (the opaque list holds each item's pointer once). */
  ghost predicate Distinct<T>(s: seq<T>)
  {
    forall j, k :: 0 <= j < k < |s| ==> s[j] != s[k]
  }

  /** On a list of distinct items, the projectile-first row removes the projectile and
      the asteroid it met if and only if the asteroid sits right after it; otherwise the
      asteroid survives and the item just before it is removed instead. */
  lemma ProjectileFirstRemovesPairIff<T>(s: seq<T>, offset: nat, i: nat)
    requires offset < i < |s|
    requires Distinct(s)
    ensures EraseAt(EraseAt(s, i - 1), offset) == Without(s, offset, i) <==> i == offset + 1
    ensures i > offset + 1 ==> s[i] in EraseAt(EraseAt(s, i - 1), offset)
    ensures i > offset + 1 ==> s[i - 1] !in EraseAt(EraseAt(s, i - 1), offset)
  {
    ProjectileFirstErases(s, offset, i);
    if i > offset + 1 {
      var r := EraseAt(EraseAt(s, i - 1), offset);
      WithoutAt(s, offset, i - 1);
      WithoutAt(s, offset, i);
      assert r[i - 2] == s[i];
      assert Without(s, offset, i)[i - 2] == s[i - 1];
      assert s[i - 1] !in r by {
        forall j | 0 <= j < |r|
          ensures r[j] != s[i - 1]
        {
          if j < offset {
            assert r[j] == s[j];
          } else if j < i - 2 {
            assert r[j] == s[j + 1];
          } else {
            assert r[j] == s[j + 2];
          }
        }
      }
    }
  }

  /** True when the pair (caller, entry) overlaps and selects a row of the rule table. */
  predicate Fires<T>(me: Body, e: Entry<T>)
  {
    Overlaps(me.pos, e.body.pos) && RuleFor(me.kind, e.body.kind) != NoRule
  }

  /** One pass of the loop body at index `i`, for the caller `me`, over the copy `list`:
      a pair that does not overlap, or that the table ignores, changes nothing;
      asteroid/player clears the copy and toggles `gameOver`; the two asteroid/projectile
      rows toggle `RemoveAsteroid` and erase two elements, in the order the source does.
      The copy never grows. */
  function Step<T>(me: Body, list: seq<Entry<T>>, offset: nat, i: nat, f: Flags): (o: Outcome<T>)
    requires offset < i < |list|
    ensures |o.list| <= |list|
  {
    if !Overlaps(me.pos, list[i].body.pos) then Outcome(list, f)
    else
      match RuleFor(me.kind, list[i].body.kind)
      case NoRule => Outcome(list, f)
      case EndGame => Outcome([], f.(gameOver := !f.gameOver))
      case AsteroidFirst =>
        Outcome(EraseAt(EraseAt(list, offset), i - 1), f.(removeAsteroid := !f.removeAsteroid))
      case ProjectileFirst =>
        Outcome(EraseAt(EraseAt(list, i - 1), offset), f.(removeAsteroid := !f.removeAsteroid))
  }

  /** The list one pass leaves, by the row of the table the pair selects. */
  lemma StepList<T>(me: Body, list: seq<Entry<T>>, offset: nat, i: nat, f: Flags)
    requires offset < i < |list|
    ensures var r := Step(me, list, offset, i, f).list;
            var rule := if Overlaps(me.pos, list[i].body.pos) then RuleFor(me.kind, list[i].body.kind) else NoRule;
            && (rule == NoRule ==> r == list)
            && (rule == EndGame ==> r == [])
            && (rule == AsteroidFirst ==> r == EraseAt(EraseAt(list, offset), i - 1))
            && (rule == ProjectileFirst ==> r == EraseAt(EraseAt(list, i - 1), offset))
  {
  }

  /** Whatever one pass does, only items of the input remain, at most as often as there. */
  lemma StepOnlyRemoves<T>(me: Body, list: seq<Entry<T>>, offset: nat, i: nat, f: Flags)
    requires offset < i < |list|
    ensures multiset(Step(me, list, offset, i, f).list) <= multiset(list)
  {
    var rule := if Overlaps(me.pos, list[i].body.pos) then RuleFor(me.kind, list[i].body.kind) else NoRule;
    StepList(me, list, offset, i, f);
    RowOnlyRemoves(list, offset, i, rule, Step(me, list, offset, i, f).list);
  }

  /** Two erases in a row keep nothing that was not there before. */
  lemma EraseTwiceShrinks<T>(s: seq<T>, k1: nat, k2: nat)
    requires k1 < |s| && k2 < |s| - 1
    ensures multiset(EraseAt(EraseAt(s, k1), k2)) <= multiset(s)
  {
    EraseAtMultiset(s, k1);
    EraseAtMultiset(EraseAt(s, k1), k2);
  }

  /** Each row of the table leaves only items of the list it was given. */
  lemma RowOnlyRemoves<T>(list: seq<T>, offset: nat, i: nat, rule: Rule, r: seq<T>)
    requires offset < i < |list|
    requires rule == NoRule ==> r == list
    requires rule == EndGame ==> r == []
    requires rule == AsteroidFirst ==> r == EraseAt(EraseAt(list, offset), i - 1)
    requires rule == ProjectileFirst ==> r == EraseAt(EraseAt(list, i - 1), offset)
    ensures multiset(r) <= multiset(list)
  {
    match rule
    case NoRule =>
      assert multiset(r) <= multiset(list);
    case EndGame =>
      assert multiset(r) <= multiset(list);
    case AsteroidFirst =>
      EraseTwiceShrinks(list, offset, i - 1);
      assert multiset(r) <= multiset(list);
    case ProjectileFirst =>
      EraseTwiceShrinks(list, i - 1, offset);
      assert multiset(r) <= multiset(list);
  }

  /** Erasing at `k` leaves the elements before any `p <= k` where they were. */
  lemma EraseAtPrefix<T>(s: seq<T>, k: nat, p: nat)
    requires p <= k < |s|
    ensures EraseAt(s, k)[..p] == s[..p]
  {
    assert forall j :: 0 <= j < p ==> EraseAt(s, k)[..p][j] == s[..p][j];
  }

  /** Unless one pass clears the copy, the positions before `offset` keep their items. */
  lemma StepKeepsPrefix<T>(me: Body, list: seq<Entry<T>>, offset: nat, i: nat, f: Flags)
    requires offset < i < |list|
    ensures var r := Step(me, list, offset, i, f).list;
            r == [] || (offset <= |r| && r[..offset] == list[..offset])
  {
    var rule := if Overlaps(me.pos, list[i].body.pos) then RuleFor(me.kind, list[i].body.kind) else NoRule;
    StepList(me, list, offset, i, f);
    match rule
    case NoRule =>
    case EndGame =>
    case AsteroidFirst =>
      EraseAtPrefix(list, offset, offset);
      EraseAtPrefix(EraseAt(list, offset), i - 1, offset);
    case ProjectileFirst =>
      EraseAtPrefix(list, i - 1, offset);
      EraseAtPrefix(EraseAt(list, i - 1), offset, offset);
  }

  /** The loop of CheckCollision from index `i` on: one `Step` per index while `i` is
      below the current length of the copy. */
  function Scan<T>(me: Body, list: seq<Entry<T>>, offset: nat, i: nat, f: Flags): (o: Outcome<T>)
    requires offset < i
    ensures |o.list| <= |list|
    decreases |list| - i
  {
    if i >= |list| then Outcome(list, f)
    else
      var s := Step(me, list, offset, i, f);
      Scan(me, s.list, offset, i + 1, s.flags)
  }

  /** Every entry one pass leaves in the copy was already in it. */
  lemma StepKeepsMembers<T>(me: Body, list: seq<Entry<T>>, offset: nat, i: nat, f: Flags)
    requires offset < i < |list|
    ensures forall e :: e in Step(me, list, offset, i, f).list ==> e in list
  {
    StepOnlyRemoves(me, list, offset, i, f);
    var r := Step(me, list, offset, i, f).list;
    forall e | e in r
      ensures e in list
    {
      assert e in multiset(r);
    }
  }

  /** The loop only ever takes items out of the copy: every item it returns was in the
      input, and no more often than there. */
  lemma {:induction false} ScanOnlyRemoves<T>(me: Body, list: seq<Entry<T>>, offset: nat, i: nat, f: Flags)
    requires offset < i
    ensures multiset(Scan(me, list, offset, i, f).list) <= multiset(list)
    decreases |list| - i
  {
    if i < |list| {
      var s := Step(me, list, offset, i, f);
      StepOnlyRemoves(me, list, offset, i, f);
      ScanOnlyRemoves(me, s.list, offset, i + 1, s.flags);
    }
  }

  /** Unless the loop clears the copy, the items before `offset` are still in their
      places when it ends. */
  lemma {:induction false} ScanKeepsPrefix<T>(me: Body, list: seq<Entry<T>>, offset: nat, i: nat, f: Flags)
    requires offset < i
    ensures var r := Scan(me, list, offset, i, f).list;
            r == [] || (offset <= |list| ==> offset <= |r| && r[..offset] == list[..offset])
    decreases |list| - i
  {
    if i < |list| {
      var s := Step(me, list, offset, i, f);
      StepKeepsPrefix(me, list, offset, i, f);
      ScanKeepsPrefix(me, s.list, offset, i + 1, s.flags);
      var r := Scan(me, list, offset, i, f).list;
      if r != [] && s.list != [] {
        assert r[..offset] == s.list[..offset] == list[..offset];
      }
    }
  }

  /** When no pair from `i` on fires, the list and both flags come back unchanged. In
      particular a call with nothing after `offset` changes nothing. */
  lemma {:induction false} ScanQuiet<T>(me: Body, list: seq<Entry<T>>, offset: nat, i: nat, f: Flags)
    requires offset < i
    requires forall j :: i <= j < |list| ==> !Fires(me, list[j])
    ensures Scan(me, list, offset, i, f) == Outcome(list, f)
    decreases |list| - i
  {
    if i < |list| {
      ScanQuiet(me, list, offset, i + 1, f);
    }
  }

  /** Pairs that do not fire are passed over: the walk from `i` ends as the walk from `j`. */
  lemma {:induction false} ScanSkips<T>(me: Body, list: seq<Entry<T>>, offset: nat, i: nat, j: nat, f: Flags)
    requires offset < i <= j <= |list|
    requires forall k :: i <= k < j ==> !Fires(me, list[k])
    ensures Scan(me, list, offset, i, f) == Scan(me, list, offset, j, f)
    decreases j - i
  {
    if i < j {
      ScanSkips(me, list, offset, i + 1, j, f);
    }
  }

  /** The first pair that fires decides what happens: the pairs before it are skipped,
      asteroid/player ends everything with the copy empty and `gameOver` toggled once, and
      the erase rows shorten the copy by two, toggle `RemoveAsteroid` and carry on at the
      next index. */
  lemma ScanFirstFiring<T>(me: Body, list: seq<Entry<T>>, offset: nat, i: nat, j: nat, f: Flags)
    requires offset < i <= j < |list|
    requires forall k :: i <= k < j ==> !Fires(me, list[k])
    requires Fires(me, list[j])
    ensures var rule := RuleFor(me.kind, list[j].body.kind);
      && (rule == EndGame ==>
            Scan(me, list, offset, i, f) == Outcome([], f.(gameOver := !f.gameOver)))
      && (rule == AsteroidFirst ==>
            Scan(me, list, offset, i, f)
              == Scan(me, Without(list, offset, j), offset, j + 1, f.(removeAsteroid := !f.removeAsteroid)))
      && (rule == ProjectileFirst ==>
            Scan(me, list, offset, i, f)
              == Scan(me, EraseAt(EraseAt(list, j - 1), offset), offset, j + 1, f.(removeAsteroid := !f.removeAsteroid)))
  {
    ScanSkips(me, list, offset, i, j, f);
    var rule := RuleFor(me.kind, list[j].body.kind);
    if rule == AsteroidFirst {
      AsteroidFirstErasesPair(list, offset, j);
    }
  }

  /** An asteroid at `offset` meeting a projectile at `i`, with no other pair firing: the
      result is the input with exactly those two positions removed, the length drops by
      two and `RemoveAsteroid` is toggled once. */
  lemma AsteroidHitsProjectile<T>(me: Body, list: seq<Entry<T>>, offset: nat, i: nat, f: Flags)
    requires offset < i < |list|
    requires me.kind == Asteroid && list[i].body.kind == Projectile
    requires Overlaps(me.pos, list[i].body.pos)
    requires forall k :: offset < k < |list| && k != i ==> !Fires(me, list[k])
    ensures Scan(me, list, offset, offset + 1, f) == Outcome(Without(list, offset, i), f.(removeAsteroid := !f.removeAsteroid))
    ensures |Scan(me, list, offset, offset + 1, f).list| == |list| - 2
  {
    var g := f.(removeAsteroid := !f.removeAsteroid);
    var rest := Without(list, offset, i);
    assert RuleFor(me.kind, list[i].body.kind) == AsteroidFirst;
    ScanFirstFiring(me, list, offset, offset + 1, i, f);
    assert Scan(me, list, offset, offset + 1, f) == Scan(me, rest, offset, i + 1, g);
    WithoutAt(list, offset, i);
    forall k | i + 1 <= k < |rest|
      ensures !Fires(me, rest[k])
    {
      assert rest[k] == list[k + 2];
    }
    ScanQuiet(me, rest, offset, i + 1, g);
  }

  /** A projectile at `offset` meeting an asteroid at `i`, with no other pair firing: the
      length drops by two and `RemoveAsteroid` is toggled once, but what is removed is
      position `i - 1` and position `offset`. */
  lemma ProjectileHitsAsteroid<T>(me: Body, list: seq<Entry<T>>, offset: nat, i: nat, f: Flags)
    requires offset < i < |list|
    requires me.kind == Projectile && list[i].body.kind == Asteroid
    requires Overlaps(me.pos, list[i].body.pos)
    requires forall k :: offset < k < |list| && k != i ==> !Fires(me, list[k])
    ensures Scan(me, list, offset, offset + 1, f)
      == Outcome(EraseAt(EraseAt(list, i - 1), offset), f.(removeAsteroid := !f.removeAsteroid))
    ensures |Scan(me, list, offset, offset + 1, f).list| == |list| - 2
  {
    var g := f.(removeAsteroid := !f.removeAsteroid);
    var rest := EraseAt(EraseAt(list, i - 1), offset);
    calc {
      Scan(me, list, offset, offset + 1, f);
    == { assert RuleFor(me.kind, list[i].body.kind) == ProjectileFirst;
         ScanFirstFiring(me, list, offset, offset + 1, i, f); }
      Scan(me, rest, offset, i + 1, g);
    == { ProjectileFirstTail(me, list, offset, i, rest);
         ScanQuiet(me, rest, offset, i + 1, g); }
      Outcome(rest, g);
    }
  }

  /** After the projectile-first erase, the entries from `i + 1` on are the input's
      entries from `i + 2` on, so none of them fires if none of those did. */
  lemma ProjectileFirstTail<T>(me: Body, list: seq<Entry<T>>, offset: nat, i: nat, rest: seq<Entry<T>>)
    requires offset < i < |list|
    requires forall k :: i < k < |list| ==> !Fires(me, list[k])
    requires rest == EraseAt(EraseAt(list, i - 1), offset)
    ensures forall k :: i + 1 <= k < |rest| ==> !Fires(me, rest[k])
  {
    var shorter := EraseAt(list, i - 1);
    forall k | i + 1 <= k < |rest|
      ensures !Fires(me, rest[k])
    {
      assert rest[k] == shorter[k + 1];
      assert shorter[k + 1] == list[k + 2];
    }
  }

  /** The asteroid/player rows: whichever of the two calls, when the first pair to fire is
      an asteroid and the player, the returned copy is empty and `gameOver` has been
      toggled exactly once, whatever comes later in the list. */
  lemma PlayerAsteroidEndsGame<T>(me: Body, list: seq<Entry<T>>, offset: nat, i: nat, f: Flags)
    requires offset < i < |list|
    requires (me.kind == Asteroid && list[i].body.kind == Player) || (me.kind == Player && list[i].body.kind == Asteroid)
    requires Overlaps(me.pos, list[i].body.pos)
    requires forall k :: offset < k < i ==> !Fires(me, list[k])
    ensures Scan(me, list, offset, offset + 1, f) == Outcome([], f.(gameOver := !f.gameOver))
  {
    ScanFirstFiring(me, list, offset, offset + 1, i, f);
  }

  // ---------------------------------------------------------------------------------
  // Corrected definitions (see the Findings of README.md)
  // ---------------------------------------------------------------------------------

  /** The removal the projectile-first row evidently intends: erase the later position
      first, then `offset`, so that exactly the two colliding items go. */
  function EraseHitPair<T>(s: seq<T>, offset: nat, i: nat): (r: seq<T>)
    requires offset < i < |s|
    ensures r == Without(s, offset, i)
    ensures multiset(r) + multiset{s[offset], s[i]} == multiset(s)
  {
    EraseAtMultiset(s, i);
    EraseAtMultiset(EraseAt(s, i), offset);
    WithoutAt(s, offset, i);
    var r := EraseAt(EraseAt(s, i), offset);
    assert r == Without(s, offset, i) by {
      forall j | 0 <= j < |r|
        ensures r[j] == Without(s, offset, i)[j]
      {
      }
    }
    r
  }

  /** As written, after an asteroid has been erased from the copy the loop keeps testing
      the (now removed) caller against the later items: here it meets a second projectile
      and erases it together with the first test box, which took part in no collision,
      and `RemoveAsteroid`, toggled twice, ends up unchanged. */
  lemma {:induction false} ErasedAsteroidKeepsErasing<T>(a: T, p1: T, b1: T, b2: T, p2: T, pos: Float3, f: Flags)
    ensures var list := [Entry(a, Body(Asteroid, pos)), Entry(p1, Body(Projectile, pos)),
                         Entry(b1, Body(TestBox, pos)), Entry(b2, Body(TestBox, pos)),
                         Entry(p2, Body(Projectile, pos))];
            Scan(Body(Asteroid, pos), list, 0, 1, f) == Outcome([list[3]], f)
  {
    var me := Body(Asteroid, pos);
    var list := [Entry(a, Body(Asteroid, pos)), Entry(p1, Body(Projectile, pos)),
                 Entry(b1, Body(TestBox, pos)), Entry(b2, Body(TestBox, pos)),
                 Entry(p2, Body(Projectile, pos))];
    var f1 := f.(removeAsteroid := !f.removeAsteroid);
    var l1 := EraseAt(EraseAt(list, 0), 0);
    assert l1 == list[2..];
    assert Scan(me, list, 0, 1, f) == Scan(me, l1, 0, 2, f1);
    var l2 := EraseAt(EraseAt(l1, 0), 1);
    assert l2 == [list[3]];
    assert Scan(me, l1, 0, 2, f1) == Scan(me, l2, 0, 3, f);
  }

  /** The loop as evidently intended: the same walk and rule table, but an erase row
      removes exactly the caller and the item it met and ends the walk, since the caller is
      no longer in the list. */
  function ScanIntended<T>(me: Body, list: seq<Entry<T>>, offset: nat, i: nat, f: Flags): (o: Outcome<T>)
    requires offset < i
    ensures |o.list| <= |list|
    ensures multiset(o.list) <= multiset(list)
    decreases |list| - i
  {
    if i >= |list| then Outcome(list, f)
    else if !Overlaps(me.pos, list[i].body.pos) then ScanIntended(me, list, offset, i + 1, f)
    else
      match RuleFor(me.kind, list[i].body.kind)
      case NoRule => ScanIntended(me, list, offset, i + 1, f)
      case EndGame => Outcome([], f.(gameOver := !f.gameOver))
      case _ => Outcome(EraseHitPair(list, offset, i), f.(removeAsteroid := !f.removeAsteroid))
  }

  /** With the intended loop, the first asteroid/projectile pair to fire (in either
      order) removes exactly the caller's position and the other item's, and toggles
      `RemoveAsteroid` exactly once. */
  lemma {:induction false} ScanIntendedRemovesPair<T>(me: Body, list: seq<Entry<T>>, offset: nat, i: nat, j: nat, f: Flags)
    requires offset < i <= j < |list|
    requires forall k :: i <= k < j ==> !Fires(me, list[k])
    requires Fires(me, list[j]) && RuleFor(me.kind, list[j].body.kind) in {AsteroidFirst, ProjectileFirst}
    ensures ScanIntended(me, list, offset, i, f) == Outcome(Without(list, offset, j), f.(removeAsteroid := !f.removeAsteroid))
    decreases j - i
  {
    if i < j {
      ScanIntendedRemovesPair(me, list, offset, i + 1, j, f);
    }
  }
}
