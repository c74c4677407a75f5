/**
 * The shared world the engine advances: the player, bullet and item lists,
 * the id counters and the event queue, and the first two steps of a tick
 * (moving or respawning players, flying bullets).
 */
module Arena {
  import opened Wrappers
  import opened Geometry
  import opened TileMap
  import opened Weapons
  import opened Entities
  import opened Sequences

  /** Ticks per second of simulated time. */
  const FramePerSec: int := 20
  /** Seconds of simulated time per tick. */
  const TickLength: real := 1.0 / 20.0

  /** A publishable occurrence: a bullet hit the player with this id. */
  datatype Event = BulletHit(player: int)

  /** The engine's mutable state.  playerId, bulletId and itemId are the
      next ids to hand out; events is the queue drained by publication. */
  datatype World = World(
    currFrame: int,
    players: seq<Player>,
    playerId: int,
    bullets: seq<Bullet>,
    bulletId: int,
    items: seq<Item>,
    itemId: int,
    events: seq<Event>)

  /** The result of a pass that rebuilds a list: the state afterwards, and
      for each element of the list whether it survives. */
  datatype Pass<S> = Pass(state: S, keep: seq<bool>)

  /** Index of the first player with the given id, if any. */
  function FirstWithId(ps: seq<Player>, id: int): (r: Option<nat>)
    ensures r.Some? ==> r.value < |ps| && ps[r.value].id == id &&
                        forall k | 0 <= k < r.value :: ps[k].id != id
    ensures r.None? ==> forall k | 0 <= k < |ps| :: ps[k].id != id
    decreases |ps|
  {
    if ps == [] then None
    else if ps[0].id == id then Some(0)
    else
      match FirstWithId(ps[1..], id)
      case Some(k) => Some(k + 1)
      case None => None
  }

  /** Index of the first player on the given channel, if any. */
  function FirstWithChannel(ps: seq<Player>, channel: string): (r: Option<nat>)
    ensures r.Some? ==> r.value < |ps| && ps[r.value].channel == channel &&
                        forall k | 0 <= k < r.value :: ps[k].channel != channel
    ensures r.None? ==> forall k | 0 <= k < |ps| :: ps[k].channel != channel
    decreases |ps|
  {
    if ps == [] then None
    else if ps[0].channel == channel then Some(0)
    else
      match FirstWithChannel(ps[1..], channel)
      case Some(k) => Some(k + 1)
      case None => None
  }

  /** Two player lists with the same ids position by position answer every
      id lookup alike. */
  lemma FirstWithIdSameIds(ps: seq<Player>, qs: seq<Player>, id: int)
    requires |ps| == |qs| && forall k | 0 <= k < |ps| :: ps[k].id == qs[k].id
    ensures FirstWithId(ps, id) == FirstWithId(qs, id)
  {
  }

  // ---------------------------------------------------------------------
  // Step 1 of a tick: players.

  /** One tick for one player: a living player walks; a dead one is reborn
      at spawnAt once more than a second's worth of ticks has passed since
      it died, and otherwise waits. */
  function AdvancePlayer(geo: Geo, g: Grid, frame: int, p: Player, spawnAt: Point): Player {
    if !p.dead then PlayerMove(geo, g, p, TickLength).entity
    else if frame - p.deadFrame > FramePerSec then Reborn(p, spawnAt)
    else p
  }

  /** The player step of a tick; spawnAt(k) is the random walkable point
      drawn should player k be reborn. */
  function UpdatePlayers(geo: Geo, g: Grid, w: World, spawnAt: nat -> Point): (r: World)
    ensures r == w.(players := r.players) && |r.players| == |w.players|
  {
    w.(players := seq(|w.players|, k requires 0 <= k < |w.players| =>
                        AdvancePlayer(geo, g, w.currFrame, w.players[k], spawnAt(k))))
  }

  /** Respawn timing: exactly the dead players whose death lies more than
      FramePerSec ticks back come back, with full health and a fresh base
      weapon, keeping their id and score; other dead players are left
      alone, and living players only walk. */
  lemma RespawnTiming(geo: Geo, g: Grid, w: World, spawnAt: nat -> Point, k: nat)
    requires k < |w.players|
    ensures var p, q := w.players[k], UpdatePlayers(geo, g, w, spawnAt).players[k];
      && |UpdatePlayers(geo, g, w, spawnAt).players| == |w.players|
      && (p.dead && w.currFrame - p.deadFrame > FramePerSec ==>
            !q.dead && q.hp == FullHp && q.weapon == Fresh(Base) && q.pos == spawnAt(k) &&
            q.id == p.id && q.kill == p.kill && q.death == p.death)
      && (p.dead && w.currFrame - p.deadFrame <= FramePerSec ==> q == p)
      && (!p.dead ==> q == p.(pos := q.pos, speed := q.speed))
  {
    var p := w.players[k];
    assert UpdatePlayers(geo, g, w, spawnAt).players[k] == AdvancePlayer(geo, g, w.currFrame, p, spawnAt(k));
    if !p.dead {
      assert TickLength != 0.0;
      var m := PlayerMove(geo, g, p, TickLength);
      assert m.entity == p.(pos := m.entity.pos, speed := m.entity.speed);
    } else if w.currFrame - p.deadFrame > FramePerSec {
      var q := Reborn(p, spawnAt(k));
      assert q.id == p.id && q.kill == p.kill && q.death == p.death;
    }
  }

  // ---------------------------------------------------------------------
  // Step 2 of a tick: bullets.

  /** One tick of flight for one bullet.  A bullet that keeps going loses
      speed / FramePerSec of its range; it survives when it kept going and
      has range left. */
  function Flight(geo: Geo, g: Grid, b: Bullet, jit: Jitter): (m: Moved<Bullet>)
    ensures m.entity.id == b.id && m.entity.owner == b.owner && m.entity.damage == b.damage
    ensures m.going ==> m.entity.length > 0.0
  {
    var step := BulletMove(geo, g, b, TickLength, jit);
    if step.going then
      var flown := step.entity.(length := step.entity.length - step.entity.speed / FramePerSec as real);
      Moved(flown.length > 0.0, flown)
    else
      Moved(false, step.entity)
  }

  /** The bullets after their flight, and which of them survive. */
  function Flown(geo: Geo, g: Grid, bs: seq<Bullet>, jitter: nat -> Jitter): (r: seq<Bullet>)
    ensures |r| == |bs|
  {
    seq(|bs|, k requires 0 <= k < |bs| => Flight(geo, g, bs[k], jitter(k)).entity)
  }

  function Flying(geo: Geo, g: Grid, bs: seq<Bullet>, jitter: nat -> Jitter): (r: seq<bool>)
    ensures |r| == |bs|
  {
    seq(|bs|, k requires 0 <= k < |bs| => Flight(geo, g, bs[k], jitter(k)).going)
  }

  /** The bullet step of a tick; jitter(k) holds the random draws of bullet k. */
  function UpdateBullets(geo: Geo, g: Grid, w: World, jitter: nat -> Jitter): (r: World)
    ensures r == w.(bullets := r.bullets) && |r.bullets| <= |w.bullets|
  {
    w.(bullets := Filter(Flown(geo, g, w.bullets, jitter), Flying(geo, g, w.bullets, jitter)))
  }

  /** The fate of a bullet in the bullet step: it survives iff its move kept
      it going and its remaining range is positive; a penetrating bullet is
      never stopped by terrain, only by running out of range; a plain bullet
      that runs into a wall does not survive the tick. */
  lemma BulletFate(geo: Geo, g: Grid, b: Bullet, jit: Jitter)
    ensures var m, f := BulletMove(geo, g, b, TickLength, jit), Flight(geo, g, b, jit);
      && (f.going <==> m.going && m.entity.length - m.entity.speed / FramePerSec as real > 0.0)
      && (Penetrate in b.features ==> (f.going <==> b.length - m.entity.speed / FramePerSec as real > 0.0))
      && ((Penetrate !in b.features && Bounce !in b.features &&
           Collide(g, geo.shift(b.pos, b.angle, b.speed * TickLength), b.width, b.height)) ==> !f.going)
      && f.entity.id == b.id && f.entity.owner == b.owner && f.entity.damage == b.damage
  {
  }

  /** The bullet step keeps exactly the surviving bullets, in their order. */
  lemma UpdateBulletsSelects(geo: Geo, g: Grid, w: World, jitter: nat -> Jitter)
    ensures var r := UpdateBullets(geo, g, w, jitter).bullets;
            var p := Positions(Flying(geo, g, w.bullets, jitter));
      && |r| == |p|
      && (forall i | 0 <= i < |p| :: p[i] < |w.bullets| && r[i] == Flight(geo, g, w.bullets[p[i]], jitter(p[i])).entity)
      && (forall i, j | 0 <= i < j < |p| :: p[i] < p[j])
      && (forall k | 0 <= k < |w.bullets| :: Flight(geo, g, w.bullets[k], jitter(k)).going <==> k in p)
  {
    var fl := Flying(geo, g, w.bullets, jitter);
    FilterAtPositions(Flown(geo, g, w.bullets, jitter), fl);
    PositionsExact(fl);
  }

  // ---------------------------------------------------------------------
  // Item creation.

  /** A new item at pos with the next item id. */
  function AddItem(w: World, pos: Point, t: ItemType): (r: World)
    ensures r == w.(items := r.items, itemId := r.itemId)
    ensures r.itemId == w.itemId + 1 && r.items == w.items + [Item(w.itemId, pos, t)]
  {
    w.(items := w.items + [Item(w.itemId, pos, t)], itemId := w.itemId + 1)
  }

  /** The periodic spawn condition: fewer than 5 + 2 * players items, and
      the uniform draw roll below 0.005 + 0.001 * players. */
  predicate SpawnDue(w: World, roll: real) {
    |w.items| < 5 + 2 * |w.players| && roll < 0.005 + 0.001 * |w.players| as real
  }
}
