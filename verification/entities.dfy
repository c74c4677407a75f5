/**
 * Players, bullets in flight and pickups: what one tick of movement does
 * to each, and what a pickup does to the player who collects it.  All
 * three are values; each step returns the updated entity.
 */
module Entities {
  import opened Geometry
  import opened TileMap
  import opened Weapons

  /** Hit points of a fresh or respawned player, and the healing cap. */
  const FullHp: int := 100
  /** Hit points a health pickup restores. */
  const HealAmount: int := 20
  /** Walking speed of a player (before the weapon's weight). */
  const WalkSpeed: real := 70.0
  /** Side of a player's square footprint. */
  const PlayerSize: real := 40.0

  /** A player.  destination, angle and speed describe the current walk;
      lastAction is the wall-clock time of the player's last intent;
      deadFrame the tick at which the player last died. */
  datatype Player = Player(
    id: int,
    name: string,
    channel: string,
    pos: Point,
    destination: Point,
    angle: real,
    speed: real,
    moveSpeed: real,
    width: real,
    height: real,
    weapon: Weapon,
    hp: int,
    lastAction: real,
    dead: bool,
    deadFrame: int,
    kill: int,
    death: int)

  /** What a pickup grants: hit points, a weapon of an archetype (the game
      hands out german_pistol, mp_43, m1_carbine, mp_40 and fg_42), or a
      random feature for the weapon in hand. */
  datatype ItemType = Health | WeaponDrop(arch: Archetype) | RandomWeaponBuff

  datatype Item = Item(id: int, pos: Point, itemType: ItemType)

  /** The result of one movement step: whether the entity keeps going, and
      the entity afterwards. */
  datatype Moved<T> = Moved(going: bool, entity: T)

  /** The two uniform draws in [-1, 1] a bullet may use in a step: one to
      turn a zigzag bullet, one to speed up or slow down a variable-speed
      bullet. */
  datatype Jitter = Jitter(turn: real, boost: real)

  /** The archetypes a weapon pickup can hand out. */
  predicate Unlockable(a: Archetype) {
    a == GermanPistol || a == Mp43 || a == M1Carbine || a == Mp40 || a == Fg42
  }

  /** A player joining on a new channel: full health, the base weapon, the
      walking speed already set, standing at pos. */
  function NewPlayer(id: int, name: string, channel: string, pos: Point, now: real): (p: Player)
    ensures p.id == id && p.name == name && p.channel == channel && p.pos == pos
    ensures p.hp == FullHp && !p.dead && p.weapon == Fresh(Base) && p.lastAction == now
    ensures p.kill == 0 && p.death == 0 && p.width == PlayerSize && p.height == PlayerSize
  {
    Player(id, name, channel, pos, Point(0.0, 0.0), 0.0, WalkSpeed, WalkSpeed, PlayerSize, PlayerSize,
           Fresh(Base), FullHp, now, false, 0, 0, 0)
  }

  /** Respawn: back to life at pos with full health and a fresh base weapon;
      identity, score, walk and death tick are kept. */
  function Reborn(p: Player, pos: Point): (q: Player)
    ensures q.pos == pos && q.hp == FullHp && !q.dead && q.weapon == Fresh(Base) && q.moveSpeed == WalkSpeed
    ensures q.(pos := p.pos, hp := p.hp, dead := p.dead, weapon := p.weapon, moveSpeed := p.moveSpeed) == p
  {
    p.(pos := pos, hp := FullHp, moveSpeed := WalkSpeed, weapon := Fresh(Base), dead := false)
  }

  /** One movement step of a player over `time` seconds.  The candidate
      position lies (speed - weapon weight) * time along the walking angle;
      the player stops, where it stood and with speed 0, when that
      candidate is farther from the destination or collides with the map. */
  function PlayerMove(geo: Geo, g: Grid, p: Player, time: real): (m: Moved<Player>)
    ensures time == 0.0 ==> m == Moved(false, p)
    ensures time != 0.0 ==>
      var cand := geo.shift(p.pos, p.angle, (p.speed - p.weapon.weight) * time);
      (m.going <==> geo.dist(cand, p.destination) <= geo.dist(p.pos, p.destination) &&
                    !Collide(g, cand, p.width, p.height)) &&
      (m.going ==> m.entity == p.(pos := cand)) &&
      (!m.going ==> m.entity == p.(speed := 0.0))
  {
    if time != 0.0 then
      var cand := geo.shift(p.pos, p.angle, (p.speed - p.weapon.weight) * time);
      if geo.dist(cand, p.destination) > geo.dist(p.pos, p.destination) || Collide(g, cand, p.width, p.height) then
        Moved(false, p.(speed := 0.0))
      else
        Moved(true, p.(pos := cand))
    else
      Moved(false, p)
  }

  /** One movement step of a bullet over `time` seconds, modifiers included.
      Zigzag turns and variable speed re-speeds the bullet after the
      candidate position is computed; then the map decides: a penetrating
      bullet always flies on, a plain one that collides is put back and
      stopped, and a bouncing one tries the x-only and y-only moves to see
      which wall it hit and turns away from it, stopping only when both
      are blocked. */
  function BulletMove(geo: Geo, g: Grid, b: Bullet, time: real, jit: Jitter): (m: Moved<Bullet>)
    // Nothing moves in a zero-length step.
    ensures time == 0.0 ==> m == Moved(false, b)
    // Identity, damage, footprint, range and modifiers never change.
    ensures m.entity.(pos := b.pos, angle := b.angle, speed := b.speed) == b
    ensures time != 0.0 ==>
      var cand := geo.shift(b.pos, b.angle, b.speed * time);
      var blocked := Penetrate !in b.features && Collide(g, cand, b.width, b.height);
      var xBlocked := Collide(g, Point(cand.x, b.pos.y), b.width, b.height);
      var yBlocked := Collide(g, Point(b.pos.x, cand.y), b.width, b.height);
      // A bullet that flies on is at its candidate position.
      (m.going ==> m.entity.pos == cand) &&
      // A bullet that stops has speed 0.
      (!m.going ==> m.entity.speed == 0.0) &&
      // Penetrating bullets never stop for terrain.
      (Penetrate in b.features ==> m.going) &&
      // Unblocked bullets fly on.
      (!blocked ==> m.going) &&
      // A plain bullet that collides is put back where it was and stops.
      (blocked && Bounce !in b.features ==> !m.going && m.entity.pos == b.pos) &&
      // A bouncing bullet stops exactly when both single-axis moves are blocked.
      (blocked && Bounce in b.features ==> (m.going <==> !(xBlocked && yBlocked)))
    ensures time != 0.0 ==>
      var cand := geo.shift(b.pos, b.angle, b.speed * time);
      var blocked := Penetrate !in b.features && Collide(g, cand, b.width, b.height);
      var xBlocked := Collide(g, Point(cand.x, b.pos.y), b.width, b.height);
      var yBlocked := Collide(g, Point(b.pos.x, cand.y), b.width, b.height);
      // Only zigzag turns the bullet and only variable speed re-speeds it.
      var turned := if Zigzag in b.features then b.angle + 0.2 * jit.turn else b.angle;
      var sped := if VariantSpeed in b.features then b.speed + 30.0 * jit.boost else b.speed;
      // The point the bounce aims at: the start mirrored across each blocked axis.
      var mirror := Point(if yBlocked then 2.0 * cand.x - b.pos.x else b.pos.x,
                          if xBlocked then 2.0 * cand.y - b.pos.y else b.pos.y);
      // An unblocked bullet keeps the turned heading and the new speed.
      (!blocked ==> m.entity.angle == turned && m.entity.speed == sped) &&
      // A plain bullet that collides keeps the turned heading.
      (blocked && Bounce !in b.features ==> m.entity.angle == turned) &&
      // A bounce that flies on keeps the new speed and heads for the mirror point.
      (blocked && Bounce in b.features && m.going ==>
         m.entity.speed == sped && m.entity.angle == geo.angle(cand, mirror)) &&
      // A bounce blocked on both axes stops at the y-only trial position.
      (blocked && Bounce in b.features && !m.going ==>
         m.entity.pos == Point(b.pos.x, cand.y) && m.entity.angle == turned)
  {
    if time != 0.0 then
      var cand := geo.shift(b.pos, b.angle, b.speed * time);
      var angle := if Zigzag in b.features then b.angle + 0.2 * jit.turn else b.angle;
      var speed := if VariantSpeed in b.features then b.speed + 30.0 * jit.boost else b.speed;
      var moved := b.(pos := cand, angle := angle, speed := speed);
      if Penetrate !in b.features && Collide(g, cand, b.width, b.height) then
        if Bounce in b.features then
          var xBlocked := Collide(g, Point(cand.x, b.pos.y), b.width, b.height);
          var yBlocked := Collide(g, Point(b.pos.x, cand.y), b.width, b.height);
          if xBlocked && yBlocked then
            // The bullet is left at the y-only trial position.
            Moved(false, moved.(pos := Point(b.pos.x, cand.y), speed := 0.0))
          else
            var mirror := Point(if yBlocked then 2.0 * cand.x - b.pos.x else b.pos.x,
                                if xBlocked then 2.0 * cand.y - b.pos.y else b.pos.y);
            Moved(true, moved.(angle := geo.angle(cand, mirror)))
        else
          Moved(false, moved.(pos := b.pos, speed := 0.0))
      else
        Moved(true, moved)
    else
      Moved(false, b)
  }

  /** The effect of collecting a pickup.  choice is the feature a random
      weapon buff draws. */
  function Buff(t: ItemType, p: Player, choice: Feature): (q: Player)
    // Healing adds HealAmount capped at FullHp: the smaller of the two.
    ensures t == Health ==> q == p.(hp := q.hp) && q.hp <= FullHp && q.hp <= p.hp + HealAmount &&
                            (q.hp == p.hp + HealAmount || q.hp == FullHp)
    ensures p.hp <= FullHp ==> p.hp <= q.hp <= FullHp
    // A weapon pickup swaps in a fresh instance of its archetype.
    ensures t.WeaponDrop? && Unlockable(t.arch) ==> q == p.(weapon := Fresh(t.arch))
    // A random buff adds one feature to the weapon in hand, nothing else.
    ensures t == RandomWeaponBuff ==>
      q == p.(weapon := p.weapon.(features := p.weapon.features + {choice}))
    // Other weapon types are not handled and change nothing.
    ensures t.WeaponDrop? && !Unlockable(t.arch) ==> q == p
  {
    match t
    case Health => p.(hp := if p.hp + HealAmount < FullHp then p.hp + HealAmount else FullHp)
    case WeaponDrop(a) => if Unlockable(a) then p.(weapon := Fresh(a)) else p
    case RandomWeaponBuff => p.(weapon := p.weapon.(features := p.weapon.features + {choice}))
  }
}
