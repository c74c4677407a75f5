/**
 * The weapon catalogue and the factory that turns a trigger pull into
 * bullets.  A weapon instance is a value: firing returns the weapon with
 * its updated last-fire time beside the bullets it produced.
 */
module Weapons {
  import opened Wrappers
  import opened Geometry

  /** Modifier tags a weapon passes on to its bullets. */
  datatype Feature = Bounce | Penetrate | Zigzag | VariantSpeed | DoubleLength

  /** The archetypes of the catalogue (base, german_pistol, mp_40, mp_43,
      m1_carbine, fg_42, ar). */
  datatype Archetype = Base | GermanPistol | Mp40 | Mp43 | M1Carbine | Fg42 | Ar

  /** A live weapon: the archetype's constants, the time it last fired and
      the features collected so far.  gap is the cooldown in seconds, size
      the side of the bullets' square footprint, length their range, weight
      the slow-down it imposes on its carrier. */
  datatype Weapon = Weapon(
    kind: Archetype,
    gap: real,
    damage: int,
    size: real,
    speed: real,
    length: real,
    weight: real,
    lastFire: real,
    features: set<Feature>)

  /** A projectile: owner is the id of the player who fired it, length the
      range it has left. */
  datatype Bullet = Bullet(
    id: int,
    owner: int,
    pos: Point,
    angle: real,
    speed: real,
    width: real,
    height: real,
    length: real,
    damage: int,
    features: set<Feature>)

  /** The outcome of pulling the trigger: the weapon afterwards, and the
      bullets fired, or None when the weapon refused to fire. */
  datatype Shot = Shot(weapon: Weapon, bullets: Option<seq<Bullet>>)

  /** A fresh instance of an archetype: never fired, no features. */
  function Fresh(kind: Archetype): (w: Weapon)
    ensures w.kind == kind && w.lastFire == 0.0 && w.features == {}
    ensures w.gap > 0.0 && w.damage > 0 && w.size > 0.0 && w.speed > 0.0
    ensures w.length > 0.0 && w.weight >= 0.0
  {
    match kind
    case Base => Weapon(Base, 2.0, 5, 1.0, 200.0, 300.0, 5.0, 0.0, {})
    case GermanPistol => Weapon(GermanPistol, 1.5, 7, 3.0, 200.0, 300.0, 5.0, 0.0, {})
    case Mp40 => Weapon(Mp40, 0.15, 10, 4.0, 300.0, 600.0, 10.0, 0.0, {})
    case Mp43 => Weapon(Mp43, 0.2, 20, 6.0, 300.0, 700.0, 20.0, 0.0, {})
    case M1Carbine => Weapon(M1Carbine, 3.0, 70, 10.0, 450.0, 1000.0, 25.0, 0.0, {})
    case Fg42 => Weapon(Fg42, 1.2, 10, 4.0, 300.0, 400.0, 20.0, 0.0, {})
    case Ar => Weapon(Ar, 1.0, 15, 5.0, 350.0, 800.0, 0.0, 0.0, {})
  }

  /** A weapon is an instance of its archetype: apart from the last-fire
      time and the collected features it carries the catalogue constants. */
  predicate IsInstance(w: Weapon) {
    w.(lastFire := 0.0, features := {}) == Fresh(w.kind)
  }

  /** The bullet a weapon fires from pos at the given angle. */
  function MakeBullet(w: Weapon, pos: Point, angle: real, owner: int, id: int): Bullet {
    Bullet(id, owner, pos, angle, w.speed, w.size, w.size,
           if DoubleLength in w.features then 2.0 * w.length else w.length,
           w.damage, w.features)
  }

  /** The cooldown test: with checkGap set, the weapon fires only once
      strictly more than gap seconds have passed since it last fired. */
  predicate Ready(w: Weapon, currTime: real, checkGap: bool) {
    !checkGap || currTime - w.lastFire > w.gap
  }

  /** One trigger pull of an ordinary weapon. */
  function Fire(w: Weapon, pos: Point, angle: real, owner: int, currTime: real, id: int, checkGap: bool): (s: Shot)
    ensures s.bullets.Some? <==> Ready(w, currTime, checkGap)
    ensures s.bullets.None? ==> s.weapon == w
    ensures s.bullets.Some? ==> s.weapon == w.(lastFire := currTime) && |s.bullets.value| == 1
    ensures s.bullets.Some? ==>
      var b := s.bullets.value[0];
      b.id == id && b.owner == owner && b.pos == pos && b.angle == angle &&
      b.damage == w.damage && b.speed == w.speed && b.width == w.size && b.height == w.size &&
      b.features == w.features &&
      b.length == (if DoubleLength in w.features then 2.0 * w.length else w.length)
  {
    if Ready(w, currTime, checkGap) then
      Shot(w.(lastFire := currTime), Some([MakeBullet(w, pos, angle, owner, id)]))
    else
      Shot(w, None)
  }

  /** The fg_42 burst: five bullets fanned from angle - 0.2 to angle + 0.2
      in steps of 0.1, with consecutive ids, gated by the cooldown once. */
  function Burst(w: Weapon, pos: Point, angle: real, owner: int, currTime: real, id: int): (s: Shot)
    ensures s.bullets.Some? <==> currTime - w.lastFire > w.gap
    ensures s.bullets.None? ==> s.weapon == w
    ensures s.bullets.Some? ==> s.weapon == w.(lastFire := currTime) && |s.bullets.value| == 5
    ensures s.bullets.Some? ==> forall k | 0 <= k < 5 ::
      s.bullets.value[k] == MakeBullet(w, pos, angle - 0.2 + 0.1 * k as real, owner, id + k)
  {
    if currTime - w.lastFire > w.gap then
      Shot(w.(lastFire := currTime),
           Some(seq(5, k => MakeBullet(w, pos, angle - 0.2 + 0.1 * k as real, owner, id + k))))
    else
      Shot(w, None)
  }

  /** The fg_42 burst as the game computes it: five gate-free shots in a
      loop, each taking the next id. */
  method FireBurst(w: Weapon, pos: Point, angle: real, owner: int, currTime: real, id: int) returns (s: Shot)
    ensures s == Burst(w, pos, angle, owner, currTime, id)
  {
    if currTime - w.lastFire > w.gap {
      var ret: seq<Bullet> := [];
      var next := id;
      var cur := w;
      for i := 0 to 5
        invariant |ret| == i && next == id + i
        invariant cur == if i == 0 then w else w.(lastFire := currTime)
        invariant forall k | 0 <= k < i ::
          ret[k] == MakeBullet(w, pos, angle - 0.2 + 0.1 * k as real, owner, id + k)
      {
        var shot := Fire(cur, pos, angle + 0.1 * i as real - 0.2, owner, currTime, next, false);
        if shot.bullets.Some? {
          next := next + 1;
          ret := ret + shot.bullets.value;
        }
        cur := shot.weapon;
      }
      // Every gate-free shot succeeds, so the burst is never empty.
      assert ret == seq(5, k => MakeBullet(w, pos, angle - 0.2 + 0.1 * k as real, owner, id + k));
      s := Shot(cur, Some(ret));
    } else {
      s := Shot(w, None);
    }
  }

  /** What pulling the trigger of a weapon does: a burst for the fg_42, a
      single cooldown-gated shot for every other archetype. */
  function Discharge(w: Weapon, pos: Point, angle: real, owner: int, currTime: real, id: int): (s: Shot)
    // The fg_42 fires five bullets at once, any other weapon one.
    ensures s.bullets.Some? ==> |s.bullets.value| == (if w.kind == Fg42 then 5 else 1)
    // Firing only stamps the fire time; a refused shot changes nothing.
    ensures s.weapon == w.(lastFire := s.weapon.lastFire)
    ensures s.bullets.None? ==> s.weapon == w
  {
    if w.kind == Fg42 then Burst(w, pos, angle, owner, currTime, id)
    else Fire(w, pos, angle, owner, currTime, id, true)
  }

  /** Every trigger pull is gated by the cooldown, fires one bullet (five
      for the fg_42) with ids id, id+1, ..., all owned by the shooter and
      carrying the weapon's damage, and stamps the fire time. */
  lemma DischargeShape(w: Weapon, pos: Point, angle: real, owner: int, currTime: real, id: int)
    ensures var s := Discharge(w, pos, angle, owner, currTime, id);
      && (s.bullets.Some? <==> currTime - w.lastFire > w.gap)
      && s.weapon == (if s.bullets.Some? then w.(lastFire := currTime) else w)
      && (s.bullets.Some? ==>
            && |s.bullets.value| == (if w.kind == Fg42 then 5 else 1)
            && forall k | 0 <= k < |s.bullets.value| ::
                 s.bullets.value[k].id == id + k && s.bullets.value[k].owner == owner &&
                 s.bullets.value[k].damage == w.damage && s.bullets.value[k].features == w.features)
  {
  }

  /** Cooldown spacing: after a successful gated shot at time t1, the same
      weapon fires again at t2 only if t2 - t1 exceeds the cooldown. */
  lemma CooldownSpacing(w: Weapon, pos: Point, angle: real, owner: int, t1: real, t2: real, id1: int, id2: int)
    requires Discharge(w, pos, angle, owner, t1, id1).bullets.Some?
    ensures Discharge(Discharge(w, pos, angle, owner, t1, id1).weapon, pos, angle, owner, t2, id2).bullets.Some?
            <==> t2 - t1 > w.gap
  {
  }

  /** Firing keeps a weapon an instance of its archetype. */
  lemma DischargeKeepsInstance(w: Weapon, pos: Point, angle: real, owner: int, currTime: real, id: int)
    requires IsInstance(w)
    ensures IsInstance(Discharge(w, pos, angle, owner, currTime, id).weapon)
  {
  }
}
