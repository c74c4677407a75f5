/**
 * A whole tick of the game, and the invariant every tick and every intent
 * keeps: ids are unique and below the counters that hand them out,
 * channels are unique, hit points never exceed the maximum, the living
 * have hit points left, every weapon is an instance of its archetype and
 * every bullet in flight does damage.
 */
module Rules {
  import opened Wrappers
  import opened Geometry
  import opened TileMap
  import opened Weapons
  import opened Entities
  import opened Sequences
  import opened Arena
  import opened Combat
  import opened Intents

  /** The random draws and the wall-clock reading one tick uses: where
      reborn players appear, the bullets' jitter, the features random buffs
      grant, the wall-clock time for the idle check, the spawn roll, and
      where and what the periodic item would be. */
  datatype Draws = Draws(
    spawnAt: nat -> Point,
    jitter: nat -> Jitter,
    choice: (nat, nat) -> Feature,
    now: real,
    roll: real,
    dropAt: Point,
    dropType: ItemType)

  /** One tick: players, bullets, hits, maybe a new item, next frame. */
  function Tick(geo: Geo, g: Grid, w: World, d: Draws): (r: World)
    ensures r.currFrame == w.currFrame + 1 && r.playerId == w.playerId && r.bulletId == w.bulletId
  {
    var w1 := UpdatePlayers(geo, g, w, d.spawnAt);
    var w2 := UpdateBullets(geo, g, w1, d.jitter);
    var w3 := CheckHit(geo, w2, d.choice, d.now);
    var w4 := if SpawnDue(w3, d.roll) then AddItem(w3, d.dropAt, d.dropType) else w3;
    w4.(currFrame := w4.currFrame + 1)
  }

  predicate PlayerOk(p: Player) {
    p.hp <= FullHp && (!p.dead ==> p.hp > 0) && IsInstance(p.weapon)
  }

  predicate PlayersOk(ps: seq<Player>, nextId: int) {
    && (forall i | 0 <= i < |ps| :: PlayerOk(ps[i]) && ps[i].id < nextId)
    && (forall i, j | 0 <= i < j < |ps| :: ps[i].id != ps[j].id && ps[i].channel != ps[j].channel)
  }

  predicate BulletsOk(bs: seq<Bullet>, nextId: int) {
    && (forall i | 0 <= i < |bs| :: bs[i].damage > 0 && bs[i].id < nextId)
    && (forall i, j | 0 <= i < j < |bs| :: bs[i].id != bs[j].id)
  }

  predicate ItemsOk(its: seq<Item>, nextId: int) {
    && (forall i | 0 <= i < |its| :: its[i].id < nextId)
    && (forall i, j | 0 <= i < j < |its| :: its[i].id != its[j].id)
  }

  /** The world invariant. */
  predicate Wf(w: World) {
    PlayersOk(w.players, w.playerId) && BulletsOk(w.bullets, w.bulletId) && ItemsOk(w.items, w.itemId)
  }

  /** The empty world the game starts from satisfies the invariant. */
  lemma InitialWf()
    ensures Wf(World(0, [], 1, [], 1, [], 1, []))
  {
  }

  // ---------------------------------------------------------------------
  // The tick, step by step.

  lemma UpdatePlayersWf(geo: Geo, g: Grid, w: World, spawnAt: nat -> Point)
    requires Wf(w)
    ensures Wf(UpdatePlayers(geo, g, w, spawnAt))
  {
    var r := UpdatePlayers(geo, g, w, spawnAt);
    assert TickLength != 0.0;
    forall k | 0 <= k < |w.players|
      ensures r.players[k].id == w.players[k].id && r.players[k].channel == w.players[k].channel
      ensures PlayerOk(r.players[k])
    {
      assert r.players[k] == AdvancePlayer(geo, g, w.currFrame, w.players[k], spawnAt(k));
    }
  }

  lemma UpdateBulletsWf(geo: Geo, g: Grid, w: World, jitter: nat -> Jitter)
    requires Wf(w)
    ensures Wf(UpdateBullets(geo, g, w, jitter))
  {
    var fl := Flown(geo, g, w.bullets, jitter);
    forall k | 0 <= k < |w.bullets|
      ensures fl[k].id == w.bullets[k].id && fl[k].damage == w.bullets[k].damage
    {
      BulletFate(geo, g, w.bullets[k], jitter(k));
    }
    FilterKeeps(fl, Flying(geo, g, w.bullets, jitter),
                (b: Bullet) => b.damage > 0 && b.id < w.bulletId, (a: Bullet, b: Bullet) => a.id != b.id);
  }

  /** One bullet keeps every player sound when it does damage: a wound
      only lowers hit points, and a touch that takes the last of them
      kills. */
  lemma AfterBulletKeepsPlayers(geo: Geo, w: World, b: Bullet)
    requires PlayersOk(w.players, w.playerId) && b.damage > 0
    ensures PlayersOk(AfterBullet(geo, w, b, |w.players|).players, w.playerId)
  {
    var r := AfterBullet(geo, w, b, |w.players|);
    AfterBulletShape(geo, w, b, |w.players|);
    forall i | 0 <= i < |w.players|
      ensures PlayerOk(r.players[i])
    {
      assert r.players[i] == PlayerAfter(geo, w, b, |w.players|, i);
    }
  }

  lemma {:induction false} BulletPassKeepsPlayers(geo: Geo, w: World, bs: seq<Bullet>)
    requires PlayersOk(w.players, w.playerId) && forall k | 0 <= k < |bs| :: bs[k].damage > 0
    ensures PlayersOk(BulletPass(geo, w, bs).state.players, w.playerId)
    decreases |bs|
  {
    if bs != [] {
      var n := |bs| - 1;
      BulletPassKeepsPlayers(geo, w, bs[..n]);
      AfterBulletKeepsPlayers(geo, BulletPass(geo, w, bs[..n]).state, bs[n]);
    }
  }

  /** The items of a world grown by the bullet loop stay sound: the new ones
      carry fresh consecutive ids. */
  lemma BulletPassKeepsItems(geo: Geo, w: World, bs: seq<Bullet>)
    requires ItemsOk(w.items, w.itemId)
    ensures var r := BulletPass(geo, w, bs).state;
      ItemsOk(r.items, r.itemId) && r.itemId >= w.itemId
  {
    BulletPassAccounting(geo, w, bs);
    var r := BulletPass(geo, w, bs).state;
    var n := |w.items|;
    forall i | 0 <= i < |r.items|
      ensures (i < n ==> r.items[i] == w.items[i]) && (n <= i ==> r.items[i].id == w.itemId + (i - n))
    {
      if i < n {
        assert r.items[..n][i] == r.items[i];
      }
    }
  }

  /** Pickups keep every player sound. */
  lemma ItemPassKeepsPlayers(geo: Geo, ps: seq<Player>, items: seq<Item>, choice: (nat, nat) -> Feature, nextId: int)
    requires PlayersOk(ps, nextId)
    ensures PlayersOk(ItemPass(geo, ps, items, choice).state, nextId)
  {
    ItemPassKeepsBodies(geo, ps, items, choice);
    ItemPassArms(geo, ps, items, choice);
  }

  /** The hit check keeps the invariant and never takes back an item id. */
  lemma CheckHitWf(geo: Geo, w: World, choice: (nat, nat) -> Feature, now: real)
    requires Wf(w)
    ensures Wf(CheckHit(geo, w, choice, now)) && CheckHit(geo, w, choice, now).itemId >= w.itemId
  {
    CheckHitPlayersOk(geo, w, choice, now);
    CheckHitBulletsOk(geo, w, choice, now);
    CheckHitItemsOk(geo, w, choice, now);
  }

  /** The players the hit check keeps stay sound, with unique ids and
      channels below the player id counter. */
  lemma CheckHitPlayersOk(geo: Geo, w: World, choice: (nat, nat) -> Feature, now: real)
    requires Wf(w)
    ensures var r := CheckHit(geo, w, choice, now);
      PlayersOk(r.players, r.playerId) && r.playerId == w.playerId
  {
    var w1 := BulletPass(geo, w, w.bullets).state;
    var ps := ItemPass(geo, w1.players, w1.items, choice).state;
    BulletPassKeepsPlayers(geo, w, w.bullets);
    ItemPassKeepsPlayers(geo, w1.players, w1.items, choice, w.playerId);
    FilterKeeps(ps, Active(ps, now), (p: Player) => PlayerOk(p) && p.id < w.playerId,
                (p: Player, q: Player) => p.id != q.id && p.channel != q.channel);
  }

  /** The bullets the hit check keeps stay sound. */
  lemma CheckHitBulletsOk(geo: Geo, w: World, choice: (nat, nat) -> Feature, now: real)
    requires Wf(w)
    ensures var r := CheckHit(geo, w, choice, now);
      BulletsOk(r.bullets, r.bulletId) && r.bulletId == w.bulletId
  {
    var hit := BulletPass(geo, w, w.bullets);
    FilterKeeps(w.bullets, hit.keep, (b: Bullet) => b.damage > 0 && b.id < w.bulletId,
                (a: Bullet, b: Bullet) => a.id != b.id);
  }

  /** The items the hit check keeps, drops included, stay sound, and the
      item id counter never falls. */
  lemma CheckHitItemsOk(geo: Geo, w: World, choice: (nat, nat) -> Feature, now: real)
    requires Wf(w)
    ensures var r := CheckHit(geo, w, choice, now);
      ItemsOk(r.items, r.itemId) && r.itemId >= w.itemId
  {
    var w1 := BulletPass(geo, w, w.bullets).state;
    var pick := ItemPass(geo, w1.players, w1.items, choice);
    BulletPassKeepsItems(geo, w, w.bullets);
    FilterKeeps(w1.items, pick.keep, (it: Item) => it.id < w1.itemId, (a: Item, b: Item) => a.id != b.id);
  }

  lemma AddItemWf(w: World, pos: Point, t: ItemType)
    requires Wf(w)
    ensures Wf(AddItem(w, pos, t))
  {
  }

  /** Every tick keeps the invariant, moves to the next frame, never hands
      out player or bullet ids and never takes back item ids. */
  lemma TickWf(geo: Geo, g: Grid, w: World, d: Draws)
    requires Wf(w)
    ensures var r := Tick(geo, g, w, d);
      && Wf(r)
      && r.currFrame == w.currFrame + 1
      && r.playerId == w.playerId && r.bulletId == w.bulletId && r.itemId >= w.itemId
  {
    var w1 := UpdatePlayers(geo, g, w, d.spawnAt);
    UpdatePlayersWf(geo, g, w, d.spawnAt);
    var w2 := UpdateBullets(geo, g, w1, d.jitter);
    UpdateBulletsWf(geo, g, w1, d.jitter);
    var w3 := CheckHit(geo, w2, d.choice, d.now);
    CheckHitWf(geo, w2, d.choice, d.now);
    if SpawnDue(w3, d.roll) {
      AddItemWf(w3, d.dropAt, d.dropType);
    }
  }

  // ---------------------------------------------------------------------
  // Intents.

  lemma JoinWf(w: World, channel: string, name: string, spawnAt: Point, now: real)
    requires Wf(w)
    ensures Wf(Join(w, channel, name, spawnAt, now).0)
  {
    var r := Join(w, channel, name, spawnAt, now).0;
    match FirstWithChannel(w.players, channel)
    case None =>
      var p := NewPlayer(w.playerId, name, channel, spawnAt, now);
      assert r.players == w.players + [p];
      assert PlayerOk(p);
    case Some(k) =>
      assert PlayerOk(r.players[k]);
  }

  lemma LeaveWf(w: World, channel: string)
    requires Wf(w)
    ensures Wf(Leave(w, channel))
  {
    var r := Leave(w, channel);
    if FirstWithChannel(w.players, channel).Some? {
      var k := FirstWithChannel(w.players, channel).value;
      forall i, j | 0 <= i < j < |r.players|
        ensures r.players[i].id != r.players[j].id && r.players[i].channel != r.players[j].channel
      {
        var a := if i < k then i else i + 1;
        var b := if j < k then j else j + 1;
        assert r.players[i] == w.players[a] && r.players[j] == w.players[b] && a < b;
      }
    }
  }

  lemma ShootWf(geo: Geo, w: World, pid: int, target: Point, now: real)
    requires Wf(w)
    ensures Wf(Shoot(geo, w, pid, target, now).world)
    ensures Shoot(geo, w, pid, target, now).world.bulletId >= w.bulletId
  {
    var r := Shoot(geo, w, pid, target, now);
    if !r.raised {
      var k := FirstWithId(w.players, pid).value;
      var p := w.players[k];
      var angle := geo.angle(p.pos, target);
      var pos := geo.shift(p.pos, angle, p.width);
      var t := w.currFrame as real / FramePerSec as real;
      var s := Discharge(p.weapon, pos, angle, p.id, t, w.bulletId);
      DischargeShape(p.weapon, pos, angle, p.id, t, w.bulletId);
      DischargeKeepsInstance(p.weapon, pos, angle, p.id, t, w.bulletId);
      if !p.dead && s.bullets.Some? {
        var bs := s.bullets.value;
        assert p.weapon.damage > 0;
        assert r.world.bullets == w.bullets + bs;
        forall i | |w.bullets| <= i < |r.world.bullets|
          ensures r.world.bullets[i] == bs[i - |w.bullets|]
        {
        }
      }
    }
  }

  lemma MoveWf(geo: Geo, w: World, a: Action, now: real)
    requires Wf(w) && WellTyped(a)
    ensures Wf(Move(geo, w, a, now).world)
  {
  }

  /** Every intent keeps the invariant and never takes back a player or
      bullet id. */
  lemma HandleWf(geo: Geo, w: World, a: Action, spawnAt: Point, now: real)
    requires Wf(w) && WellTyped(a)
    ensures var r := Handle(geo, w, a, spawnAt, now).world;
      Wf(r) && r.playerId >= w.playerId && r.bulletId >= w.bulletId
  {
    if "actionType" in a {
      var t := a["actionType"].s;
      if t == "move" {
        MoveWf(geo, w, a, now);
      } else if t == "shoot" && HasFields(a, ShootFields) {
        assert "player" in a && "x" in a && "y" in a;
        ShootWf(geo, w, a["player"].i, Point(Number(a["x"]), Number(a["y"])), now);
      } else if t == "join" && HasFields(a, JoinFields) {
        assert "channel" in a && "name" in a;
        JoinWf(w, a["channel"].s, a["name"].s, spawnAt, now);
      } else if t == "leave" && HasFields(a, LeaveFields) {
        assert "channel" in a;
        LeaveWf(w, a["channel"].s);
      }
    }
  }

  /** Every batch of intents keeps the invariant, and the player and
      bullet id counters only grow. */
  lemma {:induction false} ActionsWf(geo: Geo, w: World, actions: seq<Action>, spawnAt: nat -> Point, now: real, k: nat)
    requires Wf(w) && k <= |actions| && forall i | 0 <= i < |actions| :: WellTyped(actions[i])
    ensures var r := Actions(geo, w, actions, spawnAt, now, k).world;
      Wf(r) && r.playerId >= w.playerId && r.bulletId >= w.bulletId
  {
    if k > 0 {
      var prev := Actions(geo, w, actions, spawnAt, now, k - 1);
      ActionsWf(geo, w, actions, spawnAt, now, k - 1);
      if !prev.raised {
        var s := Handle(geo, prev.world, actions[k - 1], spawnAt(k - 1), now);
        HandleWf(geo, prev.world, actions[k - 1], spawnAt(k - 1), now);
        assert Actions(geo, w, actions, spawnAt, now, k).world == s.world;
      } else {
        assert Actions(geo, w, actions, spawnAt, now, k) == prev;
      }
    }
  }

  /** A join on a new channel hands out the player id counter, which is
      larger than every id in the game, and advances the counter, so the
      ids of new players strictly increase. */
  lemma JoinFreshId(w: World, channel: string, name: string, spawnAt: Point, now: real)
    requires Wf(w) && FirstWithChannel(w.players, channel).None?
    ensures var (w1, id) := Join(w, channel, name, spawnAt, now);
      && id == w.playerId && w1.playerId == id + 1
      && (forall i | 0 <= i < |w.players| :: w.players[i].id < id)
      && w1.players[|w.players|].id == id
  {
  }

  /** Joining again on a channel that already has a player hands back the
      same id and adds nobody. */
  lemma RejoinKeepsId(w: World, channel: string, n1: string, n2: string, s1: Point, s2: Point, t1: real, t2: real)
    requires Wf(w)
    ensures var (w1, id1) := Join(w, channel, n1, s1, t1);
            var (w2, id2) := Join(w1, channel, n2, s2, t2);
      id2 == id1 && |w2.players| == |w1.players| && w2.playerId == w1.playerId
  {
    var (w1, id1) := Join(w, channel, n1, s1, t1);
    match FirstWithChannel(w.players, channel)
    case None =>
      var k := |w.players|;
      assert w1.players[k].channel == channel;
      assert FirstWithChannel(w1.players, channel) == Some(k);
    case Some(k) =>
      assert w1.players[k].channel == channel;
      assert FirstWithChannel(w1.players, channel) == Some(k);
  }
}
