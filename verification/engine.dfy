/**
 * The game engine: one object holding the world, whose methods advance it
 * tick by tick and apply client intents, each proved to do what the
 * matching function of the world model says.
 */
module Engine {
  import opened Wrappers
  import opened Geometry
  import opened TileMap
  import opened Weapons
  import opened Entities
  import opened Sequences
  import opened Arena
  import opened Combat
  import opened Intents
  import opened Rules

  /** Side of the square map, in cells. */
  const MapSide: nat := 30

  class Game {
    /** The geometry the game measures with, and its walkability grid. */
    const geo: Geo
    const grid: Grid

    var currFrame: int
    var players: seq<Player>
    var playerId: int
    var bullets: seq<Bullet>
    var bulletId: int
    var items: seq<Item>
    var itemId: int
    var eventQueue: seq<Event>

    /** The world this game holds. */
    function State(): World
      reads this
    {
      World(currFrame, players, playerId, bullets, bulletId, items, itemId, eventQueue)
    }

    /** A fresh game on a MapSide by MapSide map read from the row-major
        tile layer: frame 0, nobody in it, every id counter at 1. */
    constructor (geo: Geo, layer: seq<int>)
      requires |layer| >= MapSide * MapSide
      ensures State() == World(0, [], 1, [], 1, [], 1, []) && Wf(State())
      ensures this.geo == geo && grid.Valid() && grid.height == MapSide && grid.width == MapSide
      ensures forall row, col | 0 <= row < MapSide && 0 <= col < MapSide ::
        grid.walkable[row][col] <==> TileAt(layer, MapSide, MapSide, row, col) <= WallThreshold
    {
      this.geo := geo;
      var g := LoadLayer(MapSide, MapSide, layer);
      grid := g;
      currFrame := 0;
      players := [];
      playerId := 1;
      bullets := [];
      bulletId := 1;
      items := [];
      itemId := 1;
      eventQueue := [];
      new;
      InitialWf();
    }

    /** The index of the first player with the given id. */
    method GetPlayerById(id: int) returns (k: Option<nat>)
      ensures k == FirstWithId(players, id)
    {
      for i := 0 to |players|
        invariant forall m | 0 <= m < i :: players[m].id != id
      {
        if players[i].id == id {
          return Some(i);
        }
      }
      return None;
    }

    /** The index of the first player on the given channel. */
    method GetPlayerByChannel(channel: string) returns (k: Option<nat>)
      ensures k == FirstWithChannel(players, channel)
    {
      for i := 0 to |players|
        invariant forall m | 0 <= m < i :: players[m].channel != channel
      {
        if players[i].channel == channel {
          return Some(i);
        }
      }
      return None;
    }

    /** A client joins on channel; spawnAt is the random walkable point
        drawn for it and now the wall-clock time.  Returns the player id. */
    method JoinGame(channel: string, name: string, spawnAt: Point, now: real) returns (id: int)
      modifies this
      ensures (State(), id) == Join(old(State()), channel, name, spawnAt, now)
    {
      var k := GetPlayerByChannel(channel);
      if k.Some? {
        var p := players[k.value];
        if p.dead {
          players := players[k.value := Reborn(p, spawnAt)];
        }
        return p.id;
      }
      var p := NewPlayer(playerId, name, channel, spawnAt, now);
      id := playerId;
      playerId := playerId + 1;
      players := players + [p];
    }

    /** The first player on channel leaves the game. */
    method LeaveGame(channel: string)
      modifies this
      ensures State() == Leave(old(State()), channel)
    {
      for i := 0 to |players|
        invariant forall m | 0 <= m < i :: players[m].channel != channel
        invariant State() == old(State())
      {
        if players[i].channel == channel {
          players := players[..i] + players[i + 1..];
          return;
        }
      }
    }

    /** The player step of a tick; spawnAt(k) is the random walkable point
        drawn should player k be reborn. */
    method UpdatePlayers(spawnAt: nat -> Point)
      modifies this
      ensures State() == Arena.UpdatePlayers(geo, grid, old(State()), spawnAt)
    {
      var ps := players;
      for k := 0 to |ps|
        invariant |ps| == |players|
        invariant forall i | 0 <= i < k :: ps[i] == AdvancePlayer(geo, grid, currFrame, players[i], spawnAt(i))
        invariant forall i | k <= i < |ps| :: ps[i] == players[i]
      {
        var p := ps[k];
        if !p.dead {
          var m := PlayerMove(geo, grid, p, 1.0 / FramePerSec as real);
          ps := ps[k := m.entity];
        } else if currFrame - p.deadFrame > FramePerSec {
          ps := ps[k := Reborn(p, spawnAt(k))];
        }
      }
      players := ps;
    }

    /** The bullet step of a tick; jitter(k) holds the random draws of
        bullet k. */
    method UpdateBullets(jitter: nat -> Jitter)
      modifies this
      ensures State() == Arena.UpdateBullets(geo, grid, old(State()), jitter)
    {
      ghost var flown := Flown(geo, grid, bullets, jitter);
      ghost var flying := Flying(geo, grid, bullets, jitter);
      var newBullets: seq<Bullet> := [];
      for k := 0 to |bullets|
        invariant State() == old(State())
        invariant newBullets == Filter(flown[..k], flying[..k])
      {
        var m := BulletMove(geo, grid, bullets[k], TickLength, jitter(k));
        if m.going {
          var b := m.entity.(length := m.entity.length - m.entity.speed / FramePerSec as real);
          if b.length > 0.0 {
            newBullets := newBullets + [b];
          }
        }
        assert newBullets == Filter(flown[..k + 1], flying[..k + 1]) by {
          FilterSnoc(flown, flying, k);
          assert flown[k] == Flight(geo, grid, bullets[k], jitter(k)).entity;
          assert flying[k] == Flight(geo, grid, bullets[k], jitter(k)).going;
        }
      }
      assert flown[..|bullets|] == flown && flying[..|bullets|] == flying;
      bullets := newBullets;
    }

    /** A new item of type t at pos with the next item id. */
    method GenerateItem(pos: Point, t: ItemType)
      modifies this
      ensures State() == AddItem(old(State()), pos, t)
    {
      var item := Item(itemId, pos, t);
      itemId := itemId + 1;
      items := items + [item];
    }

    /** The bullet b against every player in turn (the inner loop of the
        hit check); returns whether it touched anyone. */
    method HitPlayers(b: Bullet) returns (hit: bool)
      modifies this
      ensures State() == AfterBullet(geo, old(State()), b, |old(players)|)
      ensures hit == Consumed(geo, old(players), b)
    {
      ghost var w0 := State();
      AfterBulletStart(geo, w0, b);
      hit := false;
      for j := 0 to |players|
        invariant State() == AfterBullet(geo, w0, b, j)
        invariant hit <==> exists i | 0 <= i < j :: Hits(geo, w0.players[i], b)
      {
        if Hits(geo, players[j], b) {
          Strike(w0, b, j);
          hit := true;
        } else {
          AfterBulletMiss(geo, w0, b, j);
        }
      }
    }

    /** The bullet b touches player j: the player loses the bullet's damage
        and a hit event is queued; if that takes its last hit points, the
        player is killed. */
    method Strike(ghost w0: World, b: Bullet, j: nat)
      requires j < |w0.players| && State() == AfterBullet(geo, w0, b, j) && Hits(geo, w0.players[j], b)
      modifies this
      ensures State() == AfterBullet(geo, w0, b, j + 1)
    {
      Wound(b, j);
      if players[j].hp <= 0 && !players[j].dead {
        AfterBulletKill(geo, w0, b, j);
        Kill(b, j);
      } else {
        AfterBulletWound(geo, w0, b, j);
      }
    }

    /** Player j loses the bullet's damage, and a hit event is queued. */
    method Wound(b: Bullet, j: nat)
      requires j < |players|
      modifies this
      ensures State() == old(State()).(players := Wounded(old(players), j, b.damage),
                                       events := old(eventQueue) + [BulletHit(old(players)[j].id)])
    {
      players := players[j := players[j].(hp := players[j].hp - b.damage)];
      eventQueue := eventQueue + [BulletHit(players[j].id)];
    }

    /** Player j is killed by the bullet b: the shooter, if still present,
        is credited a kill, the player dies at this frame, and it drops a
        random-buff item where it stood. */
    method Kill(b: Bullet, j: nat)
      requires j < |players|
      modifies this
      ensures State() == old(State()).(players := Slain(CreditKill(old(players), b.owner), j, old(currFrame)),
                                       items := old(items) + [Item(old(itemId), old(players)[j].pos, RandomWeaponBuff)],
                                       itemId := old(itemId) + 1)
    {
      var atk := GetPlayerById(b.owner);
      if atk.Some? {
        players := players[atk.value := players[atk.value].(kill := players[atk.value].kill + 1)];
      }
      players := players[j := players[j].(dead := true, deadFrame := currFrame, death := players[j].death + 1)];
      GenerateItem(players[j].pos, RandomWeaponBuff);
    }

    /** The item it, at index ix, against every player in turn (the inner
        loop of the pickup check); returns whether anyone collected it. */
    method BuffPlayers(it: Item, ix: nat, choice: (nat, nat) -> Feature) returns (claimed: bool)
      modifies this
      ensures State() == old(State()).(players := Collected(geo, old(players), it, ix, choice, |old(players)|))
      ensures claimed == Claimed(geo, old(players), it)
    {
      ghost var ps := players;
      claimed := false;
      for j := 0 to |players|
        invariant State() == old(State()).(players := Collected(geo, ps, it, ix, choice, j))
        invariant claimed <==> exists i | 0 <= i < j :: Reaches(geo, ps[i], it)
      {
        CollectedStep(geo, ps, it, ix, choice, j);
        if Reaches(geo, players[j], it) {
          players := players[j := Buff(it.itemType, players[j], choice(ix, j))];
          claimed := true;
        }
      }
    }

    /** The bullet loop of the hit check: every bullet against every
        player; the bullets that touched nobody stay, in order. */
    method HitBullets()
      modifies this
      ensures var pass := BulletPass(geo, old(State()), old(bullets));
        State() == pass.state.(bullets := Filter(old(bullets), pass.keep))
    {
      ghost var w0 := State();
      var newBullets: seq<Bullet> := [];
      ghost var pass := Pass(w0, []);
      for k := 0 to |bullets|
        invariant bullets == w0.bullets
        invariant pass == BulletPass(geo, w0, w0.bullets[..k])
        invariant State() == pass.state
        invariant newBullets == Filter(w0.bullets[..k], pass.keep)
      {
        var b := bullets[k];
        ghost var prev := pass;
        var hit := HitPlayers(b);
        if !hit {
          newBullets := newBullets + [b];
        }
        pass := Pass(State(), prev.keep + [!hit]);
        assert pass == BulletPass(geo, w0, w0.bullets[..k + 1]) by {
          BulletPassSnoc(geo, w0, w0.bullets, k);
        }
        assert newBullets == Filter(w0.bullets[..k + 1], pass.keep) by {
          FilterExtend(w0.bullets, prev.keep, !hit);
        }
      }
      assert w0.bullets[..|w0.bullets|] == w0.bullets;
      bullets := newBullets;
    }

    /** The item loop of the hit check: every item (those just dropped
        included) against every player; the items nobody reached stay, in
        order. */
    method CollectItems(choice: (nat, nat) -> Feature)
      modifies this
      ensures var pass := ItemPass(geo, old(players), old(items), choice);
        State() == old(State()).(players := pass.state, items := Filter(old(items), pass.keep))
    {
      ghost var w1 := State();
      var newItems: seq<Item> := [];
      ghost var ikeep: seq<bool> := [];
      for k := 0 to |items|
        invariant State() == w1.(players := ItemPass(geo, w1.players, w1.items[..k], choice).state)
        invariant ikeep == ItemPass(geo, w1.players, w1.items[..k], choice).keep
        invariant newItems == Filter(w1.items[..k], ikeep)
      {
        var it := items[k];
        ghost var prev := ikeep;
        var claimed := BuffPlayers(it, k, choice);
        if !claimed {
          newItems := newItems + [it];
        }
        ikeep := ikeep + [!claimed];
        assert State() == w1.(players := ItemPass(geo, w1.players, w1.items[..k + 1], choice).state) &&
               ikeep == ItemPass(geo, w1.players, w1.items[..k + 1], choice).keep by {
          ItemPassSnoc(geo, w1.players, w1.items, k, choice);
        }
        assert newItems == Filter(w1.items[..k + 1], ikeep) by {
          FilterExtend(w1.items, prev, !claimed);
        }
      }
      assert w1.items[..|w1.items|] == w1.items;
      items := newItems;
    }

    /** The eviction loop of the hit check: only players with an intent
        within the last IdleLimit seconds of now stay, in order. */
    method EvictIdle(now: real)
      modifies this
      ensures State() == old(State()).(players := Filter(old(players), Active(old(players), now)))
    {
      ghost var active := Active(players, now);
      var newPlayers: seq<Player> := [];
      for k := 0 to |players|
        invariant State() == old(State())
        invariant newPlayers == Filter(players[..k], active[..k])
      {
        FilterSnoc(players, active, k);
        if players[k].lastAction >= now - IdleLimit {
          newPlayers := newPlayers + [players[k]];
        }
      }
      assert players[..|players|] == players && active[..|players|] == active;
      players := newPlayers;
    }

    /** The hit check; choice(ix, i) is the feature a random buff at index
        ix would grant player i, and now the wall-clock time. */
    method CheckHit(choice: (nat, nat) -> Feature, now: real)
      modifies this
      ensures State() == Combat.CheckHit(geo, old(State()), choice, now)
    {
      HitBullets();
      CollectItems(choice);
      EvictIdle(now);
    }

    /** One tick of the game; d holds the tick's random draws and clock. */
    method UpdateFrame(d: Draws)
      modifies this
      ensures State() == Tick(geo, grid, old(State()), d)
    {
      UpdatePlayers(d.spawnAt);
      UpdateBullets(d.jitter);
      CheckHit(d.choice, d.now);
      if |items| < 5 + 2 * |players| && d.roll < 0.005 + 0.001 * |players| as real {
        GenerateItem(d.dropAt, d.dropType);
      }
      currFrame := currFrame + 1;
    }

    /** The gated shoot handler.  Returns whether it raised: a shoot at an
        unknown player id fails on stamping the shooter's time. */
    method ActionShoot(a: Action, now: real) returns (raised: bool)
      requires WellTyped(a)
      modifies this
      ensures Step(State(), raised, None) == ShootIntent(geo, old(State()), a, now)
    {
      var missing := RequireFields(a, ShootFields);
      if missing.Some? {
        return false;
      }
      var k := GetPlayerById(a["player"].i);
      if k.None? {
        return true;
      }
      var i := k.value;
      players := players[i := players[i].(lastAction := now)];
      var p := players[i];
      if p.dead {
        return false;
      }
      PullTrigger(i, Point(Number(a["x"]), Number(a["y"])));
      return false;
    }

    /** The living player at index i pulls the trigger aiming at target:
        the fg_42 fires its burst, any other weapon one gated shot; each
        bullet fired stops and turns the shooter, joins the bullets and
        takes the next bullet id. */
    method PullTrigger(i: nat, target: Point)
      requires i < |players|
      modifies this
      ensures State() == Trigger(geo, old(State()), i, target)
    {
      var p := players[i];
      var angle := geo.angle(p.pos, target);
      var pos := geo.shift(p.pos, angle, p.width);
      var currTime := currFrame as real / FramePerSec as real;
      var s: Shot;
      if p.weapon.kind == Fg42 {
        s := FireBurst(p.weapon, pos, angle, p.id, currTime, bulletId);
      } else {
        s := Fire(p.weapon, pos, angle, p.id, currTime, bulletId, true);
      }
      players := players[i := players[i].(weapon := s.weapon)];
      if s.bullets.Some? {
        Emit(i, s.bullets.value, angle);
      }
    }

    /** The shot bullets bs leave the gun one by one: each stops the shooter
        at index i facing angle, joins the bullets and takes the next bullet
        id. */
    method Emit(i: nat, bs: seq<Bullet>, angle: real)
      requires i < |players|
      modifies this
      ensures State() == old(State()).(players := if bs == [] then old(players)
                                                  else old(players)[i := old(players)[i].(speed := 0.0, angle := angle)],
                                       bullets := old(bullets) + bs,
                                       bulletId := old(bulletId) + |bs|)
    {
      ghost var w1 := State();
      for m := 0 to |bs|
        invariant State() == w1.(players := if m == 0 then w1.players
                                            else w1.players[i := w1.players[i].(speed := 0.0, angle := angle)],
                                 bullets := w1.bullets + bs[..m],
                                 bulletId := w1.bulletId + m)
      {
        players := players[i := players[i].(speed := 0.0, angle := angle)];
        bullets := bullets + [bs[m]];
        bulletId := bulletId + 1;
      }
      assert bs[..|bs|] == bs;
    }

    /** The gated join handler; returns the join to announce. */
    method ActionJoin(a: Action, spawnAt: Point, now: real) returns (joined: Option<(string, int)>)
      requires WellTyped(a)
      modifies this
      ensures Step(State(), false, joined) == JoinIntent(old(State()), a, spawnAt, now)
    {
      var missing := RequireFields(a, JoinFields);
      if missing.Some? {
        return None;
      }
      var id := JoinGame(a["channel"].s, a["name"].s, spawnAt, now);
      return Some((a["channel"].s, id));
    }

    /** The gated leave handler. */
    method ActionLeave(a: Action)
      requires WellTyped(a)
      modifies this
      ensures Step(State(), false, None) == LeaveIntent(old(State()), a)
    {
      var missing := RequireFields(a, LeaveFields);
      if missing.None? {
        LeaveGame(a["channel"].s);
      }
    }

    /** One intent of a batch, dispatched on its type; spawnAt is the
        random point a join would draw.  Returns whether the handler raised
        and the join to announce. */
    method Dispatch(a: Action, spawnAt: Point, now: real) returns (raised: bool, joined: Option<(string, int)>)
      requires WellTyped(a)
      modifies this
      ensures Step(State(), raised, joined) == Handle(geo, old(State()), a, spawnAt, now)
    {
      raised, joined := false, None;
      if "actionType" !in a {
        // Reading the missing type raises.
        raised := true;
        return;
      }
      var t := a["actionType"].s;
      if t == "move" {
        if "player" in a {
          var k := GetPlayerById(a["player"].i);
          if k.Some? && !players[k.value].dead {
            var i := k.value;
            players := players[i := players[i].(lastAction := now)];
            if "x" !in a || "y" !in a {
              // Reading the missing coordinate raises.
              raised := true;
              return;
            }
            players := players[i := SetMove(geo, players[i], Point(Number(a["x"]), Number(a["y"])))];
          }
        }
      } else if t == "shoot" {
        raised := ActionShoot(a, now);
      } else if t == "join" {
        joined := ActionJoin(a, spawnAt, now);
      } else if t == "leave" {
        ActionLeave(a);
      }
    }

    /** A batch of intents in order, stopping at the first that raises;
        spawnAt(i) is the random point intent i would draw.  Returns
        whether a handler raised and the joins announced. */
    method DoActions(actions: seq<Action>, spawnAt: nat -> Point, now: real) returns (raised: bool, joins: seq<(string, int)>)
      requires forall i | 0 <= i < |actions| :: WellTyped(actions[i])
      modifies this
      ensures Batch(State(), raised, joins) == Actions(geo, old(State()), actions, spawnAt, now, |actions|)
    {
      ghost var w0 := State();
      raised, joins := false, [];
      for k := 0 to |actions|
        invariant Batch(State(), false, joins) == Actions(geo, w0, actions, spawnAt, now, k)
      {
        var r, j := Dispatch(actions[k], spawnAt(k), now);
        if j.Some? {
          joins := joins + [j.value];
        }
        if r {
          raised := true;
          ActionsStopAtRaise(geo, w0, actions, spawnAt, now, k + 1, |actions|);
          return;
        }
      }
    }
  }
}
