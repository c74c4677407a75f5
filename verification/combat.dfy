/**
 * Hit detection for one tick: every bullet against every player, then every
 * item against every player, then the eviction of idle players.  Each pass
 * is given in closed form (what the whole pass has done after its first j
 * steps), so the engine's loops can be checked against it one step at a
 * time, and the accounting properties are lemmas about the closed forms.
 */
module Combat {
  import opened Wrappers
  import opened Geometry
  import opened Weapons
  import opened Entities
  import opened Sequences
  import opened Arena

  /** Seconds without an intent after which a player is dropped. */
  const IdleLimit: real := 120.0

  // ---------------------------------------------------------------------
  // Bullets against players.

  /** A bullet touches a player: the player is alive, did not fire it, and
      the centres are closer than the two widths together. */
  predicate Hits(geo: Geo, p: Player, b: Bullet) {
    !p.dead && b.owner != p.id && geo.dist(p.pos, b.pos) < p.width + b.width
  }

  /** The touch takes the player's last hit points. */
  predicate Fatal(geo: Geo, p: Player, b: Bullet) {
    Hits(geo, p, b) && p.hp - b.damage <= 0
  }

  /** What a bullet does to one player (kill credit aside): a touched player
      loses the bullet's damage, with no floor at zero, and dies at this
      frame when that takes its last hit points. */
  function Struck(geo: Geo, p: Player, b: Bullet, frame: int): Player {
    if !Hits(geo, p, b) then p
    else if p.hp - b.damage <= 0 then
      p.(hp := p.hp - b.damage, dead := true, deadFrame := frame, death := p.death + 1)
    else p.(hp := p.hp - b.damage)
  }

  /** Number of players among the first j that the bullet kills. */
  function DeathsBefore(geo: Geo, ps: seq<Player>, b: Bullet, j: nat): nat
    requires j <= |ps|
  {
    if j == 0 then 0
    else DeathsBefore(geo, ps, b, j - 1) + (if Fatal(geo, ps[j - 1], b) then 1 else 0)
  }

  /** The hit events of the bullet against the first j players. */
  function HitEvents(geo: Geo, ps: seq<Player>, b: Bullet, j: nat): seq<Event>
    requires j <= |ps|
  {
    if j == 0 then []
    else HitEvents(geo, ps, b, j - 1) + (if Hits(geo, ps[j - 1], b) then [BulletHit(ps[j - 1].id)] else [])
  }

  /** The items the bullet's victims among the first j players drop, with
      consecutive ids from firstId, where each victim stood. */
  function Drops(geo: Geo, ps: seq<Player>, b: Bullet, firstId: int, j: nat): seq<Item>
    requires j <= |ps|
  {
    if j == 0 then []
    else Drops(geo, ps, b, firstId, j - 1) +
         (if Fatal(geo, ps[j - 1], b)
          then [Item(firstId + DeathsBefore(geo, ps, b, j - 1), ps[j - 1].pos, RandomWeaponBuff)]
          else [])
  }

  /** Player i after the bullet b has been checked against the first j
      players: struck if it is among them, and credited one kill per victim
      if it is the shooter (the first player with the bullet's owner id). */
  function PlayerAfter(geo: Geo, w: World, b: Bullet, j: nat, i: nat): Player
    requires j <= |w.players| && i < |w.players|
  {
    var q := if i < j then Struck(geo, w.players[i], b, w.currFrame) else w.players[i];
    if FirstWithId(w.players, b.owner) == Some(i)
    then q.(kill := q.kill + DeathsBefore(geo, w.players, b, j))
    else q
  }

  /** The world after the bullet b has been checked against the first j
      players: those players are struck, the shooter is credited, one event
      per touch is queued and one item per victim is dropped. */
  function AfterBullet(geo: Geo, w: World, b: Bullet, j: nat): (r: World)
    requires j <= |w.players|
    ensures r == w.(players := r.players, events := r.events, items := r.items, itemId := r.itemId)
    ensures |r.players| == |w.players|
  {
    w.(players := seq(|w.players|, i requires 0 <= i < |w.players| => PlayerAfter(geo, w, b, j, i)),
       events := w.events + HitEvents(geo, w.players, b, j),
       items := w.items + Drops(geo, w.players, b, w.itemId, j),
       itemId := w.itemId + DeathsBefore(geo, w.players, b, j))
  }

  /** The bullet changes only the hit points, death record and kill count
      of each player, and players it has not reached yet only in their
      kill count. */
  lemma AfterBulletShape(geo: Geo, w: World, b: Bullet, j: nat)
    requires j <= |w.players|
    ensures var r := AfterBullet(geo, w, b, j);
      && (forall i | 0 <= i < |w.players| :: r.players[i].id == w.players[i].id)
      && (forall i | 0 <= i < |w.players| ::
            r.players[i] == w.players[i].(hp := r.players[i].hp, dead := r.players[i].dead,
                                          deadFrame := r.players[i].deadFrame, death := r.players[i].death,
                                          kill := r.players[i].kill))
      && (forall i | j <= i < |w.players| :: r.players[i] == w.players[i].(kill := r.players[i].kill))
  {
  }

  /** Before the first player nothing has happened. */
  lemma AfterBulletStart(geo: Geo, w: World, b: Bullet)
    ensures AfterBullet(geo, w, b, 0) == w
  {
    var r := AfterBullet(geo, w, b, 0);
    assert r.players == w.players;
  }

  /** One more kill for the first player with the given id, if any. */
  function CreditKill(ps: seq<Player>, id: int): (r: seq<Player>)
    ensures |r| == |ps|
  {
    match FirstWithId(ps, id)
    case Some(k) => ps[k := ps[k].(kill := ps[k].kill + 1)]
    case None => ps
  }

  // The next three lemmas show that the closed form obeys the inner loop of
  // the hit check, one player at a time.

  /** A player the bullet does not touch changes nothing. */
  lemma AfterBulletMiss(geo: Geo, w: World, b: Bullet, j: nat)
    requires j < |w.players| && !Hits(geo, w.players[j], b)
    ensures AfterBullet(geo, w, b, j + 1) == AfterBullet(geo, w, b, j)
  {
    var a, c := AfterBullet(geo, w, b, j), AfterBullet(geo, w, b, j + 1);
    forall i | 0 <= i < |w.players|
      ensures c.players[i] == a.players[i]
    {
      assert c.players[i] == PlayerAfter(geo, w, b, j + 1, i);
      assert a.players[i] == PlayerAfter(geo, w, b, j, i);
    }
    assert c.players == a.players;
  }

  /** The players after player j loses dmg hit points. */
  function Wounded(ps: seq<Player>, j: nat, dmg: int): (r: seq<Player>)
    requires j < |ps|
    ensures |r| == |ps|
  {
    ps[j := ps[j].(hp := ps[j].hp - dmg)]
  }

  /** The players after player j dies at frame. */
  function Slain(ps: seq<Player>, j: nat, frame: int): (r: seq<Player>)
    requires j < |ps|
    ensures |r| == |ps|
  {
    ps[j := ps[j].(dead := true, deadFrame := frame, death := ps[j].death + 1)]
  }

  /** A touch that leaves hit points subtracts the damage and queues a hit
      event, and does nothing else. */
  lemma AfterBulletWound(geo: Geo, w: World, b: Bullet, j: nat)
    requires j < |w.players| && Hits(geo, w.players[j], b) && w.players[j].hp - b.damage > 0
    ensures var a := AfterBullet(geo, w, b, j);
      AfterBullet(geo, w, b, j + 1) ==
        a.(players := Wounded(a.players, j, b.damage), events := a.events + [BulletHit(w.players[j].id)])
  {
    var a, c := AfterBullet(geo, w, b, j), AfterBullet(geo, w, b, j + 1);
    var p1 := Wounded(a.players, j, b.damage);
    forall i | 0 <= i < |w.players|
      ensures c.players[i] == p1[i]
    {
      assert c.players[i] == PlayerAfter(geo, w, b, j + 1, i);
      assert a.players[i] == PlayerAfter(geo, w, b, j, i);
    }
    assert c.players == p1;
  }

  /** A touch that takes the last hit points also credits the shooter
      (looked up in the current list), marks the victim dead at this frame,
      counts its death and drops a random-buff item with the next item id
      where it stood. */
  lemma AfterBulletKill(geo: Geo, w: World, b: Bullet, j: nat)
    requires j < |w.players| && Hits(geo, w.players[j], b) && w.players[j].hp - b.damage <= 0
    ensures var a := AfterBullet(geo, w, b, j);
      AfterBullet(geo, w, b, j + 1) ==
        a.(players := Slain(CreditKill(Wounded(a.players, j, b.damage), b.owner), j, w.currFrame),
           events := a.events + [BulletHit(w.players[j].id)],
           items := a.items + [Item(a.itemId, w.players[j].pos, RandomWeaponBuff)],
           itemId := a.itemId + 1)
  {
    var a, c := AfterBullet(geo, w, b, j), AfterBullet(geo, w, b, j + 1);
    KillPlayers(geo, w, b, j);
    var p := w.players[j];
    assert DeathsBefore(geo, w.players, b, j + 1) == DeathsBefore(geo, w.players, b, j) + 1;
    assert c.events == a.events + [BulletHit(p.id)];
    assert c.items == a.items + [Item(a.itemId, p.pos, RandomWeaponBuff)];
  }

  /** The players' part of AfterBulletKill. */
  lemma KillPlayers(geo: Geo, w: World, b: Bullet, j: nat)
    requires j < |w.players| && Hits(geo, w.players[j], b) && w.players[j].hp - b.damage <= 0
    ensures var a := AfterBullet(geo, w, b, j);
      AfterBullet(geo, w, b, j + 1).players ==
        Slain(CreditKill(Wounded(a.players, j, b.damage), b.owner), j, w.currFrame)
  {
    var a, c := AfterBullet(geo, w, b, j), AfterBullet(geo, w, b, j + 1);
    var p3 := Slain(CreditKill(Wounded(a.players, j, b.damage), b.owner), j, w.currFrame);
    forall i | 0 <= i < |w.players|
      ensures c.players[i] == p3[i]
    {
      KillPlayersAt(geo, w, b, j, i);
    }
    assert c.players == p3;
  }

  /** KillPlayers, player by player. */
  lemma KillPlayersAt(geo: Geo, w: World, b: Bullet, j: nat, i: nat)
    requires j < |w.players| && i < |w.players|
    requires Hits(geo, w.players[j], b) && w.players[j].hp - b.damage <= 0
    ensures var a := AfterBullet(geo, w, b, j);
      AfterBullet(geo, w, b, j + 1).players[i] ==
        Slain(CreditKill(Wounded(a.players, j, b.damage), b.owner), j, w.currFrame)[i]
  {
    var a, c := AfterBullet(geo, w, b, j), AfterBullet(geo, w, b, j + 1);
    var p1 := Wounded(a.players, j, b.damage);
    assert FirstWithId(p1, b.owner) == FirstWithId(w.players, b.owner) by {
      AfterBulletShape(geo, w, b, j);
      FirstWithIdSameIds(w.players, p1, b.owner);
    }
    assert c.players[i] == PlayerAfter(geo, w, b, j + 1, i);
    assert a.players[i] == PlayerAfter(geo, w, b, j, i);
    KillPlayerAt(geo, w, b, j, i);
    CreditKillAt(p1, b.owner, i);
  }

  /** One player's part of AfterBulletKill. */
  lemma KillPlayerAt(geo: Geo, w: World, b: Bullet, j: nat, i: nat)
    requires j < |w.players| && i < |w.players|
    requires Hits(geo, w.players[j], b) && w.players[j].hp - b.damage <= 0
    ensures FirstWithId(w.players, b.owner) != Some(j)
    ensures var before, after := PlayerAfter(geo, w, b, j, i), PlayerAfter(geo, w, b, j + 1, i);
      if i == j then
        after == before.(hp := before.hp - b.damage, dead := true, deadFrame := w.currFrame, death := before.death + 1)
      else if FirstWithId(w.players, b.owner) == Some(i) then
        after == before.(kill := before.kill + 1)
      else
        after == before
  {
    var credit := FirstWithId(w.players, b.owner);
    if credit.Some? {
      assert w.players[credit.value].id == b.owner;
    }
  }

  /** CreditKill, player by player. */
  lemma CreditKillAt(ps: seq<Player>, id: int, i: nat)
    requires i < |ps|
    ensures CreditKill(ps, id)[i] ==
      if FirstWithId(ps, id) == Some(i) then ps[i].(kill := ps[i].kill + 1) else ps[i]
  {
  }

  /** The bullet touches at least one player, so it is consumed. */
  predicate Consumed(geo: Geo, ps: seq<Player>, b: Bullet) {
    exists i | 0 <= i < |ps| :: Hits(geo, ps[i], b)
  }

  /** The bullet loop of the hit check over the bullets bs, each bullet
      meeting the players as the earlier bullets left them; keep says which
      bullets touched nobody. */
  function BulletPass(geo: Geo, w: World, bs: seq<Bullet>): (r: Pass<World>)
    ensures |r.keep| == |bs|
    ensures |r.state.players| == |w.players|
    ensures forall i | 0 <= i < |w.players| :: r.state.players[i].id == w.players[i].id
    ensures forall i | 0 <= i < |w.players| ::
      r.state.players[i] == w.players[i].(hp := r.state.players[i].hp, dead := r.state.players[i].dead,
                                          deadFrame := r.state.players[i].deadFrame,
                                          death := r.state.players[i].death, kill := r.state.players[i].kill)
    ensures r.state == w.(players := r.state.players, events := r.state.events,
                          items := r.state.items, itemId := r.state.itemId)
    decreases |bs|
  {
    if bs == [] then Pass(w, [])
    else
      var n := |bs| - 1;
      var prev := BulletPass(geo, w, bs[..n]);
      AfterBulletShape(geo, prev.state, bs[n], |prev.state.players|);
      Pass(AfterBullet(geo, prev.state, bs[n], |prev.state.players|),
           prev.keep + [!Consumed(geo, prev.state.players, bs[n])])
  }

  /** The bullet loop after k + 1 bullets is the loop after k bullets
      followed by bullet k. */
  lemma BulletPassSnoc(geo: Geo, w: World, bs: seq<Bullet>, k: nat)
    requires k < |bs|
    ensures var prev := BulletPass(geo, w, bs[..k]);
      BulletPass(geo, w, bs[..k + 1]) ==
        Pass(AfterBullet(geo, prev.state, bs[k], |prev.state.players|),
             prev.keep + [!Consumed(geo, prev.state.players, bs[k])])
  {
    assert bs[..k + 1][..k] == bs[..k];
  }

  /** Players among the first j that are dead in qs but were alive in ps. */
  function NewlyDead(ps: seq<Player>, qs: seq<Player>, j: nat): nat
    requires j <= |ps| && j <= |qs|
  {
    if j == 0 then 0
    else NewlyDead(ps, qs, j - 1) + (if !ps[j - 1].dead && qs[j - 1].dead then 1 else 0)
  }

  /** The bullet's victims are exactly the players it leaves newly dead. */
  lemma {:induction false} DeathsAreNewlyDead(geo: Geo, w: World, b: Bullet, j: nat)
    requires j <= |w.players|
    ensures DeathsBefore(geo, w.players, b, j) ==
            NewlyDead(w.players, AfterBullet(geo, w, b, |w.players|).players, j)
  {
    if j > 0 {
      DeathsAreNewlyDead(geo, w, b, j - 1);
      assert AfterBullet(geo, w, b, |w.players|).players[j - 1] == PlayerAfter(geo, w, b, |w.players|, j - 1);
    }
  }

  /** Nobody is newly dead when nothing happened. */
  lemma {:induction false} NewlyDeadNone(ps: seq<Player>, j: nat)
    requires j <= |ps|
    ensures NewlyDead(ps, ps, j) == 0
  {
    if j > 0 {
      NewlyDeadNone(ps, j - 1);
    }
  }

  /** Deaths compose: over two passes in which nobody comes back to life,
      the players newly dead overall are those newly dead in either pass. */
  lemma {:induction false} NewlyDeadChain(a: seq<Player>, b: seq<Player>, c: seq<Player>, j: nat)
    requires j <= |a| && j <= |b| && j <= |c|
    requires forall i | 0 <= i < j :: (a[i].dead ==> b[i].dead) && (b[i].dead ==> c[i].dead)
    ensures NewlyDead(a, c, j) == NewlyDead(a, b, j) + NewlyDead(b, c, j)
  {
    if j > 0 {
      NewlyDeadChain(a, b, c, j - 1);
    }
  }

  /** The drops of the bullet's victims: one per victim, with consecutive
      ids from firstId, each a random weapon buff. */
  lemma {:induction false} DropsShape(geo: Geo, ps: seq<Player>, b: Bullet, firstId: int, j: nat)
    requires j <= |ps|
    ensures |Drops(geo, ps, b, firstId, j)| == DeathsBefore(geo, ps, b, j)
    ensures forall m | 0 <= m < |Drops(geo, ps, b, firstId, j)| ::
              Drops(geo, ps, b, firstId, j)[m].id == firstId + m &&
              Drops(geo, ps, b, firstId, j)[m].itemType == RandomWeaponBuff
  {
    if j > 0 {
      DropsShape(geo, ps, b, firstId, j - 1);
    }
  }

  /** How a player's death record may change between q and its earlier
      self p within one frame: a dead player stays dead with its death
      frame, a player who dies gains exactly one death, stamped with this
      frame, and a living player keeps its death frame. */
  predicate DeathRecord(p: Player, q: Player, frame: int) {
    && (p.dead ==> q.dead && q.deadFrame == p.deadFrame)
    && q.death == p.death + (if !p.dead && q.dead then 1 else 0)
    && (!p.dead && q.dead ==> q.deadFrame == frame)
    && (!q.dead ==> q.deadFrame == p.deadFrame)
  }

  /** The accounting of deaths and drops between the world x and a later
      state y of the same frame: the players and the frame are the same,
      every player keeps a sound death record, and the players newly dead
      are matched one for one by new random-buff items appended after the
      old ones with the next item ids. */
  predicate Accounted(x: World, y: World) {
    && |y.players| == |x.players| && y.currFrame == x.currFrame
    && y.itemId - x.itemId == |y.items| - |x.items| == NewlyDead(x.players, y.players, |x.players|)
    && y.items[..|x.items|] == x.items
    && (forall m | |x.items| <= m < |y.items| ::
          y.items[m].id == x.itemId + (m - |x.items|) && y.items[m].itemType == RandomWeaponBuff)
    && (forall i | 0 <= i < |x.players| :: DeathRecord(x.players[i], y.players[i], x.currFrame))
  }

  /** Nothing happening is accounted for. */
  lemma AccountedNone(x: World)
    ensures Accounted(x, x)
  {
    NewlyDeadNone(x.players, |x.players|);
  }

  /** Accounting composes: two accounted stretches of a frame make one, so
      nobody dies twice and the drops of both stretches line up. */
  lemma AccountedChain(x: World, y: World, z: World)
    requires Accounted(x, y) && Accounted(y, z)
    ensures Accounted(x, z)
  {
    var n := |x.players|;
    forall i | 0 <= i < n
      ensures (x.players[i].dead ==> y.players[i].dead) && (y.players[i].dead ==> z.players[i].dead)
      ensures DeathRecord(x.players[i], z.players[i], x.currFrame)
    {
      assert DeathRecord(x.players[i], y.players[i], x.currFrame);
      assert DeathRecord(y.players[i], z.players[i], y.currFrame);
    }
    NewlyDeadChain(x.players, y.players, z.players, n);
    assert z.items[..|x.items|] == x.items by {
      assert z.items[..|y.items|] == y.items;
      assert y.items[..|x.items|] == x.items;
    }
    forall m | |x.items| <= m < |z.items|
      ensures z.items[m].id == x.itemId + (m - |x.items|) && z.items[m].itemType == RandomWeaponBuff
    {
      if m < |y.items| {
        assert z.items[m] == y.items[m];
      }
    }
  }

  /** Accounting for one bullet: a player dies at most once and only while
      alive, its death count rises by exactly one when it does, its death
      frame is this frame, and each death adds one random-buff item with
      the next item id. */
  lemma BulletAccounting(geo: Geo, w: World, b: Bullet)
    ensures Accounted(w, AfterBullet(geo, w, b, |w.players|))
  {
    var n := |w.players|;
    var r := AfterBullet(geo, w, b, n);
    DeathsAreNewlyDead(geo, w, b, n);
    DropsShape(geo, w.players, b, w.itemId, n);
    var d := Drops(geo, w.players, b, w.itemId, n);
    assert r.items == w.items + d;
    forall m | |w.items| <= m < |r.items|
      ensures r.items[m].id == w.itemId + (m - |w.items|) && r.items[m].itemType == RandomWeaponBuff
    {
      assert r.items[m] == d[m - |w.items|];
    }
  }

  /** Accounting for the whole bullet loop: the same as for one bullet,
      summed over all bullets, so nobody dies twice in a tick and every
      death is matched by exactly one dropped item. */
  lemma {:induction false} BulletPassAccounting(geo: Geo, w: World, bs: seq<Bullet>)
    ensures Accounted(w, BulletPass(geo, w, bs).state)
    decreases |bs|
  {
    if bs == [] {
      AccountedNone(w);
    } else {
      var last := |bs| - 1;
      var a := BulletPass(geo, w, bs[..last]).state;
      BulletPassAccounting(geo, w, bs[..last]);
      BulletAccounting(geo, a, bs[last]);
      AccountedChain(w, a, BulletPass(geo, w, bs).state);
    }
  }

  // ---------------------------------------------------------------------
  // Items against players.

  /** A living player close enough to an item to collect it. */
  predicate Reaches(geo: Geo, p: Player, it: Item) {
    !p.dead && geo.dist(p.pos, it.pos) < p.width
  }

  /** The players after the item at index ix has been checked against the
      first j of them: every one of those it reaches is buffed; choice(ix, i)
      is the feature a random buff would grant player i. */
  function Collected(geo: Geo, ps: seq<Player>, it: Item, ix: nat, choice: (nat, nat) -> Feature, j: nat): (r: seq<Player>)
    requires j <= |ps|
    ensures |r| == |ps|
    ensures forall i | j <= i < |ps| :: r[i] == ps[i]
  {
    seq(|ps|, i requires 0 <= i < |ps| =>
          if i < j && Reaches(geo, ps[i], it) then Buff(it.itemType, ps[i], choice(ix, i)) else ps[i])
  }

  /** The closed form obeys the inner loop of the pickup check. */
  lemma CollectedStep(geo: Geo, ps: seq<Player>, it: Item, ix: nat, choice: (nat, nat) -> Feature, j: nat)
    requires j < |ps|
    ensures var c := Collected(geo, ps, it, ix, choice, j);
      Collected(geo, ps, it, ix, choice, j + 1) ==
        if Reaches(geo, c[j], it) then c[j := Buff(it.itemType, c[j], choice(ix, j))] else c
  {
  }

  /** Some living player reaches the item, so it is used up. */
  predicate Claimed(geo: Geo, ps: seq<Player>, it: Item) {
    exists i | 0 <= i < |ps| :: Reaches(geo, ps[i], it)
  }

  /** The item loop of the hit check over items, item k buffing every
      player it reaches as the earlier items left them; keep says which
      items nobody reached. */
  function ItemPass(geo: Geo, ps: seq<Player>, items: seq<Item>, choice: (nat, nat) -> Feature): (r: Pass<seq<Player>>)
    ensures |r.keep| == |items| && |r.state| == |ps|
    decreases |items|
  {
    if items == [] then Pass(ps, [])
    else
      var n := |items| - 1;
      var prev := ItemPass(geo, ps, items[..n], choice);
      Pass(Collected(geo, prev.state, items[n], n, choice, |ps|),
           prev.keep + [!Claimed(geo, prev.state, items[n])])
  }

  /** The item loop after k + 1 items is the loop after k items followed
      by item k. */
  lemma ItemPassSnoc(geo: Geo, ps: seq<Player>, items: seq<Item>, k: nat, choice: (nat, nat) -> Feature)
    requires k < |items|
    ensures var prev := ItemPass(geo, ps, items[..k], choice);
      ItemPass(geo, ps, items[..k + 1], choice) ==
        Pass(Collected(geo, prev.state, items[k], k, choice, |ps|),
             prev.keep + [!Claimed(geo, prev.state, items[k])])
  {
    assert items[..k + 1][..k] == items[..k];
  }

  /** Pickups change nothing but hit points and weapons: ids, positions,
      liveness and scores stay; hit points never fall and never pass the
      cap when they started within it. */
  lemma {:induction false} ItemPassKeepsBodies(geo: Geo, ps: seq<Player>, items: seq<Item>, choice: (nat, nat) -> Feature)
    ensures var r := ItemPass(geo, ps, items, choice).state;
      forall i | 0 <= i < |ps| ::
        && r[i] == ps[i].(hp := r[i].hp, weapon := r[i].weapon)
        && (ps[i].hp <= FullHp ==> ps[i].hp <= r[i].hp <= FullHp)
    decreases |items|
  {
    if items != [] {
      var n := |items| - 1;
      var a := ItemPass(geo, ps, items[..n], choice).state;
      var c := Collected(geo, a, items[n], n, choice, |ps|);
      assert ItemPass(geo, ps, items, choice).state == c;
      ItemPassKeepsBodies(geo, ps, items[..n], choice);
      forall i | 0 <= i < |ps|
        ensures c[i] == a[i].(hp := c[i].hp, weapon := c[i].weapon) &&
                (a[i].hp <= FullHp ==> a[i].hp <= c[i].hp <= FullHp)
      {
        if Reaches(geo, a[i], items[n]) {
          var q := Buff(items[n].itemType, a[i], choice(n, i));
          assert c[i] == q;
          match items[n].itemType
          case Health =>
          case WeaponDrop(_) =>
          case RandomWeaponBuff =>
        }
      }
    }
  }

  /** Every player holds an instance of its weapon's archetype. */
  predicate Armed(ps: seq<Player>) {
    forall i | 0 <= i < |ps| :: IsInstance(ps[i].weapon)
  }

  /** The weapons pickups leave in players' hands are fresh weapons, or
      the weapon already held with features added. */
  lemma {:induction false} ItemPassArms(geo: Geo, ps: seq<Player>, items: seq<Item>, choice: (nat, nat) -> Feature)
    requires Armed(ps)
    ensures Armed(ItemPass(geo, ps, items, choice).state)
    decreases |items|
  {
    if items != [] {
      var n := |items| - 1;
      ItemPassArms(geo, ps, items[..n], choice);
      var a := ItemPass(geo, ps, items[..n], choice).state;
      var c := Collected(geo, a, items[n], n, choice, |ps|);
      assert ItemPass(geo, ps, items, choice).state == c;
      forall i | 0 <= i < |ps|
        ensures IsInstance(c[i].weapon)
      {
        if !Reaches(geo, a[i], items[n]) {
          assert c[i] == a[i];
        } else {
          var q := Buff(items[n].itemType, a[i], choice(n, i));
          assert c[i] == q;
          match items[n].itemType
          case Health =>
          case WeaponDrop(_) =>
          case RandomWeaponBuff =>
        }
      }
    }
  }

  // ---------------------------------------------------------------------
  // Eviction and the whole check.

  /** Which players have sent an intent within the last IdleLimit seconds. */
  function Active(ps: seq<Player>, now: real): (r: seq<bool>)
    ensures |r| == |ps|
    ensures forall k | 0 <= k < |r| :: r[k] <==> ps[k].lastAction >= now - IdleLimit
  {
    seq(|ps|, k requires 0 <= k < |ps| => ps[k].lastAction >= now - IdleLimit)
  }

  /** The hit check: the bullet loop, the item loop over every item
      (including those just dropped), then the eviction of idle players;
      consumed bullets, claimed items and idle players are removed, the
      others keep their order. */
  function CheckHit(geo: Geo, w: World, choice: (nat, nat) -> Feature, now: real): (r: World)
    ensures r.currFrame == w.currFrame && r.playerId == w.playerId && r.bulletId == w.bulletId
    ensures |r.players| <= |w.players| && |r.bullets| <= |w.bullets|
  {
    var hit := BulletPass(geo, w, w.bullets);
    var w1 := hit.state;
    var pick := ItemPass(geo, w1.players, w1.items, choice);
    w1.(players := Filter(pick.state, Active(pick.state, now)),
        bullets := Filter(w.bullets, hit.keep),
        items := Filter(w1.items, pick.keep))
  }

  /** The players the hit check keeps are exactly those active at now, in
      their order. */
  lemma EvictionSelects(ps: seq<Player>, now: real)
    ensures var r, p := Filter(ps, Active(ps, now)), Positions(Active(ps, now));
      && |r| == |p|
      && (forall i | 0 <= i < |p| :: p[i] < |ps| && r[i] == ps[p[i]])
      && (forall i, j | 0 <= i < j < |p| :: p[i] < p[j])
      && (forall k | 0 <= k < |ps| :: ps[k].lastAction >= now - IdleLimit <==> k in p)
  {
    FilterAtPositions(ps, Active(ps, now));
    PositionsExact(Active(ps, now));
  }
}
