/**
 * Client intents: one dictionary per intent, the gate that refuses an
 * intent lacking a required field, and what each kind of intent (move,
 * shoot, join, leave) does to the world.
 */
module Intents {
  import opened Wrappers
  import opened Geometry
  import opened Weapons
  import opened Entities
  import opened Arena

  /** A field value of an intent as decoded from its wire form. */
  datatype Value = Int(i: int) | Num(r: real) | Text(s: string)

  /** An intent: field names to values. */
  type Action = map<string, Value>

  /** The fields of an intent have the types the handlers use them at:
      text for the intent type, channel and name, an integer player id,
      numeric coordinates. */
  predicate WellTyped(a: Action) {
    && ("actionType" in a ==> a["actionType"].Text?)
    && ("player" in a ==> a["player"].Int?)
    && ("x" in a ==> !a["x"].Text?)
    && ("y" in a ==> !a["y"].Text?)
    && ("channel" in a ==> a["channel"].Text?)
    && ("name" in a ==> a["name"].Text?)
  }

  /** A numeric field as a real. */
  function Number(v: Value): real
    requires !v.Text?
  {
    match v
    case Int(i) => i as real
    case Num(r) => r
  }

  /** The gate in front of a handler: every required field is present. */
  predicate HasFields(a: Action, required: seq<string>) {
    forall r | r in required :: r in a
  }

  /** The gate as the game evaluates it: the required fields in order,
      refusing at the first missing one, which it reports. */
  method RequireFields(a: Action, required: seq<string>) returns (missing: Option<string>)
    ensures missing.None? <==> HasFields(a, required)
    ensures missing.Some? ==> exists k | 0 <= k < |required| ::
      && required[k] == missing.value && required[k] !in a
      && forall m | 0 <= m < k :: required[m] in a
  {
    for k := 0 to |required|
      invariant forall m | 0 <= m < k :: required[m] in a
    {
      if required[k] !in a {
        return Some(required[k]);
      }
    }
    return None;
  }

  /** The fields each gated handler requires. */
  const ShootFields: seq<string> := ["player", "x", "y"]
  const JoinFields: seq<string> := ["channel", "name"]
  const LeaveFields: seq<string> := ["channel"]

  /** Point a walking player at dest: the walking angle turns towards it
      and the speed becomes the player's walking speed. */
  function SetMove(geo: Geo, p: Player, dest: Point): (q: Player)
    ensures q.destination == dest && q.angle == geo.angle(p.pos, dest) && q.speed == p.moveSpeed
    ensures q.(destination := p.destination, angle := p.angle, speed := p.speed) == p
  {
    p.(destination := dest, angle := geo.angle(p.pos, dest), speed := p.moveSpeed)
  }

  /** Joining on a channel: a player already on the channel keeps its id
      and is reborn at spawnAt if it is dead; a new channel gets a new
      player with the next player id, standing at spawnAt. */
  function Join(w: World, channel: string, name: string, spawnAt: Point, now: real): (r: (World, int))
    ensures FirstWithChannel(w.players, channel).None? ==>
      && r.1 == w.playerId && r.0.playerId == w.playerId + 1
      && r.0 == w.(players := w.players + [NewPlayer(w.playerId, name, channel, spawnAt, now)],
                   playerId := w.playerId + 1)
    ensures FirstWithChannel(w.players, channel).Some? ==>
      var k := FirstWithChannel(w.players, channel).value;
      && r.1 == w.players[k].id
      && r.0 == w.(players := r.0.players)
      && |r.0.players| == |w.players|
      && (forall i | 0 <= i < |w.players| && i != k :: r.0.players[i] == w.players[i])
      && r.0.players[k] == (if w.players[k].dead then Reborn(w.players[k], spawnAt) else w.players[k])
  {
    match FirstWithChannel(w.players, channel)
    case Some(k) =>
      var p := w.players[k];
      (if p.dead then w.(players := w.players[k := Reborn(p, spawnAt)]) else w, p.id)
    case None =>
      (w.(players := w.players + [NewPlayer(w.playerId, name, channel, spawnAt, now)],
          playerId := w.playerId + 1),
       w.playerId)
  }

  /** Leaving: the first player on the channel is removed, the others keep
      their order; an unknown channel changes nothing. */
  function Leave(w: World, channel: string): (r: World)
    ensures r == w.(players := r.players)
    ensures FirstWithChannel(w.players, channel).None? ==> r == w
    ensures FirstWithChannel(w.players, channel).Some? ==>
      var k := FirstWithChannel(w.players, channel).value;
      |r.players| == |w.players| - 1 &&
      (forall i | 0 <= i < k :: r.players[i] == w.players[i]) &&
      (forall i | k <= i < |r.players| :: r.players[i] == w.players[i + 1])
  {
    match FirstWithChannel(w.players, channel)
    case Some(k) => w.(players := w.players[..k] + w.players[k + 1..])
    case None => w
  }

  /** The result of handling one intent: the world, whether the handler
      raised (which ends the batch), and the join to announce, if any. */
  datatype Step = Step(world: World, raised: bool, joined: Option<(string, int)>)

  /** A shot at target by the player with id pid.  An unknown id raises
      before anything changes.  Otherwise the shooter's last-action time is
      stamped; a living shooter pulls the trigger from its width's distance
      along the aim, with the game time as the fire time and the next
      bullet id as the first id; if the weapon fires, the shooter stops and
      faces the aim, the bullets are added and the bullet id advances by
      their number. */
  function Shoot(geo: Geo, w: World, pid: int, target: Point, now: real): (r: Step)
    ensures r.joined.None?
    ensures r.raised <==> FirstWithId(w.players, pid).None?
    ensures r.raised ==> r.world == w
    ensures !r.raised ==>
      var k := FirstWithId(w.players, pid).value;
      var p := w.players[k];
      var angle := geo.angle(p.pos, target);
      var s := Discharge(p.weapon, geo.shift(p.pos, angle, p.width), angle, p.id,
                         w.currFrame as real / FramePerSec as real, w.bulletId);
      if p.dead || s.bullets.None? then
        r.world == w.(players := w.players[k := p.(lastAction := now)])
      else
        r.world == w.(players := w.players[k := p.(lastAction := now, weapon := s.weapon, speed := 0.0, angle := angle)],
                      bullets := w.bullets + s.bullets.value,
                      bulletId := w.bulletId + |s.bullets.value|)
  {
    match FirstWithId(w.players, pid)
    case None => Step(w, true, None)
    case Some(k) =>
      var w1 := w.(players := w.players[k := w.players[k].(lastAction := now)]);
      if w1.players[k].dead then Step(w1, false, None)
      else Step(Trigger(geo, w1, k, target), false, None)
  }

  /** The living player at index k pulls the trigger aiming at target:
      from its width's distance along the aim, with the game time as the
      fire time and the next bullet id as the first id.  If the weapon
      fires, the shooter stops and faces the aim, the bullets are added and
      the bullet id advances by their number. */
  function Trigger(geo: Geo, w: World, k: nat, target: Point): (r: World)
    requires k < |w.players|
    ensures var p := w.players[k];
      var angle := geo.angle(p.pos, target);
      var s := Discharge(p.weapon, geo.shift(p.pos, angle, p.width), angle, p.id,
                         w.currFrame as real / FramePerSec as real, w.bulletId);
      // Only the shooter, the bullets and the bullet id change.
      && r == w.(players := r.players, bullets := r.bullets, bulletId := r.bulletId)
      && |r.players| == |w.players|
      && (forall i | 0 <= i < |w.players| && i != k :: r.players[i] == w.players[i])
      // The shooter holds the weapon as the trigger pull left it.
      && r.players[k].weapon == s.weapon
      // A weapon that refuses to fire leaves the shooter walking and adds nothing.
      && (s.bullets.None? ==> r.players[k] == p.(weapon := s.weapon) && r.bullets == w.bullets && r.bulletId == w.bulletId)
      // A weapon that fires stops the shooter facing the aim, appends its
      // bullets and advances the bullet id past them.
      && (s.bullets.Some? ==>
            && r.players[k] == p.(weapon := s.weapon, speed := 0.0, angle := angle)
            && r.bullets == w.bullets + s.bullets.value
            && r.bulletId == w.bulletId + |s.bullets.value|)
  {
    var p := w.players[k];
    var angle := geo.angle(p.pos, target);
    var s := Discharge(p.weapon, geo.shift(p.pos, angle, p.width), angle, p.id,
                       w.currFrame as real / FramePerSec as real, w.bulletId);
    match s.bullets
    case None => w.(players := w.players[k := p.(weapon := s.weapon)])
    case Some(bs) =>
      w.(players := w.players[k := p.(weapon := s.weapon, speed := 0.0, angle := angle)],
         bullets := w.bullets + bs,
         bulletId := w.bulletId + |bs|)
  }

  /** A move intent.  Without a player field, or for an unknown or dead
      player, nothing happens; otherwise the player's last-action time is
      stamped and it walks towards (x, y) -- and a missing coordinate
      raises once the time is stamped. */
  function Move(geo: Geo, w: World, a: Action, now: real): (r: Step)
    requires WellTyped(a)
    ensures r.joined.None? && r.world == w.(players := r.world.players)
    ensures r.raised ==> "player" in a && ("x" !in a || "y" !in a)
    // No player field, an unknown id or a dead player: the intent is ignored.
    ensures ("player" !in a || FirstWithId(w.players, a["player"].i).None? ||
             w.players[FirstWithId(w.players, a["player"].i).value].dead) ==> r == Step(w, false, None)
    // A living player: only it changes; its last-action time is stamped,
    // and it raises exactly when a coordinate is missing, otherwise it
    // walks towards (x, y).
    ensures "player" in a && FirstWithId(w.players, a["player"].i).Some? ==>
      var k := FirstWithId(w.players, a["player"].i).value;
      var stamped := w.players[k].(lastAction := now);
      !w.players[k].dead ==>
        && (r.raised <==> "x" !in a || "y" !in a)
        && |r.world.players| == |w.players|
        && (forall i | 0 <= i < |w.players| && i != k :: r.world.players[i] == w.players[i])
        && r.world.players[k].lastAction == now
        && (r.raised ==> r.world.players[k] == stamped)
        && (!r.raised ==> r.world.players[k] == SetMove(geo, stamped, Point(Number(a["x"]), Number(a["y"]))))
  {
    if "player" !in a then Step(w, false, None)
    else
      match FirstWithId(w.players, a["player"].i)
      case None => Step(w, false, None)
      case Some(k) =>
        if w.players[k].dead then Step(w, false, None)
        else
          var p := w.players[k].(lastAction := now);
          if "x" !in a || "y" !in a then Step(w.(players := w.players[k := p]), true, None)
          else
            var dest := Point(Number(a["x"]), Number(a["y"]));
            Step(w.(players := w.players[k := SetMove(geo, p, dest)]), false, None)
  }

  /** The gated shoot handler: an intent without player, x and y is
      refused and changes nothing. */
  function ShootIntent(geo: Geo, w: World, a: Action, now: real): (r: Step)
    requires WellTyped(a)
    ensures !HasFields(a, ShootFields) ==> r == Step(w, false, None)
    ensures HasFields(a, ShootFields) ==> r == Shoot(geo, w, a["player"].i, Point(Number(a["x"]), Number(a["y"])), now)
  {
    if !HasFields(a, ShootFields) then Step(w, false, None)
    else Shoot(geo, w, a["player"].i, Point(Number(a["x"]), Number(a["y"])), now)
  }

  /** The gated join handler: an intent without channel and name is
      refused; otherwise the client joins and the join is announced on its
      channel with the player id. */
  function JoinIntent(w: World, a: Action, spawnAt: Point, now: real): (r: Step)
    requires WellTyped(a)
    ensures !r.raised
    ensures !HasFields(a, JoinFields) ==> r == Step(w, false, None)
    ensures HasFields(a, JoinFields) ==>
      var (w1, id) := Join(w, a["channel"].s, a["name"].s, spawnAt, now);
      r.world == w1 && r.joined == Some((a["channel"].s, id))
  {
    if !HasFields(a, JoinFields) then Step(w, false, None)
    else
      var (w1, id) := Join(w, a["channel"].s, a["name"].s, spawnAt, now);
      Step(w1, false, Some((a["channel"].s, id)))
  }

  /** The gated leave handler: an intent without channel is refused. */
  function LeaveIntent(w: World, a: Action): (r: Step)
    requires WellTyped(a)
    ensures !HasFields(a, LeaveFields) ==> r == Step(w, false, None)
    ensures HasFields(a, LeaveFields) ==> r == Step(Leave(w, a["channel"].s), false, None)
  {
    if !HasFields(a, LeaveFields) then Step(w, false, None)
    else Step(Leave(w, a["channel"].s), false, None)
  }

  /** One intent, dispatched on its type; the shoot, join and leave
      handlers sit behind the field gate, a refused intent changes nothing,
      an unknown type is ignored, and a missing type raises. */
  function Handle(geo: Geo, w: World, a: Action, spawnAt: Point, now: real): (r: Step)
    requires WellTyped(a)
    ensures "actionType" !in a ==> r == Step(w, true, None)
    ensures "actionType" in a && a["actionType"].s == "shoot" && !HasFields(a, ShootFields) ==> r == Step(w, false, None)
    ensures "actionType" in a && a["actionType"].s == "join" && !HasFields(a, JoinFields) ==> r == Step(w, false, None)
    ensures "actionType" in a && a["actionType"].s == "leave" && !HasFields(a, LeaveFields) ==> r == Step(w, false, None)
    ensures "actionType" in a && a["actionType"].s !in {"move", "shoot", "join", "leave"} ==> r == Step(w, false, None)
    ensures r.joined.Some? <==> "actionType" in a && a["actionType"].s == "join" && HasFields(a, JoinFields)
    ensures r.raised ==> "actionType" !in a || a["actionType"].s in {"move", "shoot"}
    // Each known type runs its handler.
    ensures "actionType" in a && a["actionType"].s == "move" ==> r == Move(geo, w, a, now)
    ensures "actionType" in a && a["actionType"].s == "shoot" ==> r == ShootIntent(geo, w, a, now)
    ensures "actionType" in a && a["actionType"].s == "join" ==> r == JoinIntent(w, a, spawnAt, now)
    ensures "actionType" in a && a["actionType"].s == "leave" ==> r == LeaveIntent(w, a)
  {
    if "actionType" !in a then Step(w, true, None)
    else
      var t := a["actionType"].s;
      if t == "move" then Move(geo, w, a, now)
      else if t == "shoot" then ShootIntent(geo, w, a, now)
      else if t == "join" then JoinIntent(w, a, spawnAt, now)
      else if t == "leave" then LeaveIntent(w, a)
      else Step(w, false, None)
  }

  /** The outcome of a batch: the world, whether a handler raised, and the
      joins to announce in order. */
  datatype Batch = Batch(world: World, raised: bool, joins: seq<(string, int)>)

  /** The first k intents of a batch handled in order, stopping at the
      first that raises; spawnAt(i) is the random point drawn by intent i
      and now the wall-clock time of the batch. */
  function Actions(geo: Geo, w: World, actions: seq<Action>, spawnAt: nat -> Point, now: real, k: nat): (r: Batch)
    requires k <= |actions| && forall i | 0 <= i < |actions| :: WellTyped(actions[i])
    ensures r.world.currFrame == w.currFrame && r.world.itemId == w.itemId && r.world.items == w.items
  {
    if k == 0 then Batch(w, false, [])
    else
      var prev := Actions(geo, w, actions, spawnAt, now, k - 1);
      if prev.raised then prev
      else
        var s := Handle(geo, prev.world, actions[k - 1], spawnAt(k - 1), now);
        Batch(s.world, s.raised, prev.joins + (if s.joined.Some? then [s.joined.value] else []))
  }

  /** A batch stops at its first raising intent: once a handler raises,
      the later intents change nothing. */
  lemma {:induction false} ActionsStopAtRaise(geo: Geo, w: World, actions: seq<Action>, spawnAt: nat -> Point, now: real, j: nat, k: nat)
    requires j <= k <= |actions| && forall i | 0 <= i < |actions| :: WellTyped(actions[i])
    requires Actions(geo, w, actions, spawnAt, now, j).raised
    ensures Actions(geo, w, actions, spawnAt, now, k) == Actions(geo, w, actions, spawnAt, now, j)
  {
    if j < k {
      ActionsStopAtRaise(geo, w, actions, spawnAt, now, j, k - 1);
      assert Actions(geo, w, actions, spawnAt, now, k - 1).raised;
    }
  }
}
