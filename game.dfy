/// The Game object: its fields are the source's, updated in place by each of
/// its methods. The slimes, interactables and fireballs are held as sequences
/// of their states; each method is proved against the function of the same
/// step in the Simulation module.
module GameModel {
  import opened Common
  import opened Geometry
  import opened Entities
  import opened PlayerModel
  import opened Effects
  import opened Levels
  import opened Camera
  import opened Simulation

  class Game {
    const variant: Variant
    const levels: seq<seq<string>>
    const trailRenderer: TrailRenderer
    var player: Player?
    var platforms: seq<Platform>
    var slimes: seq<SlimeState>
    var interactables: seq<ItemState>
    var projectiles: seq<FireballState>
    var cameraX: real
    var currentLevel: nat
    var gameOver: bool
    var victory: bool
    /// JogoLLMA's gameState; AtividadeJogoLLM stays on Playing.
    var gameState: Screen

    function State(): World
      reads this, trailRenderer, if player == null then {} else {player, player.animator}
    {
      World(if player == null then None else Some(player.State()),
            Stage(platforms, slimes, interactables, projectiles), trailRenderer.trails, cameraX,
            Session(currentLevel, gameOver, victory, gameState))
    }

    /// The objects the game holds are sound: a ten-entry trail, and a valid
    /// player of the game's variant when there is one; the maps have levels.
    ghost predicate Sound()
      reads this, trailRenderer, if player == null then {} else {player, player.animator}
    {
      trailRenderer.maxTrails == MaxTrails && HasLevels(levels) && WorldValid(State()) &&
      (player != null ==> player.Valid() && player.variant == variant)
    }

    ghost predicate Valid()
      reads this, trailRenderer, if player == null then {} else {player, player.animator}
    {
      Sound() && GameValid(variant, levels, State())
    }

    /// The constructor: JogoLLMA opens on the menu with nothing loaded;
    /// AtividadeJogoLLM loads the first level.
    constructor (variant: Variant, hop: (nat, nat) -> real)
      ensures Valid() && this.variant == variant && levels == LevelMaps(variant)
      ensures State() == Started(variant, levels, hop)
    {
      this.variant := variant;
      levels := LevelMaps(variant);
      trailRenderer := new TrailRenderer(MaxTrails);
      player := null;
      platforms := [];
      slimes := [];
      interactables := [];
      projectiles := [];
      cameraX := 0.0;
      currentLevel := 0;
      gameOver := false;
      victory := false;
      gameState := Menu;
      new;
      LevelMapsHaveRows(variant);
      if variant == AtividadeJogoLLM {
        gameState := Playing;
        LoadLevel(0, hop);
      }
    }

    /// loadLevel: the nested scan of the map's rows and columns.
    method LoadLevel(index: nat, hop: (nat, nat) -> real)
      requires Sound()
      modifies this
      ensures Sound() && State() == LoadedLevel(variant, levels, old(State()), index, hop)
      ensures player == old(player) || (fresh(player) && fresh(player.animator))
    {
      if index >= |levels| {
        victory := true;
        gameOver := true;
        return;
      }
      LoadMap(index, hop);
    }

    /// loadLevel for an index inside the list of maps.
    method LoadMap(index: nat, hop: (nat, nat) -> real)
      requires Sound() && index < |levels|
      modifies this`currentLevel, this`cameraX, this`platforms, this`slimes, this`interactables, this`projectiles, this`player
      ensures Sound() && State() == LoadedLevel(variant, levels, old(State()), index, hop)
      ensures player == old(player) || (fresh(player) && fresh(player.animator))
    {
      ghost var w0 := State();
      ghost var l := Scan(variant, levels[index], hop);
      currentLevel := index;
      BuildMap(levels[index], hop);
      cameraX := 0.0;
      assert State() == World(Some(player.State()), Stage(l.platforms, l.slimes, l.items, []), w0.trails, 0.0,
                              w0.session.(currentLevel := index));
      LoadedLevelIs(variant, levels, w0, index, hop, l, player.State());
      LoadedLevelValid(variant, levels, w0, index, hop);
    }

    /// The scan of one map, then the default player when the map has no P and
    /// there is no player yet.
    method BuildMap(rows: seq<string>, hop: (nat, nat) -> real)
      requires player != null ==> player.Valid() && player.variant == variant
      modifies this`platforms, this`slimes, this`interactables, this`projectiles, this`player
      ensures player != null && player.Valid() && player.variant == variant
      ensures player == old(player) || (fresh(player) && fresh(player.animator))
      ensures var l := Scan(variant, rows, hop);
        platforms == l.platforms && slimes == l.slimes && interactables == l.items && projectiles == [] &&
        (l.playerAt.Some? ==> player.State() == NewPlayer(l.playerAt.value.x, l.playerAt.value.y)) &&
        (l.playerAt.None? && old(player) == null ==> player.State() == NewPlayer(DefaultSpawn.x, DefaultSpawn.y)) &&
        (l.playerAt.None? && old(player) != null ==> player == old(player))
    {
      ghost var at := ScanMap(rows, hop);
      PlaceDefaultPlayer();
    }

    /// loadLevel's fallback when the map has no P and there is no player yet:
    /// a new one at (100, 100).
    method PlaceDefaultPlayer()
      requires player != null ==> player.Valid() && player.variant == variant
      modifies this`player
      ensures player != null && player.Valid() && player.variant == variant
      ensures old(player) != null ==> player == old(player)
      ensures player == old(player) || (fresh(player) && fresh(player.animator))
      ensures old(player) == null ==> player.State() == NewPlayer(DefaultSpawn.x, DefaultSpawn.y)
    {
      if player == null {
        player := new Player(variant, DefaultSpawn.x, DefaultSpawn.y);
      }
    }

    /// loadLevel's clearing of the four collections and its outer loop over
    /// the rows of the map.
    method ScanMap(rows: seq<string>, hop: (nat, nat) -> real) returns (ghost at: Option<Point>)
      modifies this`platforms, this`slimes, this`interactables, this`projectiles, this`player
      ensures Loaded(platforms, slimes, interactables, at) == Scan(variant, rows, hop) && projectiles == []
      ensures PlayerPlaced(player, old(player), at) && (player == old(player) || (fresh(player) && fresh(player.animator)))
    {
      platforms := [];
      slimes := [];
      interactables := [];
      projectiles := [];
      at := None;
      var r := 0;
      while r < |rows|
        invariant 0 <= r <= |rows|
        invariant Loaded(platforms, slimes, interactables, at) == ScanRows(variant, rows, r, hop)
        invariant PlayerPlaced(player, old(player), at) && (player == old(player) || (fresh(player) && fresh(player.animator)))
        invariant projectiles == []
      {
        at := ScanMapRow(rows, r, hop, at, old(player));
        r := r + 1;
      }
    }

    /// The player field during the scan: the one before it until a P is met,
    /// then a new player on the last P met.
    ghost predicate PlayerPlaced(p: Player?, before: Player?, at: Option<Point>)
      reads if p == null then {} else {p, p.animator}
    {
      (at.None? ==> p == before) &&
      (at.Some? ==> p != null && p.Valid() && p.variant == variant && p.State() == NewPlayer(at.value.x, at.value.y))
    }

    /// loadLevel's inner loop over the columns of row r.
    method ScanMapRow(rows: seq<string>, r: nat, hop: (nat, nat) -> real, ghost at0: Option<Point>,
                      ghost before: Player?)
      returns (ghost at: Option<Point>)
      requires r < |rows| && PlayerPlaced(player, before, at0)
      modifies this`platforms, this`slimes, this`interactables, this`player
      ensures Loaded(platforms, slimes, interactables, at) ==
              ScanRow(variant, Loaded(old(platforms), old(slimes), old(interactables), at0), rows, r, |rows[r]|, hop)
      ensures PlayerPlaced(player, before, at) && (player == old(player) || (fresh(player) && fresh(player.animator)))
    {
      var row := rows[r];
      at := at0;
      var c := 0;
      while c < |row|
        invariant 0 <= c <= |row|
        invariant Loaded(platforms, slimes, interactables, at) ==
                  ScanRow(variant, Loaded(old(platforms), old(slimes), old(interactables), at0), rows, r, c, hop)
        invariant PlayerPlaced(player, before, at) && (player == old(player) || (fresh(player) && fresh(player.animator)))
      {
        at := PlaceTile(row[c], r, c, hop, at, before);
        c := c + 1;
      }
    }

    /// The body of the inner loop: the tile at row r, column c.
    method PlaceTile(tile: char, r: nat, c: nat, hop: (nat, nat) -> real, ghost at0: Option<Point>,
                     ghost before: Player?)
      returns (ghost at: Option<Point>)
      requires PlayerPlaced(player, before, at0)
      modifies this`platforms, this`slimes, this`interactables, this`player
      ensures Loaded(platforms, slimes, interactables, at) ==
              Placed(variant, Loaded(old(platforms), old(slimes), old(interactables), at0), tile, r, c, hop)
      ensures PlayerPlaced(player, before, at) && (player == old(player) || (fresh(player) && fresh(player.animator)))
    {
      at := at0;
      if tile == 'P' {
        PlacePlayer(r, c);
        at := Some(TileAt(r, c));
      } else {
        PlaceThing(tile, r, c, hop, at0);
      }
    }

    /// A P tile: a new player stands on it.
    method PlacePlayer(r: nat, c: nat)
      modifies this`player
      ensures player != null && fresh(player) && fresh(player.animator) && player.Valid()
      ensures player.variant == variant && player.State() == NewPlayer(TileAt(r, c).x, TileAt(r, c).y)
    {
      player := new Player(variant, c as real * TileSize, r as real * TileSize);
    }

    /// Any tile but P: a platform, a slime, an item or nothing.
    method PlaceThing(tile: char, r: nat, c: nat, hop: (nat, nat) -> real, ghost at: Option<Point>)
      requires tile != 'P'
      modifies this`platforms, this`slimes, this`interactables
      ensures Loaded(platforms, slimes, interactables, at) ==
              Placed(variant, Loaded(old(platforms), old(slimes), old(interactables), at), tile, r, c, hop)
    {
      var x := c as real * TileSize;
      var y := r as real * TileSize;
      if '1' <= tile <= '5' {
        platforms := platforms + [Platform(x, y, tile)];
      } else if tile == 'E' {
        slimes := slimes + [NewSlime(x, y, hop(r, c))];
      } else {
        match ItemKindOf(tile) {
          case Some(kind) => interactables := interactables + [NewItem(variant, kind, x, y)];
          case None =>
        }
      }
    }

    // ------------------------------------------------------ the player's turn

    /// handlePlayerAttack: the sword's box against every slime, in order; each
    /// slime it reaches takes the blow, and one marked afterwards adds a kill.
    method HandlePlayerAttack()
      requires Sound() && player != null
      modifies this`slimes, player
      ensures Sound() && player == old(player)
      ensures State() == AttackResolved(old(State()))
    {
      ghost var w0 := State();
      var box := AttackBox(player.State());
      var damage := SwordDamage * player.boost.attackMultiplier;
      StrikeAll(box, damage);
      assert State() == w0.(player := Some(player.State()), stage := w0.stage.(slimes := slimes));
      AttackResolvedIs(w0, box, damage);
      assert State() == AttackResolved(w0);
      assert WorldValid(State());
    }

    /// The loop of handlePlayerAttack, stated on the slimes and the player alone.
    method StrikeAll(box: Rect, damage: real)
      requires player != null && player.Valid()
      modifies this`slimes, player
      ensures player == old(player) && player.Valid()
      ensures slimes == Strike(old(slimes), box, damage)
      ensures player.State() == Killed(old(player.State()), StrikeKills(old(slimes), box, damage))
    {
      ghost var ss := slimes;
      ghost var p0 := player.State();
      var i := 0;
      while i < |slimes|
        invariant 0 <= i <= |slimes| == |ss|
        invariant slimes == Strike(ss[..i], box, damage) + ss[i..]
        invariant player == old(player) && player.Valid()
        invariant player.State() == Killed(p0, StrikeKills(ss[..i], box, damage))
      {
        StrikeStep(ss, i, box, damage);
        StrikeSlime(i, box, damage);
        i := i + 1;
      }
      assert ss[..i] == ss;
    }

    /// One slime of handlePlayerAttack's pass: in reach, it takes the blow, and
    /// a kill is counted when it is marked afterwards.
    method StrikeSlime(i: nat, box: Rect, damage: real)
      requires i < |slimes| && player != null && player.Valid()
      modifies this`slimes, player
      ensures slimes == old(slimes)[i := Hit(old(slimes)[i], box, damage)]
      ensures player == old(player) && player.Valid()
      ensures player.State() == Killed(old(player.State()), if Kills(old(slimes)[i], box, damage) then 1 else 0)
    {
      var s := slimes[i];
      if Overlaps(box, s.Box()) {
        var hit := SlimeDamaged(s, damage);
        slimes := slimes[i := hit];
        if hit.markedForDeletion {
          player.CountKill();
        }
      }
    }

    /// createFireball: a fireball just beyond the player's front.
    method CreateFireball()
      requires Sound() && player != null
      modifies this`projectiles
      ensures Sound()
      ensures State() == old(State()).(stage := old(State()).stage.(projectiles := old(projectiles) + [Launched(player.State())]))
    {
      var p := player.State();
      FreshEntitiesConsistent(variant, Flag, 0.0, 0.0, 0.0);
      projectiles := projectiles + [Launched(p)];
    }

    /// The special attack at the end of handleInput, and the fireball it
    /// creates.
    method UseSpecial(keys: set<string>)
      requires Sound() && player != null
      modifies this`projectiles, player
      ensures Sound() && player == old(player)
      ensures State() == Special(old(State()), keys)
    {
      ghost var w0 := State();
      SpecialIs(w0, keys);
      var fire := player.UseSpecial(keys);
      assert State() == w0.(player := Some(Fired(w0.player.value, keys)));
      if fire {
        CreateFireball();
      }
    }

    /// Player.handleInput, with the attack and the fireball it asks the game
    /// for.
    method HandleInput(keys: set<string>, now: real)
      requires Sound() && player != null
      modifies this`slimes, this`projectiles, player
      ensures Sound() && player == old(player)
      ensures State() == Acted(variant, old(State()), keys, now)
    {
      ghost var w0 := State();
      var outcome := player.HandleInput(keys, now);
      ghost var input := HandledInput(variant, w0.player.value, keys, now);
      assert State() == w0.(player := Some(input.state));
      ghost var w1 := State();
      if outcome == Handled(true) {
        HandlePlayerAttack();
      }
      ghost var w2 := State();
      assert w2 == if input.outcome == Handled(true) then AttackResolved(w1) else w1;
      if outcome.Handled? {
        UseSpecial(keys);
      }
      assert State() == Acted(variant, w0, keys, now);
      assert WorldValid(State());
    }

    /// Player.update(input, dt, game): handleInput, then the player's own
    /// update; an end animation that asks for it ends the game.
    method UpdatePlayer(keys: set<string>, dt: real, now: real, pick: nat)
      requires Sound() && player != null && pick < |AttackNames|
      modifies this`slimes, this`projectiles, this`gameOver, player, player.animator
      ensures Sound() && player == old(player)
      ensures State() == PlayerTurn(variant, old(State()), keys, dt, now, pick)
    {
      HandleInput(keys, now);
      var ended, over := player.Update(dt, now, pick);
      if over {
        gameOver := true;
      }
    }

    // ------------------------------------------------------ the rest of update

    /// The afterimage update asks for while the boost lasts, when the 40% draw
    /// (`roll`) succeeds.
    method LeaveTrail(roll: bool)
      requires Sound() && player != null
      modifies trailRenderer
      ensures Sound() && State() == TrailLeft(old(State()), roll)
    {
      if player.boost.boostEndTime > 0.0 && roll {
        trailRenderer.AddTrail(player.Box(), player.motion.facing);
      }
    }

    /// The slimes' turn: each one on screen (with the margin) updates, chasing
    /// the player; `next` gives slime i its random wait.
    method AdvanceSlimes(dt: real, next: nat -> real)
      requires Sound() && player != null
      modifies this`slimes
      ensures Sound() && State() == SlimesAdvanced(old(State()), dt, next)
    {
      ghost var w0 := State();
      ghost var ss := slimes;
      var x := player.motion.x;
      var i := 0;
      while i < |slimes|
        invariant 0 <= i <= |slimes| == |ss|
        invariant forall k :: 0 <= k < i ==> slimes[k] == SlimeTick(ss[k], dt, x, cameraX, next(k))
        invariant forall k :: i <= k < |ss| ==> slimes[k] == ss[k]
      {
        var s := slimes[i];
        if IsOnScreen(s.Box(), cameraX, ViewWidth) {
          slimes := slimes[i := SlimeStep(s, dt, x, next(i))];
        }
        i := i + 1;
      }
      ghost var r := SlimesAdvanced(w0, dt, next);
      assert slimes == r.stage.slimes;
      assert State() == r;
      assert WorldValid(State());
    }

    /// The interactables' and the fireballs' own updates.
    method AdvanceEntities(dt: real)
      requires Sound()
      modifies this`interactables, this`projectiles
      ensures Sound() && State() == EntitiesAdvanced(variant, old(State()), dt)
    {
      ghost var w0 := State();
      ghost var its := interactables;
      ghost var ps := projectiles;
      var i := 0;
      while i < |interactables|
        invariant 0 <= i <= |interactables| == |its|
        invariant forall k :: 0 <= k < i ==> interactables[k] == ItemStep(variant, its[k], dt)
        invariant forall k :: i <= k < |its| ==> interactables[k] == its[k]
        modifies this`interactables
      {
        interactables := interactables[i := ItemStep(variant, interactables[i], dt)];
        i := i + 1;
      }
      i := 0;
      while i < |projectiles|
        invariant 0 <= i <= |projectiles| == |ps|
        invariant forall k :: 0 <= k < i ==> projectiles[k] == FireballStep(ps[k], dt, cameraX, ViewWidth)
        invariant forall k :: i <= k < |ps| ==> projectiles[k] == ps[k]
        modifies this`projectiles
      {
        projectiles := projectiles[i := FireballStep(projectiles[i], dt, cameraX, ViewWidth)];
        i := i + 1;
      }
      ghost var r := EntitiesAdvanced(variant, w0, dt);
      assert interactables == r.stage.items && projectiles == r.stage.projectiles;
      assert State() == r;
      assert WorldValid(State());
    }

    // ------------------------------------------------------- handleCollisions

    /// The landing pass: the player and then every slime against every
    /// platform.
    method LandEntities()
      requires Sound() && player != null
      modifies this`slimes, player
      ensures Sound() && player == old(player) && State() == LandingPass(old(State()))
    {
      ghost var w0 := State();
      ghost var ss := slimes;
      player.Land(platforms);
      var i := 0;
      while i < |slimes|
        invariant 0 <= i <= |slimes| == |ss|
        invariant forall k :: 0 <= k < i ==> slimes[k] == SlimeLanded(ss[k], platforms)
        invariant forall k :: i <= k < |ss| ==> slimes[k] == ss[k]
        modifies this`slimes
      {
        slimes := slimes[i := SlimeLanded(slimes[i], platforms)];
        i := i + 1;
      }
      ghost var r := LandingPass(w0);
      assert slimes == r.stage.slimes;
      assert State() == r;
      assert WorldValid(State());
    }

    /// Contact damage: every slime the player overlaps deals 10, in order.
    method ContactSlimes()
      requires Sound() && player != null
      modifies player, player.animator
      ensures Sound() && player == old(player)
      ensures State() == old(State()).(player := Some(Contacted(variant, old(player.State()), slimes)))
    {
      ghost var w0 := State();
      ghost var p0 := player.State();
      var p := player;
      var i := 0;
      while i < |slimes|
        invariant 0 <= i <= |slimes|
        invariant player == p && p.Valid() && p.variant == variant
        invariant p.State() == Contacted(variant, p0, slimes[..i])
      {
        ContactedStep(variant, p0, slimes, i);
        if Overlaps(p.Box(), slimes[i].Box()) {
          p.TakeDamage(ContactDamage);
        }
        i := i + 1;
      }
      assert slimes[..i] == slimes;
      assert State() == w0.(player := Some(p.State()));
      assert WorldValid(State());
    }

    /// One item of the interactables pass, against the current player.
    /// `detached` says the array being walked is no longer the game's (a flag
    /// has loaded another level), so a mark no longer reaches the game.
    method TouchItem(item: ItemState, i: nat, detached: bool, now: real, hop: (nat, nat) -> real)
      returns (detachedAfter: bool)
      requires Sound() && player != null && (!detached ==> i < |interactables|)
      modifies this, player, player.animator
      ensures Sound() && player != null && (player == old(player) || (fresh(player) && fresh(player.animator)))
      ensures Touching(State(), detachedAfter) == Touched(variant, levels, Touching(old(State()), detached), item, i, now, hop)
    {
      detachedAfter := detached;
      if Overlaps(player.Box(), item.Box()) {
        match item.kind {
          case Flag =>
            detachedAfter := TouchFlag(item, i, detached, now, hop);
          case Spike =>
            TouchSpike(item, i, detached, now, hop);
          case Apple =>
            TouchPickup(item, i, detached, now, hop);
          case Star =>
            TouchPickup(item, i, detached, now, hop);
          case Water =>
        }
      }
    }

    /// A flag: the next level loads, and the walk is detached from the game's
    /// array when that level exists.
    method TouchFlag(item: ItemState, i: nat, detached: bool, now: real, hop: (nat, nat) -> real)
      returns (detachedAfter: bool)
      requires Sound() && player != null && (!detached ==> i < |interactables|)
      requires Overlaps(player.Box(), item.Box()) && item.kind == Flag
      modifies this
      ensures Sound() && player != null && (player == old(player) || (fresh(player) && fresh(player.animator)))
      ensures Touching(State(), detachedAfter) == Touched(variant, levels, Touching(old(State()), detached), item, i, now, hop)
    {
      var index := currentLevel + 1;
      LoadLevel(index, hop);
      detachedAfter := detached || index < |levels|;
    }

    /// A spike: 50 damage.
    method TouchSpike(item: ItemState, i: nat, detached: bool, now: real, hop: (nat, nat) -> real)
      requires Sound() && player != null && (!detached ==> i < |interactables|)
      requires Overlaps(player.Box(), item.Box()) && item.kind == Spike
      modifies player, player.animator
      ensures Sound()
      ensures Touching(State(), detached) == Touched(variant, levels, Touching(old(State()), detached), item, i, now, hop)
    {
      player.TakeDamage(SpikeDamage);
    }

    /// An apple or a star: marked while the walk is the game's array, then a
    /// heal of 50 or a boost of 10 s.
    method TouchPickup(item: ItemState, i: nat, detached: bool, now: real, hop: (nat, nat) -> real)
      requires Sound() && player != null && (!detached ==> i < |interactables|)
      requires Overlaps(player.Box(), item.Box()) && (item.kind == Apple || item.kind == Star)
      modifies this`interactables, player
      ensures Sound()
      ensures Touching(State(), detached) == Touched(variant, levels, Touching(old(State()), detached), item, i, now, hop)
    {
      if !detached {
        interactables := interactables[i := interactables[i].(markedForDeletion := true)];
      }
      if item.kind == Apple {
        player.Heal(AppleHealing);
      } else {
        player.ApplyBoost(StarDuration, now);
      }
    }

    /// The interactables pass over the array the game held when it started.
    method TouchItems(now: real, hop: (nat, nat) -> real)
      requires Sound() && player != null
      modifies this, player, player.animator
      ensures Sound() && player != null && (player == old(player) || (fresh(player) && fresh(player.animator)))
      ensures State() == TouchedFrom(variant, levels, Touching(old(State()), false), old(interactables), 0, now, hop).w
    {
      var items := interactables;
      ghost var goal := TouchedFrom(variant, levels, Touching(State(), false), items, 0, now, hop);
      var detached := false;
      var i := 0;
      while i < |items|
        invariant i <= |items| && Sound() && player != null && (!detached ==> |interactables| == |items|)
        invariant player == old(player) || (fresh(player) && fresh(player.animator))
        invariant TouchedFrom(variant, levels, Touching(State(), detached), items, i, now, hop) == goal
      {
        detached := TouchItem(items[i], i, detached, now, hop);
        i := i + 1;
      }
    }

    /// The fireballs pass after its first n fireballs, from fireballs `fs`,
    /// slimes `ss` and player state `p0`.
    ghost predicate FiredUpTo(n: nat, fs: seq<FireballState>, ss: seq<SlimeState>, p0: PlayerState)
      reads this, if player == null then {} else {player, player.animator}
    {
      n <= |fs| && player != null && player.Valid() &&
      var b := Barraged(fs, ss, n);
      projectiles == b.projectiles && slimes == b.slimes && player.State() == Killed(p0, b.kills)
    }

    /// Fireball n of the fireballs pass.
    method FireballPass(n: nat, ghost fs: seq<FireballState>, ghost ss: seq<SlimeState>, ghost p0: PlayerState)
      requires n < |fs| && FiredUpTo(n, fs, ss, p0)
      modifies this`projectiles, this`slimes, player
      ensures player == old(player) && FiredUpTo(n + 1, fs, ss, p0)
    {
      BarragedStep(fs, ss, n);
      FireballMeetsSlimes(n);
    }

    /// One fireball against every slime: it is marked when it meets one, each
    /// slime it meets takes 100, and a slime marked afterwards adds a kill.
    method FireballMeetsSlimes(n: nat)
      requires n < |projectiles| && player != null && player.Valid()
      modifies this`projectiles, this`slimes, player
      ensures player == old(player) && player.Valid()
      ensures var box := old(projectiles)[n].Box();
        projectiles == (if HitsAny(box, old(slimes)) then old(projectiles)[n := old(projectiles)[n].(markedForDeletion := true)]
                        else old(projectiles)) &&
        slimes == Strike(old(slimes), box, FireballDamage) &&
        player.State() == Killed(old(player.State()), StrikeKills(old(slimes), box, FireballDamage))
    {
      ghost var fs := projectiles;
      ghost var ss := slimes;
      ghost var p0 := player.State();
      var box := projectiles[n].Box();
      var j := 0;
      while j < |slimes|
        invariant j <= |slimes| == |ss| && player == old(player) && MetUpTo(n, j, box, fs, ss, p0)
      {
        FireballMeetsSlime(n, j, box, fs, ss, p0);
        j := j + 1;
      }
      assert ss[..j] == ss;
    }

    /// Fireball n (with box `box`) after meeting the first j slimes, from
    /// fireballs `fs`, slimes `ss` and player state `p0`.
    ghost predicate MetUpTo(n: nat, j: nat, box: Rect, fs: seq<FireballState>, ss: seq<SlimeState>, p0: PlayerState)
      reads this, if player == null then {} else {player, player.animator}
    {
      n < |fs| && j <= |ss| && player != null && player.Valid() &&
      slimes == Strike(ss[..j], box, FireballDamage) + ss[j..] &&
      projectiles == (if HitsAny(box, ss[..j]) then fs[n := fs[n].(markedForDeletion := true)] else fs) &&
      player.State() == Killed(p0, StrikeKills(ss[..j], box, FireballDamage))
    }

    /// Fireball n against slime j, after it has met the slimes before j.
    method FireballMeetsSlime(n: nat, j: nat, box: Rect, ghost fs: seq<FireballState>, ghost ss: seq<SlimeState>,
                              ghost p0: PlayerState)
      requires j < |ss| && MetUpTo(n, j, box, fs, ss, p0)
      modifies this`projectiles, this`slimes, player
      ensures player == old(player) && MetUpTo(n, j + 1, box, fs, ss, p0)
    {
      StrikeStep(ss, j, box, FireballDamage);
      HitsAnyStep(box, ss, j);
      if Overlaps(box, slimes[j].Box()) {
        projectiles := projectiles[n := projectiles[n].(markedForDeletion := true)];
      }
      StrikeSlime(j, box, FireballDamage);
    }

    /// The fireballs pass: every fireball, in order, against every slime.
    method FireballsHitSlimes()
      requires Sound() && player != null
      modifies this`projectiles, this`slimes, player
      ensures Sound() && player == old(player)
      ensures var b := Barraged(old(projectiles), old(slimes), |old(projectiles)|);
        State() == old(State()).(player := Some(Killed(old(player.State()), b.kills)),
                                 stage := old(State()).stage.(projectiles := b.projectiles, slimes := b.slimes))
    {
      ghost var w0 := State();
      FireAll();
      assert State() == w0.(player := Some(player.State()), stage := w0.stage.(projectiles := projectiles, slimes := slimes));
      BarrageKeepsValid(w0, player.State());
      assert WorldValid(State());
    }

    /// The loop of the fireballs pass, stated on the fireballs, the slimes and
    /// the player alone.
    method FireAll()
      requires player != null && player.Valid()
      modifies this`projectiles, this`slimes, player
      ensures player == old(player) && player.Valid()
      ensures var b := Barraged(old(projectiles), old(slimes), |old(projectiles)|);
        projectiles == b.projectiles && slimes == b.slimes && player.State() == Killed(old(player.State()), b.kills)
    {
      ghost var fs := projectiles;
      ghost var ss := slimes;
      ghost var p0 := player.State();
      var count := |projectiles|;
      var n := 0;
      while n < count
        invariant n <= count == |fs| && player == old(player) && FiredUpTo(n, fs, ss, p0)
      {
        FireballPass(n, fs, ss, p0);
        n := n + 1;
      }
    }

    /// handleCollisions: landing, contact damage, interactables, fireballs.
    method HandleCollisions(now: real, hop: (nat, nat) -> real)
      requires Sound() && player != null
      modifies this, player, player.animator
      ensures Sound() && player != null && (player == old(player) || (fresh(player) && fresh(player.animator)))
      ensures State() == Collided(variant, levels, old(State()), now, hop)
    {
      LandEntities();
      ContactSlimes();
      TouchItems(now, hop);
      FireballsHitSlimes();
    }

    // ------------------------------------------------- camera, filters, fall

    /// updateCamera: follow the player with a dead zone of a third of the view,
    /// then clamp to the level, whose width comes from its first row.
    method UpdateCamera()
      requires Sound() && player != null && currentLevel < |levels|
      modifies this`cameraX
      ensures Sound() && State() == CameraUpdated(levels, old(State()))
    {
      var deadZone := ViewWidth / 3.0;
      var x := player.motion.x;
      if x > cameraX + ViewWidth - deadZone {
        cameraX := x - (ViewWidth - deadZone);
      } else if x < cameraX + deadZone {
        cameraX := x - deadZone;
      }
      if cameraX < 0.0 {
        cameraX := 0.0;
      }
      var maxCameraX := |levels[currentLevel][0]| as real * TileSize - ViewWidth;
      if cameraX > maxCameraX {
        cameraX := maxCameraX;
      }
    }

    /// The deferred removal: the three filters on the marks.
    method RemoveMarked()
      requires Sound()
      modifies this`slimes, this`projectiles, this`interactables
      ensures Sound() && State() == Swept(old(State()))
    {
      ghost var r := Swept(State());
      slimes := Keep(slimes, Marks(slimes, SlimeMarked));
      projectiles := Keep(projectiles, Marks(projectiles, FireballMarked));
      interactables := Keep(interactables, Marks(interactables, ItemMarked));
      assert State() == r;
      assert WorldValid(State());
    }

    /// A player below the view dies; JogoLLMA also ends the game.
    method CheckFall()
      requires Sound() && player != null
      modifies this`gameOver, player, player.animator
      ensures Sound() && player == old(player) && State() == Fell(variant, old(State()))
    {
      if player.motion.y > ViewHeight + FallMargin {
        player.Die();
        if variant == JogoLLMA {
          gameOver := true;
        }
      }
    }

    // ------------------------------------------------------------ Game.update

    /// The end of update: the camera follows, the marked entities are removed
    /// and a player below the view dies.
    method Finish()
      requires Sound() && Ready(levels, State())
      modifies this`cameraX, this`slimes, this`projectiles, this`interactables, this`gameOver, player, player.animator
      ensures Sound() && player == old(player) && State() == Finished(variant, levels, old(State()))
    {
      UpdateCamera();
      RemoveMarked();
      CheckFall();
    }

    /// update after the slimes' turn, for a living player: the interactables
    /// and fireballs update, then collisions, then the end.
    method Resolve(io: Inputs)
      requires Sound() && Ready(levels, State())
      modifies this, player, player.animator
      ensures Sound() && player != null && (player == old(player) || (fresh(player) && fresh(player.animator)))
      ensures State() == Resolved(variant, levels, old(State()), io)
    {
      AdvanceEntities(io.dt);
      HandleCollisions(io.now, io.hop);
      Finish();
    }

    /// Game.update(dt), with the frame's inputs and random draws in `io`.
    method Update(io: Inputs)
      requires Sound() && Ready(levels, State()) && io.pick < |AttackNames|
      modifies this, player, player.animator, trailRenderer
      ensures Sound() && player != null && (player == old(player) || (fresh(player) && fresh(player.animator)))
      ensures State() == Frame(variant, levels, old(State()), io)
    {
      if variant == AtividadeJogoLLM && gameOver && !player.vitals.isDead {
        return;
      }
      trailRenderer.Update(io.dt);
      UpdatePlayer(io.keys, io.dt, io.now, io.pick);
      Continue(io);
    }

    /// update after the player's turn.
    method Continue(io: Inputs)
      requires Sound() && Ready(levels, State())
      modifies this, player, player.animator, trailRenderer
      ensures Sound() && player != null && (player == old(player) || (fresh(player) && fresh(player.animator)))
      ensures State() == Continued(variant, levels, old(State()), io)
    {
      if variant == JogoLLMA && player.vitals.isDead {
        if player.motion.y > ViewHeight + FallMargin {
          gameOver := true;
        }
        return;
      }
      LeaveTrail(io.trailRoll);
      AdvanceSlimes(io.dt, io.next);
      if variant == AtividadeJogoLLM && player.vitals.isDead {
        return;
      }
      Resolve(io);
    }

    // --------------------------------------------------------- the session

    /// resetGame: both flags cleared, level 0 loaded, PLAYING.
    method ResetGame(hop: (nat, nat) -> real)
      requires Sound()
      modifies this
      ensures Sound() && player != null && (player == old(player) || (fresh(player) && fresh(player.animator)))
      ensures State() == Restarted(variant, levels, old(State()), hop)
    {
      gameOver := false;
      victory := false;
      currentLevel := 0;
      LoadLevel(currentLevel, hop);
      gameState := Playing;
    }

    /// One call of the animate loop. JogoLLMA: only PLAYING updates, and a
    /// frame that ends the game moves to its end screen. AtividadeJogoLLM: the
    /// loop is no longer scheduled once gameOver is set.
    method Animate(io: Inputs)
      requires Valid() && io.pick < |AttackNames|
      modifies this, trailRenderer, if player == null then {} else {player, player.animator}
      ensures Valid() && State() == Tick(variant, levels, old(State()), io)
    {
      if variant == AtividadeJogoLLM {
        AnimateAtividade(io);
      } else {
        AnimateJogoLLMA(io);
      }
    }

    /// AtividadeJogoLLM schedules frames only until gameOver is set.
    method AnimateAtividade(io: Inputs)
      requires Valid() && variant == AtividadeJogoLLM && io.pick < |AttackNames|
      modifies this, trailRenderer, if player == null then {} else {player, player.animator}
      ensures Valid() && State() == Tick(variant, levels, old(State()), io)
    {
      if !gameOver {
        Update(io);
      }
    }

    /// JogoLLMA runs a frame only on the playing screen, then shows the end
    /// screen the frame led to.
    method AnimateJogoLLMA(io: Inputs)
      requires Valid() && variant == JogoLLMA && io.pick < |AttackNames|
      modifies this, trailRenderer, if player == null then {} else {player, player.animator}
      ensures Valid() && State() == Tick(variant, levels, old(State()), io)
    {
      ghost var r := Tick(variant, levels, State(), io);
      if gameState == Playing {
        Update(io);
        ShowEndScreen();
      }
      assert State() == r;
      assert GameValid(variant, levels, State());
    }

    /// Once a JogoLLMA frame ends with victory or gameOver, the matching end
    /// screen replaces the playing screen.
    method ShowEndScreen()
      requires Sound()
      modifies this`gameState
      ensures Sound()
      ensures var u := old(State());
        State() == if u.session.gameOver || u.session.victory
          then u.(session := u.session.(screen := if u.session.victory then VictoryScreen else GameOverScreen))
          else u
    {
      if gameOver || victory {
        gameState := if victory then VictoryScreen else GameOverScreen;
      }
    }

    /// handleInteraction (a click or Enter, JogoLLMA only): from the menu or an
    /// end screen the game is reset; while playing nothing happens.
    method HandleInteraction(hop: (nat, nat) -> real)
      requires Valid() && variant == JogoLLMA
      modifies this
      ensures Valid() && State() == Interaction(levels, old(State()), hop)
    {
      if gameState == Menu || gameState == GameOverScreen || gameState == VictoryScreen {
        ResetGame(hop);
      }
    }
  }
}
