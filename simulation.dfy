/// The game as a value: what Game holds (the player, the level's entities, the
/// trail, the camera and the session flags) and what each step of Game.update,
/// handleCollisions, handlePlayerAttack, createFireball, updateCamera and
/// loadLevel does to it. The Game class is proved against these functions.
module Simulation {
  import opened Common
  import opened Geometry
  import opened Animation
  import opened Entities
  import opened PlayerModel
  import opened Effects
  import opened Levels
  import opened Camera

  /// The canvas both games create.
  const ViewWidth: real := 1280.0
  const ViewHeight: real := 720.0
  /// How far below the view the player must be to have fallen out.
  const FallMargin: real := 100.0
  /// The game's TrailRenderer keeps ten afterimages.
  const MaxTrails: nat := 10
  const ContactDamage: real := 10.0
  const SpikeDamage: real := 50.0
  const AppleHealing: real := 50.0
  const StarDuration: real := 10000.0
  const FireballDamage: real := 100.0
  const SwordDamage: real := 50.0
  /// Where loadLevel puts a player when the map has no P and there is none yet.
  const DefaultSpawn: Point := Point(100.0, 100.0)

  /// JogoLLMA's gameState; AtividadeJogoLLM has none and stays on Playing.
  datatype Screen = Menu | Playing | GameOverScreen | VictoryScreen

  datatype Stage = Stage(platforms: seq<Platform>, slimes: seq<SlimeState>, items: seq<ItemState>,
                         projectiles: seq<FireballState>)

  datatype Session = Session(currentLevel: nat, gameOver: bool, victory: bool, screen: Screen)

  /// Everything Game.update reads or writes. JogoLLMA has no player before the
  /// first level is loaded.
  datatype World = World(player: Option<PlayerState>, stage: Stage, trails: seq<Trail>, cameraX: real,
                         session: Session)

  /// The random draws and the input of one frame: the held keys, the elapsed
  /// and the current time, the attack chosen at random, whether the trail's
  /// 40% draw succeeds, the next hop wait of the i-th slime, and the first hop
  /// wait of a slime created from the tile in row r, column c.
  datatype Inputs = Inputs(keys: set<string>, dt: real, now: real, pick: nat, trailRoll: bool,
                           next: nat -> real, hop: (nat, nat) -> real)

  ghost predicate WorldValid(w: World)
  {
    (w.player.Some? ==> PlayerStateValid(w.player.value)) &&
    (forall i :: 0 <= i < |w.stage.slimes| ==> Consistent(w.stage.slimes[i].anim)) &&
    (forall i :: 0 <= i < |w.stage.items| ==> Consistent(w.stage.items[i].anim)) &&
    (forall i :: 0 <= i < |w.stage.projectiles| ==> Consistent(w.stage.projectiles[i].anim))
  }

  /// A world that Game.update can run on: valid, with a player and a current
  /// level whose map has a first row.
  ghost predicate Ready(levels: seq<seq<string>>, w: World)
  {
    HasLevels(levels) && WorldValid(w) && w.player.Some? && w.session.currentLevel < |levels|
  }

  /// How a frame may move the session flags: gameOver and victory are never
  /// cleared, victory only comes with gameOver, and AtividadeJogoLLM only ends
  /// the game by winning it.
  predicate Progressed(v: Variant, before: Session, after: Session)
  {
    after.screen == before.screen &&
    (before.gameOver ==> after.gameOver) && (before.victory ==> after.victory) &&
    (after.victory && !before.victory ==> after.gameOver) &&
    (v == AtividadeJogoLLM && after.gameOver && !before.gameOver ==> after.victory)
  }

  /// The session flags after a step that can only end the game by winning it:
  /// either untouched, or both gameOver and victory set.
  predicate EndsOnlyByWinning(before: Session, after: Session)
  {
    after.screen == before.screen &&
    ((after.gameOver == before.gameOver && after.victory == before.victory) || (after.gameOver && after.victory))
  }

  /// Newly created slimes, interactables and fireballs start with a
  /// consistent animation state.
  lemma FreshEntitiesConsistent(v: Variant, kind: ItemKind, x: real, y: real, hop: real)
    ensures Consistent(NewSlime(x, y, hop).anim) && Consistent(NewItem(v, kind, x, y).anim) &&
            Consistent(FireballAnimations())
  {
    AddKeepsConsistent(Initial(), "idle", 1, 1.0, true);
    AddKeepsConsistent(WithAnimation(Initial(), "idle", 1, 1.0, true), "hop", 3, 6.0, true);
    PlayKeepsInvariants(SlimeAnimations(), "idle", false);
    AddKeepsConsistent(Initial(), "wave", 4, 5.0, true);
    PlayKeepsInvariants(WithAnimation(Initial(), "wave", 4, 5.0, true), "wave", false);
    AddKeepsConsistent(Initial(), "fly", 6, 12.0, true);
    PlayKeepsInvariants(WithAnimation(Initial(), "fly", 6, 12.0, true), "fly", false);
  }

  /// What the game does to the player outside its own update keeps it valid.
  lemma PlayerStepsKeepValid(v: Variant, p: PlayerState, amount: real, duration: real, now: real, kills: nat)
    requires PlayerStateValid(p)
    ensures PlayerStateValid(Damaged(v, p, amount)) && PlayerStateValid(Died(p)) &&
            PlayerStateValid(Healed(p, amount)) && PlayerStateValid(Boosted(p, duration, now)) &&
            PlayerStateValid(Killed(p, kills))
  {
    PlayKeepsInvariants(p.anim, "hurt", true);
    PlayKeepsInvariants(p.anim, "dead", true);
    PlayKeepsInvariants(Played(p.anim, "hurt", true), "dead", true);
  }

  // ------------------------------------------------------------- loadLevel

  /// loadLevel(index): past the last level it only declares victory; otherwise
  /// it replaces the four collections with the map's entities, puts a new
  /// player on the map's P (or at (100, 100) when the map has none and there
  /// is no player yet) and moves the camera back to 0.
  function LoadedLevel(v: Variant, levels: seq<seq<string>>, w: World, index: nat, hop: (nat, nat) -> real): World
  {
    if index >= |levels| then w.(session := w.session.(victory := true, gameOver := true))
    else
      var l := Scan(v, levels[index], hop);
      var player := if l.playerAt.Some? then Some(NewPlayer(l.playerAt.value.x, l.playerAt.value.y))
                    else if w.player.None? then Some(NewPlayer(DefaultSpawn.x, DefaultSpawn.y))
                    else w.player;
      World(player, Stage(l.platforms, l.slimes, l.items, []), w.trails, 0.0, w.session.(currentLevel := index))
  }

  /// The world loadLevel builds from a scan and the player it places.
  lemma LoadedLevelIs(v: Variant, levels: seq<seq<string>>, w: World, index: nat, hop: (nat, nat) -> real,
                      l: Loaded, p: PlayerState)
    requires index < |levels| && l == Scan(v, levels[index], hop)
    requires l.playerAt.Some? ==> p == NewPlayer(l.playerAt.value.x, l.playerAt.value.y)
    requires l.playerAt.None? && w.player.None? ==> p == NewPlayer(DefaultSpawn.x, DefaultSpawn.y)
    requires l.playerAt.None? && w.player.Some? ==> p == w.player.value
    ensures LoadedLevel(v, levels, w, index, hop) ==
            World(Some(p), Stage(l.platforms, l.slimes, l.items, []), w.trails, 0.0, w.session.(currentLevel := index))
  {
  }

  lemma LoadedLevelValid(v: Variant, levels: seq<seq<string>>, w: World, index: nat, hop: (nat, nat) -> real)
    requires WorldValid(w)
    ensures var r := LoadedLevel(v, levels, w, index, hop);
      WorldValid(r) && (w.player.Some? ==> r.player.Some?) &&
      (index < |levels| ==> r.player.Some? && r.session.currentLevel == index) &&
      (index >= |levels| ==> r.session.currentLevel == w.session.currentLevel)
  {
    if index < |levels| {
      var rows := levels[index];
      var l := Scan(v, rows, hop);
      ScanPlacesEveryTile(v, rows, hop);
      forall i | 0 <= i < |l.slimes|
        ensures Consistent(l.slimes[i].anim)
      {
        assert l.slimes[i] in l.slimes;
        var r: nat, c: nat :| InGrid(rows, r, c) && rows[r][c] == 'E' &&
          l.slimes[i] == NewSlime(TileAt(r, c).x, TileAt(r, c).y, hop(r, c));
        FreshEntitiesConsistent(v, Spike, TileAt(r, c).x, TileAt(r, c).y, hop(r, c));
      }
      forall i | 0 <= i < |l.items|
        ensures Consistent(l.items[i].anim)
      {
        assert l.items[i] in l.items;
        var r: nat, c: nat :| InGrid(rows, r, c) && ItemKindOf(rows[r][c]).Some? &&
          l.items[i] == NewItem(v, ItemKindOf(rows[r][c]).value, TileAt(r, c).x, TileAt(r, c).y);
        FreshEntitiesConsistent(v, ItemKindOf(rows[r][c]).value, TileAt(r, c).x, TileAt(r, c).y, 0.0);
      }
    }
  }

  // ---------------------------------------------------- handlePlayerAttack

  /// The sword's reach: 80% of the player's size, in front of the player (its
  /// right half when facing right, half a hitbox to its left otherwise), 10%
  /// below its top.
  function AttackBox(p: PlayerState): Rect
  {
    var w := PlayerWidth * 0.8;
    var h := PlayerHeight * 0.8;
    Rect(if p.motion.facing > 0 then p.motion.x + PlayerWidth / 2.0 else p.motion.x - w / 2.0,
         p.motion.y + PlayerHeight * 0.1, w, h)
  }

  /// `after` differs from `before` at most in health and mark.
  predicate Wounded(before: SlimeState, after: SlimeState)
  {
    after == before.(health := after.health, markedForDeletion := after.markedForDeletion)
  }

  /// One slime under a blow: damaged when the box overlaps it.
  function Hit(s: SlimeState, box: Rect, damage: real): (r: SlimeState)
    ensures Wounded(s, r)
  {
    if Overlaps(box, s.Box()) then SlimeDamaged(s, damage) else s
  }

  /// The blow counts as a kill when it lands and the slime is marked afterwards
  /// (also when it was marked already).
  predicate Kills(s: SlimeState, box: Rect, damage: real)
  {
    Overlaps(box, s.Box()) && SlimeDamaged(s, damage).markedForDeletion
  }

  /// One box against every slime, in order.
  function Strike(ss: seq<SlimeState>, box: Rect, damage: real): (r: seq<SlimeState>)
    ensures |r| == |ss| && forall i :: 0 <= i < |ss| ==> r[i] == Hit(ss[i], box, damage)
  {
    if ss == [] then [] else Strike(ss[..|ss| - 1], box, damage) + [Hit(ss[|ss| - 1], box, damage)]
  }

  /// How many of those blows count as kills.
  function StrikeKills(ss: seq<SlimeState>, box: Rect, damage: real): nat
  {
    if ss == [] then 0
    else StrikeKills(ss[..|ss| - 1], box, damage) + (if Kills(ss[|ss| - 1], box, damage) then 1 else 0)
  }

  /// Striking the slimes one at a time, in place: the first i struck and the
  /// rest untouched, then the i-th struck too.
  lemma StrikeStep(ss: seq<SlimeState>, i: nat, box: Rect, damage: real)
    requires i < |ss|
    ensures (Strike(ss[..i], box, damage) + ss[i..])[i := Hit(ss[i], box, damage)] ==
            Strike(ss[..i + 1], box, damage) + ss[i + 1..]
    ensures StrikeKills(ss[..i + 1], box, damage) ==
            StrikeKills(ss[..i], box, damage) + (if Kills(ss[i], box, damage) then 1 else 0)
  {
    assert ss[..i + 1][..i] == ss[..i];
  }

  /// handlePlayerAttack: every slime in reach takes 50 times the attack
  /// multiplier, and each one marked afterwards adds a kill.
  function AttackResolved(w: World): (r: World)
    requires WorldValid(w) && w.player.Some?
    ensures WorldValid(r) && r.player.Some?
  {
    var p := w.player.value;
    var box := AttackBox(p);
    var damage := SwordDamage * p.boost.attackMultiplier;
    PlayerStepsKeepValid(JogoLLMA, p, 0.0, 0.0, 0.0, StrikeKills(w.stage.slimes, box, damage));
    w.(player := Some(Killed(p, StrikeKills(w.stage.slimes, box, damage))),
       stage := w.stage.(slimes := Strike(w.stage.slimes, box, damage)))
  }

  /// AttackResolved, spelled out for the loop that computes it.
  lemma AttackResolvedIs(w: World, box: Rect, damage: real)
    requires WorldValid(w) && w.player.Some?
    requires box == AttackBox(w.player.value) && damage == SwordDamage * w.player.value.boost.attackMultiplier
    ensures AttackResolved(w) == w.(player := Some(Killed(w.player.value, StrikeKills(w.stage.slimes, box, damage))),
                                    stage := w.stage.(slimes := Strike(w.stage.slimes, box, damage)))
  {
  }

  // ---------------------------------------------------------- createFireball

  /// createFireball: just beyond the player's front, vertically centred on it.
  function Launched(p: PlayerState): FireballState
  {
    FireballState(if p.motion.facing > 0 then p.motion.x + PlayerWidth else p.motion.x - 64.0,
                  p.motion.y + PlayerHeight / 2.0 - 32.0, p.motion.facing, false, FireballAnimations())
  }

  /// The end of handleInput: the special attack, and the fireball it creates.
  function Special(w: World, keys: set<string>): (r: World)
    requires WorldValid(w) && w.player.Some?
    ensures WorldValid(r) && r.player.Some?
  {
    var p := w.player.value;
    FreshEntitiesConsistent(JogoLLMA, Flag, 0.0, 0.0, 0.0);
    if CanFire(p, keys) then
      w.(player := Some(Fired(p, keys)), stage := w.stage.(projectiles := w.stage.projectiles + [Launched(p)]))
    else w
  }

  /// Special, spelled out for the calls that compute it: createFireball runs
  /// after the cooldown is set, which leaves the player's position alone.
  lemma SpecialIs(w: World, keys: set<string>)
    requires WorldValid(w) && w.player.Some?
    ensures var p := w.player.value; var f := Fired(p, keys);
      Special(w, keys) == if CanFire(p, keys)
        then w.(player := Some(f), stage := w.stage.(projectiles := w.stage.projectiles + [Launched(f)]))
        else w.(player := Some(f))
  {
  }

  // ------------------------------------------------------ the player's turn

  /// handleInput, with the attack and the fireball it asks the game for.
  function Acted(v: Variant, w: World, keys: set<string>, now: real): (r: World)
    requires WorldValid(w) && w.player.Some?
    ensures WorldValid(r) && r.player.Some? && r.trails == w.trails && r.cameraX == w.cameraX
    ensures r.session == w.session
  {
    var input := HandledInput(v, w.player.value, keys, now);
    var handled := w.(player := Some(input.state));
    var attacked := if input.outcome == Handled(true) then AttackResolved(handled) else handled;
    if input.outcome.Handled? then Special(attacked, keys) else attacked
  }

  /// player.update(input, dt, game): handleInput, then the rest of
  /// Player.update; a request from onAnimationEnd to end the game sets
  /// gameOver.
  function PlayerTurn(v: Variant, w: World, keys: set<string>, dt: real, now: real, pick: nat): (r: World)
    requires WorldValid(w) && w.player.Some? && pick < |AttackNames|
    ensures WorldValid(r) && r.player.Some? && r.trails == w.trails && r.cameraX == w.cameraX
    ensures r.session == w.session.(gameOver := r.session.gameOver)
    ensures r.session.gameOver && !w.session.gameOver ==> v == JogoLLMA
  {
    var acted := Acted(v, w, keys, now);
    var u := Updated(v, acted.player.value, dt, now, pick);
    acted.(player := Some(u.state), session := acted.session.(gameOver := acted.session.gameOver || u.gameOver))
  }

  // ------------------------------------------------------ the rest of update

  /// A new afterimage of the boosted player, when the 40% draw succeeds.
  function TrailLeft(w: World, roll: bool): (r: World)
    requires w.player.Some?
    ensures r.(trails := w.trails) == w
  {
    var p := w.player.value;
    if p.boost.boostEndTime > 0.0 && roll then
      w.(trails := WithTrail(w.trails, Trail(p.motion.x, p.motion.y, PlayerWidth, PlayerHeight, 1.0, p.motion.facing), MaxTrails))
    else w
  }

  /// Slimes update only while on screen (with the 200-pixel margin).
  function SlimeTick(s: SlimeState, dt: real, playerX: real, cameraX: real, next: real): (r: SlimeState)
    requires Consistent(s.anim)
    ensures Consistent(r.anim)
  {
    SlimeStepKeepsValid(s, dt, playerX, next);
    if IsOnScreen(s.Box(), cameraX, ViewWidth) then SlimeStep(s, dt, playerX, next) else s
  }

  function SlimesAdvanced(w: World, dt: real, next: nat -> real): (r: World)
    requires WorldValid(w) && w.player.Some?
    ensures WorldValid(r) && r.player == w.player && r.session == w.session && r.cameraX == w.cameraX
    ensures r.trails == w.trails
    ensures r.stage.(slimes := w.stage.slimes) == w.stage && |r.stage.slimes| == |w.stage.slimes|
  {
    var ss := w.stage.slimes;
    var x := w.player.value.motion.x;
    var ticked := seq(|ss|, i requires 0 <= i < |ss| => SlimeTick(ss[i], dt, x, w.cameraX, next(i)));
    assert forall i :: 0 <= i < |ticked| ==> Consistent(ticked[i].anim) by {
      forall i | 0 <= i < |ticked| ensures Consistent(ticked[i].anim) {
        assert ticked[i] == SlimeTick(ss[i], dt, x, w.cameraX, next(i));
      }
    }
    w.(stage := w.stage.(slimes := ticked))
  }

  /// The interactables' and the fireballs' own updates.
  function EntitiesAdvanced(v: Variant, w: World, dt: real): (r: World)
    requires WorldValid(w)
    ensures WorldValid(r) && r.player == w.player && r.session == w.session && r.cameraX == w.cameraX
    ensures r.stage.slimes == w.stage.slimes && r.stage.platforms == w.stage.platforms && r.trails == w.trails
  {
    var its := w.stage.items;
    var ps := w.stage.projectiles;
    var items := seq(|its|, i requires 0 <= i < |its| => ItemStep(v, its[i], dt));
    var flown := seq(|ps|, i requires 0 <= i < |ps| => FireballStep(ps[i], dt, w.cameraX, ViewWidth));
    assert forall i :: 0 <= i < |items| ==> Consistent(items[i].anim) by {
      forall i | 0 <= i < |items| ensures Consistent(items[i].anim) {
        StepKeepsInvariants(its[i].anim, dt);
      }
    }
    assert forall i :: 0 <= i < |flown| ==> Consistent(flown[i].anim) by {
      forall i | 0 <= i < |flown| ensures Consistent(flown[i].anim) {
        StepKeepsInvariants(ps[i].anim, dt);
      }
    }
    w.(stage := w.stage.(items := items, projectiles := flown))
  }

  // ------------------------------------------------------- handleCollisions

  function SlimeLanded(s: SlimeState, ps: seq<Platform>): SlimeState
  {
    var b := Landed(s.Frame(), ps);
    s.(y := b.y, vy := b.vy, onGround := b.onGround)
  }

  function PlayerLanded(p: PlayerState, ps: seq<Platform>): PlayerState
  {
    var b := Landed(p.Frame(), ps);
    p.(motion := p.motion.(y := b.y, vy := b.vy, onGround := b.onGround))
  }

  /// The landing pass over the player and then every slime.
  function LandingPass(w: World): (r: World)
    requires WorldValid(w) && w.player.Some?
    ensures WorldValid(r) && r.player.Some? && r.session == w.session
    ensures r.trails == w.trails && r.cameraX == w.cameraX
    ensures r.stage.(slimes := w.stage.slimes) == w.stage && |r.stage.slimes| == |w.stage.slimes|
  {
    var ss := w.stage.slimes;
    var ps := w.stage.platforms;
    w.(player := Some(PlayerLanded(w.player.value, ps)),
       stage := w.stage.(slimes := seq(|ss|, i requires 0 <= i < |ss| => SlimeLanded(ss[i], ps))))
  }

  /// Every slime the player overlaps deals 10 damage, in order.
  function Contacted(v: Variant, p: PlayerState, ss: seq<SlimeState>): (r: PlayerState)
    requires PlayerStateValid(p)
    ensures PlayerStateValid(r)
  {
    if ss == [] then p
    else
      var q := Contacted(v, p, ss[..|ss| - 1]);
      PlayerStepsKeepValid(v, q, ContactDamage, 0.0, 0.0, 0);
      if Overlaps(q.Box(), ss[|ss| - 1].Box()) then Damaged(v, q, ContactDamage) else q
  }

  /// The contact pass one slime further.
  lemma ContactedStep(v: Variant, p: PlayerState, ss: seq<SlimeState>, i: nat)
    requires PlayerStateValid(p) && i < |ss|
    ensures var q := Contacted(v, p, ss[..i]);
      Contacted(v, p, ss[..i + 1]) == if Overlaps(q.Box(), ss[i].Box()) then Damaged(v, q, ContactDamage) else q
  {
    assert ss[..i + 1][..i] == ss[..i];
  }

  /// The interactables pass walks the array it started with. A flag loads the
  /// next level, which replaces the game's arrays (and player); `reloaded`
  /// records that, because marks then land on items that are no longer the
  /// game's.
  datatype Touching = Touching(w: World, reloaded: bool)

  /// Marking the i-th item of the array being walked.
  function Marked(t: Touching, i: nat): World
    requires !t.reloaded ==> i < |t.w.stage.items|
  {
    if t.reloaded then t.w
    else t.w.(stage := t.w.stage.(items := t.w.stage.items[i := t.w.stage.items[i].(markedForDeletion := true)]))
  }

  /// One item against the current player: a flag loads the next level, a spike
  /// deals 50, an apple is marked and heals 50, a star is marked and boosts
  /// for 10 s, water does nothing.
  function Touched(v: Variant, levels: seq<seq<string>>, t: Touching, item: ItemState, i: nat, now: real,
                   hop: (nat, nat) -> real): (r: Touching)
    requires WorldValid(t.w) && t.w.player.Some? && (!t.reloaded ==> i < |t.w.stage.items|)
    ensures WorldValid(r.w) && r.w.player.Some? && (!r.reloaded ==> |r.w.stage.items| == |t.w.stage.items|)
    ensures r.w.session.currentLevel != t.w.session.currentLevel ==> r.w.session.currentLevel < |levels|
    ensures EndsOnlyByWinning(t.w.session, r.w.session) && (t.reloaded ==> r.reloaded)
  {
    var p := t.w.player.value;
    PlayerStepsKeepValid(v, p, SpikeDamage, StarDuration, now, 0);
    PlayerStepsKeepValid(v, p, AppleHealing, StarDuration, now, 0);
    LoadedLevelValid(v, levels, t.w, t.w.session.currentLevel + 1, hop);
    if !Overlaps(p.Box(), item.Box()) then t
    else match item.kind
      case Flag =>
        var index := t.w.session.currentLevel + 1;
        Touching(LoadedLevel(v, levels, t.w, index, hop), t.reloaded || index < |levels|)
      case Spike => t.(w := t.w.(player := Some(Damaged(v, p, SpikeDamage))))
      case Apple => t.(w := Marked(t, i).(player := Some(Healed(p, AppleHealing))))
      case Star => t.(w := Marked(t, i).(player := Some(Boosted(p, StarDuration, now))))
      case Water => t
  }

  /// The item pass over items[i..] from t; `items` is the array the pass
  /// started with, so a flag that reloads the level does not stop it.
  function TouchedFrom(v: Variant, levels: seq<seq<string>>, t: Touching, items: seq<ItemState>, i: nat, now: real,
                       hop: (nat, nat) -> real): (r: Touching)
    requires i <= |items| && WorldValid(t.w) && t.w.player.Some? && (!t.reloaded ==> |t.w.stage.items| == |items|)
    ensures WorldValid(r.w) && r.w.player.Some? && (!r.reloaded ==> |r.w.stage.items| == |t.w.stage.items|)
    ensures r.w.session.currentLevel == t.w.session.currentLevel || r.w.session.currentLevel < |levels|
    ensures EndsOnlyByWinning(t.w.session, r.w.session) && (t.reloaded ==> r.reloaded)
    decreases |items| - i
  {
    if i == |items| then t
    else TouchedFrom(v, levels, Touched(v, levels, t, items[i], i, now, hop), items, i + 1, now, hop)
  }

  /// Whether a fireball's box meets any slime.
  predicate HitsAny(box: Rect, ss: seq<SlimeState>)
  {
    exists j :: 0 <= j < |ss| && Overlaps(box, ss[j].Box())
  }

  /// A box meets one of the first i + 1 slimes when it meets one of the first
  /// i or the (i + 1)-th.
  lemma HitsAnyStep(box: Rect, ss: seq<SlimeState>, i: nat)
    requires i < |ss|
    ensures HitsAny(box, ss[..i + 1]) <==> HitsAny(box, ss[..i]) || Overlaps(box, ss[i].Box())
  {
    if HitsAny(box, ss[..i + 1]) {
      var j :| 0 <= j < i + 1 && Overlaps(box, ss[..i + 1][j].Box());
      if j < i {
        assert ss[..i][j] == ss[j];
      }
    }
    if HitsAny(box, ss[..i]) {
      var j :| 0 <= j < i && Overlaps(box, ss[..i][j].Box());
      assert ss[..i + 1][j] == ss[j];
    }
    if Overlaps(box, ss[i].Box()) {
      assert ss[..i + 1][i] == ss[i];
    }
  }

  datatype Barrage = Barrage(projectiles: seq<FireballState>, slimes: seq<SlimeState>, kills: nat)

  /// The first n fireballs, each against every slime: a fireball that meets a
  /// slime is marked, the slime takes 100 and a marked slime adds a kill.
  function Barraged(fs: seq<FireballState>, ss: seq<SlimeState>, n: nat): (r: Barrage)
    requires n <= |fs|
    ensures |r.projectiles| == |fs| && |r.slimes| == |ss|
  {
    if n == 0 then Barrage(fs, ss, 0)
    else
      var b := Barraged(fs, ss, n - 1);
      var box := fs[n - 1].Box();
      var marked := if HitsAny(box, b.slimes) then b.projectiles[n - 1 := b.projectiles[n - 1].(markedForDeletion := true)]
                    else b.projectiles;
      Barrage(marked, Strike(b.slimes, box, FireballDamage), b.kills + StrikeKills(b.slimes, box, FireballDamage))
  }

  /// The fireballs pass one fireball further, from the fireballs and slimes
  /// as the pass left them.
  lemma BarragedStep(fs: seq<FireballState>, ss: seq<SlimeState>, n: nat)
    requires n < |fs|
    ensures var b := Barraged(fs, ss, n); var box := b.projectiles[n].Box();
      Barraged(fs, ss, n + 1) ==
        Barrage(if HitsAny(box, b.slimes) then b.projectiles[n := b.projectiles[n].(markedForDeletion := true)] else b.projectiles,
                Strike(b.slimes, box, FireballDamage), b.kills + StrikeKills(b.slimes, box, FireballDamage))
  {
    BarragedMarksOnly(fs, ss, n);
    var b := Barraged(fs, ss, n);
    assert b.projectiles[n].Box() == fs[n].Box();
  }

  /// The fireballs pass changes a fireball only in its mark.
  lemma {:induction false} BarragedMarksOnly(fs: seq<FireballState>, ss: seq<SlimeState>, n: nat)
    requires n <= |fs|
    ensures var r := Barraged(fs, ss, n);
      forall i :: 0 <= i < |fs| ==> r.projectiles[i] == fs[i].(markedForDeletion := r.projectiles[i].markedForDeletion)
  {
    if n > 0 {
      BarragedMarksOnly(fs, ss, n - 1);
      var b := Barraged(fs, ss, n - 1);
      var r := Barraged(fs, ss, n);
      if HitsAny(fs[n - 1].Box(), b.slimes) {
        assert r.projectiles == b.projectiles[n - 1 := b.projectiles[n - 1].(markedForDeletion := true)];
      } else {
        assert r.projectiles == b.projectiles;
      }
    }
  }

  /// The fireballs pass changes a slime only in its health and mark.
  lemma {:induction false} BarragedWoundsOnly(fs: seq<FireballState>, ss: seq<SlimeState>, n: nat)
    requires n <= |fs|
    ensures var r := Barraged(fs, ss, n);
      forall j :: 0 <= j < |ss| ==> Wounded(ss[j], r.slimes[j])
  {
    if n > 0 {
      BarragedWoundsOnly(fs, ss, n - 1);
      var b := Barraged(fs, ss, n - 1);
      var r := Barraged(fs, ss, n);
      assert r.slimes == Strike(b.slimes, fs[n - 1].Box(), FireballDamage);
      forall j | 0 <= j < |ss|
        ensures Wounded(ss[j], r.slimes[j])
      {
        assert Wounded(b.slimes[j], r.slimes[j]);
      }
    }
  }

  /// The fireballs pass changes the slimes and fireballs only in health and
  /// marks, so their animations stay consistent.
  lemma BarrageKeepsValid(w: World, p: PlayerState)
    requires WorldValid(w) && PlayerStateValid(p)
    ensures var b := Barraged(w.stage.projectiles, w.stage.slimes, |w.stage.projectiles|);
      WorldValid(w.(player := Some(p), stage := w.stage.(projectiles := b.projectiles, slimes := b.slimes)))
  {
    var b := Barraged(w.stage.projectiles, w.stage.slimes, |w.stage.projectiles|);
    BarragedMarksOnly(w.stage.projectiles, w.stage.slimes, |w.stage.projectiles|);
    BarragedWoundsOnly(w.stage.projectiles, w.stage.slimes, |w.stage.projectiles|);
    assert forall j :: 0 <= j < |b.slimes| ==> b.slimes[j].anim == w.stage.slimes[j].anim;
    assert forall i :: 0 <= i < |b.projectiles| ==> b.projectiles[i].anim == w.stage.projectiles[i].anim;
  }

  /// handleCollisions: landing, contact damage, interactables, fireballs.
  function Collided(v: Variant, levels: seq<seq<string>>, w: World, now: real, hop: (nat, nat) -> real): (r: World)
    requires WorldValid(w) && w.player.Some?
    ensures WorldValid(r) && r.player.Some?
    ensures r.session.currentLevel == w.session.currentLevel || r.session.currentLevel < |levels|
    ensures EndsOnlyByWinning(w.session, r.session)
  {
    var landed := LandingPass(w);
    var touched := landed.(player := Some(Contacted(v, landed.player.value, landed.stage.slimes)));
    var t := TouchedFrom(v, levels, Touching(touched, false), touched.stage.items, 0, now, hop).w;
    var b := Barraged(t.stage.projectiles, t.stage.slimes, |t.stage.projectiles|);
    PlayerStepsKeepValid(v, t.player.value, 0.0, 0.0, 0.0, b.kills);
    BarrageKeepsValid(t, Killed(t.player.value, b.kills));
    t.(player := Some(Killed(t.player.value, b.kills)), stage := t.stage.(projectiles := b.projectiles, slimes := b.slimes))
  }

  // ------------------------------------------------- camera, filters, fall

  /// updateCamera, with the level's width taken from its first row.
  function CameraUpdated(levels: seq<seq<string>>, w: World): (r: World)
    requires w.player.Some? && w.session.currentLevel < |levels| && |levels[w.session.currentLevel]| > 0
    ensures r.player == w.player && r.stage == w.stage && r.session == w.session && r.trails == w.trails
    ensures ViewWidth <= |levels[w.session.currentLevel][0]| as real * TileSize ==>
      0.0 <= r.cameraX <= |levels[w.session.currentLevel][0]| as real * TileSize - ViewWidth
  {
    var width := |levels[w.session.currentLevel][0]| as real * TileSize;
    var c := Followed(w.cameraX, w.player.value.motion.x, ViewWidth, width);
    assert ViewWidth <= width ==> 0.0 <= c <= width - ViewWidth by {
      if ViewWidth <= width { FollowedBounds(w.cameraX, w.player.value.motion.x, ViewWidth, width); }
    }
    w.(cameraX := Followed(w.cameraX, w.player.value.motion.x, ViewWidth, width))
  }

  function SlimeMarked(s: SlimeState): bool { s.markedForDeletion }
  function ItemMarked(it: ItemState): bool { it.markedForDeletion }
  function FireballMarked(f: FireballState): bool { f.markedForDeletion }

  /// The deferred removal: the three filters after the collision pass.
  function Swept(w: World): (r: World)
    requires WorldValid(w)
    ensures WorldValid(r) && r.player == w.player && r.session == w.session && r.cameraX == w.cameraX
    ensures forall i :: 0 <= i < |r.stage.slimes| ==> !r.stage.slimes[i].markedForDeletion
    ensures forall i :: 0 <= i < |r.stage.items| ==> !r.stage.items[i].markedForDeletion
    ensures forall i :: 0 <= i < |r.stage.projectiles| ==> !r.stage.projectiles[i].markedForDeletion
    ensures r.trails == w.trails && r.stage.platforms == w.stage.platforms
    ensures forall x :: x in r.stage.slimes <==> x in w.stage.slimes && !x.markedForDeletion
    ensures forall x :: x in r.stage.items <==> x in w.stage.items && !x.markedForDeletion
    ensures forall x :: x in r.stage.projectiles <==> x in w.stage.projectiles && !x.markedForDeletion
  {
    var s := w.stage;
    KeepUnmarked(s.slimes, SlimeMarked);
    KeepUnmarked(s.items, ItemMarked);
    KeepUnmarked(s.projectiles, FireballMarked);
    KeepAll(s.slimes, Marks(s.slimes, SlimeMarked), (x: SlimeState) => Consistent(x.anim) && !x.markedForDeletion);
    KeepAll(s.items, Marks(s.items, ItemMarked), (x: ItemState) => Consistent(x.anim) && !x.markedForDeletion);
    KeepAll(s.projectiles, Marks(s.projectiles, FireballMarked), (x: FireballState) => Consistent(x.anim) && !x.markedForDeletion);
    w.(stage := s.(slimes := Keep(s.slimes, Marks(s.slimes, SlimeMarked)),
                   projectiles := Keep(s.projectiles, Marks(s.projectiles, FireballMarked)),
                   items := Keep(s.items, Marks(s.items, ItemMarked))))
  }

  predicate FellOut(p: PlayerState) { p.motion.y > ViewHeight + FallMargin }

  /// A player below the view dies; only JogoLLMA ends the game for it.
  function Fell(v: Variant, w: World): (r: World)
    requires WorldValid(w) && w.player.Some?
    ensures WorldValid(r) && r.player.Some? && r.stage == w.stage && r.cameraX == w.cameraX
    ensures r.session == w.session.(gameOver := r.session.gameOver)
    ensures FellOut(r.player.value) <==> FellOut(w.player.value)
    ensures FellOut(w.player.value) ==> r.player.value.vitals.isDead && (v == JogoLLMA ==> r.session.gameOver)
    ensures !FellOut(w.player.value) ==> r == w
    ensures v == AtividadeJogoLLM ==> r.session == w.session
  {
    var p := w.player.value;
    PlayerStepsKeepValid(v, p, 0.0, 0.0, 0.0, 0);
    if FellOut(p) then w.(player := Some(Died(p)), session := w.session.(gameOver := w.session.gameOver || v == JogoLLMA))
    else w
  }

  // ------------------------------------------------------------ Game.update

  /// AtividadeJogoLLM's guard at the top of update: a game won while the
  /// player is alive does nothing any more.
  predicate Frozen(v: Variant, w: World)
    requires w.player.Some?
  {
    v == AtividadeJogoLLM && w.session.gameOver && !w.player.value.vitals.isDead
  }

  /// The width in pixels of the current level's first row.
  function LevelWidth(levels: seq<seq<string>>, w: World): real
    requires w.session.currentLevel < |levels| && |levels[w.session.currentLevel]| > 0
  {
    |levels[w.session.currentLevel][0]| as real * TileSize
  }

  /// The camera shows only the level, when the level is at least as wide as
  /// the view.
  ghost predicate CameraInLevel(levels: seq<seq<string>>, w: World)
  {
    w.session.currentLevel < |levels| && |levels[w.session.currentLevel]| > 0 &&
    (ViewWidth <= LevelWidth(levels, w) ==> 0.0 <= w.cameraX <= LevelWidth(levels, w) - ViewWidth)
  }

  /// The end of Game.update: the camera follows, the marked entities are
  /// removed and a player below the view dies.
  function Finished(v: Variant, levels: seq<seq<string>>, w: World): (r: World)
    requires Ready(levels, w)
    ensures Ready(levels, r) && r.session == w.session.(gameOver := r.session.gameOver)
    ensures r.session.gameOver && !w.session.gameOver ==> v == JogoLLMA
    ensures CameraInLevel(levels, r)
  {
    Fell(v, Swept(CameraUpdated(levels, w)))
  }

  /// The part of Game.update after the slimes' turn, for a living player:
  /// interactables and fireballs, collisions, then the end.
  function Resolved(v: Variant, levels: seq<seq<string>>, w: World, io: Inputs): (r: World)
    requires Ready(levels, w)
    ensures Ready(levels, r) && Progressed(v, w.session, r.session)
  {
    Finished(v, levels, Collided(v, levels, EntitiesAdvanced(v, w, io.dt), io.now, io.hop))
  }

  /// Game.update(dt). Both games fade the trail and run the player first; a
  /// dead player stops JogoLLMA there (which only checks for a fall) and stops
  /// AtividadeJogoLLM after the slimes have moved. Otherwise the interactables
  /// and fireballs update, collisions are resolved, the camera follows, the
  /// marked entities are removed and a player below the view dies.
  function Frame(v: Variant, levels: seq<seq<string>>, w: World, io: Inputs): (r: World)
    requires Ready(levels, w) && io.pick < |AttackNames|
    ensures Ready(levels, r) && Progressed(v, w.session, r.session)
  {
    if Frozen(v, w) then w
    else Continued(v, levels, PlayerTurn(v, w.(trails := Faded(w.trails, io.dt)), io.keys, io.dt, io.now, io.pick), io)
  }

  /// Game.update after the player's turn: a dead player stops JogoLLMA at
  /// once (it only checks for a fall) and AtividadeJogoLLM after the slimes
  /// have moved.
  function Continued(v: Variant, levels: seq<seq<string>>, turned: World, io: Inputs): (r: World)
    requires Ready(levels, turned)
    ensures Ready(levels, r) && Progressed(v, turned.session, r.session)
  {
    if v == JogoLLMA && turned.player.value.vitals.isDead then
      turned.(session := turned.session.(gameOver := turned.session.gameOver || FellOut(turned.player.value)))
    else
      var moved := SlimesAdvanced(TrailLeft(turned, io.trailRoll), io.dt, io.next);
      if v == AtividadeJogoLLM && moved.player.value.vitals.isDead then moved
      else Resolved(v, levels, moved, io)
  }

  // --------------------------------------------------------- the session

  /// What holds between frames. Both games keep victory within gameOver. In
  /// AtividadeJogoLLM the level is loaded from the start and only winning ends
  /// the game; in JogoLLMA a PLAYING screen has a loaded level and a game that
  /// is still on.
  ghost predicate GameValid(v: Variant, levels: seq<seq<string>>, w: World)
  {
    HasLevels(levels) && WorldValid(w) && (w.session.victory ==> w.session.gameOver) &&
    (v == AtividadeJogoLLM ==> w.session.screen == Playing && Ready(levels, w) &&
                               (w.session.gameOver ==> w.session.victory)) &&
    (v == JogoLLMA && w.session.screen == Playing ==> Ready(levels, w) && !w.session.gameOver)
  }

  /// The game as its constructor leaves it: JogoLLMA waits on the menu with
  /// nothing loaded; AtividadeJogoLLM loads the first level at once.
  function Started(v: Variant, levels: seq<seq<string>>, hop: (nat, nat) -> real): (r: World)
    requires HasLevels(levels)
    ensures GameValid(v, levels, r) && r.session.currentLevel == 0 && !r.session.gameOver
    ensures v == JogoLLMA ==> r.session.screen == Menu && r.player.None?
  {
    var blank := World(None, Stage([], [], [], []), [], 0.0, Session(0, false, false, Menu));
    if v == JogoLLMA then blank
    else
      LoadedLevelValid(v, levels, blank, 0, hop);
      LoadedLevel(v, levels, blank.(session := blank.session.(screen := Playing)), 0, hop)
  }

  /// resetGame: both flags cleared, level 0 loaded, PLAYING.
  function Restarted(v: Variant, levels: seq<seq<string>>, w: World, hop: (nat, nat) -> real): (r: World)
    requires HasLevels(levels) && WorldValid(w)
    ensures Ready(levels, r) && r.session == Session(0, false, false, Playing)
  {
    var cleared := w.(session := Session(0, false, false, Playing));
    LoadedLevelValid(v, levels, cleared, 0, hop);
    LoadedLevel(v, levels, cleared, 0, hop)
  }

  /// One call of the animate loop. JogoLLMA: only PLAYING updates, and a frame
  /// that ends with gameOver or victory moves to the matching end screen.
  /// AtividadeJogoLLM: the loop is no longer scheduled once gameOver is set,
  /// so nothing happens after that.
  function Tick(v: Variant, levels: seq<seq<string>>, w: World, io: Inputs): (r: World)
    requires GameValid(v, levels, w) && io.pick < |AttackNames|
    ensures GameValid(v, levels, r)
  {
    if v == AtividadeJogoLLM then
      if w.session.gameOver then w else Frame(v, levels, w, io)
    else if w.session.screen == Playing then
      var u := Frame(v, levels, w, io);
      if u.session.gameOver || u.session.victory then
        u.(session := u.session.(screen := if u.session.victory then VictoryScreen else GameOverScreen))
      else u
    else w
  }

  /// handleInteraction (a click or Enter, JogoLLMA only): from the menu or an
  /// end screen the game is reset; while playing nothing happens.
  function Interaction(levels: seq<seq<string>>, w: World, hop: (nat, nat) -> real): (r: World)
    requires GameValid(JogoLLMA, levels, w)
    ensures GameValid(JogoLLMA, levels, r)
  {
    if w.session.screen == Playing then w else Restarted(JogoLLMA, levels, w, hop)
  }
}
