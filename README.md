# A verified model of the JogoLLMA and AtividadeJogoLLM platformer cores

JogoLLMA and AtividadeJogoLLM are two near-identical single-file canvas
platformers (`JogoLLMA/main.js` and `AtividadeJogoLLM/main.js`). Beneath the
drawing code, each runs the same per-frame simulation:

- a player that walks, runs, jumps and attacks, takes damage with a period of
  invincibility, heals, and picks up a timed boost;
- slimes that hop towards the player;
- blue fireballs bought with kills;
- spikes, water, apples, stars and the level-ending flag;
- one-way platforms;
- a camera with a dead zone;
- a loader that turns the ASCII level maps into entities;
- the session loop. JogoLLMA has a MENU, PLAYING, GAME_OVER and VICTORY
  screen; AtividadeJogoLLM stops its loop at game over.

This project models that simulation in Dafny and proves what it does.

- Both games share one model. A `Variant` (`JogoLLMA | AtividadeJogoLLM`)
  selects the behaviour wherever the two files differ.
- The stateful objects are classes whose methods update their fields in
  place:
  - `AnimationController`, `Player`, `Slime`, `BlueFireball` (here
    `Fireball`), the interactable tiles (here `Item`), `TrailRenderer`,
    `ParticleSystem` and `Game`;
  - every method is proved against a function of the same step over the
    object's state as a value;
  - the properties are proved about those functions as lemmas.

Modules:

- `Geometry`: `checkAABBCollision` and `isOnScreen`.
- `Camera`: `updateCamera`'s follow-and-clamp arithmetic.
- `Common`: the `filter(e => !e.markedForDeletion)` idiom.
- `Animation`: the AnimationController state machine.
- `Effects`: `TrailRenderer` and the `Particle`/`ParticleSystem` pool.
- `Entities`:
  - platforms and the one-way landing rule;
  - `Slime`, `BlueFireball` and the interactables, including `Flag`.
- `PlayerModel`: the player.
- `Levels`:
  - the three maps of each game, written as runs of equal tiles;
  - `loadLevel`'s scan of them.
- `Simulation`: the game as a value and each step of `Game.update` as a function:
  - `handleCollisions`, `handlePlayerAttack`, `createFireball`,
    `updateCamera`, `loadLevel` and `resetGame`;
  - the `animate` switch and `handleInput`'s game-side effects;
  - `handleInteraction`.
- `GameModel`: the `Game` class, proved step by step against `Simulation`.
- `GameRules`: properties of whole frames and of the session.

Inputs that the source reads from the browser are parameters:

- the held keys;
- the elapsed time `dt`;
- one clock value `now` per frame, which stands for every
  `performance.now()` read;
- the random attack choice (`pick`);
- the trail's 40% draw (`trailRoll`);
- the next hop wait of each slime (`next`);
- the first hop wait of a slime created from a map tile (`hop`, by row and
  column).

### Behaviour as written

The model follows the code where it departs from the games' own comments and
from what the code itself shows was meant. Each of these points is proved.

- **The end callback repeats.** `AnimationController.update` calls
  `onAnimationEnd` again on every further interval while a non-looping
  animation holds its last frame (`Animation.EndReportedOnEveryInterval`).
  The comment at `JogoLLMA/main.js:483` says it fires once.
- **The dead animation never ends.** `updateAnimationState` has no branch for
  a dead player, so `die()`'s "dead" animation is replaced on the next update
  and its end is never reported (`PlayerModel.DeadEndNeverReported`). Yet
  JogoLLMA's `onAnimationEnd` sets `game.gameOver` when "dead" ends
  (`JogoLLMA/main.js:897-900`), so its completion was meant to end the session.
  - JogoLLMA ends the game on a death only through a fall.
  - AtividadeJogoLLM never sets `gameOver` on a death.
- **AtividadeJogoLLM's running attack never ends.** `"runAttack".includes("attack")`
  is false. AtividadeJogoLLM has no fallback timeout, so a running attack
  restarts every frame and blocks all input for ever
  (`PlayerModel.RunningAttackNeverEnds`). JogoLLMA has such a timeout: its
  `attackEndTime` fallback clears an attack whose end was missed
  (`JogoLLMA/main.js:649-654`).
- **Damage does not cancel attacks in AtividadeJogoLLM.** Its `takeDamage`
  does not cancel an attack under way (`PlayerModel.DamageEffectsAtividade`).
  JogoLLMA's `takeDamage` does cancel one (`JogoLLMA/main.js:831-838`).
- **A fall does not end AtividadeJogoLLM.** A fall kills the player but does
  not end the game (`GameRules.AtividadeEndsOnlyByWinning`). The guard at the
  top of its `update` can never fire (`GameRules.AtividadeGuardUnreachable`).
- **A narrow level pins the camera left of 0.** The upper clamp is applied
  last, so a level narrower than the view pins the camera at
  `levelWidth - width`, below 0 (`Camera.NarrowLevelPinsCamera`). The first
  row of every map, the one `updateCamera` reads for the level width, is 106
  tiles wide, so this does not arise in play (`Levels.LevelMapsHaveRows`).
- **Touching a flag reloads the level mid-pass.** The interactables loop goes
  on over the old array, against the player the new level placed, and its
  marks fall on items that are no longer the game's
  (`GameRules.FlagLoadsNextLevel`, `Simulation.TouchedFrom`).
- **A marked slime that is struck again counts as another kill**
  (`GameRules.MarkedSlimeCountsAgain`).
- **loadLevel replaces the player.** A map with a `P` gets a new player, which
  loses its kill count and boost. Only a map without `P` keeps the existing
  player (`GameRules.LoadLevelEffects`).

## Model

| member | source | states |
|---|---|---|
| Geometry.OverlapsSymmetric | JogoLLMA/main.js:81-88 | the overlap test gives the same answer with its arguments swapped |
| Geometry.SharedEdgeIsNoCollision | JogoLLMA/main.js:81-88 | rectangles that only share an edge or a corner do not collide, because all four comparisons are strict |
| Geometry.OverlapsIffCommonInteriorPoint | JogoLLMA/main.js:81-88 | for rectangles of positive size, overlapping means exactly that their interiors share a point |
| Geometry.OnScreenIsOverlapWithWidenedView | JogoLLMA/main.js:98-103 | isOnScreen holds exactly when the entity's horizontal extent overlaps the view widened by the margin on both sides; y is never consulted |
| Camera.StillInsideDeadZone | JogoLLMA/main.js:1634-1648 | a player inside the dead-zone band leaves a camera that is within the level where it is |
| Camera.FollowKeepsPlayerInBand | JogoLLMA/main.js:1636-1641 | after the follow step the player lies inside the dead-zone band of the new view |
| Camera.FollowedBounds | JogoLLMA/main.js:1634-1648 | when the level is at least as wide as the view, the camera ends within [0, levelWidth - width], and whenever it lies strictly inside those bounds the player is inside the dead-zone band of the new view |
| Camera.NarrowLevelPinsCamera | JogoLLMA/main.js:1643-1647 | a level narrower than the view pins the camera at levelWidth - width, because the upper clamp is applied last |
| Common.KeepMembers | JogoLLMA/main.js:1431-1433 | an element survives the filter exactly when it stands at a position whose mark is false |
| Common.KeepDistinct | JogoLLMA/main.js:1431-1433 | filtering a sequence without repetitions gives one without repetitions |
| Common.KeepUnmarked | JogoLLMA/main.js:1431-1433 | filtering by the elements' own deletion flags keeps exactly the elements whose flag is false |
| Common.KeepOrder | JogoLLMA/main.js:1431-1433 | the filter keeps the survivors in their original order: the k-th survivor is the element at the k-th unmarked position, those positions strictly increase, and every unmarked position is kept |
| Common.KeepAll | JogoLLMA/main.js:1431-1433 | whatever holds of every unmarked element holds of every element that survives the filter |
| Animation.Initial | JogoLLMA/main.js:420-426 | a new controller has an empty table, nothing playing, and satisfies both controller invariants |
| Animation.Remainder | JogoLLMA/main.js:474 | JavaScript's `%` on numbers: the remainder lies in [0, m) for a non-negative dividend and in (-m, 0] for a non-positive one |
| Animation.AddKeepsConsistent | JogoLLMA/main.js:436-445 | addAnimation keeps the table consistent and stores the entry with frame interval 1000 / frameRate |
| Animation.PlaySameIsNoOp | JogoLLMA/main.js:452-462 | play of the animation already playing, without force, changes nothing |
| Animation.PlayUnknownIsNoOp | JogoLLMA/main.js:452-462 | play of a name not in the table changes nothing, forced or not |
| Animation.PlaySwitchResets | JogoLLMA/main.js:452-462 | a switch or a forced restart selects the stored definition and resets the frame and the timer to 0 |
| Animation.PlayKeepsInvariants | JogoLLMA/main.js:452-462 | play never changes the table and keeps the frame and the timer within range |
| Animation.StepAdvancesAtMostOneFrame | JogoLLMA/main.js:468-488 | one update leaves the frame where it is, advances it by one, or wraps it to 0, and never changes the table or the current animation |
| Animation.StepKeepsInvariants | JogoLLMA/main.js:468-488 | update keeps the controller consistent |
| Animation.StepKeepsFrameInRange | JogoLLMA/main.js:468-488 | the frame index stays in [0, frameCount) when the animation has at least one frame |
| Animation.StepKeepsTimerInRange | JogoLLMA/main.js:468-488 | for dt >= 0 the accumulated time stays in [0, frameInterval] |
| Animation.LoopWraps | JogoLLMA/main.js:476-480 | past the last frame a looping animation wraps to frame 0 and reports nothing |
| Animation.LastFrameHeldAndReported | JogoLLMA/main.js:476-486 | a non-looping animation keeps its last frame and reports its end, with its own name |
| Animation.EndReportedOnlyFromLastFrame | JogoLLMA/main.js:468-488 | an end is reported only from the held last frame of a non-looping animation, and always with that animation's name |
| Animation.EndReportedOnEveryInterval | JogoLLMA/main.js:478-486 | over any run of updates each longer than the interval, the held last frame reports its end on every one of them |
| Animation.AnimationController.constructor | JogoLLMA/main.js:420-426 | the new controller is valid and in the initial state |
| Animation.AnimationController.AddAnimation | JogoLLMA/main.js:436-445 | the new state is the old one with the definition stored under its name |
| Animation.AnimationController.Play | JogoLLMA/main.js:452-462 | the new state is the one play's rule gives |
| Animation.AnimationController.Update | JogoLLMA/main.js:468-488 | the new state and the name handed to onAnimationEnd are the ones update's rule gives |
| Effects.FadedProperties | JogoLLMA/main.js:309-316 | after a trail update no trail is longer than before, every remaining trail has opacity above 0, and each one is a faded copy of an old one |
| Effects.FadedKeepsAllWhenNoTimePasses | JogoLLMA/main.js:309-316 | with no time elapsed, no trail disappears |
| Effects.TrailRenderer.constructor | JogoLLMA/main.js:281-284 | the renderer starts empty with the given capacity |
| Effects.WithTrail | JogoLLMA/main.js:290-303 | appending to the trail list keeps the newest old entries in order followed by the new trail, drops exactly one entry when the capacity is exceeded, and never exceeds the capacity |
| Effects.TrailRenderer.AddTrail | JogoLLMA/main.js:290-303 | the new list is `Effects.WithTrail` of the old one and a fully opaque trail with the entity's box and facing |
| Effects.TrailRenderer.Update | JogoLLMA/main.js:309-316 | the backwards splice loop computes the fade function: the survivors keep their order, and all have opacity above 0 |
| Effects.FirstInactive | JogoLLMA/main.js:193 | find returns the lowest index of an unused particle, or nothing when every particle is in use |
| Effects.Emitted | JogoLLMA/main.js:184-205 | emit never changes the pool's size; what it writes is stated by `Effects.EmitKeepsActive` and `Effects.EmitSpawns` |
| Effects.EmitKeepsActive | JogoLLMA/main.js:192-194 | emit never touches a particle that is in use, since `find` only picks unused ones |
| Effects.EmitSpawns | JogoLLMA/main.js:129-136 | after emit every particle is unchanged, or was unused and now holds a spawn at (x, y) with one of the drawn velocities, life = maxLife = life, the colour, the size and active set |
| Effects.ActivatingAddsOne | JogoLLMA/main.js:129-136 | spawning into an unused slot adds exactly one active particle |
| Effects.EmitActivates | JogoLLMA/main.js:184-205 | emitting n particles activates exactly min(n, free slots), and a full pool drops the rest |
| Effects.AgingNeverActivates | JogoLLMA/main.js:142-149 | a particle update never brings a particle back into use |
| Effects.ParticleSystem.constructor | JogoLLMA/main.js:170-175 | the pool holds poolSize particles, none of them in use |
| Effects.ParticleSystem.FindInactive | JogoLLMA/main.js:193 | the linear scan returns the first unused particle |
| Effects.ParticleSystem.Emit | JogoLLMA/main.js:184-205 | the pool after the loop is the emit function of the old pool |
| Effects.ParticleSystem.Update | JogoLLMA/main.js:211-213 | every particle is aged in place, and the number in use does not grow |
| Entities.SettleTouchesOnlyVertical | JogoLLMA/main.js:1450-1459 | the landing pass writes only y, vy and onGround, and never clears onGround |
| Entities.LandedGroundedIffSnapped | JogoLLMA/main.js:1447-1460 | after the pass an entity is grounded exactly when a platform snapped it, and then it has stopped falling with its bottom on that platform's top; otherwise only the cleared flag changed |
| Entities.RisingPassesThrough | JogoLLMA/main.js:1453 | an entity moving upwards passes through every platform |
| Entities.NoContactNoChange | JogoLLMA/main.js:1451 | an entity overlapping no platform is left where it is |
| Entities.SlimeOnGroundStep | AtividadeJogoLLM/main.js:657-673 | the on-ground part of a slime's update keeps its animation consistent |
| Entities.SlimeAnimated | AtividadeJogoLLM/main.js:675-678 | the slime's animation step keeps its animation consistent |
| Entities.SlimeStepKeepsValid | JogoLLMA/main.js:942-972 | a slime's update keeps it valid |
| Entities.SlimeOnGround | AtividadeJogoLLM/main.js:657-673 | on the ground a slime stays grounded, its horizontal speed drops to 0 and its timer grows by dt; once the timer passes the interval it hops with vertical speed -10 and the slime's speed towards the player, the timer back at 0 and the fresh wait |
| Entities.SlimeInAir | JogoLLMA/main.js:942-972 | in the air a slime keeps its horizontal speed and its timer, and falls |
| Entities.HopHeadsTowardsPlayer | JogoLLMA/main.js:959 | a hop heads towards the player, or left when level with it |
| Entities.SlimeDamageMarks | AtividadeJogoLLM/main.js:688-691 | damage lowers health by the amount and marks the slime exactly when health reaches 0 or less, and a mark is never undone |
| Entities.SlimeDamagedRepeatedly | JogoLLMA/main.js:989-992 | after a list of hits, health is the old health minus their sum, and the slime is marked exactly when it was marked already or that health is 0 or less |
| Entities.Slime.constructor | JogoLLMA/main.js:913-935 | a new slime rests on the ground with full health, idle, waiting its first interval |
| Entities.Slime.Update | JogoLLMA/main.js:942-972 | the new state is the slime update rule applied to the old one |
| Entities.Slime.GroundStep | JogoLLMA/main.js:947-967 | the new state is the on-ground rule applied to the old one |
| Entities.Slime.TakeDamage | JogoLLMA/main.js:989-992 | the new state is the damage rule applied to the old one |
| Entities.Slime.Land | JogoLLMA/main.js:1447-1460 | the slime's position, fall and ground flag are the landing pass's result |
| Entities.FireballFliesAndLeaves | JogoLLMA/main.js:1154-1161 | a fireball moves 12 px per update in its direction and is marked exactly when it leaves [cameraX - 100, cameraX + width], or was marked already |
| Entities.Fireball.constructor | JogoLLMA/main.js:1133-1147 | a new fireball is unmarked, at the given place and direction |
| Entities.Fireball.Update | JogoLLMA/main.js:1154-1161 | the new state is the fireball update rule applied to the old one |
| Entities.Item.constructor | AtividadeJogoLLM/main.js:711-757 | a new tile is unmarked, and only an AtividadeJogoLLM flag plays an animation |
| Entities.Item.Update | JogoLLMA/main.js:1090-1093 | only a flag changes: JogoLLMA's counts time, AtividadeJogoLLM's steps its wave animation |
| Levels.LevelMapsHaveRows | JogoLLMA/main.js:1184-1223 | each game has three levels, every map has rows, and every first row is 106 tiles wide |
| Levels.ScanPlacesEveryTile | AtividadeJogoLLM/main.js:923-954 | the scan yields a platform for every digit 1-5, a slime for every E and an interactable for every S, W, A, * and F, each at (column * 64, row * 64) and nothing else, and a player position exactly when the map has a P |
| PlayerModel.AttackNamesContainAttack | JogoLLMA/main.js:765-771 | the three standing attacks' names are recognised as attacks by `includes("attack")` |
| PlayerModel.RunAttackLacksAttack | AtividadeJogoLLM/main.js:525-536 | "runAttack" does not include "attack", because `includes` is case-sensitive |
| PlayerModel.PlayerTableNames | JogoLLMA/main.js:598-608 | the table setupAnimations builds holds every name the player plays, and is consistent |
| PlayerModel.NewPlayer | JogoLLMA/main.js:555-593 | a new player is valid |
| PlayerModel.HandledInput | JogoLLMA/main.js:663-754 | handleInput never touches the animation |
| PlayerModel.ChosenAnimation | JogoLLMA/main.js:761-803 | updateAnimationState keeps the table and the controller consistent |
| PlayerModel.Animated | JogoLLMA/main.js:885-901 | the animation step and its callback change neither motion, boost nor health, and only JogoLLMA's end of "dead" asks to end the game |
| PlayerModel.Updated | JogoLLMA/main.js:616-655 | the rest of the player's update keeps it valid, and only JogoLLMA's end of "dead" asks to end the game |
| PlayerModel.Died | JogoLLMA/main.js:856-860 | after die the player is dead and a second call changes nothing; a first call changes only isDead and starts the "dead" animation from frame 0 with a zero timer, leaving motion, gait, combat, boost, health and the animation table as they were |
| PlayerModel.DamageIgnoredWhenInvincibleOrDead | JogoLLMA/main.js:828-830 | damage while invincible or dead changes nothing |
| PlayerModel.DamageEffectsJogoLLMA | JogoLLMA/main.js:828-851 | JogoLLMA's damage cancels an attack under way and its deadline and forces "hurt", stops the player, gives 1500 ms of invincibility, lowers health but not below 0, and kills (forcing "dead") exactly when health reaches 0; position, gait, boost, last attack time and kill count are kept |
| PlayerModel.DamageIdempotent | JogoLLMA/main.js:828-851 | a second blow right after a first is ignored, because damage leaves the player invincible or dead, and damage never moves the player's box |
| PlayerModel.DamageEffectsAtividade | AtividadeJogoLLM/main.js:584-599 | AtividadeJogoLLM's damage follows the same health and invincibility rule and plays "dead" only on a kill; combat, motion, gait, boost and otherwise the animation are kept |
| PlayerModel.HealthStaysInRange | JogoLLMA/main.js:866-868 | damage, healing by a non-negative amount and the boost keep health within [0, maxHealth] |
| PlayerModel.OnlyDamageAndHealingChangeHealth | JogoLLMA/main.js:616-655 | input, the special attack, the end of an animation and the rest of the update leave health as it was |
| PlayerModel.AttackStartsIff | JogoLLMA/main.js:727-749 | an attack starts exactly when its key is pressed, no attack is under way and more than 500 ms have passed; starting it stops the player, stamps the time and, in JogoLLMA, sets the deadline 1000 ms on |
| PlayerModel.InputBlockedWhileAttacking | AtividadeJogoLLM/main.js:456-459 | while attacking, AtividadeJogoLLM's handleInput only stops the player |
| PlayerModel.RunAttackSteers | JogoLLMA/main.js:674-694 | during JogoLLMA's running attack the held direction keeps the run speed and sets the facing; any other attack stops the player |
| PlayerModel.JumpNeedsGround | JogoLLMA/main.js:721-724 | input changes the vertical speed only by a jump from the ground, which sets it to -18 and leaves the ground |
| PlayerModel.WalkTurnsIntoRun | JogoLLMA/main.js:696-719 | walking becomes running once the key has been held for more than the threshold, the speed follows and is signed by the direction, and with no direction held the player stops and the release time is recorded |
| PlayerModel.GravityExact | JogoLLMA/main.js:622-627 | each update moves by the boosted horizontal speed and adds exactly GRAVITY to the vertical speed before moving by it |
| PlayerModel.TimersRunOut | JogoLLMA/main.js:629-643 | invincibility counts down by dt and ends at 0, and an expired boost restores the normal multipliers |
| PlayerModel.ChosenAnimationByPriority | JogoLLMA/main.js:761-803 | the animation left playing follows the priority attack, hurt, jump, run, walk, and a dead player is never left on "dead" |
| PlayerModel.DeadEndNeverReported | JogoLLMA/main.js:646-647 | the end of "dead" is never reported from an update, so it never asks to end the game |
| PlayerModel.FallbackEndsAttack | JogoLLMA/main.js:649-654 | in JogoLLMA an attack still under way once the clock passes its deadline is over after the update |
| PlayerModel.AttackEndsOnlyByAnimation | AtividadeJogoLLM/main.js:419-451 | in AtividadeJogoLLM an update ends an attack only through the end of an animation whose name includes "attack" |
| PlayerModel.PlayerFrame | AtividadeJogoLLM/main.js:419-451 | one frame of input and update keeps the player valid |
| PlayerModel.RunningAttackRestarts | AtividadeJogoLLM/main.js:525-536 | a player caught in a running attack is still caught after one frame, with "runAttack" playing |
| PlayerModel.RunAttackRestarted | AtividadeJogoLLM/main.js:525-536 | updateAnimationState restarts "runAttack" from its first frame when it is not recognised as an attack |
| PlayerModel.RunningAttackNeverEnds | AtividadeJogoLLM/main.js:525-536 | whatever keys are held and however much time passes, a player caught in a running attack stays in it, still attacking and with all input blocked |
| PlayerModel.Player.constructor | JogoLLMA/main.js:555-593 | a new player object is valid and in the new-player state |
| PlayerModel.Player.SetupAnimations | JogoLLMA/main.js:598-608 | the animator then holds exactly the player's table |
| PlayerModel.Player.HandleInput | JogoLLMA/main.js:663-749 | the new state and the outcome reported to the game are those of the input rule |
| PlayerModel.Player.Steer | JogoLLMA/main.js:696-719 | the new state is the facing and walking rule applied to the old one |
| PlayerModel.Player.UseSpecial | JogoLLMA/main.js:750-753 | it fires exactly when 'v' is held with at least five kills, and then spends them |
| PlayerModel.Player.UpdateAnimationState | JogoLLMA/main.js:761-803 | only the animation changes, to the one the priority rule chooses |
| PlayerModel.Player.OnAnimationEnd | JogoLLMA/main.js:885-901 | the new state and the request to end the game are those of the callback rule |
| PlayerModel.Player.Update | JogoLLMA/main.js:616-655 | the new state and what the animator reported are those of the update rule |
| PlayerModel.Player.Move | JogoLLMA/main.js:622-643 | the new state is the movement and timer rule applied to the old one |
| PlayerModel.Player.Animate | JogoLLMA/main.js:646-647 | the new state and the callback's outcome are those of the animation step |
| PlayerModel.Player.Die | JogoLLMA/main.js:856-860 | the new state is die's rule applied to the old one |
| PlayerModel.Player.TakeDamage | JogoLLMA/main.js:828-851 | the new state is the variant's damage rule applied to the old one |
| PlayerModel.Player.CountKill | JogoLLMA/main.js:1530 | the kill count grows by one and nothing else changes |
| PlayerModel.Player.Heal | JogoLLMA/main.js:866-868 | the new state is the healing rule applied to the old one |
| PlayerModel.Player.ApplyBoost | JogoLLMA/main.js:874-879 | the new state is the boost rule applied to the old one |
| PlayerModel.Player.Land | JogoLLMA/main.js:1447-1460 | the player's position, fall and ground flag are the landing pass's result |
| Simulation.FreshEntitiesConsistent | JogoLLMA/main.js:1304-1345 | newly created slimes, interactables and fireballs start with consistent animations |
| Simulation.PlayerStepsKeepValid | JogoLLMA/main.js:828-879 | damage, death, kills, healing and the boost keep the player valid |
| Simulation.LoadedLevelValid | JogoLLMA/main.js:1295-1347 | loadLevel keeps the game valid |
| Simulation.Hit | JogoLLMA/main.js:1541-1585 | a blow changes a slime in its health and mark only |
| Simulation.Strike | JogoLLMA/main.js:1541-1585 | striking the slimes keeps their number and strikes each one on its own |
| Simulation.AttackResolved | AtividadeJogoLLM/main.js:1085-1126 | handlePlayerAttack keeps the game valid |
| Simulation.Special | JogoLLMA/main.js:750-753 | the special attack keeps the game valid |
| Simulation.Acted | JogoLLMA/main.js:663-754 | handleInput leaves the trail, the camera and the session alone |
| Simulation.PlayerTurn | JogoLLMA/main.js:616-655 | the player's turn leaves trail and camera alone and changes only gameOver, which only JogoLLMA sets |
| Simulation.TrailLeft | JogoLLMA/main.js:1416-1418 | leaving a trail changes nothing but the trail |
| Simulation.SlimeTick | JogoLLMA/main.js:1419-1423 | a slime's turn keeps its animation consistent |
| Simulation.SlimesAdvanced | JogoLLMA/main.js:1419-1423 | the slimes' turn changes only the slimes and keeps their number; player, platforms, interactables, fireballs, trails, camera and session are unchanged |
| Simulation.EntitiesAdvanced | JogoLLMA/main.js:1425-1426 | the interactables' and fireballs' updates leave player, platforms, slimes, trails, camera and session unchanged |
| Simulation.LandingPass | JogoLLMA/main.js:1445-1460 | the landing pass changes only the player and the slimes and keeps their number; platforms, interactables, fireballs, trails, camera and session are unchanged |
| Simulation.Contacted | JogoLLMA/main.js:1463-1474 | the contact pass keeps the player valid |
| Simulation.Touched | JogoLLMA/main.js:1477-1513 | one interactable keeps the game valid, moves the level only to an existing one, and ends the game only by winning |
| Simulation.TouchedFrom | JogoLLMA/main.js:1477-1513 | the whole interactables pass keeps the game valid, moves the level only to an existing one, and ends the game only by winning |
| Simulation.BarragedMarksOnly | JogoLLMA/main.js:1516-1534 | the fireballs pass changes a fireball only in its mark |
| Simulation.BarragedWoundsOnly | JogoLLMA/main.js:1516-1534 | the fireballs pass changes a slime only in its health and mark |
| Simulation.BarrageKeepsValid | JogoLLMA/main.js:1516-1534 | the fireballs pass keeps slimes and fireballs valid |
| Simulation.Collided | JogoLLMA/main.js:1444-1535 | handleCollisions keeps the game valid, moves the level only to an existing one, and ends the game only by winning |
| Simulation.CameraUpdated | JogoLLMA/main.js:1634-1648 | updateCamera changes only the camera, and keeps it within the level when the level is at least as wide as the view |
| Simulation.Swept | JogoLLMA/main.js:1431-1433 | a slime, interactable or fireball is present after the filters exactly when it was present before and was not marked; platforms, trails, player, camera and session are unchanged |
| Simulation.Fell | JogoLLMA/main.js:1435-1438 | a player below the view dies, and only JogoLLMA sets gameOver; a player above it changes nothing |
| Simulation.Finished | JogoLLMA/main.js:1429-1438 | the end of the frame keeps the game ready, keeps the camera in the level, and only JogoLLMA sets gameOver |
| Simulation.Resolved | JogoLLMA/main.js:1425-1438 | the rest of a living player's frame keeps the game ready and the session flags monotone |
| Simulation.Frame | JogoLLMA/main.js:1401-1439 | a frame keeps the game ready, never clears gameOver or victory, and AtividadeJogoLLM ends only by winning |
| Simulation.Continued | AtividadeJogoLLM/main.js:968-993 | the frame after the player's turn keeps the game ready and the session flags monotone |
| Simulation.Started | JogoLLMA/main.js:1234-1276 | a new game is valid on level 0 and not over; JogoLLMA waits on the menu with no player |
| Simulation.Restarted | JogoLLMA/main.js:1281-1289 | resetGame clears both flags, loads level 0 and shows PLAYING |
| Simulation.Tick | JogoLLMA/main.js:1803-1822 | one call of the animate loop keeps the game valid |
| Simulation.Interaction | JogoLLMA/main.js:1832-1840 | handleInteraction keeps the game valid |
| GameRules.ContactedClosedForm | JogoLLMA/main.js:1463-1474 | the in-order contact loop equals a single takeDamage(10) when some slime overlaps the player's box and leaves the player unchanged when none does |
| GameRules.ContactHurtsAtMostOnce | JogoLLMA/main.js:1463-1474 | the contact pass equals one contact's damage when the player touches any slime and leaves the player unchanged otherwise; so it costs at most one contact's damage, which leaves the player invincible or dead, and an invincible or dead player is untouched |
| GameRules.StrikeCountsMarkedSlimes | AtividadeJogoLLM/main.js:1099-1121 | a blow counts at most one kill per slime, counts one only when some slime in reach is marked after it, and with no slime in reach changes nothing |
| GameRules.MarkedSlimeCountsAgain | JogoLLMA/main.js:1529-1531 | a slime already marked that is hit again counts as another kill |
| GameRules.LoadLevelEffects | AtividadeJogoLLM/main.js:906-958 | past the last level only victory and gameOver are set; otherwise the level index is recorded, the camera and fireballs are reset, every tile is placed and nothing else, and the player is replaced on a P or created at (100, 100) only when missing |
| GameRules.ItemEffects | AtividadeJogoLLM/main.js:1026-1062 | an apple is marked and heals 50 up to the maximum, a star is marked with a full heal and a 10 s boost, a spike deals 50 and stays, water does nothing, and without an overlap nothing happens |
| GameRules.FlagLoadsNextLevel | JogoLLMA/main.js:1479-1487 | touching a flag loads the next level, or sets victory and gameOver and changes nothing else after the last one |
| GameRules.JogoLLMAFallEndsGame | JogoLLMA/main.js:1410-1438 | a JogoLLMA frame that ends with the player below the view ends with the player dead and gameOver set |
| GameRules.AtividadeEndsOnlyByWinning | AtividadeJogoLLM/main.js:960-993 | an AtividadeJogoLLM frame sets gameOver only together with victory |
| GameRules.LivingPlayerSeesNoMarks | JogoLLMA/main.js:1428-1433 | a frame that ends with the player alive leaves no marked slime, interactable or fireball |
| GameRules.CameraStaysInLevel | JogoLLMA/main.js:1401-1439 | the camera stays within the level from frame to frame |
| GameRules.ContinuedKeepsCamera | JogoLLMA/main.js:1410-1433 | the rest of the frame after the player's turn keeps the camera within the level |
| GameRules.InteractionRestarts | JogoLLMA/main.js:1832-1840 | an interaction on the menu or an end screen starts level 0 on PLAYING, and during play it changes nothing |
| GameRules.PlayingFrameReachesEndScreen | JogoLLMA/main.js:1808-1815 | a frame on PLAYING moves to VICTORY once the game is won, to GAME_OVER once it is lost, and otherwise stays on PLAYING |
| GameRules.Ticks | JogoLLMA/main.js:1775-1826 | any run of animate calls keeps the game valid |
| GameRules.WaitingGameStaysPut | AtividadeJogoLLM/main.js:1307-1334 | a finished game stays as it is over any run of frames: JogoLLMA's menu and end screens wait for an interaction, and AtividadeJogoLLM stops scheduling its loop |
| GameRules.AtividadeGuardUnreachable | AtividadeJogoLLM/main.js:961 | while AtividadeJogoLLM's loop runs, the guard at the top of update never fires, and a call of the loop is exactly one frame |
| GameModel.Game.constructor | JogoLLMA/main.js:1234-1276 | the new game is valid and in the started state of its variant |
| GameModel.Game.LoadLevel | JogoLLMA/main.js:1295-1347 | the new state is loadLevel's rule, and the player is kept or freshly created |
| GameModel.Game.BuildMap | JogoLLMA/main.js:1304-1346 | the four collections are those the scan gives, and the player is placed on the map's P, created at (100, 100) when missing, or kept |
| GameModel.Game.ScanMap | JogoLLMA/main.js:1304-1345 | the nested loops build what the scan function gives |
| GameModel.Game.PlacePlayer | JogoLLMA/main.js:1321-1323 | a new player of the game's variant stands at the tile |
| GameModel.Game.HandlePlayerAttack | JogoLLMA/main.js:1541-1585 | the new state is handlePlayerAttack's rule |
| GameModel.Game.StrikeAll | JogoLLMA/main.js:1553-1578 | the slimes are struck in place and the player counts the kills |
| GameModel.Game.CreateFireball | JogoLLMA/main.js:1615-1629 | one fireball, launched from the player's front, is appended |
| GameModel.Game.UseSpecial | JogoLLMA/main.js:750-753 | the new state is the special attack's rule |
| GameModel.Game.HandleInput | JogoLLMA/main.js:663-754 | the new state is handleInput's rule, with the attack and the fireball it asks for |
| GameModel.Game.UpdatePlayer | JogoLLMA/main.js:1406 | the new state is the player's turn |
| GameModel.Game.LeaveTrail | JogoLLMA/main.js:1416-1418 | the trail gains an afterimage when the draw succeeds during a boost |
| GameModel.Game.AdvanceSlimes | JogoLLMA/main.js:1419-1423 | the slimes on screen are updated in place |
| GameModel.Game.AdvanceEntities | JogoLLMA/main.js:1425-1426 | the interactables and fireballs are updated in place |
| GameModel.Game.LandEntities | JogoLLMA/main.js:1445-1460 | the landing pass is applied in place |
| GameModel.Game.ContactSlimes | JogoLLMA/main.js:1463-1474 | the player takes the contact damage of the pass |
| GameModel.Game.TouchItem | JogoLLMA/main.js:1477-1513 | one interactable is resolved as the item rule says |
| GameModel.Game.TouchItems | JogoLLMA/main.js:1477-1513 | the loop over the array it started with computes the interactables pass, across a level reload |
| GameModel.Game.FireballMeetsSlimes | JogoLLMA/main.js:1517-1533 | one fireball against every slime: it is marked if it met one, the slimes are struck, and the kills are counted |
| GameModel.Game.FireballsHitSlimes | JogoLLMA/main.js:1516-1534 | the nested loops compute the fireballs pass |
| GameModel.Game.HandleCollisions | JogoLLMA/main.js:1444-1535 | the new state is handleCollisions' rule |
| GameModel.Game.UpdateCamera | JogoLLMA/main.js:1634-1648 | the new state is updateCamera's rule |
| GameModel.Game.RemoveMarked | JogoLLMA/main.js:1431-1433 | the three filters are applied |
| GameModel.Game.CheckFall | JogoLLMA/main.js:1435-1438 | the new state is the fall rule |
| GameModel.Game.Update | JogoLLMA/main.js:1401-1439 | the new state is one frame of Game.update |
| GameModel.Game.Continue | AtividadeJogoLLM/main.js:968-993 | the new state is the frame after the player's turn |
| GameModel.Game.ResetGame | JogoLLMA/main.js:1281-1289 | the new state is resetGame's rule |
| GameModel.Game.Animate | JogoLLMA/main.js:1803-1822 | the game stays valid and the new state is one call of the animate loop |
| GameModel.Game.AnimateAtividade | AtividadeJogoLLM/main.js:1294-1334 | AtividadeJogoLLM's loop runs one update while the game is not over |
| GameModel.Game.AnimateJogoLLMA | JogoLLMA/main.js:1803-1822 | JogoLLMA updates only on PLAYING and then moves to the matching end screen |
| GameModel.Game.ShowEndScreen | JogoLLMA/main.js:1812-1814 | a finished game moves to VICTORY or GAME_OVER, and any other game is unchanged |
| GameModel.Game.HandleInteraction | JogoLLMA/main.js:1832-1840 | the new state is handleInteraction's rule |

## Left out

- Drawing is not modelled: every `draw` method, the tilesets, parallax backgrounds, the HUD, and the menu, end and loading screens are rendering only.
- Image and audio loading and `AudioManager` are not modelled, because they are browser I/O with asynchronous callbacks.
- `InputHandler`'s DOM listeners are not modelled; the held keys are a parameter.
- `requestAnimationFrame` is left out. The scheduling is a sequence of `Tick` calls (`GameRules.Ticks`), and the first frame's `deltaTime || 0` is a parameter.
- `console.log` and `console.warn` are not modelled.
- `ScreenShake` is not modelled, because its offsets are random and purely visual.
- The particles that `Game` emits are not modelled. `ParticleSystem` is modelled on its own, but the game's `particles.emit` calls are not, because they have no effect on the simulation. The cosine and sine of each emitted velocity are replaced by given velocities.
- `Math.random` and `performance.now()` become parameters, and one clock value stands for all reads within a frame. The hop waits are not restricted to [1000, 2000).
- Numbers are reals, so IEEE double rounding is not modelled.
- The Game class holds its slimes, interactables and fireballs as sequences of their states rather than as arrays of objects. The `Slime`, `Fireball` and `Item` classes model those objects' own methods. Sharing of one entity object between arrays (`[this.player, ...this.slimes]`) is therefore not captured, and it does not arise in the source.
- Common.Keep: its contract states only that the filter does not grow the sequence; membership, order of the survivors, distinctness and the properties they keep are stated by `Common.KeepMembers`, `Common.KeepOrder`, `Common.KeepDistinct` and `Common.KeepAll`.
- The player's reference to the game (`JogoLLMA/main.js:555`) is replaced by the game calling the player's steps in order. `handlePlayerAttack` and `createFireball` run after `Player.HandleInput` returns, and JogoLLMA's game-over request is returned by `OnAnimationEnd`.
