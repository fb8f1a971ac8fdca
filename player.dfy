/// The player character: movement and running, jumping, attacks with a
/// cooldown, damage with temporary invincibility, healing and the timed boost,
/// and the choice of animation. The two games differ here, so every operation
/// that differs takes the `Variant`.
module PlayerModel {
  import opened Common
  import opened Geometry
  import opened Animation
  import opened Entities

  const PlayerWidth: real := 120.0
  const PlayerHeight: real := 120.0
  const WalkSpeed: real := 4.0
  const RunSpeed: real := 7.0
  const JumpStrength: real := -18.0
  const MaxHealth: real := 100.0
  /// Milliseconds between the starts of two attacks.
  const AttackCooldown: real := 500.0
  /// Milliseconds a direction key must be held before walking turns into running.
  const WalkToRunTime: real := 1000.0
  const WalkAfterStopTime: real := 500.0
  const InvincibilityTime: real := 1500.0
  /// JogoLLMA only: an attack is abandoned this long after it started.
  const AttackFallback: real := 1000.0
  const BoostMultiplier: real := 1.5
  const AttackNames: seq<string> := ["attack1", "attack2", "attack3"]

  /// Position and speed, whether the player stands on something, and the
  /// direction it faces (1 right, -1 left).
  datatype Motion = Motion(x: real, y: real, vx: real, vy: real, onGround: bool, facing: int)

  /// Walking and running: whether a direction key is held, whether the hold has
  /// turned into running, when the key went down and when it was released.
  datatype Gait = Gait(isMoving: bool, isRunning: bool, timeKeyDown: real, walkStopTime: real)

  /// Attacks: whether one is under way, when the last one started, the
  /// JogoLLMA deadline (0 when none is set) and the kills that pay for fireballs.
  datatype Combat = Combat(isAttacking: bool, lastAttackTime: real, attackEndTime: real, killCount: nat)

  datatype Vitals = Vitals(health: real, isInvincible: bool, invincibilityTimer: real, isDead: bool)

  /// The boost's multipliers and when it expires (0 when no boost is active).
  datatype Boost = Boost(speedMultiplier: real, attackMultiplier: real, boostEndTime: real)

  /// All the player's fields, grouped by concern.
  datatype PlayerState = PlayerState(motion: Motion, gait: Gait, combat: Combat, vitals: Vitals, boost: Boost,
                                     anim: AnimState)
  {
    function Box(): Rect { Rect(motion.x, motion.y, PlayerWidth, PlayerHeight) }
    function Frame(): Body { Body(motion.x, motion.y, PlayerWidth, PlayerHeight, motion.vy, motion.onGround) }
  }

  // ------------------------------------------------------------- strings

  /// JavaScript's `String.prototype.includes`: `part` occurs in `s` at some
  /// position (case-sensitive).
  predicate Contains(s: string, part: string)
    decreases |s|
  {
    (|part| <= |s| && s[..|part|] == part) || (|s| > 0 && Contains(s[1..], part))
  }

  lemma {:induction false} ShorterNeverContains(s: string, part: string)
    requires |s| < |part|
    ensures !Contains(s, part)
    decreases |s|
  {
    if |s| > 0 {
      ShorterNeverContains(s[1..], part);
    }
  }

  /// The three standing attacks are recognised as attacks by name ...
  lemma AttackNamesContainAttack(i: nat)
    requires i < |AttackNames|
    ensures Contains(AttackNames[i], "attack")
  {
    assert AttackNames[i][..6] == "attack";
  }

  /// ... but the running attack is not: `includes` is case-sensitive and the
  /// name is written "runAttack".
  lemma RunAttackLacksAttack()
    ensures !Contains("runAttack", "attack")
  {
    var s := "runAttack";
    ShorterNeverContains(s[4..], "attack");
    assert s[3..][1..] == s[4..];
    assert s[3..][..6][0] == 'A';
    assert s[2..][1..] == s[3..];
    assert s[2..][..6][0] == 'n';
    assert s[1..][1..] == s[2..];
    assert s[1..][..6][0] == 'u';
    assert s[..6][0] == 'r';
  }

  // ------------------------------------------------------------ the table

  /// The animation table setupAnimations builds, in the order it adds them.
  function PlayerAnimations(): AnimState
  {
    var t := WithAnimation(WithAnimation(WithAnimation(Initial(), "walk", 8, 10.0, true), "run", 8, 15.0, true),
                           "jump", 6, 10.0, false);
    var t := WithAnimation(WithAnimation(WithAnimation(t, "hurt", 2, 10.0, false), "dead", 6, 8.0, false),
                           "attack1", 5, 15.0, false);
    WithAnimation(WithAnimation(WithAnimation(t, "attack2", 4, 15.0, false), "attack3", 4, 15.0, false),
                  "runAttack", 6, 15.0, false)
  }

  /// The names updateAnimationState plays are all in the table, and the
  /// running attack has six frames.
  ghost predicate HasPlayerAnimations(m: map<string, AnimDef>)
  {
    "walk" in m && "run" in m && "jump" in m && "hurt" in m && "dead" in m &&
    "attack1" in m && "attack2" in m && "attack3" in m && "runAttack" in m && m["runAttack"].frameCount == 6
  }

  lemma PlayerTableNames()
    ensures HasPlayerAnimations(PlayerAnimations().animations) && Consistent(PlayerAnimations())
  {
    var t := Initial();
    AddKeepsConsistent(t, "walk", 8, 10.0, true);
    t := WithAnimation(t, "walk", 8, 10.0, true);
    AddKeepsConsistent(t, "run", 8, 15.0, true);
    t := WithAnimation(t, "run", 8, 15.0, true);
    AddKeepsConsistent(t, "jump", 6, 10.0, false);
    t := WithAnimation(t, "jump", 6, 10.0, false);
    AddKeepsConsistent(t, "hurt", 2, 10.0, false);
    t := WithAnimation(t, "hurt", 2, 10.0, false);
    AddKeepsConsistent(t, "dead", 6, 8.0, false);
    t := WithAnimation(t, "dead", 6, 8.0, false);
    AddKeepsConsistent(t, "attack1", 5, 15.0, false);
    t := WithAnimation(t, "attack1", 5, 15.0, false);
    AddKeepsConsistent(t, "attack2", 4, 15.0, false);
    t := WithAnimation(t, "attack2", 4, 15.0, false);
    AddKeepsConsistent(t, "attack3", 4, 15.0, false);
    t := WithAnimation(t, "attack3", 4, 15.0, false);
    AddKeepsConsistent(t, "runAttack", 6, 15.0, false);
    t := WithAnimation(t, "runAttack", 6, 15.0, false);
    assert t == PlayerAnimations();
  }

  /// What every player satisfies: a consistent animator holding the table
  /// setupAnimations built (nothing ever adds to it afterwards).
  ghost predicate PlayerStateValid(s: PlayerState)
  {
    Consistent(s.anim) && HasPlayerAnimations(s.anim.animations)
  }

  /// A new player at (x, y): standing still, full health, facing right, nothing
  /// playing yet, and an attack available at once.
  function NewPlayer(x: real, y: real): (r: PlayerState)
    ensures PlayerStateValid(r)
  {
    PlayerTableNames();
    PlayerState(Motion(x, y, 0.0, 0.0, false, 1), Gait(false, false, 0.0, 0.0), Combat(false, -1000.0, 0.0, 0),
                Vitals(MaxHealth, false, 0.0, false), Boost(1.0, 1.0, 0.0), PlayerAnimations())
  }

  // -------------------------------------------------------------- keys

  predicate MoveLeft(keys: set<string>) { "a" in keys || "arrowleft" in keys }
  predicate MoveRight(keys: set<string>) { "d" in keys || "arrowright" in keys }
  predicate JumpPressed(keys: set<string>) { "w" in keys || "arrowup" in keys || " " in keys }
  predicate AttackPressed(keys: set<string>) { "j" in keys || "s" in keys || "arrowdown" in keys }

  // -------------------------------------------------------- handleInput

  /// What handleInput tells the game: input was ignored because an attack is
  /// under way, or it was handled and an attack did or did not start (the game
  /// then resolves the attack's hitbox).
  datatype InputOutcome = Blocked | Handled(attackStarted: bool)

  datatype InputResult = InputResult(state: PlayerState, outcome: InputOutcome)

  predicate RunAttackPlaying(a: AnimState)
  {
    a.current.Some? && a.current.value.name == "runAttack"
  }

  /// handleInput while an attack is under way. JogoLLMA lets a running attack
  /// keep running while a direction key is held; otherwise the player stops.
  function WhileAttacking(v: Variant, s: PlayerState, keys: set<string>): Motion
  {
    var m := s.motion;
    if v == JogoLLMA && RunAttackPlaying(s.anim) then
      if MoveRight(keys) then m.(facing := 1, vx := RunSpeed)
      else if MoveLeft(keys) then m.(facing := -1, vx := -RunSpeed)
      else m.(vx := 0.0)
    else m.(vx := 0.0)
  }

  /// Facing, walking and running: holding a direction walks, and running starts
  /// once the key has been held for more than WalkToRunTime; releasing it stops
  /// and records when.
  function Steered(s: PlayerState, keys: set<string>, now: real): PlayerState
  {
    var left := MoveLeft(keys);
    var right := MoveRight(keys);
    var m := s.motion;
    var g := s.gait;
    var facing := if left then -1 else if right then 1 else m.facing;
    if left || right then
      var held := if !g.isMoving then g.(isMoving := true, timeKeyDown := now) else g;
      var running := now - held.timeKeyDown > WalkToRunTime;
      var speed := if running then RunSpeed else WalkSpeed;
      s.(motion := m.(facing := facing, vx := if left then -speed else speed), gait := held.(isRunning := running))
    else
      var released := if g.isMoving then g.(isMoving := false, isRunning := false, walkStopTime := now) else g;
      s.(motion := m.(facing := facing, vx := 0.0), gait := released)
  }

  /// A jump needs the ground under the player.
  function Jumped(m: Motion, keys: set<string>): Motion
  {
    if JumpPressed(keys) && m.onGround then m.(onGround := false, vy := JumpStrength) else m
  }

  predicate AttackAllowed(c: Combat, keys: set<string>, now: real)
  {
    AttackPressed(keys) && !c.isAttacking && now - c.lastAttackTime > AttackCooldown
  }

  /// An attack starts when its key is pressed, no attack is under way and the
  /// cooldown since the last one has passed; JogoLLMA also sets the fallback
  /// deadline.
  function AttackBegun(v: Variant, s: PlayerState, keys: set<string>, now: real): InputResult
  {
    if AttackAllowed(s.combat, keys, now) then
      var c := s.combat.(isAttacking := true, lastAttackTime := now);
      var c := if v == JogoLLMA then c.(attackEndTime := now + AttackFallback) else c;
      InputResult(s.(motion := s.motion.(vx := 0.0), combat := c), Handled(true))
    else InputResult(s, Handled(false))
  }

  /// handleInput up to the special attack, which the game runs next (Fired).
  function HandledInput(v: Variant, s: PlayerState, keys: set<string>, now: real): (r: InputResult)
    ensures r.state.anim == s.anim
  {
    if s.combat.isAttacking then InputResult(s.(motion := WhileAttacking(v, s, keys)), Blocked)
    else
      var steered := Steered(s, keys, now);
      AttackBegun(v, steered.(motion := Jumped(steered.motion, keys)), keys, now)
  }

  /// The special attack: 'v' with at least five kills spends them on a fireball.
  predicate CanFire(s: PlayerState, keys: set<string>)
  {
    "v" in keys && s.combat.killCount >= 5
  }

  function Fired(s: PlayerState, keys: set<string>): PlayerState
  {
    if CanFire(s, keys) then s.(combat := s.combat.(killCount := 0)) else s
  }

  // ------------------------------------------------------------- update

  /// update's movement: horizontal speed scaled by the boost, then gravity.
  function Moved(m: Motion, b: Boost): Motion
  {
    var fallen := m.(x := m.x + m.vx * b.speedMultiplier, vy := m.vy + Gravity);
    fallen.(y := fallen.y + fallen.vy)
  }

  /// The invincibility countdown.
  function CountedDown(t: Vitals, dt: real): Vitals
  {
    if !t.isInvincible then t
    else if t.invincibilityTimer - dt <= 0.0 then t.(isInvincible := false, invincibilityTimer := 0.0)
    else t.(invincibilityTimer := t.invincibilityTimer - dt)
  }

  /// The boost's expiry.
  function Expired(b: Boost, now: real): Boost
  {
    if b.boostEndTime > 0.0 && now > b.boostEndTime then Boost(1.0, 1.0, 0.0) else b
  }

  /// updateAnimationState: attacking first (an attack animation is started only
  /// when the current one's name does not include "attack"; `pick` is the random
  /// choice among the three standing attacks), then hurt, then jump, then run,
  /// and walk otherwise. There is no branch for a dead player.
  function ChosenAnimation(s: PlayerState, now: real, pick: nat): (a: AnimState)
    requires pick < |AttackNames|
    requires Consistent(s.anim)
    ensures Consistent(a) && a.animations == s.anim.animations
  {
    if s.combat.isAttacking then
      if s.anim.current.None? || !Contains(s.anim.current.value.name, "attack") then
        var name := if s.gait.isRunning then "runAttack" else AttackNames[pick];
        PlayKeepsInvariants(s.anim, name, true);
        Played(s.anim, name, true)
      else s.anim
    else
      var name := if s.vitals.isInvincible then "hurt"
                  else if !s.motion.onGround then "jump"
                  else if s.gait.isRunning then "run"
                  else if s.gait.isMoving || now - s.gait.walkStopTime < WalkAfterStopTime then "walk"
                  else "walk";
      PlayKeepsInvariants(s.anim, name, false);
      Played(s.anim, name, false)
  }

  /// onAnimationEnd: the end of an animation whose name includes "attack" ends
  /// the attack; the end of "dead" marks the player dead and, in JogoLLMA, asks
  /// the game to end (the returned flag).
  datatype EndResult = EndResult(state: PlayerState, gameOver: bool)

  function AnimationEnded(v: Variant, s: PlayerState, name: string): EndResult
  {
    var cleared := if Contains(name, "attack") then s.(combat := s.combat.(isAttacking := false)) else s;
    if name == "dead" then EndResult(cleared.(vitals := cleared.vitals.(isDead := true)), v == JogoLLMA)
    else EndResult(cleared, false)
  }

  /// One step of the animator followed by the callback it makes, if any.
  datatype UpdateResult = UpdateResult(state: PlayerState, ended: Option<string>, gameOver: bool)

  function Animated(v: Variant, s: PlayerState, dt: real): (r: UpdateResult)
    requires Consistent(s.anim)
    ensures Consistent(r.state.anim) && r.state.anim.animations == s.anim.animations
    ensures r.state.motion == s.motion && r.state.boost == s.boost && r.state.vitals.health == s.vitals.health
    ensures r.gameOver ==> v == JogoLLMA && r.ended == Some("dead")
  {
    StepKeepsInvariants(s.anim, dt);
    var step := Stepped(s.anim, dt);
    var t := s.(anim := step.state);
    if step.ended.Some? then
      var e := AnimationEnded(v, t, step.ended.value);
      UpdateResult(e.state, step.ended, e.gameOver)
    else UpdateResult(t, None, false)
  }

  /// JogoLLMA's safety net: an attack still under way after its deadline ends.
  function FallbackApplied(v: Variant, c: Combat, now: real): Combat
  {
    if v == JogoLLMA && c.isAttacking && c.attackEndTime > 0.0 && now > c.attackEndTime then
      c.(isAttacking := false, attackEndTime := 0.0)
    else c
  }

  /// update's steps before the animation: movement, then the timers.
  function Ticked(s: PlayerState, dt: real, now: real): PlayerState
  {
    s.(motion := Moved(s.motion, s.boost), vitals := CountedDown(s.vitals, dt), boost := Expired(s.boost, now))
  }

  /// Player.update after handleInput.
  function Updated(v: Variant, s: PlayerState, dt: real, now: real, pick: nat): (r: UpdateResult)
    requires pick < |AttackNames|
    requires PlayerStateValid(s)
    ensures PlayerStateValid(r.state)
    ensures r.gameOver ==> v == JogoLLMA && r.ended == Some("dead")
  {
    var ticked := Ticked(s, dt, now);
    var chosen := ticked.(anim := ChosenAnimation(ticked, now, pick));
    var a := Animated(v, chosen, dt);
    UpdateResult(a.state.(combat := FallbackApplied(v, a.state.combat, now)), a.ended, a.gameOver)
  }

  // ------------------------------------------------ damage, healing, boost

  function Min(a: real, b: real): real { if a <= b then a else b }

  /// die: the first call marks the player dead and starts the dead animation;
  /// later calls change nothing.
  function Died(s: PlayerState): (r: PlayerState)
    ensures r.vitals.isDead && (s.vitals.isDead ==> r == s)
    ensures !s.vitals.isDead ==>
      r.motion == s.motion && r.gait == s.gait && r.combat == s.combat && r.boost == s.boost &&
      r.vitals == s.vitals.(isDead := true) && r.anim.animations == s.anim.animations
    ensures !s.vitals.isDead && "dead" in s.anim.animations ==>
      r.anim.current == Some(s.anim.animations["dead"]) && r.anim.frame == 0 && r.anim.timer == 0.0
    ensures !s.vitals.isDead && "dead" !in s.anim.animations ==> r.anim == s.anim
  {
    if s.vitals.isDead then s else s.(vitals := s.vitals.(isDead := true), anim := Played(s.anim, "dead", true))
  }

  /// takeDamage. JogoLLMA also cancels an attack under way (forcing the hurt
  /// animation) and stops the player.
  function Damaged(v: Variant, s: PlayerState, amount: real): PlayerState
  {
    if s.vitals.isInvincible || s.vitals.isDead then s
    else
      var cancelled := if v == JogoLLMA && s.combat.isAttacking
                       then s.(combat := s.combat.(isAttacking := false, attackEndTime := 0.0),
                               anim := Played(s.anim, "hurt", true))
                       else s;
      var hit := cancelled.(vitals := cancelled.vitals.(health := cancelled.vitals.health - amount,
                                                         isInvincible := true,
                                                         invincibilityTimer := InvincibilityTime));
      var stopped := if v == JogoLLMA then hit.(motion := hit.motion.(vx := 0.0)) else hit;
      if stopped.vitals.health <= 0.0 then Died(stopped.(vitals := stopped.vitals.(health := 0.0))) else stopped
  }

  /// `kills` more slimes to the player's count.
  function Killed(s: PlayerState, kills: nat): PlayerState
  {
    s.(combat := s.combat.(killCount := s.combat.killCount + kills))
  }

  /// heal: health rises by the amount, up to MaxHealth.
  function Healed(s: PlayerState, amount: real): PlayerState
  {
    s.(vitals := s.vitals.(health := Min(MaxHealth, s.vitals.health + amount)))
  }

  /// applyBoost: a full heal and 1.5x speed and attack until `now + duration`.
  function Boosted(s: PlayerState, duration: real, now: real): PlayerState
  {
    Healed(s, MaxHealth).(boost := Boost(BoostMultiplier, BoostMultiplier, now + duration))
  }

  // ================================================================ lemmas

  /// Damage is ignored entirely while invincible or dead.
  lemma DamageIgnoredWhenInvincibleOrDead(v: Variant, s: PlayerState, amount: real)
    requires s.vitals.isInvincible || s.vitals.isDead
    ensures Damaged(v, s, amount) == s
  {
  }

  /// JogoLLMA's takeDamage: an attack under way is cancelled with the "hurt"
  /// animation forced, the player stops and is invincible for 1500 ms, health
  /// drops by the amount but not below 0, and the player dies (forcing "dead")
  /// exactly when it reaches 0. Gait, boost and the kill count are kept.
  lemma DamageEffectsJogoLLMA(s: PlayerState, amount: real)
    requires !s.vitals.isInvincible && !s.vitals.isDead
    ensures var r := Damaged(JogoLLMA, s, amount);
      var hurt := if s.combat.isAttacking then Played(s.anim, "hurt", true) else s.anim;
      var dies := s.vitals.health - amount <= 0.0;
      !r.combat.isAttacking && r.motion.vx == 0.0 &&
      r.combat == s.combat.(isAttacking := false,
                            attackEndTime := if s.combat.isAttacking then 0.0 else s.combat.attackEndTime) &&
      r.vitals == Vitals(if dies then 0.0 else s.vitals.health - amount, true, InvincibilityTime, dies) &&
      r.motion == s.motion.(vx := 0.0) && r.gait == s.gait && r.boost == s.boost &&
      r.anim == (if dies then Played(hurt, "dead", true) else hurt)
  {
  }

  /// AtividadeJogoLLM's takeDamage: the same health and invincibility rule, but
  /// an attack under way goes on and the speed is kept; only a kill plays
  /// "dead".
  lemma DamageEffectsAtividade(s: PlayerState, amount: real)
    requires !s.vitals.isInvincible && !s.vitals.isDead
    ensures var r := Damaged(AtividadeJogoLLM, s, amount);
      var dies := s.vitals.health - amount <= 0.0;
      r.combat == s.combat && r.motion == s.motion && r.gait == s.gait && r.boost == s.boost &&
      r.vitals == Vitals(if dies then 0.0 else s.vitals.health - amount, true, InvincibilityTime, dies) &&
      r.anim == (if dies then Played(s.anim, "dead", true) else s.anim)
  {
  }

  /// A second blow right after a first is ignored: damage leaves the player
  /// invincible or dead. Damage never moves the player.
  lemma DamageIdempotent(v: Variant, s: PlayerState, amount: real, again: real)
    ensures var r := Damaged(v, s, amount);
      Damaged(v, r, again) == r && r.Box() == s.Box()
  {
  }

  predicate HealthInRange(s: PlayerState)
  {
    0.0 <= s.vitals.health <= MaxHealth
  }

  /// Health stays within [0, MaxHealth] through damage and healing by
  /// non-negative amounts and through the boost.
  lemma HealthStaysInRange(v: Variant, s: PlayerState, amount: real, now: real)
    requires HealthInRange(s) && amount >= 0.0
    ensures HealthInRange(Damaged(v, s, amount))
    ensures HealthInRange(Healed(s, amount))
    ensures HealthInRange(Boosted(s, amount, now))
  {
  }

  /// Nothing else touches health: input, the special attack, the end of an
  /// animation and the rest of the update leave it as it was.
  lemma OnlyDamageAndHealingChangeHealth(v: Variant, s: PlayerState, keys: set<string>, dt: real, now: real,
                                         pick: nat, name: string)
    requires pick < |AttackNames| && PlayerStateValid(s)
    ensures HandledInput(v, s, keys, now).state.vitals == s.vitals
    ensures Fired(s, keys).vitals == s.vitals
    ensures AnimationEnded(v, s, name).state.vitals.health == s.vitals.health
    ensures Updated(v, s, dt, now, pick).state.vitals.health == s.vitals.health
  {
    var ticked := Ticked(s, dt, now);
    var chosen := ticked.(anim := ChosenAnimation(ticked, now, pick));
    assert Animated(v, chosen, dt).state.vitals.health == s.vitals.health;
  }

  /// An attack starts exactly when its key is pressed, no attack is under way
  /// and more than AttackCooldown ms have passed since the last one began; it
  /// stops the player, stamps the time and (JogoLLMA) sets the deadline.
  lemma AttackStartsIff(v: Variant, s: PlayerState, keys: set<string>, now: real)
    ensures var r := HandledInput(v, s, keys, now);
      (r.outcome == Handled(true) <==>
        !s.combat.isAttacking && AttackPressed(keys) && now - s.combat.lastAttackTime > AttackCooldown)
    ensures var r := HandledInput(v, s, keys, now);
      r.outcome == Handled(true) ==>
        r.state.combat.isAttacking && r.state.combat.lastAttackTime == now && r.state.motion.vx == 0.0 &&
        r.state.combat.attackEndTime == (if v == JogoLLMA then now + AttackFallback else s.combat.attackEndTime)
    ensures var r := HandledInput(v, s, keys, now);
      r.outcome != Handled(true) ==> r.state.combat == s.combat
  {
  }

  /// AtividadeJogoLLM: while an attack is under way handleInput only stops the
  /// player; no movement, jump, attack or fireball.
  lemma InputBlockedWhileAttacking(s: PlayerState, keys: set<string>, now: real)
    requires s.combat.isAttacking
    ensures HandledInput(AtividadeJogoLLM, s, keys, now) == InputResult(s.(motion := s.motion.(vx := 0.0)), Blocked)
  {
  }

  /// JogoLLMA: during a running attack the held direction keeps the run speed;
  /// during any other attack the player stops.
  lemma RunAttackSteers(s: PlayerState, keys: set<string>, now: real)
    requires s.combat.isAttacking
    ensures var r := HandledInput(JogoLLMA, s, keys, now);
      r.outcome == Blocked && r.state == s.(motion := r.state.motion) &&
      (RunAttackPlaying(s.anim) ==>
         (MoveRight(keys) ==> r.state.motion == s.motion.(vx := RunSpeed, facing := 1)) &&
         (!MoveRight(keys) && MoveLeft(keys) ==> r.state.motion == s.motion.(vx := -RunSpeed, facing := -1)) &&
         (!MoveRight(keys) && !MoveLeft(keys) ==> r.state.motion == s.motion.(vx := 0.0))) &&
      (!RunAttackPlaying(s.anim) ==> r.state.motion == s.motion.(vx := 0.0))
  {
  }

  /// A jump needs the ground: input changes the vertical speed only by a jump
  /// from the ground, which sets it to JumpStrength and leaves the ground.
  lemma JumpNeedsGround(v: Variant, s: PlayerState, keys: set<string>, now: real)
    ensures var r := HandledInput(v, s, keys, now).state.motion;
      (r.vy != s.motion.vy || r.onGround != s.motion.onGround) ==>
        s.motion.onGround && !s.combat.isAttacking && JumpPressed(keys)
    ensures var r := HandledInput(v, s, keys, now).state.motion;
      s.motion.onGround && !s.combat.isAttacking && JumpPressed(keys) ==> r.vy == JumpStrength && !r.onGround
  {
  }

  /// Walking turns into running once the key has been held for more than
  /// WalkToRunTime, and the speed follows, signed by the direction (left wins
  /// when both are held); with no direction held the player stops and the
  /// release time is recorded.
  lemma WalkTurnsIntoRun(s: PlayerState, keys: set<string>, now: real)
    ensures var r := Steered(s, keys, now);
      (MoveLeft(keys) || MoveRight(keys)) ==>
        r.gait.isMoving && r.gait.timeKeyDown == (if s.gait.isMoving then s.gait.timeKeyDown else now) &&
        (r.gait.isRunning <==> now - r.gait.timeKeyDown > WalkToRunTime) &&
        r.motion.vx == (if MoveLeft(keys) then -1.0 else 1.0) * (if r.gait.isRunning then RunSpeed else WalkSpeed) &&
        r.motion.facing == (if MoveLeft(keys) then -1 else 1)
    ensures var r := Steered(s, keys, now);
      !(MoveLeft(keys) || MoveRight(keys)) ==>
        !r.gait.isMoving && r.motion.vx == 0.0 && r.motion.facing == s.motion.facing &&
        (s.gait.isMoving ==> !r.gait.isRunning && r.gait.walkStopTime == now) &&
        (!s.gait.isMoving ==> r.gait == s.gait)
  {
  }

  /// Each update moves by the (boosted) horizontal speed and adds exactly
  /// Gravity to the vertical speed before moving by it.
  lemma GravityExact(v: Variant, s: PlayerState, dt: real, now: real, pick: nat)
    requires pick < |AttackNames| && PlayerStateValid(s)
    ensures var r := Updated(v, s, dt, now, pick).state;
      r.motion == s.motion.(x := s.motion.x + s.motion.vx * s.boost.speedMultiplier,
                            vy := s.motion.vy + Gravity, y := s.motion.y + s.motion.vy + Gravity)
  {
    var ticked := Ticked(s, dt, now);
    var chosen := ticked.(anim := ChosenAnimation(ticked, now, pick));
    assert Animated(v, chosen, dt).state.motion == ticked.motion;
  }

  /// Invincibility counts down by the elapsed time and ends (at 0) once it runs
  /// out; an expired boost restores the normal multipliers.
  lemma TimersRunOut(v: Variant, s: PlayerState, dt: real, now: real, pick: nat)
    requires pick < |AttackNames| && PlayerStateValid(s)
    ensures var r := Updated(v, s, dt, now, pick).state.vitals;
      var t := s.vitals.invincibilityTimer - dt;
      (s.vitals.isInvincible && t > 0.0 ==> r.isInvincible && r.invincibilityTimer == t) &&
      (s.vitals.isInvincible && t <= 0.0 ==> !r.isInvincible && r.invincibilityTimer == 0.0) &&
      (!s.vitals.isInvincible ==> !r.isInvincible && r.invincibilityTimer == s.vitals.invincibilityTimer) &&
      r.health == s.vitals.health
    ensures var r := Updated(v, s, dt, now, pick).state.boost;
      (s.boost.boostEndTime > 0.0 && now > s.boost.boostEndTime ==> r == Boost(1.0, 1.0, 0.0)) &&
      (!(s.boost.boostEndTime > 0.0 && now > s.boost.boostEndTime) ==> r == s.boost)
  {
  }

  /// The animation updateAnimationState leaves playing, by priority. A dead
  /// player is never left on "dead": it is replaced on the next update.
  lemma ChosenAnimationByPriority(s: PlayerState, now: real, pick: nat)
    requires pick < |AttackNames| && PlayerStateValid(s)
    ensures var a := ChosenAnimation(s, now, pick);
      a.current.Some? && a.current.value.name != "dead" &&
      (s.combat.isAttacking ==> Contains(a.current.value.name, "attack") || a.current.value.name == "runAttack")
    ensures var n := ChosenAnimation(s, now, pick).current.value.name;
      !s.combat.isAttacking ==>
        (s.vitals.isInvincible ==> n == "hurt") &&
        (!s.vitals.isInvincible && !s.motion.onGround ==> n == "jump") &&
        (!s.vitals.isInvincible && s.motion.onGround && s.gait.isRunning ==> n == "run") &&
        (!s.vitals.isInvincible && s.motion.onGround && !s.gait.isRunning ==> n == "walk")
  {
    PlayerTableNames();
    ShorterNeverContains("dead", "attack");
    if s.combat.isAttacking && (s.anim.current.None? || !Contains(s.anim.current.value.name, "attack")) {
      if !s.gait.isRunning {
        AttackNamesContainAttack(pick);
      }
    }
  }

  /// Consequently the dead animation never reaches its end, so its callback
  /// never fires: in JogoLLMA death by damage does not end the game this way.
  lemma DeadEndNeverReported(v: Variant, s: PlayerState, dt: real, now: real, pick: nat)
    requires pick < |AttackNames| && PlayerStateValid(s)
    ensures Updated(v, s, dt, now, pick).ended != Some("dead")
    ensures !Updated(v, s, dt, now, pick).gameOver
  {
    var ticked := Ticked(s, dt, now);
    ChosenAnimationByPriority(ticked, now, pick);
    var chosen := ticked.(anim := ChosenAnimation(ticked, now, pick));
    if Stepped(chosen.anim, dt).ended.Some? {
      EndReportedOnlyFromLastFrame(chosen.anim, dt);
    }
  }

  /// JogoLLMA: an attack still under way once the clock passes its deadline
  /// is over after the update, whatever the animation did.
  lemma FallbackEndsAttack(s: PlayerState, dt: real, now: real, pick: nat)
    requires pick < |AttackNames| && PlayerStateValid(s)
    requires s.combat.attackEndTime > 0.0 && now > s.combat.attackEndTime
    ensures !Updated(JogoLLMA, s, dt, now, pick).state.combat.isAttacking
  {
  }

  /// AtividadeJogoLLM has no deadline: an update ends an attack only through the
  /// end of an animation whose name includes "attack".
  lemma AttackEndsOnlyByAnimation(s: PlayerState, dt: real, now: real, pick: nat)
    requires pick < |AttackNames| && PlayerStateValid(s) && s.combat.isAttacking
    ensures var r := Updated(AtividadeJogoLLM, s, dt, now, pick);
      !r.state.combat.isAttacking ==> r.ended.Some? && Contains(r.ended.value, "attack")
  {
  }

  /// One player frame: input, then the update (the game's own steps between
  /// them are left aside).
  datatype FrameInput = FrameInput(keys: set<string>, dt: real, now: real, pick: nat)

  function PlayerFrame(v: Variant, s: PlayerState, i: FrameInput): (r: PlayerState)
    requires PlayerStateValid(s) && i.pick < |AttackNames|
    ensures PlayerStateValid(r)
  {
    var handled := HandledInput(v, s, i.keys, i.now).state;
    assert PlayerStateValid(handled);
    Updated(v, handled, i.dt, i.now, i.pick).state
  }

  function PlayerFrames(v: Variant, s: PlayerState, inputs: seq<FrameInput>): (r: PlayerState)
    requires PlayerStateValid(s)
    requires forall i :: 0 <= i < |inputs| ==> inputs[i].pick < |AttackNames|
    ensures PlayerStateValid(r)
    decreases |inputs|
  {
    if inputs == [] then s else PlayerFrames(v, PlayerFrame(v, s, inputs[0]), inputs[1..])
  }

  /// A running attack that is not (yet) playing an animation whose name
  /// includes "attack".
  ghost predicate CaughtInRunningAttack(s: PlayerState)
  {
    PlayerStateValid(s) && s.combat.isAttacking && s.gait.isRunning &&
    (s.anim.current.None? || !Contains(s.anim.current.value.name, "attack"))
  }

  /// The running attack in AtividadeJogoLLM, one frame: input stays blocked and
  /// the running attack is restarted because its name does not include
  /// "attack", so it never reaches its end and the attack never finishes.
  lemma RunningAttackRestarts(s: PlayerState, i: FrameInput)
    requires CaughtInRunningAttack(s) && i.pick < |AttackNames|
    ensures CaughtInRunningAttack(PlayerFrame(AtividadeJogoLLM, s, i))
    ensures RunAttackPlaying(PlayerFrame(AtividadeJogoLLM, s, i).anim)
  {
    InputBlockedWhileAttacking(s, i.keys, i.now);
    var handled := s.(motion := s.motion.(vx := 0.0));
    var ticked := Ticked(handled, i.dt, i.now);
    RunAttackRestarted(ticked, i.now, i.pick);
    var chosen := ticked.(anim := ChosenAnimation(ticked, i.now, i.pick));
    var step := Stepped(chosen.anim, i.dt);
    assert step.ended == None && step.state.current == chosen.anim.current by {
      StepKeepsInvariants(chosen.anim, i.dt);
    }
    var r := chosen.(anim := step.state);
    assert Animated(AtividadeJogoLLM, chosen, i.dt).state == r;
    assert Updated(AtividadeJogoLLM, handled, i.dt, i.now, i.pick).state == r;
    RunAttackLacksAttack();
  }

  /// updateAnimationState for a running attack whose animation is not (yet)
  /// recognised as an attack: "runAttack" is restarted from its first frame.
  lemma RunAttackRestarted(s: PlayerState, now: real, pick: nat)
    requires CaughtInRunningAttack(s) && pick < |AttackNames|
    ensures var a := ChosenAnimation(s, now, pick);
      a.current == Some(s.anim.animations["runAttack"]) && a.frame == 0 &&
      a.current.value.frameCount == 6 && a.current.value.name == "runAttack"
  {
    PlayerTableNames();
  }

  /// ... and so, whatever keys are held and however much time passes, a player
  /// caught in a running attack stays in it, with all input blocked, for ever.
  lemma {:induction false} RunningAttackNeverEnds(s: PlayerState, inputs: seq<FrameInput>)
    requires CaughtInRunningAttack(s) && forall i :: 0 <= i < |inputs| ==> inputs[i].pick < |AttackNames|
    ensures var r := PlayerFrames(AtividadeJogoLLM, s, inputs);
      r.combat.isAttacking && r.gait.isRunning
    decreases |inputs|
  {
    if inputs != [] {
      RunningAttackRestarts(s, inputs[0]);
      RunningAttackNeverEnds(PlayerFrame(AtividadeJogoLLM, s, inputs[0]), inputs[1..]);
    }
  }

  // ================================================================ class

  /// The player object. Its fields are the source's, grouped as in PlayerState;
  /// every method updates them in place.
  class Player {
    const variant: Variant
    var motion: Motion
    var gait: Gait
    var combat: Combat
    var vitals: Vitals
    var boost: Boost
    const animator: AnimationController

    function State(): PlayerState
      reads this, animator
    {
      PlayerState(motion, gait, combat, vitals, boost, animator.State())
    }

    function Box(): Rect
      reads this
    {
      Rect(motion.x, motion.y, PlayerWidth, PlayerHeight)
    }

    ghost predicate Valid()
      reads this, animator
    {
      animator.owner == this && animator.Valid() && HasPlayerAnimations(animator.animations)
    }

    constructor (variant: Variant, x: real, y: real)
      ensures Valid() && fresh(animator) && this.variant == variant && State() == NewPlayer(x, y)
    {
      this.variant := variant;
      motion := Motion(x, y, 0.0, 0.0, false, 1);
      gait := Gait(false, false, 0.0, 0.0);
      combat := Combat(false, -1000.0, 0.0, 0);
      vitals := Vitals(MaxHealth, false, 0.0, false);
      boost := Boost(1.0, 1.0, 0.0);
      var a := new AnimationController();
      animator := a;
      new;
      animator.owner := this;
      SetupAnimations();
      PlayerTableNames();
    }

    /// setupAnimations: the nine entries of the player's table.
    method SetupAnimations()
      requires animator.Valid() && animator.State() == Initial()
      modifies animator
      ensures animator.Valid() && animator.owner == old(animator.owner) && animator.State() == PlayerAnimations()
    {
      animator.AddAnimation("walk", 8, 10.0, true);
      animator.AddAnimation("run", 8, 15.0, true);
      animator.AddAnimation("jump", 6, 10.0, false);
      animator.AddAnimation("hurt", 2, 10.0, false);
      animator.AddAnimation("dead", 6, 8.0, false);
      animator.AddAnimation("attack1", 5, 15.0, false);
      animator.AddAnimation("attack2", 4, 15.0, false);
      animator.AddAnimation("attack3", 4, 15.0, false);
      animator.AddAnimation("runAttack", 6, 15.0, false);
    }

    /// handleInput up to the special attack. The game resolves a started
    /// attack's hitbox on return and then calls UseSpecial unless input was
    /// blocked.
    method HandleInput(keys: set<string>, now: real) returns (outcome: InputOutcome)
      requires Valid()
      modifies this
      ensures Valid() && InputResult(State(), outcome) == HandledInput(variant, old(State()), keys, now)
    {
      var moveLeft := "a" in keys || "arrowleft" in keys;
      var moveRight := "d" in keys || "arrowright" in keys;
      if combat.isAttacking {
        outcome := Blocked;
        if variant == JogoLLMA && animator.currentAnimation.Some? && animator.currentAnimation.value.name == "runAttack" {
          if moveRight {
            motion := motion.(facing := 1, vx := RunSpeed);
          } else if moveLeft {
            motion := motion.(facing := -1, vx := -RunSpeed);
          } else {
            motion := motion.(vx := 0.0);
          }
          return;
        }
        motion := motion.(vx := 0.0);
        return;
      }
      Steer(keys, now);
      if ("w" in keys || "arrowup" in keys || " " in keys) && motion.onGround {
        motion := motion.(onGround := false, vy := JumpStrength);
      }
      var attackPressed := "j" in keys || "s" in keys || "arrowdown" in keys;
      var canAttack := !combat.isAttacking && now - combat.lastAttackTime > AttackCooldown;
      outcome := Handled(false);
      if attackPressed && canAttack {
        combat := combat.(isAttacking := true, lastAttackTime := now);
        motion := motion.(vx := 0.0);
        if variant == JogoLLMA {
          combat := combat.(attackEndTime := now + AttackFallback);
        }
        outcome := Handled(true);
      }
    }

    /// handleInput's facing, walking and running.
    method Steer(keys: set<string>, now: real)
      requires Valid()
      modifies this
      ensures Valid() && State() == Steered(old(State()), keys, now)
    {
      var moveLeft := "a" in keys || "arrowleft" in keys;
      var moveRight := "d" in keys || "arrowright" in keys;
      if moveLeft {
        motion := motion.(facing := -1);
      } else if moveRight {
        motion := motion.(facing := 1);
      }
      if moveLeft || moveRight {
        if !gait.isMoving {
          gait := gait.(isMoving := true, timeKeyDown := now);
        }
        gait := gait.(isRunning := now - gait.timeKeyDown > WalkToRunTime);
        motion := motion.(vx := if gait.isRunning then RunSpeed else WalkSpeed);
        if moveLeft {
          motion := motion.(vx := -motion.vx);
        }
      } else {
        if gait.isMoving {
          gait := gait.(isMoving := false, isRunning := false, walkStopTime := now);
        }
        motion := motion.(vx := 0.0);
      }
    }

    /// The rest of handleInput: 'v' with five kills or more spends them; the
    /// game creates the fireball when this returns true.
    method UseSpecial(keys: set<string>) returns (fire: bool)
      requires Valid()
      modifies this
      ensures Valid() && fire == CanFire(old(State()), keys) && State() == Fired(old(State()), keys)
    {
      fire := "v" in keys && combat.killCount >= 5;
      if fire {
        combat := combat.(killCount := 0);
      }
    }

    /// updateAnimationState. `pick` stands for the random choice of attack.
    method UpdateAnimationState(now: real, pick: nat)
      requires Valid() && pick < |AttackNames|
      modifies animator
      ensures Valid() && State() == old(State()).(anim := ChosenAnimation(old(State()), now, pick))
    {
      if combat.isAttacking {
        if animator.currentAnimation.None? || !Contains(animator.currentAnimation.value.name, "attack") {
          if gait.isRunning {
            animator.Play("runAttack", true);
          } else {
            animator.Play(AttackNames[pick], true);
          }
        }
        return;
      }
      if vitals.isInvincible {
        animator.Play("hurt", false);
        return;
      }
      if !motion.onGround {
        animator.Play("jump", false);
        return;
      }
      if gait.isRunning {
        animator.Play("run", false);
        return;
      }
      if gait.isMoving || now - gait.walkStopTime < WalkAfterStopTime {
        animator.Play("walk", false);
        return;
      }
      animator.Play("walk", false);
    }

    /// onAnimationEnd; the result is JogoLLMA's request to end the game.
    method OnAnimationEnd(name: string) returns (gameOver: bool)
      requires Valid()
      modifies this
      ensures Valid() && EndResult(State(), gameOver) == AnimationEnded(variant, old(State()), name)
    {
      if Contains(name, "attack") {
        combat := combat.(isAttacking := false);
      }
      gameOver := false;
      if name == "dead" {
        vitals := vitals.(isDead := true);
        gameOver := variant == JogoLLMA;
      }
    }

    /// Player.update after handleInput: movement, gravity, the timers, the
    /// animation and its callback, and JogoLLMA's attack deadline.
    method Update(dt: real, now: real, pick: nat) returns (ended: Option<string>, gameOver: bool)
      requires Valid() && pick < |AttackNames|
      modifies this, animator
      ensures Valid()
      ensures UpdateResult(State(), ended, gameOver) == Updated(variant, old(State()), dt, now, pick)
    {
      Move(dt, now);
      UpdateAnimationState(now, pick);
      ended, gameOver := Animate(dt);
      if variant == JogoLLMA && combat.isAttacking && combat.attackEndTime > 0.0 && now > combat.attackEndTime {
        combat := combat.(isAttacking := false, attackEndTime := 0.0);
      }
    }

    /// update's movement, gravity and timers.
    method Move(dt: real, now: real)
      requires Valid()
      modifies this
      ensures Valid() && State() == Ticked(old(State()), dt, now)
    {
      motion := motion.(x := motion.x + motion.vx * boost.speedMultiplier);
      motion := motion.(vy := motion.vy + Gravity);
      motion := motion.(y := motion.y + motion.vy);
      assert motion == Moved(old(motion), boost);
      if vitals.isInvincible {
        vitals := vitals.(invincibilityTimer := vitals.invincibilityTimer - dt);
        if vitals.invincibilityTimer <= 0.0 {
          vitals := vitals.(isInvincible := false, invincibilityTimer := 0.0);
        }
      }
      assert vitals == CountedDown(old(vitals), dt);
      if boost.boostEndTime > 0.0 && now > boost.boostEndTime {
        boost := boost.(speedMultiplier := 1.0, attackMultiplier := 1.0, boostEndTime := 0.0);
      }
    }

    /// animator.update, with the onAnimationEnd callback it makes.
    method Animate(dt: real) returns (ended: Option<string>, gameOver: bool)
      requires Valid()
      modifies this, animator
      ensures Valid() && UpdateResult(State(), ended, gameOver) == Animated(variant, old(State()), dt)
    {
      ended := animator.Update(dt);
      gameOver := false;
      if ended.Some? {
        gameOver := OnAnimationEnd(ended.value);
      }
    }

    method Die()
      requires Valid()
      modifies this, animator
      ensures Valid() && State() == Died(old(State()))
    {
      if vitals.isDead {
        return;
      }
      vitals := vitals.(isDead := true);
      animator.Play("dead", true);
    }

    method TakeDamage(amount: real)
      requires Valid()
      modifies this, animator
      ensures Valid() && State() == Damaged(variant, old(State()), amount)
    {
      if vitals.isInvincible || vitals.isDead {
        return;
      }
      if variant == JogoLLMA && combat.isAttacking {
        combat := combat.(isAttacking := false, attackEndTime := 0.0);
        animator.Play("hurt", true);
      }
      vitals := vitals.(health := vitals.health - amount, isInvincible := true, invincibilityTimer := InvincibilityTime);
      if variant == JogoLLMA {
        motion := motion.(vx := 0.0);
      }
      if vitals.health <= 0.0 {
        vitals := vitals.(health := 0.0);
        Die();
      }
    }

    /// `killCount++`, as the game does for each slime it marks.
    method CountKill()
      requires Valid()
      modifies this
      ensures Valid() && State() == Killed(old(State()), 1)
    {
      combat := combat.(killCount := combat.killCount + 1);
    }

    method Heal(amount: real)
      requires Valid()
      modifies this
      ensures Valid() && State() == Healed(old(State()), amount)
    {
      vitals := vitals.(health := Min(MaxHealth, vitals.health + amount));
    }

    method ApplyBoost(duration: real, now: real)
      requires Valid()
      modifies this
      ensures Valid() && State() == Boosted(old(State()), duration, now)
    {
      Heal(MaxHealth);
      boost := boost.(speedMultiplier := BoostMultiplier, attackMultiplier := BoostMultiplier,
                      boostEndTime := now + duration);
    }

    /// The player's share of handleCollisions' landing pass.
    method Land(platforms: seq<Platform>)
      requires Valid()
      modifies this
      ensures Valid()
      ensures var b := Landed(old(State()).Frame(), platforms);
        State() == old(State()).(motion := old(motion).(y := b.y, vy := b.vy, onGround := b.onGround))
    {
      ghost var start := State().Frame().(onGround := false);
      motion := motion.(onGround := false);
      var k := 0;
      while k < |platforms|
        invariant 0 <= k <= |platforms|
        invariant State().Frame() == Settle(start, platforms[..k])
        invariant State() == old(State()).(motion := old(motion).(y := motion.y, vy := motion.vy, onGround := motion.onGround))
      {
        assert platforms[..k + 1][..k] == platforms[..k];
        var p := platforms[k];
        if Overlaps(Box(), p.Box()) && motion.vy >= 0.0 && motion.y + PlayerHeight <= p.y + motion.vy + Gravity {
          motion := motion.(y := p.y - PlayerHeight, vy := 0.0, onGround := true);
        }
        k := k + 1;
      }
      assert platforms[..|platforms|] == platforms;
    }
  }
}
