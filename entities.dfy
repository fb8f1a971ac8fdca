/// The non-player entities both games share (Platform, Slime, the interactable
/// tiles including Flag, BlueFireball) and the one-way platform landing rule
/// that Game.handleCollisions applies to the player and to every slime.
module Entities {
  import opened Common
  import opened Geometry
  import opened Animation

  /// Which of the two source files a behaviour belongs to, where they differ.
  datatype Variant = JogoLLMA | AtividadeJogoLLM

  /// Per-update downward acceleration (GRAVITY).
  const Gravity: real := 0.7
  /// Side of a map cell, in pixels (TILE_SIZE).
  const TileSize: real := 64.0

  // ------------------------------------------------------------- platforms

  /// A solid 64x64 map cell; `tile` is the map digit that chose its sprite.
  datatype Platform = Platform(x: real, y: real, tile: char)
  {
    function Box(): Rect { Rect(x, y, TileSize, TileSize) }
  }

  // --------------------------------------------------------------- landing

  /// The part of an entity the landing rule reads and writes.
  datatype Body = Body(x: real, y: real, width: real, height: real, vy: real, onGround: bool)
  {
    function Box(): Rect { Rect(x, y, width, height) }
  }

  /// The test handleCollisions applies per platform: overlapping, not moving up,
  /// and the bottom no lower than the platform top plus this frame's fall.
  predicate LandsOn(b: Body, p: Platform)
  {
    Overlaps(b.Box(), p.Box()) && b.vy >= 0.0 && b.y + b.height <= p.y + b.vy + Gravity
  }

  /// One platform of the pass: when the test holds the bottom snaps to the
  /// platform top, the fall stops and the body is grounded.
  function LandOn(b: Body, p: Platform): Body
  {
    if LandsOn(b, p) then b.(y := p.y - b.height, vy := 0.0, onGround := true) else b
  }

  /// The whole pass, over the platforms in list order (later platforms see the
  /// position earlier ones snapped to).
  function Settle(b: Body, ps: seq<Platform>): Body
  {
    if ps == [] then b else LandOn(Settle(b, ps[..|ps| - 1]), ps[|ps| - 1])
  }

  /// The collision pass starts by clearing onGround, then settles.
  function Landed(b: Body, ps: seq<Platform>): Body
  {
    Settle(b.(onGround := false), ps)
  }

  /// Only y, vy and onGround are ever written, and only by a snap.
  lemma {:induction false} SettleTouchesOnlyVertical(b: Body, ps: seq<Platform>)
    ensures var r := Settle(b, ps);
      r.x == b.x && r.width == b.width && r.height == b.height
    ensures Settle(b, ps).onGround == b.onGround || Settle(b, ps).onGround
  {
    if ps != [] { SettleTouchesOnlyVertical(b, ps[..|ps| - 1]); }
  }

  /// After the pass the entity is grounded exactly when some platform snapped it;
  /// if none did, it is unchanged apart from the cleared flag. A grounded entity
  /// has stopped falling and its bottom lies on the top of one of the platforms.
  lemma {:induction false} LandedGroundedIffSnapped(b: Body, ps: seq<Platform>)
    ensures var r := Landed(b, ps);
      !r.onGround <==> r == b.(onGround := false)
    ensures var r := Landed(b, ps);
      r.onGround ==> r.vy == 0.0 && exists k :: 0 <= k < |ps| && r.y + r.height == ps[k].y
  {
    SettleGrounded(b.(onGround := false), ps);
  }

  lemma {:induction false} SettleGrounded(b: Body, ps: seq<Platform>)
    requires !b.onGround
    ensures !Settle(b, ps).onGround <==> Settle(b, ps) == b
    ensures var r := Settle(b, ps);
      r.onGround ==> r.vy == 0.0 && r.height == b.height && exists k :: 0 <= k < |ps| && r.y + r.height == ps[k].y
  {
    if ps != [] {
      var init := ps[..|ps| - 1];
      var last := ps[|ps| - 1];
      SettleGrounded(b, init);
      var m := Settle(b, init);
      if LandsOn(m, last) {
        assert Settle(b, ps).y + Settle(b, ps).height == ps[|ps| - 1].y;
      } else if m.onGround {
        var k :| 0 <= k < |init| && m.y + m.height == init[k].y;
        assert ps[k] == init[k];
      }
    }
  }

  /// An entity moving upwards passes through every platform: the pass changes
  /// nothing (platforms are one-way, so a jump is never cut short from below).
  lemma {:induction false} RisingPassesThrough(b: Body, ps: seq<Platform>)
    requires b.vy < 0.0
    ensures Settle(b, ps) == b
  {
    if ps != [] { RisingPassesThrough(b, ps[..|ps| - 1]); }
  }

  /// An entity that overlaps no platform is left where it is.
  lemma {:induction false} NoContactNoChange(b: Body, ps: seq<Platform>)
    requires forall k :: 0 <= k < |ps| ==> !Overlaps(b.Box(), ps[k].Box())
    ensures Settle(b, ps) == b
  {
    if ps != [] { NoContactNoChange(b, ps[..|ps| - 1]); }
  }

  // ----------------------------------------------------------------- slimes

  const SlimeWidth: real := 50.0
  const SlimeHeight: real := 64.0
  const SlimeSpeed: real := 2.0
  const SlimeHopSpeed: real := -10.0
  const SlimeStartHealth: real := 100.0

  datatype SlimeState = SlimeState(x: real, y: real, vx: real, vy: real, onGround: bool,
                                   markedForDeletion: bool, health: real,
                                   hopTimer: real, hopInterval: real, isHopping: bool,
                                   anim: AnimState)
  {
    function Box(): Rect { Rect(x, y, SlimeWidth, SlimeHeight) }
    function Frame(): Body { Body(x, y, SlimeWidth, SlimeHeight, vy, onGround) }
  }

  /// The animation table every slime builds: a one-frame idle pose and a
  /// three-frame hop, both looping.
  function SlimeAnimations(): AnimState
  {
    WithAnimation(WithAnimation(Initial(), "idle", 1, 1.0, true), "hop", 3, 6.0, true)
  }

  /// A new slime: resting on the ground, full health, idle, and waiting
  /// `hopInterval` ms (a random draw in the source) before its first hop.
  function NewSlime(x: real, y: real, hopInterval: real): SlimeState
  {
    SlimeState(x, y, 0.0, 0.0, true, false, SlimeStartHealth, 0.0, hopInterval, false,
               Played(SlimeAnimations(), "idle", false))
  }

  /// Slime.update, first step: move by the current speed, then fall faster.
  function SlimeMoved(s: SlimeState): SlimeState
  {
    s.(y := s.y + s.vy, x := s.x + s.vx, vy := s.vy + Gravity)
  }

  /// Slime.update, second step, on the ground only: end a finished hop, stand
  /// still while the hop timer runs, and start the next hop (towards the player,
  /// with a fresh random wait) once the timer passes the interval.
  function SlimeOnGroundStep(s: SlimeState, dt: real, playerX: real, nextInterval: real): (r: SlimeState)
    requires Consistent(s.anim)
    ensures Consistent(r.anim)
  {
    if !s.onGround then s
    else
      var landed := if s.isHopping then s.(isHopping := false, anim := Played(s.anim, "idle", false)) else s;
      PlayKeepsInvariants(s.anim, "idle", false);
      var waiting := landed.(vx := 0.0, hopTimer := landed.hopTimer + dt);
      if waiting.hopTimer > waiting.hopInterval then
        PlayKeepsInvariants(waiting.anim, "hop", true);
        waiting.(isHopping := true, vy := SlimeHopSpeed,
                 vx := if playerX > waiting.x then SlimeSpeed else -SlimeSpeed,
                 hopTimer := 0.0, hopInterval := nextInterval,
                 anim := Played(waiting.anim, "hop", true))
      else waiting
  }

  /// Slime.update, last step: the animation runs only while hopping or airborne.
  function SlimeAnimated(s: SlimeState, dt: real): (r: SlimeState)
    requires Consistent(s.anim)
    ensures Consistent(r.anim)
  {
    StepKeepsInvariants(s.anim, dt);
    if s.isHopping || !s.onGround then s.(anim := Stepped(s.anim, dt).state) else s
  }

  /// Slime.update. `playerX` is the player's x; `nextInterval` is the random
  /// draw for the next wait, used only when a hop starts.
  function SlimeStep(s: SlimeState, dt: real, playerX: real, nextInterval: real): SlimeState
    requires Consistent(s.anim)
  {
    SlimeAnimated(SlimeOnGroundStep(SlimeMoved(s), dt, playerX, nextInterval), dt)
  }

  /// Slime.takeDamage: health drops by the amount and the slime is marked for
  /// deletion once health is 0 or less (a mark is never undone).
  function SlimeDamaged(s: SlimeState, amount: real): SlimeState
  {
    var hurt := s.(health := s.health - amount);
    if hurt.health <= 0.0 then hurt.(markedForDeletion := true) else hurt
  }

  ghost predicate SlimeStateValid(s: SlimeState)
  {
    Consistent(s.anim)
  }

  lemma SlimeStepKeepsValid(s: SlimeState, dt: real, playerX: real, nextInterval: real)
    requires SlimeStateValid(s)
    ensures SlimeStateValid(SlimeStep(s, dt, playerX, nextInterval))
  {
  }

  /// On the ground a slime stands still while its timer runs; once the timer
  /// passes the interval it hops: upwards at 10 px per update, 2 px per update
  /// sideways towards the player, with a fresh wait.
  lemma SlimeOnGround(s: SlimeState, dt: real, playerX: real, nextInterval: real)
    requires SlimeStateValid(s) && s.onGround
    ensures var r := SlimeStep(s, dt, playerX, nextInterval);
      var waited := s.hopTimer + dt;
      r.onGround && r.x == s.x + s.vx && r.y == s.y + s.vy &&
      (waited <= s.hopInterval ==> r.vx == 0.0 && r.hopTimer == waited && r.vy == s.vy + Gravity && !r.isHopping &&
                                   r.hopInterval == s.hopInterval) &&
      (waited > s.hopInterval ==> r.isHopping && r.vy == SlimeHopSpeed && r.hopTimer == 0.0 &&
                                  r.hopInterval == nextInterval &&
                                  r.vx == (if playerX > r.x then SlimeSpeed else -SlimeSpeed))
  {
  }

  /// In the air a slime keeps its horizontal speed and its timer, and falls.
  lemma SlimeInAir(s: SlimeState, dt: real, playerX: real, nextInterval: real)
    requires SlimeStateValid(s) && !s.onGround
    ensures var r := SlimeStep(s, dt, playerX, nextInterval);
      r.vx == s.vx && r.vy == s.vy + Gravity && r.hopTimer == s.hopTimer && r.isHopping == s.isHopping &&
      r.x == s.x + s.vx && r.y == s.y + s.vy
  {
  }

  /// The hop always heads towards the player (or left when level with it).
  lemma HopHeadsTowardsPlayer(s: SlimeState, dt: real, playerX: real, nextInterval: real)
    requires SlimeStateValid(s) && s.onGround && s.hopTimer + dt > s.hopInterval
    ensures var r := SlimeStep(s, dt, playerX, nextInterval);
      (r.vx > 0.0 <==> playerX > r.x) && (r.vx < 0.0 <==> playerX <= r.x)
  {
  }

  /// Damage marks the slime exactly when health reaches 0 or less, and a marked
  /// slime stays marked whatever happens next.
  lemma SlimeDamageMarks(s: SlimeState, amount: real)
    ensures SlimeDamaged(s, amount).health == s.health - amount
    ensures SlimeDamaged(s, amount).markedForDeletion <==> s.markedForDeletion || s.health - amount <= 0.0
  {
  }

  /// Repeated damage: the slime's health after a list of hits is its health
  /// minus their sum, and it is marked exactly when it was already marked or that
  /// final health is 0 or less (health only goes down for non-negative hits).
  lemma {:induction false} SlimeDamagedRepeatedly(s: SlimeState, hits: seq<real>)
    requires forall i :: 0 <= i < |hits| ==> hits[i] >= 0.0
    ensures DamagedBy(s, hits).health == s.health - Sum(hits)
    ensures DamagedBy(s, hits).markedForDeletion <==>
      s.markedForDeletion || (|hits| > 0 && s.health - Sum(hits) <= 0.0)
    ensures DamagedBy(s, hits).x == s.x && DamagedBy(s, hits).y == s.y
  {
    if hits != [] {
      SlimeDamagedRepeatedly(s, hits[..|hits| - 1]);
      SumNonNegative(hits[..|hits| - 1]);
    }
  }

  function DamagedBy(s: SlimeState, hits: seq<real>): SlimeState
  {
    if hits == [] then s else SlimeDamaged(DamagedBy(s, hits[..|hits| - 1]), hits[|hits| - 1])
  }

  function Sum(xs: seq<real>): real
  {
    if xs == [] then 0.0 else Sum(xs[..|xs| - 1]) + xs[|xs| - 1]
  }

  lemma {:induction false} SumNonNegative(xs: seq<real>)
    requires forall i :: 0 <= i < |xs| ==> xs[i] >= 0.0
    ensures Sum(xs) >= 0.0
  {
    if xs != [] { SumNonNegative(xs[..|xs| - 1]); }
  }

  class Slime {
    var x: real
    var y: real
    var vx: real
    var vy: real
    var onGround: bool
    var markedForDeletion: bool
    var health: real
    var hopTimer: real
    var hopInterval: real
    var isHopping: bool
    const animator: AnimationController

    function State(): SlimeState
      reads this, animator
    {
      SlimeState(x, y, vx, vy, onGround, markedForDeletion, health, hopTimer, hopInterval, isHopping, animator.State())
    }

    function Box(): Rect
      reads this
    {
      Rect(x, y, SlimeWidth, SlimeHeight)
    }

    ghost predicate Valid()
      reads this, animator
    {
      animator.owner == this && animator.Valid()
    }

    /// `hopInterval` stands for the constructor's random draw in [1000, 2000).
    constructor (x: real, y: real, hopInterval: real)
      ensures Valid() && fresh(animator) && State() == NewSlime(x, y, hopInterval)
    {
      this.x := x;
      this.y := y;
      vx := 0.0;
      vy := 0.0;
      onGround := true;
      markedForDeletion := false;
      health := SlimeStartHealth;
      hopTimer := 0.0;
      this.hopInterval := hopInterval;
      isHopping := false;
      var a := new AnimationController();
      animator := a;
      new;
      animator.owner := this;
      animator.AddAnimation("idle", 1, 1.0, true);
      animator.AddAnimation("hop", 3, 6.0, true);
      animator.Play("idle", false);
    }

    method Update(dt: real, playerX: real, nextInterval: real)
      requires Valid()
      modifies this, animator
      ensures Valid() && State() == SlimeStep(old(State()), dt, playerX, nextInterval)
    {
      y := y + vy;
      x := x + vx;
      vy := vy + Gravity;
      assert State() == SlimeMoved(old(State()));
      GroundStep(dt, playerX, nextInterval);
      if isHopping || !onGround {
        var _ := animator.Update(dt);
      }
    }

    /// The on-ground part of Slime.update, between the move and the animation.
    method GroundStep(dt: real, playerX: real, nextInterval: real)
      requires Valid()
      modifies this, animator
      ensures Valid() && State() == SlimeOnGroundStep(old(State()), dt, playerX, nextInterval)
    {
      if onGround {
        if isHopping {
          isHopping := false;
          animator.Play("idle", false);
        }
        vx := 0.0;
        hopTimer := hopTimer + dt;
        if hopTimer > hopInterval {
          isHopping := true;
          vy := SlimeHopSpeed;
          vx := if playerX > x then SlimeSpeed else -SlimeSpeed;
          hopTimer := 0.0;
          hopInterval := nextInterval;
          animator.Play("hop", true);
        }
      }
    }

    method TakeDamage(amount: real)
      requires Valid()
      modifies this
      ensures Valid() && State() == SlimeDamaged(old(State()), amount)
    {
      health := health - amount;
      if health <= 0.0 {
        markedForDeletion := true;
      }
    }

    /// This slime's share of handleCollisions' landing pass.
    method Land(platforms: seq<Platform>)
      requires Valid()
      modifies this
      ensures Valid()
      ensures var b := Landed(old(State()).Frame(), platforms);
        State() == old(State()).(y := b.y, vy := b.vy, onGround := b.onGround)
    {
      ghost var start := State().Frame().(onGround := false);
      onGround := false;
      var k := 0;
      while k < |platforms|
        invariant 0 <= k <= |platforms|
        invariant State().Frame() == Settle(start, platforms[..k])
        invariant State() == old(State()).(y := y, vy := vy, onGround := onGround)
      {
        assert platforms[..k + 1][..k] == platforms[..k];
        var p := platforms[k];
        if Overlaps(Box(), p.Box()) && vy >= 0.0 && y + SlimeHeight <= p.y + vy + Gravity {
          y := p.y - SlimeHeight;
          vy := 0.0;
          onGround := true;
        }
        k := k + 1;
      }
      assert platforms[..|platforms|] == platforms;
    }
  }

  // ------------------------------------------------------------- fireballs

  const FireballSize: real := 64.0
  const FireballSpeed: real := 12.0
  /// How far left of the view a fireball may travel before it is discarded.
  const FireballLeftSlack: real := 100.0

  datatype FireballState = FireballState(x: real, y: real, direction: int, markedForDeletion: bool, anim: AnimState)
  {
    function Box(): Rect { Rect(x, y, FireballSize, FireballSize) }
  }

  function FireballAnimations(): AnimState
  {
    Played(WithAnimation(Initial(), "fly", 6, 12.0, true), "fly", false)
  }

  /// BlueFireball.update: fly 12 px in the facing direction, animate, and mark
  /// the fireball once it is right of the view or more than 100 px left of it.
  function FireballStep(f: FireballState, dt: real, cameraX: real, screenWidth: real): FireballState
    requires Consistent(f.anim)
  {
    var x := f.x + FireballSpeed * (f.direction as real);
    var gone := x > cameraX + screenWidth || x < cameraX - FireballLeftSlack;
    f.(x := x, anim := Stepped(f.anim, dt).state, markedForDeletion := f.markedForDeletion || gone)
  }

  /// A fireball flies straight at constant speed and is marked exactly when it
  /// leaves the band [cameraX - 100, cameraX + width] (or was already marked).
  lemma FireballFliesAndLeaves(f: FireballState, dt: real, cameraX: real, screenWidth: real)
    requires Consistent(f.anim) && (f.direction == 1 || f.direction == -1)
    ensures var r := FireballStep(f, dt, cameraX, screenWidth);
      r.y == f.y && r.direction == f.direction &&
      (f.direction == 1 ==> r.x == f.x + FireballSpeed) && (f.direction == -1 ==> r.x == f.x - FireballSpeed) &&
      (r.markedForDeletion <==> f.markedForDeletion || !(cameraX - FireballLeftSlack <= r.x <= cameraX + screenWidth))
  {
  }

  class Fireball {
    var x: real
    const y: real
    const direction: int
    var markedForDeletion: bool
    const animator: AnimationController

    function State(): FireballState
      reads this, animator
    {
      FireballState(x, y, direction, markedForDeletion, animator.State())
    }

    function Box(): Rect
      reads this
    {
      Rect(x, y, FireballSize, FireballSize)
    }

    ghost predicate Valid()
      reads this, animator
    {
      animator.owner == this && animator.Valid()
    }

    constructor (x: real, y: real, direction: int)
      ensures Valid() && fresh(animator)
      ensures State() == FireballState(x, y, direction, false, FireballAnimations())
    {
      this.x := x;
      this.y := y;
      this.direction := direction;
      markedForDeletion := false;
      var a := new AnimationController();
      animator := a;
      new;
      animator.owner := this;
      animator.AddAnimation("fly", 6, 12.0, true);
      animator.Play("fly", false);
    }

    method Update(dt: real, cameraX: real, screenWidth: real)
      requires Valid()
      modifies this, animator
      ensures Valid() && State() == FireballStep(old(State()), dt, cameraX, screenWidth)
    {
      x := x + FireballSpeed * (direction as real);
      var _ := animator.Update(dt);
      if x > cameraX + screenWidth || x < cameraX - FireballLeftSlack {
        markedForDeletion := true;
      }
    }
  }

  // ------------------------------------------------------------ interactables

  /// The map tiles a player can touch: S, W, A, * and F.
  datatype ItemKind = Spike | Water | Apple | Star | Flag

  datatype ItemState = ItemState(kind: ItemKind, x: real, y: real, markedForDeletion: bool,
                                 animationTimer: real, anim: AnimState)
  {
    function Box(): Rect { Rect(x, y, TileSize, TileSize) }
  }

  /// The waving flag of AtividadeJogoLLM: four frames at 5 per second, looping.
  function WavingFlag(): AnimState
  {
    Played(WithAnimation(Initial(), "wave", 4, 5.0, true), "wave", false)
  }

  /// What a freshly placed tile looks like: unmarked, and only an
  /// AtividadeJogoLLM flag has an animation playing.
  function NewItem(v: Variant, kind: ItemKind, x: real, y: real): ItemState
  {
    ItemState(kind, x, y, false, 0.0, if v == AtividadeJogoLLM && kind == Flag then WavingFlag() else Initial())
  }

  /// The per-frame `update?.()` call: only flags have one. JogoLLMA's flag counts
  /// time for its pulsing arrow; AtividadeJogoLLM's flag steps its animation.
  function ItemStep(v: Variant, i: ItemState, dt: real): ItemState
    requires Consistent(i.anim)
  {
    if i.kind != Flag then i
    else if v == JogoLLMA then i.(animationTimer := i.animationTimer + dt)
    else i.(anim := Stepped(i.anim, dt).state)
  }

  class Item {
    const kind: ItemKind
    const x: real
    const y: real
    var markedForDeletion: bool
    var animationTimer: real
    const animator: AnimationController

    function State(): ItemState
      reads this, animator
    {
      ItemState(kind, x, y, markedForDeletion, animationTimer, animator.State())
    }

    function Box(): Rect
    {
      Rect(x, y, TileSize, TileSize)
    }

    ghost predicate Valid()
      reads this, animator
    {
      animator.owner == this && animator.Valid()
    }

    constructor (v: Variant, kind: ItemKind, x: real, y: real)
      ensures Valid() && fresh(animator) && State() == NewItem(v, kind, x, y)
    {
      this.kind := kind;
      this.x := x;
      this.y := y;
      markedForDeletion := false;
      animationTimer := 0.0;
      var a := new AnimationController();
      animator := a;
      new;
      animator.owner := this;
      if v == AtividadeJogoLLM && kind == Flag {
        animator.AddAnimation("wave", 4, 5.0, true);
        animator.Play("wave", false);
      }
    }

    method Update(v: Variant, dt: real)
      requires Valid()
      modifies this, animator
      ensures Valid() && State() == ItemStep(v, old(State()), dt)
    {
      if kind == Flag {
        if v == JogoLLMA {
          animationTimer := animationTimer + dt;
        } else {
          var _ := animator.Update(dt);
        }
      }
    }
  }
}
