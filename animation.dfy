/// The per-entity sprite animation state machine (AnimationController): a table
/// of animation definitions, the one being played, its frame index and the time
/// accumulated towards the next frame.
module Animation {
  import opened Common

  /// One entry of the table; `frameInterval` is the milliseconds per frame that
  /// addAnimation derives from the frame rate. The sprite sheet is not modelled.
  datatype AnimDef = AnimDef(name: string, frameCount: nat, frameRate: real, loop: bool, frameInterval: real)

  /// The controller's whole state as a value.
  datatype AnimState = AnimState(animations: map<string, AnimDef>, current: Option<AnimDef>, frame: nat, timer: real)

  /// The outcome of one update: the new state and, when a non-looping animation
  /// sits on its last frame as another interval elapses, the name handed to the
  /// owner's onAnimationEnd.
  datatype StepResult = StepResult(state: AnimState, ended: Option<string>)

  predicate WellFormed(d: AnimDef)
  {
    d.frameRate > 0.0 && d.frameInterval == 1000.0 / d.frameRate
  }

  /// What every reachable controller state satisfies: definitions are stored
  /// under their own name with a positive rate, and the frame index is a frame
  /// of the current animation (or 0 for an animation with no frames).
  ghost predicate Consistent(s: AnimState)
  {
    (forall n :: n in s.animations ==> s.animations[n].name == n && WellFormed(s.animations[n])) &&
    (s.current.None? ==> s.frame == 0 && s.timer == 0.0) &&
    (s.current.Some? ==> WellFormed(s.current.value) && (s.frame == 0 || s.frame < s.current.value.frameCount))
  }

  /// The accumulated time never exceeds one frame interval.
  ghost predicate TimerInRange(s: AnimState)
  {
    s.current.Some? ==> 0.0 <= s.timer <= s.current.value.frameInterval
  }

  /// A freshly constructed controller: empty table, nothing playing.
  function Initial(): (s: AnimState)
    ensures Consistent(s) && TimerInRange(s)
  {
    AnimState(map[], None, 0, 0.0)
  }

  /// JavaScript's `%` on numbers: `a - m * trunc(a / m)`, so the remainder keeps
  /// the sign of the dividend (unlike Dafny's Euclidean `%`, which has no real form).
  function Remainder(a: real, m: real): (r: real)
    requires m > 0.0
    ensures 0.0 <= a ==> 0.0 <= r < m
    ensures a <= 0.0 ==> -m < r <= 0.0
  {
    if a >= 0.0 then FloorRemainder(a, m) else -FloorRemainder(-a, m)
  }

  /// `a - m * floor(a / m)` for a non-negative dividend.
  function FloorRemainder(a: real, m: real): (r: real)
    requires m > 0.0 && a >= 0.0
    ensures 0.0 <= r < m
  {
    var q := a / m;
    var f := q.Floor as real;
    var t := q - f;
    assert 0.0 <= t < 1.0;
    assert 0.0 <= m * t < m * 1.0;
    assert m * t == m * q - m * f;
    assert m * q == a;
    assert a - m * f == m * t;
    a - m * f
  }

  /// addAnimation: store the definition under its name (replacing an older one).
  function WithAnimation(s: AnimState, name: string, frameCount: nat, frameRate: real, loop: bool): (r: AnimState)
    requires frameRate > 0.0
  {
    s.(animations := s.animations[name := AnimDef(name, frameCount, frameRate, loop, 1000.0 / frameRate)])
  }

  /// play: nothing happens when `name` is already playing and `force` is false,
  /// or when there is no animation of that name; otherwise it starts from frame 0.
  function Played(s: AnimState, name: string, force: bool): (r: AnimState)
  {
    if s.current.Some? && s.current.value.name == name && !force then s
    else if name !in s.animations then s
    else s.(current := Some(s.animations[name]), frame := 0, timer := 0.0)
  }

  /// update: accumulate `dt`; once the accumulated time passes the interval, keep
  /// the remainder and advance one frame, wrap a looping animation, or hold the
  /// last frame of a non-looping one and report its end.
  function Stepped(s: AnimState, dt: real): (r: StepResult)
    requires Consistent(s)
  {
    if s.current.None? then StepResult(s, None)
    else
      var d := s.current.value;
      var t := s.timer + dt;
      if t > d.frameInterval then
        var rest := Remainder(t, d.frameInterval);
        if s.frame < d.frameCount - 1 then StepResult(s.(frame := s.frame + 1, timer := rest), None)
        else if d.loop then StepResult(s.(frame := 0, timer := rest), None)
        else StepResult(s.(timer := rest), Some(d.name))
      else StepResult(s.(timer := t), None)
  }

  lemma AddKeepsConsistent(s: AnimState, name: string, frameCount: nat, frameRate: real, loop: bool)
    requires Consistent(s) && frameRate > 0.0
    ensures Consistent(WithAnimation(s, name, frameCount, frameRate, loop))
    ensures WithAnimation(s, name, frameCount, frameRate, loop).animations[name].frameInterval == 1000.0 / frameRate
  {
  }

  /// play with the name already playing and no force changes nothing.
  lemma PlaySameIsNoOp(s: AnimState, name: string)
    requires s.current.Some? && s.current.value.name == name
    ensures Played(s, name, false) == s
  {
  }

  /// play with an unknown name changes nothing, forced or not.
  lemma PlayUnknownIsNoOp(s: AnimState, name: string, force: bool)
    requires name !in s.animations
    ensures Played(s, name, force) == s
  {
  }

  /// A switch (or a forced restart) selects the stored definition and resets the
  /// frame and the timer; the table itself never changes.
  lemma PlaySwitchResets(s: AnimState, name: string, force: bool)
    requires name in s.animations
    requires force || s.current.None? || s.current.value.name != name
    ensures Played(s, name, force) == s.(current := Some(s.animations[name]), frame := 0, timer := 0.0)
  {
  }

  lemma PlayKeepsInvariants(s: AnimState, name: string, force: bool)
    requires Consistent(s)
    ensures Consistent(Played(s, name, force)) && Played(s, name, force).animations == s.animations
    ensures TimerInRange(s) ==> TimerInRange(Played(s, name, force))
  {
  }

  /// One update moves the frame index by at most one: it stays, advances by one,
  /// or wraps to 0 from the last frame of a looping animation.
  lemma StepAdvancesAtMostOneFrame(s: AnimState, dt: real)
    requires Consistent(s)
    ensures var r := Stepped(s, dt).state;
      r.frame == s.frame || r.frame == s.frame + 1 ||
      (r.frame == 0 && s.current.Some? && s.current.value.loop && s.frame >= s.current.value.frameCount - 1)
    ensures Stepped(s, dt).state.animations == s.animations && Stepped(s, dt).state.current == s.current
  {
  }

  lemma StepKeepsInvariants(s: AnimState, dt: real)
    requires Consistent(s)
    ensures Consistent(Stepped(s, dt).state)
    ensures Stepped(s, dt).state.animations == s.animations && Stepped(s, dt).state.current == s.current
  {
  }

  /// The frame index stays a frame of the current animation.
  lemma StepKeepsFrameInRange(s: AnimState, dt: real)
    requires Consistent(s) && s.current.Some? && s.current.value.frameCount >= 1
    ensures Consistent(Stepped(s, dt).state)
    ensures Stepped(s, dt).state.frame < s.current.value.frameCount
  {
  }

  /// For non-negative elapsed time the accumulated time stays in [0, frameInterval].
  lemma StepKeepsTimerInRange(s: AnimState, dt: real)
    requires Consistent(s) && TimerInRange(s) && dt >= 0.0
    ensures TimerInRange(Stepped(s, dt).state)
  {
  }

  /// Past the last frame a looping animation wraps to frame 0 and reports nothing.
  lemma LoopWraps(s: AnimState, dt: real)
    requires Consistent(s) && s.current.Some? && s.current.value.loop
    requires s.frame >= s.current.value.frameCount - 1 && s.timer + dt > s.current.value.frameInterval
    ensures Stepped(s, dt).state.frame == 0 && Stepped(s, dt).ended == None
  {
  }

  /// A non-looping animation keeps its last frame and reports its end.
  lemma LastFrameHeldAndReported(s: AnimState, dt: real)
    requires Consistent(s) && s.current.Some? && !s.current.value.loop
    requires s.frame >= s.current.value.frameCount - 1 && s.timer + dt > s.current.value.frameInterval
    ensures Stepped(s, dt).state.frame == s.frame
    ensures Stepped(s, dt).ended == Some(s.current.value.name)
  {
  }

  /// The end is reported only from the held last frame of a non-looping
  /// animation, and always with that animation's name.
  lemma EndReportedOnlyFromLastFrame(s: AnimState, dt: real)
    requires Consistent(s) && Stepped(s, dt).ended.Some?
    ensures s.current.Some? && !s.current.value.loop && s.frame >= s.current.value.frameCount - 1
    ensures Stepped(s, dt).ended == Some(s.current.value.name) && Stepped(s, dt).state.frame == s.frame
  {
  }

  /// The end is reported again on every later update that completes another
  /// interval while the last frame is held: nothing in the controller remembers
  /// that it was already reported.
  lemma {:induction false} EndReportedOnEveryInterval(s: AnimState, dts: seq<real>)
    requires Consistent(s) && s.current.Some? && !s.current.value.loop
    requires s.frame >= s.current.value.frameCount - 1
    requires TimerInRange(s)
    requires forall i :: 0 <= i < |dts| ==> dts[i] > s.current.value.frameInterval
    ensures Run(s, dts).state.frame == s.frame && Run(s, dts).state.current == s.current
    ensures |Run(s, dts).ends| == |dts|
    ensures forall i :: 0 <= i < |dts| ==> Run(s, dts).ends[i] == Some(s.current.value.name)
    decreases |dts|
  {
    if dts != [] {
      var first := Stepped(s, dts[0]);
      assert s.timer >= 0.0;
      assert first.state.current == s.current && first.state.frame == s.frame;
      assert TimerInRange(first.state) by { StepKeepsTimerInRange(s, dts[0]); }
      EndReportedOnEveryInterval(first.state, dts[1..]);
    }
  }

  /// A sequence of updates, collecting what each one reported.
  datatype RunResult = RunResult(state: AnimState, ends: seq<Option<string>>)

  function Run(s: AnimState, dts: seq<real>): (r: RunResult)
    requires Consistent(s)
    ensures Consistent(r.state) && |r.ends| == |dts|
    decreases |dts|
  {
    if dts == [] then RunResult(s, [])
    else
      var first := Stepped(s, dts[0]);
      assert Consistent(first.state);
      var rest := Run(first.state, dts[1..]);
      RunResult(rest.state, [first.ended] + rest.ends)
  }

  class AnimationController {
    /// The entity whose onAnimationEnd the source calls back; here it only ties
    /// each controller to the one entity that owns it (set by that entity).
    ghost var owner: object?
    var animations: map<string, AnimDef>
    var currentAnimation: Option<AnimDef>
    var currentFrame: nat
    var frameTimer: real

    function State(): AnimState
      reads this
    {
      AnimState(animations, currentAnimation, currentFrame, frameTimer)
    }

    ghost predicate Valid()
      reads this
    {
      Consistent(State())
    }

    constructor ()
      ensures owner == null && Valid() && State() == Initial()
    {
      owner := null;
      animations := map[];
      currentAnimation := None;
      currentFrame := 0;
      frameTimer := 0.0;
    }

    method AddAnimation(name: string, frameCount: nat, frameRate: real, loop: bool)
      requires Valid() && frameRate > 0.0
      modifies this
      ensures Valid() && State() == WithAnimation(old(State()), name, frameCount, frameRate, loop)
      ensures owner == old(owner)
    {
      animations := animations[name := AnimDef(name, frameCount, frameRate, loop, 1000.0 / frameRate)];
    }

    method Play(name: string, force: bool)
      requires Valid()
      modifies this
      ensures Valid() && State() == Played(old(State()), name, force)
      ensures owner == old(owner)
    {
      if currentAnimation.Some? && currentAnimation.value.name == name && !force {
        return;
      }
      if name !in animations {
        return;
      }
      currentAnimation := Some(animations[name]);
      currentFrame := 0;
      frameTimer := 0.0;
    }

    /// Returns the name the source passes to the owner's onAnimationEnd, if any;
    /// the callback is the last thing update does, so the owner runs it on return.
    method Update(dt: real) returns (ended: Option<string>)
      requires Valid()
      modifies this
      ensures Valid() && StepResult(State(), ended) == Stepped(old(State()), dt)
      ensures owner == old(owner)
    {
      ended := None;
      if currentAnimation.None? {
        return;
      }
      var d := currentAnimation.value;
      frameTimer := frameTimer + dt;
      if frameTimer > d.frameInterval {
        frameTimer := Remainder(frameTimer, d.frameInterval);
        var isLastFrame := currentFrame >= d.frameCount - 1;
        if !isLastFrame {
          currentFrame := currentFrame + 1;
        } else if d.loop {
          currentFrame := 0;
        } else {
          ended := Some(d.name);
        }
      }
    }
  }
}
