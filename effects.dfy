/// The two bounded buffers both games keep for visual effects: the afterimage
/// trail (TrailRenderer) and the fixed pool of reusable particles
/// (Particle / ParticleSystem). Only their state is modelled, not their drawing.
module Effects {
  import opened Common
  import opened Geometry

  // ---------------------------------------------------------------- trails

  /// One afterimage: where the entity was, its size, its facing and its opacity.
  datatype Trail = Trail(x: real, y: real, width: real, height: real, alpha: real, facing: int)

  /// Milliseconds over which a trail fades from opacity 1 to 0.
  const TrailFadeTime: real := 150.0

  /// One update of the list: every trail loses `dt / 150` opacity, and those that
  /// reach 0 or less disappear; the survivors keep their order.
  function Faded(ts: seq<Trail>, dt: real): (r: seq<Trail>)
  {
    if ts == [] then []
    else
      var t := ts[0].(alpha := ts[0].alpha - dt / TrailFadeTime);
      (if t.alpha <= 0.0 then [] else [t]) + Faded(ts[1..], dt)
  }

  /// After an update every remaining trail is still visible, there are no more
  /// trails than before, and each survivor is a faded copy of an old one.
  lemma {:induction false} FadedProperties(ts: seq<Trail>, dt: real)
    ensures |Faded(ts, dt)| <= |ts|
    ensures forall i :: 0 <= i < |Faded(ts, dt)| ==> Faded(ts, dt)[i].alpha > 0.0
    ensures forall u :: u in Faded(ts, dt) ==> exists t :: t in ts && u == t.(alpha := t.alpha - dt / TrailFadeTime)
  {
    if ts != [] {
      FadedProperties(ts[1..], dt);
      var t := ts[0].(alpha := ts[0].alpha - dt / TrailFadeTime);
      var rest := Faded(ts[1..], dt);
      assert Faded(ts, dt) == (if t.alpha <= 0.0 then [] else [t]) + rest;
      forall u | u in Faded(ts, dt) ensures exists t :: t in ts && u == t.(alpha := t.alpha - dt / TrailFadeTime) {
        if u in rest {
          var w :| w in ts[1..] && u == w.(alpha := w.alpha - dt / TrailFadeTime);
          assert w in ts;
        } else {
          assert u == t && ts[0] in ts;
        }
      }
    }
  }

  /// With no time elapsed (or time running backwards) nothing fades away.
  lemma {:induction false} FadedKeepsAllWhenNoTimePasses(ts: seq<Trail>, dt: real)
    requires dt <= 0.0 && forall i :: 0 <= i < |ts| ==> ts[i].alpha > 0.0
    ensures |Faded(ts, dt)| == |ts|
  {
    if ts != [] {
      assert ts[0].alpha - dt / TrailFadeTime > 0.0;
      FadedKeepsAllWhenNoTimePasses(ts[1..], dt);
    }
  }

  lemma FadedSplit(ts: seq<Trail>, i: nat, dt: real)
    requires i < |ts|
    ensures Faded(ts[i..], dt) ==
      (if ts[i].alpha - dt / TrailFadeTime <= 0.0 then [] else [ts[i].(alpha := ts[i].alpha - dt / TrailFadeTime)]) + Faded(ts[i + 1..], dt)
  {
    assert ts[i..][1..] == ts[i + 1..];
  }

  /// addTrail on the list: append `t`; when that makes the list longer than
  /// `maxTrails`, drop the oldest entry. The result is the newest entries of the
  /// old list followed by `t`.
  function WithTrail(trails: seq<Trail>, t: Trail, maxTrails: nat): (r: seq<Trail>)
    ensures |r| == if |trails| + 1 > maxTrails then |trails| else |trails| + 1
    ensures r != [] ==> r[|r| - 1] == t
    ensures forall i :: 0 <= i < |r| - 1 ==> r[i] == trails[|trails| + 1 - |r| + i]
    ensures |trails| <= maxTrails ==> |r| <= maxTrails
  {
    var added := trails + [t];
    if |added| > maxTrails then added[1..] else added
  }

  class TrailRenderer {
    var trails: seq<Trail>
    const maxTrails: nat

    constructor (maxTrails: nat)
      ensures this.maxTrails == maxTrails && trails == []
    {
      this.maxTrails := maxTrails;
      trails := [];
    }

    /// addTrail: append a fully opaque copy of the entity's box and facing; when
    /// that makes the list longer than `maxTrails`, drop the oldest entry.
    method AddTrail(box: Rect, facing: int)
      modifies this
      ensures trails == WithTrail(old(trails), Trail(box.x, box.y, box.width, box.height, 1.0, facing), maxTrails)
    {
      trails := trails + [Trail(box.x, box.y, box.width, box.height, 1.0, facing)];
      if |trails| > maxTrails {
        trails := trails[1..];
      }
    }

    /// update: walk the list from the back, fading each trail and splicing out
    /// those that become invisible.
    method Update(dt: real)
      modifies this
      ensures trails == Faded(old(trails), dt)
      ensures forall i :: 0 <= i < |trails| ==> trails[i].alpha > 0.0
      ensures |trails| <= |old(trails)|
    {
      ghost var start := trails;
      var i := |trails|;
      while i > 0
        invariant 0 <= i <= |start|
        invariant trails == start[..i] + Faded(start[i..], dt)
        decreases i
      {
        i := i - 1;
        ghost var before := trails;
        var t := trails[i].(alpha := trails[i].alpha - dt / TrailFadeTime);
        if t.alpha <= 0.0 {
          trails := trails[..i] + trails[i + 1..];
        } else {
          trails := trails[i := t];
        }
        SpliceStep(start, before, trails, i, dt);
      }
      assert start[0..] == start;
      FadedProperties(start, dt);
    }
  }

  /// One step of TrailRenderer.Update's backwards walk: fading (and possibly
  /// removing) entry i extends the processed suffix by one position.
  lemma SpliceStep(start: seq<Trail>, before: seq<Trail>, after: seq<Trail>, i: nat, dt: real)
    requires i < |start| && before == start[..i + 1] + Faded(start[i + 1..], dt)
    requires var t := before[i].(alpha := before[i].alpha - dt / TrailFadeTime);
      after == if t.alpha <= 0.0 then before[..i] + before[i + 1..] else before[i := t]
    ensures after == start[..i] + Faded(start[i..], dt)
  {
    FadedSplit(start, i, dt);
    assert before[i] == start[i];
    assert before[..i] == start[..i];
    assert before[i + 1..] == Faded(start[i + 1..], dt);
    var t := before[i].(alpha := before[i].alpha - dt / TrailFadeTime);
    if t.alpha > 0.0 {
      assert before[i := t] == before[..i] + [t] + before[i + 1..];
    }
  }

  // ------------------------------------------------------------- particles

  /// One pooled particle; `active` says whether it is in use.
  datatype Particle = Particle(x: real, y: real, vx: real, vy: real, life: real, maxLife: real,
                               color: string, size: real, active: bool)

  /// A velocity drawn for one emitted particle (the source draws an angle and a
  /// speed at random and takes their cosine and sine).
  datatype Velocity = Velocity(vx: real, vy: real)

  /// The state a particle has when the pool is built.
  const Dormant: Particle := Particle(0.0, 0.0, 0.0, 0.0, 1.0, 1.0, "#fff", 2.0, false)

  /// Downward acceleration particles receive per update.
  const ParticleGravity: real := 0.2

  function ActiveCount(s: seq<Particle>): (n: nat)
    ensures n <= |s|
  {
    if s == [] then 0 else (if s[0].active then 1 else 0) + ActiveCount(s[1..])
  }

  /// `particles.find(p => !p.active)`: the lowest index of an unused particle.
  function FirstInactive(s: seq<Particle>): (r: Option<nat>)
    ensures r.Some? ==> r.value < |s| && !s[r.value].active && forall j :: 0 <= j < r.value ==> s[j].active
    ensures r.None? ==> forall j :: 0 <= j < |s| ==> s[j].active
  {
    if s == [] then None
    else if !s[0].active then Some(0)
    else match FirstInactive(s[1..])
      case None => None
      case Some(k) => Some(k + 1)
  }

  /// spawn: every field is overwritten and the particle becomes active.
  function Spawned(x: real, y: real, v: Velocity, life: real, color: string, size: real): Particle
  {
    Particle(x, y, v.vx, v.vy, life, life, color, size, true)
  }

  /// emit: one spawn per drawn velocity, each into the first unused particle,
  /// stopping early once the pool is exhausted.
  function Emitted(s: seq<Particle>, x: real, y: real, vs: seq<Velocity>, life: real, color: string, size: real): (r: seq<Particle>)
    ensures |r| == |s|
    decreases |vs|
  {
    if vs == [] then s
    else match FirstInactive(s)
      case None => s
      case Some(k) => Emitted(s[k := Spawned(x, y, vs[0], life, color, size)], x, y, vs[1..], life, color, size)
  }

  /// emit never touches a particle in use.
  lemma {:induction false} EmitKeepsActive(s: seq<Particle>, x: real, y: real, vs: seq<Velocity>, life: real, color: string, size: real)
    ensures forall i :: 0 <= i < |s| && s[i].active ==> Emitted(s, x, y, vs, life, color, size)[i] == s[i]
    decreases |vs|
  {
    if vs != [] {
      match FirstInactive(s)
      case None =>
      case Some(k) =>
        EmitKeepsActive(s[k := Spawned(x, y, vs[0], life, color, size)], x, y, vs[1..], life, color, size);
    }
  }

  /// After emit every particle is either as it was, or was unused and now holds
  /// a spawn at (x, y) with one of the drawn velocities, the full life, the
  /// colour and the size.
  lemma {:induction false} EmitSpawns(s: seq<Particle>, x: real, y: real, vs: seq<Velocity>, life: real, color: string, size: real)
    ensures var r := Emitted(s, x, y, vs, life, color, size);
      forall i :: 0 <= i < |s| ==>
        r[i] == s[i] || (!s[i].active && exists j :: 0 <= j < |vs| && r[i] == Spawned(x, y, vs[j], life, color, size))
    decreases |vs|
  {
    if vs != [] {
      match FirstInactive(s)
      case None =>
      case Some(k) =>
        var s' := s[k := Spawned(x, y, vs[0], life, color, size)];
        var r := Emitted(s', x, y, vs[1..], life, color, size);
        assert r == Emitted(s, x, y, vs, life, color, size);
        EmitSpawns(s', x, y, vs[1..], life, color, size);
        forall i | 0 <= i < |s|
          ensures r[i] == s[i] || (!s[i].active && exists j :: 0 <= j < |vs| && r[i] == Spawned(x, y, vs[j], life, color, size))
        {
          if i == k {
            assert r[k] == Spawned(x, y, vs[0], life, color, size);
          } else if r[i] != s[i] {
            var j :| 0 <= j < |vs[1..]| && r[i] == Spawned(x, y, vs[1..][j], life, color, size);
            assert vs[1..][j] == vs[j + 1];
          }
        }
    }
  }

  /// Particle.update: an active particle moves by its velocity, falls a little
  /// faster and loses `dt` of life, becoming inactive once its life is used up.
  function Aged(p: Particle, dt: real): Particle
  {
    if !p.active then p
    else p.(x := p.x + p.vx, y := p.y + p.vy, vy := p.vy + ParticleGravity,
            life := p.life - dt, active := p.life - dt > 0.0)
  }

  lemma {:induction false} ActivatingAddsOne(s: seq<Particle>, k: nat, p: Particle)
    requires k < |s| && !s[k].active && p.active
    ensures ActiveCount(s[k := p]) == ActiveCount(s) + 1
  {
    if k > 0 {
      assert s[k := p][1..] == s[1..][k - 1 := p];
      ActivatingAddsOne(s[1..], k - 1, p);
    } else {
      assert s[k := p][1..] == s[1..];
    }
  }

  lemma {:induction false} AllActiveCount(s: seq<Particle>)
    requires forall j :: 0 <= j < |s| ==> s[j].active
    ensures ActiveCount(s) == |s|
  {
    if s != [] {
      AllActiveCount(s[1..]);
    }
  }

  /// Emitting `n` particles activates exactly min(n, free slots) of them: the
  /// pool never grows and a full pool silently drops the rest.
  lemma {:induction false} EmitActivates(s: seq<Particle>, x: real, y: real, vs: seq<Velocity>, life: real, color: string, size: real)
    ensures var before := ActiveCount(s);
      ActiveCount(Emitted(s, x, y, vs, life, color, size)) ==
        if before + |vs| <= |s| then before + |vs| else |s|
    decreases |vs|
  {
    if vs != [] {
      match FirstInactive(s)
      case None =>
        AllActiveCount(s);
      case Some(k) =>
        var s' := s[k := Spawned(x, y, vs[0], life, color, size)];
        ActivatingAddsOne(s, k, Spawned(x, y, vs[0], life, color, size));
        EmitActivates(s', x, y, vs[1..], life, color, size);
    }
  }

  /// An update never brings a particle back into use; it only retires them.
  lemma {:induction false} AgingNeverActivates(s: seq<Particle>, dt: real)
    ensures ActiveCount(seq(|s|, i requires 0 <= i < |s| => Aged(s[i], dt))) <= ActiveCount(s)
  {
    if s != [] {
      var aged := seq(|s|, i requires 0 <= i < |s| => Aged(s[i], dt));
      AgingNeverActivates(s[1..], dt);
      assert aged[1..] == seq(|s[1..]|, i requires 0 <= i < |s[1..]| => Aged(s[1..][i], dt));
    }
  }

  class ParticleSystem {
    const particles: array<Particle>

    /// Builds the pool: `poolSize` particles, all unused.
    constructor (poolSize: nat)
      ensures fresh(particles) && particles.Length == poolSize
      ensures forall i :: 0 <= i < poolSize ==> particles[i] == Dormant
      ensures ActiveCount(particles[..]) == 0
    {
      particles := new Particle[poolSize](_ => Dormant);
      new;
      NoneActive(particles[..]);
    }

    static lemma {:induction false} NoneActive(s: seq<Particle>)
      requires forall i :: 0 <= i < |s| ==> s[i] == Dormant
      ensures ActiveCount(s) == 0
    {
      if s != [] { NoneActive(s[1..]); }
    }

    /// find: a linear scan for the first unused particle.
    method FindInactive() returns (r: Option<nat>)
      ensures r == FirstInactive(particles[..])
    {
      var i := 0;
      while i < particles.Length
        invariant 0 <= i <= particles.Length
        invariant forall j :: 0 <= j < i ==> particles[j].active
      {
        if !particles[i].active {
          FirstInactiveIs(particles[..], i);
          return Some(i);
        }
        i := i + 1;
      }
      FirstInactiveNone(particles[..]);
      return None;
    }

    static lemma FirstInactiveIs(s: seq<Particle>, i: nat)
      requires i < |s| && !s[i].active && forall j :: 0 <= j < i ==> s[j].active
      ensures FirstInactive(s) == Some(i)
    {
      var r := FirstInactive(s);
      assert r.Some? && r.value == i;
    }

    static lemma FirstInactiveNone(s: seq<Particle>)
      requires forall j :: 0 <= j < |s| ==> s[j].active
      ensures FirstInactive(s) == None
    {
    }

    /// emit: for each of the `count` requested particles take the first unused
    /// one and spawn it at (x, y) with the next drawn velocity; stop when the pool
    /// has no unused particle left.
    method Emit(x: real, y: real, count: nat, velocities: seq<Velocity>, life: real, color: string, size: real)
      requires count <= |velocities|
      modifies particles
      ensures particles[..] == Emitted(old(particles[..]), x, y, velocities[..count], life, color, size)
    {
      ghost var goal := Emitted(particles[..], x, y, velocities[..count], life, color, size);
      var i := 0;
      while i < count
        invariant 0 <= i <= count
        invariant Emitted(particles[..], x, y, velocities[i..count], life, color, size) == goal
      {
        var slot := FindInactive();
        if slot.None? {
          assert Emitted(particles[..], x, y, velocities[i..count], life, color, size) == particles[..];
          break;
        }
        var v := velocities[i];
        assert velocities[i..count][1..] == velocities[i + 1..count];
        particles[slot.value] := Spawned(x, y, v, life, color, size);
        i := i + 1;
      }
      if i == count {
        assert velocities[count..count] == [];
      }
    }

    /// update: age every particle of the pool in place.
    method Update(dt: real)
      modifies particles
      ensures forall i :: 0 <= i < particles.Length ==> particles[i] == Aged(old(particles[i]), dt)
      ensures ActiveCount(particles[..]) <= ActiveCount(old(particles[..]))
    {
      var i := 0;
      while i < particles.Length
        invariant 0 <= i <= particles.Length
        invariant forall j :: 0 <= j < i ==> particles[j] == Aged(old(particles[j]), dt)
        invariant forall j :: i <= j < particles.Length ==> particles[j] == old(particles[j])
      {
        particles[i] := Aged(particles[i], dt);
        i := i + 1;
      }
      ghost var s := old(particles[..]);
      AgingNeverActivates(s, dt);
      assert particles[..] == seq(|s|, k requires 0 <= k < |s| => Aged(s[k], dt));
    }
  }
}
