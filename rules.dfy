/// What Game promises across a whole frame and across the session, stated on
/// the value model of the game.
module GameRules {
  import opened Common
  import opened Geometry
  import opened Entities
  import opened PlayerModel
  import opened Levels
  import opened Effects
  import opened Simulation

  // ------------------------------------------------------- contact damage

  /// Some slime of `ss` overlaps the box.
  predicate Touches(b: Rect, ss: seq<SlimeState>)
  {
    exists j :: 0 <= j < |ss| && Overlaps(b, ss[j].Box())
  }

  /// A box touches a non-empty row of slimes exactly when it touches one of
  /// the earlier slimes or the last one.
  lemma TouchesSplit(b: Rect, ss: seq<SlimeState>)
    requires ss != []
    ensures Touches(b, ss) <==> Touches(b, ss[..|ss| - 1]) || Overlaps(b, ss[|ss| - 1].Box())
  {
    var init := ss[..|ss| - 1];
    if Touches(b, init) {
      var j :| 0 <= j < |init| && Overlaps(b, init[j].Box());
      assert init[j] == ss[j];
    }
    if Touches(b, ss) && !Overlaps(b, ss[|ss| - 1].Box()) {
      var j :| 0 <= j < |ss| && Overlaps(b, ss[j].Box());
      assert ss[j] == init[j];
    }
  }

  /// The contact pass in closed form: one contact's damage when the player
  /// touches any slime, and nothing otherwise. The first hit makes the player
  /// invincible (or dead), so the later ones are ignored, and damage never
  /// moves the player, so every later overlap test sees the same box.
  lemma {:induction false} ContactedClosedForm(v: Variant, p: PlayerState, ss: seq<SlimeState>)
    requires PlayerStateValid(p)
    ensures Contacted(v, p, ss) == if Touches(p.Box(), ss) then Damaged(v, p, ContactDamage) else p
  {
    if ss != [] {
      ContactedClosedForm(v, p, ss[..|ss| - 1]);
      ContactedStep(v, p, ss, |ss| - 1);
      assert ss[..|ss|] == ss;
      DamageIdempotent(v, p, ContactDamage, ContactDamage);
      TouchesSplit(p.Box(), ss);
    }
  }

  /// However many slimes the player touches in one collision pass, it takes
  /// exactly one contact's damage when it touches any, and none otherwise. So
  /// it loses at most one contact's worth of health, that loss leaves it
  /// invincible or dead, and an invincible or dead player is untouched.
  lemma ContactHurtsAtMostOnce(v: Variant, p: PlayerState, ss: seq<SlimeState>)
    requires PlayerStateValid(p)
    ensures Contacted(v, p, ss) ==
      if exists j :: 0 <= j < |ss| && Overlaps(p.Box(), ss[j].Box()) then Damaged(v, p, ContactDamage) else p
    ensures var r := Contacted(v, p, ss);
      r.vitals.health >= p.vitals.health - ContactDamage &&
      (r.vitals.health != p.vitals.health ==> r.vitals.isInvincible || r.vitals.isDead) &&
      (p.vitals.isInvincible || p.vitals.isDead ==> r.vitals == p.vitals)
  {
    ContactedClosedForm(v, p, ss);
  }

  // ------------------------------------------------------ handlePlayerAttack

  /// Each slime is struck on its own, and the kills counted are the slimes the
  /// blow reaches that are marked afterwards: never more than there are slimes,
  /// and only when some slime is marked after the blow.
  lemma {:induction false} StrikeCountsMarkedSlimes(ss: seq<SlimeState>, box: Rect, damage: real)
    ensures StrikeKills(ss, box, damage) <= |ss|
    ensures StrikeKills(ss, box, damage) > 0 ==>
      exists i :: 0 <= i < |ss| && Overlaps(box, ss[i].Box()) && Strike(ss, box, damage)[i].markedForDeletion
    ensures (forall i :: 0 <= i < |ss| ==> !Overlaps(box, ss[i].Box())) ==>
      StrikeKills(ss, box, damage) == 0 && Strike(ss, box, damage) == ss
  {
    if ss != [] {
      var init := ss[..|ss| - 1];
      StrikeCountsMarkedSlimes(init, box, damage);
      if StrikeKills(init, box, damage) > 0 {
        var i :| 0 <= i < |init| && Overlaps(box, init[i].Box()) && Strike(init, box, damage)[i].markedForDeletion;
        assert Strike(ss, box, damage)[i] == Strike(init, box, damage)[i];
      }
      if forall i :: 0 <= i < |ss| ==> !Overlaps(box, ss[i].Box()) {
        assert forall i :: 0 <= i < |init| ==> init[i] == ss[i];
        assert ss == init + [ss[|ss| - 1]];
      }
    }
  }

  /// A slime that is already marked and is struck again counts as another
  /// kill: the count asks only whether the slime is marked after the blow.
  lemma MarkedSlimeCountsAgain(s: SlimeState, box: Rect, damage: real)
    requires s.markedForDeletion && Overlaps(box, s.Box())
    ensures Kills(s, box, damage) && StrikeKills([s], box, damage) == 1
  {
    assert [s][..0] == [];
  }

  // -------------------------------------------------------------- loadLevel

  /// loadLevel past the last level only sets victory and gameOver. Otherwise
  /// it records the index, empties the fireballs, moves the camera to 0 and
  /// fills the level from the map: a platform for every digit 1-5, a slime for
  /// every E, an interactable for every S, W, A, * and F, and a new player on
  /// a P tile; with no P on the map a missing player is created at (100, 100)
  /// and an existing one is kept.
  lemma LoadLevelEffects(v: Variant, levels: seq<seq<string>>, w: World, index: nat, hop: (nat, nat) -> real)
    ensures var r := LoadedLevel(v, levels, w, index, hop);
      index >= |levels| ==> r == w.(session := w.session.(victory := true, gameOver := true))
    ensures var r := LoadedLevel(v, levels, w, index, hop);
      index < |levels| ==>
        var rows := levels[index];
        r.session == w.session.(currentLevel := index) && r.cameraX == 0.0 && r.trails == w.trails &&
        r.stage.projectiles == [] &&
        (forall p :: p in r.stage.platforms <==>
           exists y: nat, x: nat :: InGrid(rows, y, x) && IsPlatformTile(rows[y][x]) &&
             p == Platform(TileAt(y, x).x, TileAt(y, x).y, rows[y][x])) &&
        (forall s :: s in r.stage.slimes <==>
           exists y: nat, x: nat :: InGrid(rows, y, x) && rows[y][x] == 'E' &&
             s == NewSlime(TileAt(y, x).x, TileAt(y, x).y, hop(y, x))) &&
        (forall i :: i in r.stage.items <==>
           exists y: nat, x: nat :: InGrid(rows, y, x) && ItemKindOf(rows[y][x]).Some? &&
             i == NewItem(v, ItemKindOf(rows[y][x]).value, TileAt(y, x).x, TileAt(y, x).y)) &&
        ((exists y: nat, x: nat :: InGrid(rows, y, x) && rows[y][x] == 'P') ==>
           exists y: nat, x: nat :: InGrid(rows, y, x) && rows[y][x] == 'P' &&
             r.player == Some(NewPlayer(TileAt(y, x).x, TileAt(y, x).y))) &&
        ((forall y: nat, x: nat :: InGrid(rows, y, x) ==> rows[y][x] != 'P') ==>
           r.player == if w.player.None? then Some(NewPlayer(100.0, 100.0)) else w.player)
  {
    if index < |levels| {
      ScanPlacesEveryTile(v, levels[index], hop);
    }
  }

  // --------------------------------------------------------- interactables

  /// One interactable against the player, in the array the pass is walking: an
  /// apple is marked and heals 50 up to the maximum, a star is marked and gives
  /// a full heal with 1.5x speed and attack for 10 s, a spike deals 50 and
  /// stays, water does nothing; nothing happens without an overlap.
  lemma ItemEffects(v: Variant, levels: seq<seq<string>>, t: Touching, item: ItemState, i: nat, now: real,
                    hop: (nat, nat) -> real)
    requires WorldValid(t.w) && t.w.player.Some? && !t.reloaded && i < |t.w.stage.items|
    ensures var r := Touched(v, levels, t, item, i, now, hop);
      var p := t.w.player.value;
      var q := r.w.player.value;
      (!Overlaps(p.Box(), item.Box()) || item.kind == Water ==> r == t) &&
      (Overlaps(p.Box(), item.Box()) && item.kind == Apple ==>
         !r.reloaded && r.w.stage.items[i].markedForDeletion && q.vitals.health == Min(MaxHealth, p.vitals.health + 50.0)) &&
      (Overlaps(p.Box(), item.Box()) && item.kind == Star ==>
         !r.reloaded && r.w.stage.items[i].markedForDeletion &&
         (p.vitals.health >= 0.0 ==> q.vitals.health == MaxHealth) &&
         q.boost == Boost(BoostMultiplier, BoostMultiplier, now + StarDuration)) &&
      (Overlaps(p.Box(), item.Box()) && item.kind == Spike ==>
         r.w.stage == t.w.stage && q == Damaged(v, p, SpikeDamage)) &&
      (item.kind != Flag ==> r.w.session == t.w.session && r.w.stage.(items := t.w.stage.items) == t.w.stage)
  {
  }

  /// Touching a flag loads the next level: it is reloaded (the marks that
  /// follow fall on the old array) unless it was the last one, in which case
  /// the game is won and nothing else changes.
  lemma FlagLoadsNextLevel(v: Variant, levels: seq<seq<string>>, t: Touching, item: ItemState, i: nat, now: real,
                           hop: (nat, nat) -> real)
    requires WorldValid(t.w) && t.w.player.Some? && !t.reloaded && i < |t.w.stage.items|
    requires item.kind == Flag && Overlaps(t.w.player.value.Box(), item.Box())
    ensures var r := Touched(v, levels, t, item, i, now, hop);
      var next := t.w.session.currentLevel + 1;
      (next < |levels| ==> r.reloaded && r.w.session.currentLevel == next && r.w.cameraX == 0.0 &&
                           r.w.stage.projectiles == []) &&
      (next >= |levels| ==> !r.reloaded && r.w == t.w.(session := t.w.session.(victory := true, gameOver := true)))
  {
  }

  // ------------------------------------------------------------- one frame

  /// JogoLLMA: a frame that ends with the player below the view ends with the
  /// player dead and gameOver set, whether it fell this frame or had died
  /// before.
  lemma JogoLLMAFallEndsGame(levels: seq<seq<string>>, w: World, io: Inputs)
    requires Ready(levels, w) && io.pick < |AttackNames|
    ensures var r := Frame(JogoLLMA, levels, w, io);
      FellOut(r.player.value) ==> r.player.value.vitals.isDead && r.session.gameOver
  {
  }

  /// AtividadeJogoLLM: a fall kills the player but never ends the game, and
  /// nothing else does except winning.
  lemma AtividadeEndsOnlyByWinning(levels: seq<seq<string>>, w: World, io: Inputs)
    requires Ready(levels, w) && io.pick < |AttackNames|
    ensures var r := Frame(AtividadeJogoLLM, levels, w, io);
      r.session.gameOver && !w.session.gameOver ==> r.session.victory
  {
  }

  /// A frame that runs to its end leaves no marked slime, interactable or
  /// fireball behind; the only frames that stop early are those whose player
  /// is dead.
  lemma LivingPlayerSeesNoMarks(v: Variant, levels: seq<seq<string>>, w: World, io: Inputs)
    requires Ready(levels, w) && io.pick < |AttackNames| && !Frozen(v, w)
    ensures var r := Frame(v, levels, w, io);
      !r.player.value.vitals.isDead ==>
        (forall i :: 0 <= i < |r.stage.slimes| ==> !r.stage.slimes[i].markedForDeletion) &&
        (forall i :: 0 <= i < |r.stage.items| ==> !r.stage.items[i].markedForDeletion) &&
        (forall i :: 0 <= i < |r.stage.projectiles| ==> !r.stage.projectiles[i].markedForDeletion)
  {
  }

  /// The camera stays within the level from frame to frame.
  lemma CameraStaysInLevel(v: Variant, levels: seq<seq<string>>, w: World, io: Inputs)
    requires Ready(levels, w) && io.pick < |AttackNames| && CameraInLevel(levels, w)
    ensures CameraInLevel(levels, Frame(v, levels, w, io))
  {
    if !Frozen(v, w) {
      var turned := PlayerTurn(v, w.(trails := Faded(w.trails, io.dt)), io.keys, io.dt, io.now, io.pick);
      assert CameraInLevel(levels, turned);
      ContinuedKeepsCamera(v, levels, turned, io);
    }
  }

  /// The rest of the frame after the player's turn keeps the camera within
  /// the level: the early returns leave it alone and the end clamps it.
  lemma ContinuedKeepsCamera(v: Variant, levels: seq<seq<string>>, turned: World, io: Inputs)
    requires Ready(levels, turned) && CameraInLevel(levels, turned)
    ensures CameraInLevel(levels, Continued(v, levels, turned, io))
  {
    if !(v == JogoLLMA && turned.player.value.vitals.isDead) {
      var moved := SlimesAdvanced(TrailLeft(turned, io.trailRoll), io.dt, io.next);
      assert CameraInLevel(levels, moved);
    }
  }

  // ------------------------------------------------------------ the session

  /// handleInteraction starts a fresh game on level 0 from the menu or an end
  /// screen and is ignored while playing.
  lemma InteractionRestarts(levels: seq<seq<string>>, w: World, hop: (nat, nat) -> real)
    requires GameValid(JogoLLMA, levels, w)
    ensures var r := Interaction(levels, w, hop);
      (w.session.screen == Playing ==> r == w) &&
      (w.session.screen != Playing ==> r.session == Session(0, false, false, Playing) && Ready(levels, r))
  {
  }

  /// A JogoLLMA frame on the PLAYING screen moves to VICTORY once the game is
  /// won, to GAME_OVER once it is lost, and otherwise stays on PLAYING.
  lemma PlayingFrameReachesEndScreen(levels: seq<seq<string>>, w: World, io: Inputs)
    requires GameValid(JogoLLMA, levels, w) && io.pick < |AttackNames| && w.session.screen == Playing
    ensures var r := Tick(JogoLLMA, levels, w, io);
      r.session.screen == (if r.session.victory then VictoryScreen
                           else if r.session.gameOver then GameOverScreen else Playing)
  {
  }

  /// Runs of the animate loop over a sequence of frame inputs.
  function Ticks(v: Variant, levels: seq<seq<string>>, w: World, ios: seq<Inputs>): (r: World)
    requires GameValid(v, levels, w) && forall i :: 0 <= i < |ios| ==> ios[i].pick < |AttackNames|
    ensures GameValid(v, levels, r)
    decreases |ios|
  {
    if ios == [] then w else Ticks(v, levels, Tick(v, levels, w, ios[0]), ios[1..])
  }

  /// A finished game stays as it is: JogoLLMA's menu and end screens wait for
  /// an interaction, and AtividadeJogoLLM stops its loop at gameOver.
  predicate Waiting(v: Variant, w: World)
  {
    if v == JogoLLMA then w.session.screen != Playing else w.session.gameOver
  }

  lemma {:induction false} WaitingGameStaysPut(v: Variant, levels: seq<seq<string>>, w: World, ios: seq<Inputs>)
    requires GameValid(v, levels, w) && forall i :: 0 <= i < |ios| ==> ios[i].pick < |AttackNames|
    requires Waiting(v, w)
    ensures Ticks(v, levels, w, ios) == w
    decreases |ios|
  {
    if ios != [] {
      assert Tick(v, levels, w, ios[0]) == w;
      WaitingGameStaysPut(v, levels, w, ios[1..]);
    }
  }

  /// In AtividadeJogoLLM the guard at the top of update never fires: the loop
  /// runs update only while gameOver is unset.
  lemma AtividadeGuardUnreachable(levels: seq<seq<string>>, w: World, io: Inputs)
    requires GameValid(AtividadeJogoLLM, levels, w) && io.pick < |AttackNames| && !w.session.gameOver
    ensures !Frozen(AtividadeJogoLLM, w) && Tick(AtividadeJogoLLM, levels, w, io) == Frame(AtividadeJogoLLM, levels, w, io)
  {
  }
}
