/// The level maps and loadLevel's scan of them: every character of a map row
/// becomes an entity at (column * 64, row * 64).
module Levels {
  import opened Common
  import opened Animation
  import opened Entities

  // ------------------------------------------------------------------ maps

  /// Both games have three levels; their maps differ.
  const LevelCount: nat := 3

  /// `n` copies of `c`: the maps below write each run of four or more equal
  /// tiles this way.
  function Run(c: char, n: nat): (r: string)
    ensures |r| == n && forall i :: 0 <= i < n ==> r[i] == c
  {
    seq(n, _ => c)
  }

  const JogoLLMALevel1: seq<string> := [
    Run(' ', 106),
    Run(' ', 106),
    Run(' ', 106),
    Run(' ', 4) + "P" + Run(' ', 101),
    "   111" + Run(' ', 6) + "A" + Run(' ', 93),
    Run(' ', 16) + Run('3', 4) + Run(' ', 17) + "*" + Run(' ', 21) + "E" + Run(' ', 36) + "F" + Run(' ', 10),
    Run(' ', 34) + Run('1', 5) + Run(' ', 17) + Run('1', 7) + Run(' ', 33) + Run('1', 4) + Run(' ', 10),
    Run(' ', 7) + "E" + Run(' ', 8) + "E" + Run(' ', 18) + "S S S" + Run(' ', 12) + "A" + Run(' ', 24) + "E" + Run(' ', 29),
    Run(' ', 7) + Run('1', 4) + "  " + Run('1', 9) + Run(' ', 4) + "111" + Run(' ', 5) + Run('1', 7) + Run(' ', 9) + Run('1', 7) + Run(' ', 18) + Run('1', 7) + Run(' ', 18) + "111" + Run(' ', 8),
    Run(' ', 15) + "E" + Run(' ', 23) + "E" + Run(' ', 22) + "E" + Run(' ', 7) + "E" + Run(' ', 14) + "E" + Run(' ', 21),
    Run('1', 26) + Run(' ', 5) + Run('1', 60) + "WWW" + Run('1', 8)
  ]

  const JogoLLMALevel2: seq<string> := [
    Run(' ', 106),
    Run(' ', 106),
    Run(' ', 106),
    Run(' ', 4) + "P" + Run(' ', 101),
    "   111" + Run(' ', 6) + "A" + Run(' ', 93),
    Run(' ', 16) + Run('3', 4) + Run(' ', 17) + "*" + Run(' ', 21) + "E" + Run(' ', 46),
    Run(' ', 34) + Run('1', 5) + Run(' ', 17) + Run('1', 7) + Run(' ', 43),
    Run(' ', 7) + "E" + Run(' ', 8) + "E" + Run(' ', 27) + "A" + Run(' ', 24) + "E" + Run(' ', 29),
    Run(' ', 7) + Run('1', 4) + "  " + Run('1', 10) + Run(' ', 18) + Run('1', 7) + Run(' ', 18) + Run('1', 7) + Run(' ', 26),
    Run(' ', 21) + "E" + Run(' ', 12) + Run('S', 4) + Run(' ', 15) + "E" + Run(' ', 12) + "E" + Run(' ', 7) + "E" + Run(' ', 9) + "E" + Run(' ', 5) + "E" + Run(' ', 14) + "F" + Run(' ', 8),
    Run('1', 44) + Run(' ', 5) + Run('1', 37) + "   " + Run('1', 22)
  ]

  const JogoLLMALevel3: seq<string> := [
    Run(' ', 106),
    Run(' ', 106),
    Run(' ', 40) + "F" + Run(' ', 7) + "E" + Run(' ', 19) + "E" + Run(' ', 7) + "E" + Run(' ', 6) + "E" + Run(' ', 5) + "E" + Run(' ', 21),
    Run(' ', 4) + "P" + Run(' ', 32) + Run('1', 22) + "  " + Run('1', 34) + Run(' ', 17),
    "   111" + Run(' ', 6) + "A" + Run(' ', 81) + Run('1', 4) + Run(' ', 12),
    Run(' ', 16) + Run('3', 4) + Run(' ', 17) + "*" + Run(' ', 21) + "E" + Run(' ', 40) + "11" + Run(' ', 6),
    Run(' ', 34) + Run('1', 5) + Run(' ', 17) + Run('1', 7) + Run(' ', 33) + "11" + Run(' ', 10),
    Run(' ', 7) + "E" + Run(' ', 8) + "E" + Run(' ', 15) + "S S S S" + Run(' ', 12) + "A" + Run(' ', 24) + "E" + Run(' ', 29),
    Run(' ', 7) + Run('1', 16) + Run(' ', 9) + Run('1', 7) + Run(' ', 9) + Run('1', 7) + Run(' ', 18) + Run('1', 7) + Run(' ', 18) + "111" + Run(' ', 8),
    Run(' ', 60) + "E" + Run(' ', 7) + "E" + Run(' ', 14) + "E" + Run(' ', 22),
    Run('1', 7) + Run('W', 17) + Run('1', 81)
  ]

  const AtividadeLevel1: seq<string> := [
    Run(' ', 106),
    Run(' ', 106),
    Run(' ', 106),
    Run(' ', 4) + "P" + Run(' ', 101),
    "   111" + Run(' ', 6) + "A" + Run(' ', 93),
    Run(' ', 16) + Run('3', 4) + Run(' ', 17) + "*" + Run(' ', 21) + "E" + Run(' ', 46),
    Run(' ', 34) + Run('1', 5) + Run(' ', 17) + Run('1', 7) + Run(' ', 43),
    Run(' ', 7) + "E" + Run(' ', 8) + "E" + Run(' ', 15) + "S S S S" + Run(' ', 12) + "A" + Run(' ', 24) + "E" + Run(' ', 29),
    Run(' ', 7) + Run('1', 16) + Run(' ', 9) + Run('1', 7) + Run(' ', 9) + Run('1', 7) + Run(' ', 18) + Run('1', 7) + Run(' ', 26),
    Run(' ', 60) + "E" + Run(' ', 7) + "E" + Run(' ', 14) + "E" + Run(' ', 14) + "F" + Run(' ', 8),
    Run('1', 106)
  ]

  const AtividadeLevel2: seq<string> := [
    Run(' ', 106),
    Run(' ', 106),
    Run(' ', 4) + "P" + Run(' ', 101),
    "   111" + Run(' ', 33) + "E" + Run(' ', 66),
    Run(' ', 15) + "A" + Run(' ', 20) + Run('1', 7) + Run(' ', 63),
    Run(' ', 10) + "E" + Run(' ', 11) + "S S S" + Run(' ', 36) + "E" + Run(' ', 42),
    Run(' ', 6) + Run('1', 10) + Run(' ', 6) + Run('1', 5) + Run(' ', 33) + Run('1', 7) + Run(' ', 39),
    Run(' ', 34) + Run('1', 6) + Run(' ', 36) + "E" + Run(' ', 29),
    Run(' ', 46) + "E" + Run(' ', 26) + Run('1', 7) + Run(' ', 26),
    Run(' ', 22) + "*" + Run(' ', 20) + Run('1', 7) + Run(' ', 56),
    "   " + Run('1', 6) + "   " + Run('1', 13) + "   " + Run('1', 14) + Run(' ', 64),
    Run(' ', 49) + "E" + Run(' ', 8) + "E" + Run(' ', 8) + "E" + Run(' ', 18) + "E" + Run(' ', 10) + "F" + Run(' ', 8),
    Run('1', 106)
  ]

  const AtividadeLevel3: seq<string> := [
    Run(' ', 106),
    "  P" + Run(' ', 103),
    " 111" + Run(' ', 102),
    Run(' ', 13) + Run('1', 6) + Run(' ', 24) + "E" + Run(' ', 62),
    Run(' ', 8) + "E" + Run(' ', 16) + "S S" + Run(' ', 12) + Run('1', 7) + Run(' ', 17) + "E" + Run(' ', 41),
    Run(' ', 6) + Run('1', 5) + Run(' ', 14) + Run('1', 5) + Run(' ', 17) + "*" + Run(' ', 13) + Run('1', 7) + Run(' ', 38),
    Run(' ', 45) + Run('1', 5) + Run(' ', 28) + "E" + Run(' ', 27),
    Run(' ', 56) + "A" + Run(' ', 18) + Run('1', 7) + Run(' ', 24),
    Run('1', 7) + "   " + Run('1', 6) + "  " + Run('1', 10) + Run(' ', 7) + "E" + Run(' ', 25) + Run('1', 7) + Run(' ', 26) + "E" + Run(' ', 11),
    Run(' ', 32) + Run('1', 7) + Run(' ', 7) + "E" + Run(' ', 44) + Run('1', 7) + Run(' ', 8),
    Run(' ', 55) + "E" + Run(' ', 18) + "E" + Run(' ', 14) + "E" + Run(' ', 12) + "F   ",
    Run('1', 106)
  ]

  function JogoLLMAMaps(): seq<seq<string>> { [JogoLLMALevel1, JogoLLMALevel2, JogoLLMALevel3] }

  function AtividadeMaps(): seq<seq<string>> { [AtividadeLevel1, AtividadeLevel2, AtividadeLevel3] }

  /// Game.levels.
  function LevelMaps(v: Variant): seq<seq<string>>
  {
    if v == JogoLLMA then JogoLLMAMaps() else AtividadeMaps()
  }

  /// Both games' maps: three levels, none of them empty.
  ghost predicate HasLevels(levels: seq<seq<string>>)
  {
    |levels| > 0 && forall i :: 0 <= i < |levels| ==> |levels[i]| > 0
  }

  /// Each game has three levels, every map has at least one row,
  /// and every first row is 106 tiles wide (6784 pixels, wider than the view).
  lemma LevelMapsHaveRows(v: Variant)
    ensures |LevelMaps(v)| == LevelCount && HasLevels(LevelMaps(v))
    ensures forall i :: 0 <= i < |LevelMaps(v)| ==> |LevelMaps(v)[i][0]| == 106
  {
  }

  // ----------------------------------------------------------------- tiles

  /// The `/[1-5]/` test: the five platform tiles.
  predicate IsPlatformTile(c: char) { '1' <= c <= '5' }

  /// The interactable each of S, W, A, * and F stands for.
  function ItemKindOf(c: char): Option<ItemKind>
  {
    if c == 'S' then Some(Spike)
    else if c == 'W' then Some(Water)
    else if c == 'A' then Some(Apple)
    else if c == '*' then Some(Star)
    else if c == 'F' then Some(Flag)
    else None
  }

  datatype Point = Point(x: real, y: real)

  /// Where the tile in row r, column c is placed.
  function TileAt(r: nat, c: nat): Point
  {
    Point(c as real * TileSize, r as real * TileSize)
  }

  /// What a scan has produced so far: the three collections in push order and
  /// where the last P was seen. `hop` supplies each new slime's random wait,
  /// by the row and column of its tile.
  datatype Loaded = Loaded(platforms: seq<Platform>, slimes: seq<SlimeState>, items: seq<ItemState>,
                           playerAt: Option<Point>)

  const Nothing: Loaded := Loaded([], [], [], None)

  /// The body of loadLevel's inner loop for one tile.
  function Placed(v: Variant, acc: Loaded, tile: char, r: nat, c: nat, hop: (nat, nat) -> real): Loaded
  {
    var p := TileAt(r, c);
    if IsPlatformTile(tile) then acc.(platforms := acc.platforms + [Platform(p.x, p.y, tile)])
    else if tile == 'P' then acc.(playerAt := Some(p))
    else if tile == 'E' then acc.(slimes := acc.slimes + [NewSlime(p.x, p.y, hop(r, c))])
    else match ItemKindOf(tile)
      case Some(k) => acc.(items := acc.items + [NewItem(v, k, p.x, p.y)])
      case None => acc
  }

  /// The first n tiles of row r, scanned left to right after `acc`.
  function ScanRow(v: Variant, acc: Loaded, rows: seq<string>, r: nat, n: nat, hop: (nat, nat) -> real): Loaded
    requires r < |rows| && n <= |rows[r]|
  {
    if n == 0 then acc else Placed(v, ScanRow(v, acc, rows, r, n - 1, hop), rows[r][n - 1], r, n - 1, hop)
  }

  /// The first k rows, top to bottom.
  function ScanRows(v: Variant, rows: seq<string>, k: nat, hop: (nat, nat) -> real): Loaded
    requires k <= |rows|
  {
    if k == 0 then Nothing else ScanRow(v, ScanRows(v, rows, k - 1, hop), rows, k - 1, |rows[k - 1]|, hop)
  }

  /// Everything loadLevel builds from one map.
  function Scan(v: Variant, rows: seq<string>, hop: (nat, nat) -> real): Loaded
  {
    ScanRows(v, rows, |rows|, hop)
  }

  // ---------------------------------------------------------------- lemmas

  /// A cell of the map.
  predicate InGrid(rows: seq<string>, r: nat, c: nat) { r < |rows| && c < |rows[r]| }

  /// Cell (r, c) comes before cell (k, n) in loadLevel's row-major order.
  predicate Before(r: nat, c: nat, k: nat, n: nat) { r < k || (r == k && c < n) }

  /// `l` holds, for every tile scanned before cell (k, n), the entity the tile
  /// stands for at its place, and nothing else; it has seen a player exactly
  /// when a P was scanned. One predicate per collection.
  ghost predicate CoversPlatforms(l: Loaded, rows: seq<string>, k: nat, n: nat)
  {
    forall p :: p in l.platforms <==>
      exists r: nat, c: nat :: InGrid(rows, r, c) && Before(r, c, k, n) && IsPlatformTile(rows[r][c]) &&
        p == Platform(TileAt(r, c).x, TileAt(r, c).y, rows[r][c])
  }

  ghost predicate CoversSlimes(l: Loaded, rows: seq<string>, hop: (nat, nat) -> real, k: nat, n: nat)
  {
    forall s :: s in l.slimes <==>
      exists r: nat, c: nat :: InGrid(rows, r, c) && Before(r, c, k, n) && rows[r][c] == 'E' &&
        s == NewSlime(TileAt(r, c).x, TileAt(r, c).y, hop(r, c))
  }

  ghost predicate CoversItems(v: Variant, l: Loaded, rows: seq<string>, k: nat, n: nat)
  {
    forall i :: i in l.items <==>
      exists r: nat, c: nat :: InGrid(rows, r, c) && Before(r, c, k, n) && ItemKindOf(rows[r][c]).Some? &&
        i == NewItem(v, ItemKindOf(rows[r][c]).value, TileAt(r, c).x, TileAt(r, c).y)
  }

  ghost predicate CoversPlayer(l: Loaded, rows: seq<string>, k: nat, n: nat)
  {
    (l.playerAt.Some? <==> exists r: nat, c: nat :: InGrid(rows, r, c) && Before(r, c, k, n) && rows[r][c] == 'P') &&
    (l.playerAt.Some? ==>
       exists r: nat, c: nat :: InGrid(rows, r, c) && Before(r, c, k, n) && rows[r][c] == 'P' && l.playerAt.value == TileAt(r, c))
  }

  ghost predicate Covers(v: Variant, l: Loaded, rows: seq<string>, hop: (nat, nat) -> real, k: nat, n: nat)
  {
    CoversPlatforms(l, rows, k, n) && CoversSlimes(l, rows, hop, k, n) &&
    CoversItems(v, l, rows, k, n) && CoversPlayer(l, rows, k, n)
  }

  /// Cell (k, n) is the one cell that the step from n to n + 1 adds.
  lemma NextCell(rows: seq<string>, k: nat, n: nat)
    requires k < |rows| && n < |rows[k]|
    ensures forall r: nat, c: nat :: Before(r, c, k, n + 1) <==> Before(r, c, k, n) || (r == k && c == n)
  {
    forall r: nat, c: nat
      ensures Before(r, c, k, n + 1) <==> Before(r, c, k, n) || (r == k && c == n)
    {
    }
  }

  /// Scanning the rest of row k, one tile at a time, keeps the scan covering
  /// exactly the tiles before the current cell; one lemma per collection.
  lemma {:induction false} ScanRowPlatforms(v: Variant, acc: Loaded, rows: seq<string>, k: nat, n: nat,
                                            hop: (nat, nat) -> real)
    requires k < |rows| && n <= |rows[k]| && CoversPlatforms(acc, rows, k, 0)
    ensures CoversPlatforms(ScanRow(v, acc, rows, k, n, hop), rows, k, n)
  {
    if n > 0 {
      ScanRowPlatforms(v, acc, rows, k, n - 1, hop);
      NextCell(rows, k, n - 1);
      assert InGrid(rows, k, n - 1);
    }
  }

  lemma {:induction false} ScanRowSlimes(v: Variant, acc: Loaded, rows: seq<string>, k: nat, n: nat,
                                         hop: (nat, nat) -> real)
    requires k < |rows| && n <= |rows[k]| && CoversSlimes(acc, rows, hop, k, 0)
    ensures CoversSlimes(ScanRow(v, acc, rows, k, n, hop), rows, hop, k, n)
  {
    if n > 0 {
      ScanRowSlimes(v, acc, rows, k, n - 1, hop);
      NextCell(rows, k, n - 1);
      assert InGrid(rows, k, n - 1);
    }
  }

  lemma {:induction false} ScanRowItems(v: Variant, acc: Loaded, rows: seq<string>, k: nat, n: nat,
                                        hop: (nat, nat) -> real)
    requires k < |rows| && n <= |rows[k]| && CoversItems(v, acc, rows, k, 0)
    ensures CoversItems(v, ScanRow(v, acc, rows, k, n, hop), rows, k, n)
  {
    if n > 0 {
      ScanRowItems(v, acc, rows, k, n - 1, hop);
      NextCell(rows, k, n - 1);
      assert InGrid(rows, k, n - 1);
    }
  }

  lemma {:induction false} ScanRowPlayer(v: Variant, acc: Loaded, rows: seq<string>, k: nat, n: nat,
                                         hop: (nat, nat) -> real)
    requires k < |rows| && n <= |rows[k]| && CoversPlayer(acc, rows, k, 0)
    ensures CoversPlayer(ScanRow(v, acc, rows, k, n, hop), rows, k, n)
  {
    if n > 0 {
      ScanRowPlayer(v, acc, rows, k, n - 1, hop);
      NextCell(rows, k, n - 1);
      assert InGrid(rows, k, n - 1);
    }
  }

  /// Row k is finished: the cells before (k - 1, |row k - 1|) are those before (k, 0).
  lemma RowDone(rows: seq<string>, k: nat)
    requires 0 < k <= |rows|
    ensures forall r: nat, c: nat :: InGrid(rows, r, c) ==>
      (Before(r, c, k, 0) <==> Before(r, c, k - 1, |rows[k - 1]|))
  {
  }

  /// Scanning the first k rows covers exactly their tiles.
  lemma {:induction false} ScanRowsCovers(v: Variant, rows: seq<string>, k: nat, hop: (nat, nat) -> real)
    requires k <= |rows|
    ensures Covers(v, ScanRows(v, rows, k, hop), rows, hop, k, 0)
  {
    if k > 0 {
      ScanRowsCovers(v, rows, k - 1, hop);
      var acc := ScanRows(v, rows, k - 1, hop);
      var n := |rows[k - 1]|;
      ScanRowPlatforms(v, acc, rows, k - 1, n, hop);
      ScanRowSlimes(v, acc, rows, k - 1, n, hop);
      ScanRowItems(v, acc, rows, k - 1, n, hop);
      ScanRowPlayer(v, acc, rows, k - 1, n, hop);
      RowDone(rows, k);
    }
  }

  /// loadLevel's scan of a whole map: a platform for every digit 1-5, a slime
  /// for every E, an interactable for every S, W, A, * and F, each at
  /// (column * 64, row * 64), and nothing else; a player position exactly when
  /// the map has a P, and then at one of the P tiles.
  lemma ScanPlacesEveryTile(v: Variant, rows: seq<string>, hop: (nat, nat) -> real)
    ensures var l := Scan(v, rows, hop);
      (forall p :: p in l.platforms <==>
         exists r: nat, c: nat :: InGrid(rows, r, c) && IsPlatformTile(rows[r][c]) &&
           p == Platform(TileAt(r, c).x, TileAt(r, c).y, rows[r][c])) &&
      (forall s :: s in l.slimes <==>
         exists r: nat, c: nat :: InGrid(rows, r, c) && rows[r][c] == 'E' &&
           s == NewSlime(TileAt(r, c).x, TileAt(r, c).y, hop(r, c))) &&
      (forall i :: i in l.items <==>
         exists r: nat, c: nat :: InGrid(rows, r, c) && ItemKindOf(rows[r][c]).Some? &&
           i == NewItem(v, ItemKindOf(rows[r][c]).value, TileAt(r, c).x, TileAt(r, c).y)) &&
      (l.playerAt.Some? <==> exists r: nat, c: nat :: InGrid(rows, r, c) && rows[r][c] == 'P') &&
      (l.playerAt.Some? ==> exists r: nat, c: nat :: InGrid(rows, r, c) && rows[r][c] == 'P' && l.playerAt.value == TileAt(r, c))
  {
    ScanRowsCovers(v, rows, |rows|, hop);
  }
}
