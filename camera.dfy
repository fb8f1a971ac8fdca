/// updateCamera: the view follows the player horizontally with a dead zone of a
/// third of the view on either side, and is clamped to the level.
module Camera {

  /// The margin, on each side of the view, that the player may enter before the
  /// camera moves.
  function DeadZone(width: real): real { width / 3.0 }

  /// The follow step alone: the camera moves just far enough to bring the
  /// player back to the nearer edge of the band.
  function Follow(cameraX: real, playerX: real, width: real): real
  {
    var dz := DeadZone(width);
    if playerX > cameraX + width - dz then playerX - (width - dz)
    else if playerX < cameraX + dz then playerX - dz
    else cameraX
  }

  /// updateCamera: follow, then clamp below at 0 and then above at the level's
  /// width minus the view's (the first row's length in tiles gives the level's
  /// width).
  function Followed(cameraX: real, playerX: real, width: real, levelWidth: real): real
  {
    var f := Follow(cameraX, playerX, width);
    var low := if f < 0.0 then 0.0 else f;
    var maxX := levelWidth - width;
    if low > maxX then maxX else low
  }

  /// A player inside the band [cameraX + dz, cameraX + width - dz] does not move
  /// a camera that is already within the level.
  lemma StillInsideDeadZone(cameraX: real, playerX: real, width: real, levelWidth: real)
    requires cameraX + DeadZone(width) <= playerX <= cameraX + width - DeadZone(width)
    requires 0.0 <= cameraX <= levelWidth - width
    ensures Followed(cameraX, playerX, width, levelWidth) == cameraX
  {
  }

  /// The follow step always leaves the player inside the band of the new view.
  lemma FollowKeepsPlayerInBand(cameraX: real, playerX: real, width: real)
    requires width >= 0.0
    ensures var f := Follow(cameraX, playerX, width);
      f + DeadZone(width) <= playerX <= f + width - DeadZone(width)
  {
  }

  /// After the clamp the camera lies in [0, levelWidth - width] whenever the
  /// level is at least as wide as the view; when no clamp applied, the player is
  /// inside the band of the new view.
  lemma FollowedBounds(cameraX: real, playerX: real, width: real, levelWidth: real)
    requires 0.0 <= width <= levelWidth
    ensures var r := Followed(cameraX, playerX, width, levelWidth);
      0.0 <= r <= levelWidth - width &&
      (0.0 < r < levelWidth - width ==> r + DeadZone(width) <= playerX <= r + width - DeadZone(width))
  {
    FollowKeepsPlayerInBand(cameraX, playerX, width);
  }

  /// A level narrower than the view pins the camera at levelWidth - width,
  /// left of 0: the upper clamp is applied last and wins.
  lemma NarrowLevelPinsCamera(cameraX: real, playerX: real, width: real, levelWidth: real)
    requires levelWidth < width
    ensures Followed(cameraX, playerX, width, levelWidth) == levelWidth - width
  {
  }
}
