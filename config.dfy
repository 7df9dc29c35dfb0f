/**
 * The game's fixed constants (main.py lines 13-22), plus the literals that the
 * simulation code uses inline, given names here.
 */
module Config {
  const Width: int := 800            // WIDTH
  const GroundHeight: int := 350     // GROUND_HEIGHT
  const PlayerSize: int := 40        // PLAYER_SIZE
  const PlayerSpeed: int := 5        // PLAYER_SPEED
  const Gravity: int := 1            // GRAVITY
  const ObstacleWidth: int := 30     // OBSTACLE_WIDTH
  const ObstacleHeight: int := 60    // OBSTACLE_HEIGHT
  const MinGap: int := 300           // MIN_OBSTACLE_DISTANCE
  const MaxGap: int := 600           // MAX_OBSTACLE_DISTANCE

  /** The player's resting y: the top of a player standing on the ground. */
  const GroundY: int := GroundHeight - PlayerSize
  /** The vertical velocity a jump starts with (the literal -20 in Player.jump). */
  const JumpVelocity: int := -20
  /** Where a fresh player starts. */
  const StartX: int := 100
  /** The camera trails the player by this much. */
  const CameraLead: int := 100
  /** Obstacles further than this behind the camera are culled. */
  const CullMargin: int := 100
  /** New obstacles are added while fewer than this many are live. */
  const MaxLive: nat := 5
  /** The bounds of the random offset of the first obstacle beyond Width. */
  const MinSeed: int := 100
  const MaxSeed: int := 300
}
