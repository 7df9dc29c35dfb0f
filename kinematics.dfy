/**
 * The player (class Player in main.py): horizontal running and a jump under
 * constant gravity. PlayerState is the value the Player object holds; the
 * functions Jumped and Updated say what Player.Jump and Player.Update do to it.
 */
module Kinematics {
  import opened Config
  import opened Geometry

  datatype PlayerState = PlayerState(x: int, y: int, jumping: bool, jumpVel: int, moving: bool)

  /** A freshly constructed player: on the ground at StartX, running. */
  function InitialPlayer(): PlayerState {
    PlayerState(StartX, GroundY, false, 0, true)
  }

  /** The effect of Player.jump. */
  function Jumped(s: PlayerState): PlayerState {
    if !s.jumping then s.(jumping := true, jumpVel := JumpVelocity) else s
  }

  /** The effect of Player.update. */
  function Updated(s: PlayerState): PlayerState {
    var x := if s.moving then s.x + PlayerSpeed else s.x;
    if !s.jumping then s.(x := x)
    else
      var y := s.y + s.jumpVel;
      if y >= GroundY then s.(x := x, y := GroundY, jumping := false, jumpVel := 0)
      else s.(x := x, y := y, jumpVel := s.jumpVel + Gravity)
  }

  /** n successive updates. */
  function Updates(s: PlayerState, n: nat): PlayerState {
    if n == 0 then s else Updated(Updates(s, n - 1))
  }

  /** Player.get_rect as a value. */
  function PlayerBox(s: PlayerState): Rect {
    Rect(s.x, s.y, PlayerSize, PlayerSize)
  }

  /** The player stands on the ground, at rest vertically. */
  predicate Grounded(s: PlayerState) {
    !s.jumping && s.y == GroundY && s.jumpVel == 0
  }

  /** Number of updates a jump stays in the air before the landing update. */
  const AirborneUpdates: nat := 40

  /** The height k updates after a jump from the ground: each update adds the velocity, then gravity. */
  function ArcY(k: nat): int {
    if k == 0 then GroundY else ArcY(k - 1) + JumpVelocity + Gravity * (k - 1)
  }

  /**
   * The physical invariant: never below the ground; on the ground exactly when
   * not jumping; and when jumping, on the jump arc, k = jumpVel + 20 updates
   * into it.
   */
  predicate PhysInv(s: PlayerState) {
    s.y <= GroundY &&
    (!s.jumping ==> s.y == GroundY && s.jumpVel == 0) &&
    (s.jumping ==>
       0 <= s.jumpVel - JumpVelocity <= AirborneUpdates &&
       s.y == ArcY(s.jumpVel - JumpVelocity))
  }

  /** Twice the arc height in closed form: 2 y = 620 - 41 k + k^2. */
  lemma {:induction false} ArcClosedForm(k: nat)
    ensures 2 * ArcY(k) == 620 - 41 * k + k * k
  {
    assert GroundY == 310 && JumpVelocity == -20 && Gravity == 1;
    if k > 0 {
      ArcClosedForm(k - 1);
      assert k * k == (k - 1) * (k - 1) + 2 * k - 1;
    }
  }

  /** The arc is strictly above the ground between take-off and landing, and back on it after 41 updates. */
  lemma ArcAboveGround(k: nat)
    ensures ArcY(0) == GroundY
    ensures 1 <= k <= AirborneUpdates ==> ArcY(k) < GroundY
    ensures ArcY(AirborneUpdates + 1) == GroundY
  {
    ArcClosedForm(k);
    ArcClosedForm(AirborneUpdates + 1);
    if 1 <= k <= AirborneUpdates {
      assert 2 * (GroundY - ArcY(k)) == k * (41 - k);
      assert k * (41 - k) >= 41 - k;
    }
  }

  /** A product of two positive integers is positive. */
  lemma ProductPositive(a: int, b: int)
    requires a >= 1 && b >= 1
    ensures a * b >= 1
  {
    assert a * b == (a - 1) * b + b;
    assert (a - 1) * b >= 0;
  }

  /** (k - 20)(k - 21), the doubled height above the peak, is never negative and is zero only at 20 and 21. */
  lemma PeakFactor(k: int)
    ensures (k - 20) * (k - 21) == k * k - 41 * k + 420
    ensures (k - 20) * (k - 21) >= 0
    ensures (k - 20) * (k - 21) == 0 <==> k == 20 || k == 21
  {
    var a, b := k - 20, k - 21;
    assert a * b == k * k - 41 * k + 420 by {
      assert a * b == k * b - 20 * b;
      assert k * b == k * k - 21 * k;
    }
    if k <= 19 {
      assert a * b >= 1 by {
        ProductPositive(-a, -b);
        assert a * b == (-a) * (-b);
      }
    } else if k >= 22 {
      ProductPositive(a, b);
    }
  }

  /** The top of the jump is y == 100, reached after exactly the 20th and 21st updates. */
  lemma ArcPeak(k: nat)
    ensures ArcY(k) >= 100
    ensures ArcY(k) == 100 <==> k == 20 || k == 21
  {
    ArcClosedForm(k);
    PeakFactor(k);
  }

  /** Every jump state satisfies 100 <= y <= 310. */
  lemma PhysInvBounds(s: PlayerState)
    requires PhysInv(s)
    ensures 100 <= s.y <= GroundY
  {
    if s.jumping {
      ArcPeak(s.jumpVel - JumpVelocity);
    }
  }

  /** A fresh player satisfies the invariant. */
  lemma InitialPhysInv()
    ensures PhysInv(InitialPlayer()) && Grounded(InitialPlayer())
  {
  }

  /** jump, update and setting `moving` all keep the physical invariant. */
  lemma PhysInvPreserved(s: PlayerState, b: bool)
    requires PhysInv(s)
    ensures PhysInv(Jumped(s))
    ensures PhysInv(Updated(s))
    ensures PhysInv(s.(moving := b))
  {
    if s.jumping {
      var k := s.jumpVel - JumpVelocity;
      ArcAboveGround(k + 1);
      if k == AirborneUpdates {
        assert s.y + s.jumpVel == ArcY(k + 1);
      }
    }
  }

  /** No double jump: jump changes only jumping and jumpVel, and only on the ground; a second jump does nothing. */
  lemma JumpOnce(s: PlayerState)
    ensures s.jumping ==> Jumped(s) == s
    ensures !s.jumping ==> Jumped(s) == s.(jumping := true, jumpVel := JumpVelocity)
    ensures Jumped(Jumped(s)) == Jumped(s)
  {
  }

  /** update advances x by PlayerSpeed exactly when moving, and never changes moving. */
  lemma UpdateRuns(s: PlayerState)
    ensures Updated(s).x == if s.moving then s.x + PlayerSpeed else s.x
    ensures Updated(s).moving == s.moving
    ensures !s.jumping ==> Updated(s) == s.(x := Updated(s).x)
  {
  }

  /** Horizontal distance covered by k updates. */
  function Advance(moving: bool, k: nat): int {
    if moving then PlayerSpeed * k else 0
  }

  /** k <= 40 updates after a jump from the ground, the player is airborne on the arc. */
  lemma {:induction false} JumpArc(g: PlayerState, k: nat)
    requires Grounded(g)
    requires k <= AirborneUpdates
    ensures Updates(Jumped(g), k) ==
      PlayerState(g.x + Advance(g.moving, k), ArcY(k), true, JumpVelocity + k, g.moving)
  {
    if k > 0 {
      JumpArc(g, k - 1);
      ArcAboveGround(k);
    }
  }

  /** Update 41 after a jump from the ground lands the player, grounded again. */
  lemma JumpLands(g: PlayerState)
    requires Grounded(g)
    ensures Updates(Jumped(g), AirborneUpdates + 1) == g.(x := g.x + Advance(g.moving, AirborneUpdates + 1))
  {
    JumpArc(g, AirborneUpdates);
    ArcAboveGround(AirborneUpdates);
  }

  /** The whole jump: airborne for updates 1..40, lowest y == 100 only after updates 20 and 21, landed after 41. */
  lemma JumpProfile(g: PlayerState, k: nat)
    requires Grounded(g)
    requires 1 <= k <= AirborneUpdates + 1
    ensures Updates(Jumped(g), k).jumping <==> k <= AirborneUpdates
    ensures Updates(Jumped(g), k).y >= 100
    ensures Updates(Jumped(g), k).y == 100 <==> k == 20 || k == 21
    ensures k == AirborneUpdates + 1 ==> Grounded(Updates(Jumped(g), k))
  {
    if k <= AirborneUpdates {
      JumpArc(g, k);
      ArcPeak(k);
    } else {
      JumpLands(g);
    }
  }

  /** The player object. */
  class Player {
    var x: int
    var y: int
    const width: nat := PlayerSize
    const height: nat := PlayerSize
    var jumping: bool
    var jumpVel: int
    var moving: bool

    /** The player's value. */
    function State(): PlayerState
      reads this
    {
      PlayerState(x, y, jumping, jumpVel, moving)
    }

    constructor ()
      ensures State() == InitialPlayer()
    {
      x := StartX;
      y := GroundHeight - PlayerSize;
      jumping := false;
      jumpVel := 0;
      moving := true;
    }

    method Jump()
      modifies this
      ensures State() == Jumped(old(State()))
    {
      if !jumping {
        jumping := true;
        jumpVel := JumpVelocity;
      }
    }

    method Update()
      modifies this
      ensures State() == Updated(old(State()))
    {
      if moving {
        x := x + PlayerSpeed;
      }
      if jumping {
        y := y + jumpVel;
        jumpVel := jumpVel + Gravity;
        if y >= GroundHeight - PlayerSize {
          y := GroundHeight - PlayerSize;
          jumping := false;
          jumpVel := 0;
        }
      }
    }

    function GetRect(): (r: Rect)
      reads this
      ensures r == PlayerBox(State())
    {
      Rect(x, y, width, height)
    }
  }
}
