/**
 * The obstacle stream (class Obstacle and the obstacle list of main.py):
 * culling behind the camera, replenishing ahead, and the collision scan.
 */
module World {
  import opened Config
  import opened Geometry
  import opened Kinematics

  /** An obstacle; its y, width and height are the same for all, so only x varies. */
  datatype Obstacle = Obstacle(x: int)

  /** Obstacle.get_rect as a value: standing on the ground. */
  function ObstacleBox(o: Obstacle): (r: Rect)
    ensures r.left == o.x && r.width == ObstacleWidth && r.height == ObstacleHeight
    ensures r.top + r.height == GroundHeight
  {
    Rect(o.x, GroundHeight - ObstacleHeight, ObstacleWidth, ObstacleHeight)
  }

  /** The list of a new session: one obstacle Width + seed ahead of the origin. */
  function InitialObstacles(seed: int): (obs: seq<Obstacle>)
    requires MinSeed <= seed <= MaxSeed
    ensures |obs| == 1 && Width + MinSeed <= obs[0].x <= Width + MaxSeed
  {
    [Obstacle(Width + seed)]
  }

  /** Consecutive obstacles are between MinGap and MaxGap apart. */
  predicate WellSpaced(obs: seq<Obstacle>) {
    forall i :: 0 < i < |obs| ==> MinGap <= obs[i].x - obs[i - 1].x <= MaxGap
  }

  /** Obstacle positions strictly increase along the list. */
  predicate Increasing(obs: seq<Obstacle>) {
    forall i, j :: 0 <= i < j < |obs| ==> obs[i].x < obs[j].x
  }

  function Last(obs: seq<Obstacle>): Obstacle
    requires |obs| > 0
  {
    obs[|obs| - 1]
  }

  /** Well-spaced lists are strictly increasing. */
  lemma {:induction false} SpacedIncreasing(obs: seq<Obstacle>)
    requires WellSpaced(obs)
    ensures Increasing(obs)
    decreases |obs|
  {
    if |obs| > 1 {
      var init := obs[..|obs| - 1];
      assert WellSpaced(init) by {
        forall i | 0 < i < |init|
          ensures MinGap <= init[i].x - init[i - 1].x <= MaxGap
        {
          assert init[i] == obs[i] && init[i - 1] == obs[i - 1];
        }
      }
      SpacedIncreasing(init);
      forall i, j | 0 <= i < j < |obs| ensures obs[i].x < obs[j].x {
        if j < |obs| - 1 {
          assert init[i] == obs[i] && init[j] == obs[j];
        } else if i < j - 1 {
          assert init[i] == obs[i] && init[j - 1] == obs[j - 1];
        }
      }
    }
  }

  /** In a well-spaced list the last obstacle is at least MinGap per gap beyond the first. */
  lemma {:induction false} SpacedSpread(obs: seq<Obstacle>)
    requires |obs| > 0 && WellSpaced(obs)
    ensures Last(obs).x - obs[0].x >= MinGap * (|obs| - 1)
    decreases |obs|
  {
    if |obs| > 1 {
      var init := obs[..|obs| - 1];
      assert WellSpaced(init) by {
        forall i | 0 < i < |init|
          ensures MinGap <= init[i].x - init[i - 1].x <= MaxGap
        {
          assert init[i] == obs[i] && init[i - 1] == obs[i - 1];
        }
      }
      SpacedSpread(init);
      assert Last(init) == obs[|obs| - 2] && init[0] == obs[0];
    }
  }

  /** The obstacles the cull keeps: those whose left edge is not below `limit`, in order. */
  function Survivors(obs: seq<Obstacle>, limit: int): seq<Obstacle>
    decreases |obs|
  {
    if obs == [] then []
    else
      var kept := Survivors(obs[..|obs| - 1], limit);
      if Last(obs).x < limit then kept else kept + [Last(obs)]
  }

  /** The cull keeps exactly the obstacles with x >= limit. */
  lemma {:induction false} SurvivorsMembers(obs: seq<Obstacle>, limit: int)
    ensures forall o :: o in Survivors(obs, limit) <==> o in obs && o.x >= limit
    decreases |obs|
  {
    if obs != [] {
      var init := obs[..|obs| - 1];
      SurvivorsMembers(init, limit);
      assert obs == init + [Last(obs)];
    }
  }

  /** The cull works piecewise, so it keeps the survivors' relative order. */
  lemma {:induction false} SurvivorsAppend(a: seq<Obstacle>, b: seq<Obstacle>, limit: int)
    ensures Survivors(a + b, limit) == Survivors(a, limit) + Survivors(b, limit)
    decreases |b|
  {
    if b == [] {
      assert a + b == a;
    } else {
      var binit := b[..|b| - 1];
      assert (a + b)[..|a + b| - 1] == a + binit;
      assert Last(a + b) == Last(b);
      SurvivorsAppend(a, binit, limit);
    }
  }

  /** On an increasing list the cull removes a prefix: the survivors are a suffix. */
  lemma {:induction false} SurvivorsSuffix(obs: seq<Obstacle>, limit: int)
    requires Increasing(obs)
    ensures |Survivors(obs, limit)| <= |obs|
    ensures Survivors(obs, limit) == obs[|obs| - |Survivors(obs, limit)|..]
    decreases |obs|
  {
    if obs != [] {
      var init := obs[..|obs| - 1];
      assert Increasing(init) by {
        forall i, j | 0 <= i < j < |init| ensures init[i].x < init[j].x {
          assert init[i] == obs[i] && init[j] == obs[j];
        }
      }
      SurvivorsSuffix(init, limit);
      var kept := Survivors(init, limit);
      if Last(obs).x < limit {
        SurvivorsMembers(init, limit);
      } else {
        assert obs[|obs| - |kept| - 1..] == init[|init| - |kept|..] + [Last(obs)];
      }
    }
  }

  /** A suffix of a well-spaced list is well spaced. */
  lemma SuffixWellSpaced(obs: seq<Obstacle>, k: nat)
    requires WellSpaced(obs) && k <= |obs|
    ensures WellSpaced(obs[k..])
  {
    var s := obs[k..];
    forall i | 0 < i < |s|
      ensures MinGap <= s[i].x - s[i - 1].x <= MaxGap
    {
      assert s[i] == obs[k + i] && s[i - 1] == obs[k + i - 1];
    }
  }

  /** The cull of a well-spaced list is well spaced, and keeps the last obstacle if that is not behind the limit. */
  lemma CullKeepsSpacing(obs: seq<Obstacle>, limit: int)
    requires WellSpaced(obs)
    ensures WellSpaced(Survivors(obs, limit))
    ensures |obs| > 0 && Last(obs).x >= limit ==>
      |Survivors(obs, limit)| > 0 && Last(Survivors(obs, limit)) == Last(obs)
    ensures forall o :: o in Survivors(obs, limit) ==> o.x >= limit
  {
    SpacedIncreasing(obs);
    SurvivorsSuffix(obs, limit);
    SurvivorsMembers(obs, limit);
    SuffixWellSpaced(obs, |obs| - |Survivors(obs, limit)|);
    if |obs| > 0 && Last(obs).x >= limit {
      assert Last(obs) in Survivors(obs, limit);
    }
  }

  /** The replenish step: while fewer than MaxLive remain, one obstacle `gap` beyond the last. */
  function Replenished(obs: seq<Obstacle>, gap: int): seq<Obstacle>
    requires |obs| > 0
  {
    if |obs| < MaxLive then obs + [Obstacle(Last(obs).x + gap)] else obs
  }

  /**
   * Replenishing adds exactly one obstacle iff fewer than MaxLive are live,
   * keeps the list well spaced and at most MaxLive long, and puts the new
   * obstacle beyond all others.
   */
  lemma ReplenishSpec(obs: seq<Obstacle>, gap: int)
    requires |obs| > 0 && WellSpaced(obs) && |obs| <= MaxLive
    requires MinGap <= gap <= MaxGap
    ensures |obs| < MaxLive ==> Replenished(obs, gap) == obs + [Obstacle(Last(obs).x + gap)]
    ensures |obs| == MaxLive ==> Replenished(obs, gap) == obs
    ensures WellSpaced(Replenished(obs, gap))
    ensures 0 < |Replenished(obs, gap)| <= MaxLive
    ensures Last(Replenished(obs, gap)).x >= Last(obs).x
  {
    var r := Replenished(obs, gap);
    forall i | 0 < i < |r|
      ensures MinGap <= r[i].x - r[i - 1].x <= MaxGap
    {
      if i < |obs| {
        assert r[i] == obs[i] && r[i - 1] == obs[i - 1];
      }
    }
  }

  /** The collision scan of the main loop: does the box collide with any live obstacle? */
  predicate AnyCollision(box: Rect, obs: seq<Obstacle>) {
    exists i :: 0 <= i < |obs| && Collide(box, ObstacleBox(obs[i]))
  }

  /** The scan over every live obstacle, visible or not. */
  method Collides(box: Rect, obs: seq<Obstacle>) returns (hit: bool)
    ensures hit <==> AnyCollision(box, obs)
  {
    hit := false;
    for i := 0 to |obs|
      invariant hit <==> exists j :: 0 <= j < i && Collide(box, ObstacleBox(obs[j]))
    {
      if Collide(box, ObstacleBox(obs[i])) {
        hit := true;
      }
    }
  }

  /** The drawing filter: the obstacle's screen x is within [-ObstacleWidth, Width]. */
  predicate Visible(o: Obstacle, camera: int) {
    -ObstacleWidth <= o.x - camera <= Width
  }

  /** The obstacles the draw loop shows, in order. */
  function VisibleObstacles(obs: seq<Obstacle>, camera: int): (vis: seq<Obstacle>)
    ensures forall o :: o in vis <==> o in obs && Visible(o, camera)
    decreases |obs|
  {
    if obs == [] then []
    else
      var rest := VisibleObstacles(obs[1..], camera);
      assert obs == [obs[0]] + obs[1..];
      if Visible(obs[0], camera) then [obs[0]] + rest else rest
  }

  /** An obstacle can only hit the player while it is on screen, so scanning all live ones loses nothing. */
  lemma CollidingIsVisible(s: PlayerState, o: Obstacle)
    requires Collide(PlayerBox(s), ObstacleBox(o))
    ensures Visible(o, s.x - CameraLead)
  {
  }

  /**
   * The collision scan covers every live obstacle, not only the drawn ones;
   * it reaches the same verdict as a scan of the drawn ones would.
   */
  lemma ScanMatchesVisibleScan(s: PlayerState, obs: seq<Obstacle>)
    ensures AnyCollision(PlayerBox(s), obs) <==>
      AnyCollision(PlayerBox(s), VisibleObstacles(obs, s.x - CameraLead))
  {
    var vis := VisibleObstacles(obs, s.x - CameraLead);
    if AnyCollision(PlayerBox(s), obs) {
      var i :| 0 <= i < |obs| && Collide(PlayerBox(s), ObstacleBox(obs[i]));
      CollidingIsVisible(s, obs[i]);
      assert obs[i] in vis;
      var j :| 0 <= j < |vis| && vis[j] == obs[i];
    }
    if AnyCollision(PlayerBox(s), vis) {
      var j :| 0 <= j < |vis| && Collide(PlayerBox(s), ObstacleBox(vis[j]));
      assert vis[j] in obs;
      var i :| 0 <= i < |obs| && obs[i] == vis[j];
    }
  }

  /** With the fixed heights, an obstacle overlapping the player horizontally is cleared iff y <= 250. */
  lemma ClearanceHeight(s: PlayerState, o: Obstacle)
    requires s.y <= GroundY
    requires s.x < o.x + ObstacleWidth && o.x < s.x + PlayerSize
    ensures !Collide(PlayerBox(s), ObstacleBox(o)) <==> s.y <= GroundHeight - ObstacleHeight - PlayerSize
  {
  }
}
