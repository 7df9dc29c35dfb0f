/**
 * One game session (the `main` function of main.py): the fixed-rate tick,
 * the Running -> GameOver transition and the restart.
 * Snapshot is the session's value; TickSpec says what one iteration of the
 * main loop does to it, and the Session class carries it out in place.
 */
module Game {
  import opened Wrappers
  import opened Config
  import opened Geometry
  import opened Channel
  import opened Recognition
  import opened Kinematics
  import opened Control
  import opened World

  datatype Snapshot = Snapshot(
    player: PlayerState,
    obstacles: seq<Obstacle>,
    pending: seq<Command>,   // commands waiting in the queue
    movingTicks: nat,        // ticks that ended with the player moving
    camera: int,
    gameOver: bool)

  /** A fresh session, `seed` being the random offset of the first obstacle. */
  function InitialSnapshot(seed: int): Snapshot
    requires MinSeed <= seed <= MaxSeed
  {
    Snapshot(InitialPlayer(), InitialObstacles(seed), [], 0, 0, false)
  }

  /** The score: PlayerSpeed / 10 per tick that ended with the player moving. */
  function Score(w: Snapshot): real {
    w.movingTicks as real * (PlayerSpeed as real / 10.0)
  }

  /**
   * The session invariant: the player obeys its physics; between one and
   * MaxLive obstacles are live, well spaced, the last one not behind the
   * player; the player has run PlayerSpeed per moving tick; and the camera
   * trails the player by CameraLead.
   */
  predicate Inv(w: Snapshot) {
    PhysInv(w.player) &&
    0 < |w.obstacles| <= MaxLive &&
    WellSpaced(w.obstacles) &&
    Last(w.obstacles).x >= w.player.x &&
    w.player.x == StartX + PlayerSpeed * w.movingTicks &&
    w.camera == w.player.x - CameraLead
  }

  /** The player after one tick's commands and update. */
  function Driven(w: Snapshot, keys: seq<Key>): PlayerState {
    Updated(ApplyAll(ApplyAll(w.player, KeyCommands(keys)), w.pending))
  }

  /** What a tick's commands and update do to the player. */
  lemma DrivenEffect(w: Snapshot, keys: seq<Key>)
    requires PhysInv(w.player)
    ensures PhysInv(Driven(w, keys))
    ensures Driven(w, keys).moving == LastMoving(KeyCommands(keys) + w.pending, w.player.moving)
    ensures Driven(w, keys).x == if Driven(w, keys).moving then w.player.x + PlayerSpeed else w.player.x
  {
    var cs := KeyCommands(keys) + w.pending;
    ApplyAllAppend(w.player, KeyCommands(keys), w.pending);
    ApplyAllEffect(w.player, cs);
    ApplyAllPhysInv(w.player, cs);
    PhysInvPreserved(ApplyAll(w.player, cs), true);
    UpdateRuns(ApplyAll(w.player, cs));
  }

  /** The cull of a tick leaves a well-spaced list that still holds the last obstacle. */
  lemma TickCullKeepsLast(w: Snapshot, keys: seq<Key>)
    requires Inv(w)
    ensures var limit := Driven(w, keys).x - CameraLead - CullMargin;
      var culled := Survivors(w.obstacles, limit);
      0 < |culled| <= MaxLive && WellSpaced(culled) && Last(culled) == Last(w.obstacles) &&
      culled[0].x >= limit
  {
    DrivenEffect(w, keys);
    var limit := Driven(w, keys).x - CameraLead - CullMargin;
    CullKeepsSpacing(w.obstacles, limit);
    SpacedIncreasing(w.obstacles);
    SurvivorsSuffix(w.obstacles, limit);
    assert Survivors(w.obstacles, limit)[0] in Survivors(w.obstacles, limit);
  }

  /** The first half of a tick: commands, update, camera and score. The queue is left empty. */
  function Moved(w: Snapshot, keys: seq<Key>): Snapshot {
    var p := Driven(w, keys);
    w.(player := p, pending := [], camera := p.x - CameraLead,
       movingTicks := if p.moving then w.movingTicks + 1 else w.movingTicks)
  }

  /** The second half of a tick: cull, replenish and the collision scan. */
  function WorldStep(m: Snapshot, gap: int): Snapshot
    requires |Survivors(m.obstacles, m.camera - CullMargin)| > 0
  {
    var live := Replenished(Survivors(m.obstacles, m.camera - CullMargin), gap);
    m.(obstacles := live, gameOver := m.gameOver || AnyCollision(PlayerBox(m.player), live))
  }

  /** One iteration of the main loop, with `gap` the random spacing drawn for a new obstacle. */
  function TickSpec(w: Snapshot, keys: seq<Key>, gap: int): Snapshot
    requires Inv(w)
    requires MinGap <= gap <= MaxGap
  {
    TickCullKeepsLast(w, keys);
    WorldStep(Moved(w, keys), gap)
  }

  /** A fresh session satisfies the invariant. */
  lemma InitialInv(seed: int)
    requires MinSeed <= seed <= MaxSeed
    ensures Inv(InitialSnapshot(seed))
    ensures Score(InitialSnapshot(seed)) == 0.0 && !InitialSnapshot(seed).gameOver
  {
  }

  /**
   * A tick keeps the invariant. In particular the obstacle list is never
   * empty when the replenish step reads its last element.
   */
  lemma TickPreservesInv(w: Snapshot, keys: seq<Key>, gap: int)
    requires Inv(w)
    requires MinGap <= gap <= MaxGap
    ensures Inv(TickSpec(w, keys, gap))
  {
    var r := TickSpec(w, keys, gap);
    var p := Driven(w, keys);
    DrivenEffect(w, keys);
    var limit := p.x - CameraLead - CullMargin;
    var culled := Survivors(w.obstacles, limit);
    TickCullKeepsLast(w, keys);
    ReplenishSpec(culled, gap);
    if |culled| == MaxLive {
      SpacedSpread(culled);
    }
  }

  /** An obstacle whose right edge is still ahead of the player's left edge survives the tick. */
  lemma UnpassedSurvives(w: Snapshot, keys: seq<Key>, gap: int, o: Obstacle)
    requires Inv(w) && MinGap <= gap <= MaxGap
    requires o in w.obstacles && o.x + ObstacleWidth > w.player.x
    ensures o in TickSpec(w, keys, gap).obstacles
  {
    DrivenEffect(w, keys);
    SurvivorsMembers(w.obstacles, Driven(w, keys).x - CameraLead - CullMargin);
  }

  /**
   * What a tick promises: the queue is drained; the last stop/move decides
   * `moving`; x advances by PlayerSpeed exactly on a moving tick, as does the
   * tick count; and the game is over exactly when the player box overlaps a
   * live obstacle.
   */
  lemma TickSummary(w: Snapshot, keys: seq<Key>, gap: int)
    requires Inv(w) && !w.gameOver
    requires MinGap <= gap <= MaxGap
    ensures var r := TickSpec(w, keys, gap);
      r.pending == [] &&
      r.player.moving == LastMoving(KeyCommands(keys) + w.pending, w.player.moving) &&
      r.player.x == (if r.player.moving then w.player.x + PlayerSpeed else w.player.x) &&
      r.movingTicks == (if r.player.moving then w.movingTicks + 1 else w.movingTicks) &&
      (r.gameOver <==> exists o :: o in r.obstacles && Collide(PlayerBox(r.player), ObstacleBox(o)))
  {
    DrivenEffect(w, keys);
    var r := TickSpec(w, keys, gap);
    if r.gameOver {
      var i :| 0 <= i < |r.obstacles| && Collide(PlayerBox(r.player), ObstacleBox(r.obstacles[i]));
      assert r.obstacles[i] in r.obstacles;
    }
  }

  /** The score is a tenth of the distance run. */
  lemma ScoreTracksDistance(w: Snapshot)
    requires Inv(w)
    ensures Score(w) == (w.player.x - StartX) as real / 10.0
  {
  }

  /** What one tick of the main loop is fed: partial results heard before it, key presses, and the random gap. */
  datatype TickInput = TickInput(partials: seq<Option<string>>, keys: seq<Key>, gap: int)

  predicate GapsInRange(inputs: seq<TickInput>) {
    forall i :: 0 <= i < |inputs| ==> MinGap <= inputs[i].gap <= MaxGap
  }

  /** The recognition worker pushing the commands it spotted. */
  function HearAll(w: Snapshot, partials: seq<Option<string>>): Snapshot {
    w.(pending := w.pending + Heard(partials))
  }

  /** The main loop: tick after tick until the inputs run out or the game is over. */
  function Run(w: Snapshot, inputs: seq<TickInput>): Snapshot
    requires Inv(w) && GapsInRange(inputs)
    decreases |inputs|
  {
    if inputs == [] || w.gameOver then w
    else
      var heard := HearAll(w, inputs[0].partials);
      TickPreservesInv(heard, inputs[0].keys, inputs[0].gap);
      Run(TickSpec(heard, inputs[0].keys, inputs[0].gap), inputs[1..])
  }

  /** One turn of the main loop, unfolded. */
  lemma RunUnfold(w: Snapshot, inputs: seq<TickInput>)
    requires Inv(w) && GapsInRange(inputs)
    requires inputs != [] && !w.gameOver
    ensures Inv(HearAll(w, inputs[0].partials)) && MinGap <= inputs[0].gap <= MaxGap
    ensures Inv(TickSpec(HearAll(w, inputs[0].partials), inputs[0].keys, inputs[0].gap))
    ensures GapsInRange(inputs[1..])
    ensures Run(w, inputs) == Run(TickSpec(HearAll(w, inputs[0].partials), inputs[0].keys, inputs[0].gap), inputs[1..])
  {
    TickPreservesInv(HearAll(w, inputs[0].partials), inputs[0].keys, inputs[0].gap);
  }

  /** The main loop keeps the invariant; once the game is over nothing changes any more. */
  lemma {:induction false} RunKeepsInv(w: Snapshot, inputs: seq<TickInput>)
    requires Inv(w) && GapsInRange(inputs)
    ensures Inv(Run(w, inputs))
    ensures w.gameOver ==> Run(w, inputs) == w
    ensures Run(w, inputs).player.x >= w.player.x && Run(w, inputs).movingTicks >= w.movingTicks
    decreases |inputs|
  {
    if inputs != [] && !w.gameOver {
      var heard := HearAll(w, inputs[0].partials);
      TickPreservesInv(heard, inputs[0].keys, inputs[0].gap);
      DrivenEffect(heard, inputs[0].keys);
      RunKeepsInv(TickSpec(heard, inputs[0].keys, inputs[0].gap), inputs[1..]);
    }
  }

  /** One step of the in-place cull: dropping or keeping all[i] behind the survivors so far. */
  lemma CullStep(all: seq<Obstacle>, i: nat, limit: int)
    requires i < |all|
    ensures var done := Survivors(all[..i], limit);
      var s := done + all[i..];
      (all[i].x < limit ==> s[..|done|] + s[|done| + 1..] == Survivors(all[..i + 1], limit) + all[i + 1..]) &&
      (all[i].x >= limit ==>
         s == Survivors(all[..i + 1], limit) + all[i + 1..] &&
         |Survivors(all[..i + 1], limit)| == |done| + 1) &&
      (all[i].x < limit ==> |Survivors(all[..i + 1], limit)| == |done|)
  {
    assert all[..i + 1][..i] == all[..i];
    assert Last(all[..i + 1]) == all[i];
    var done := Survivors(all[..i], limit);
    var s := done + all[i..];
    assert all[i..] == [all[i]] + all[i + 1..];
    assert s[..|done|] == done;
    assert s[|done| + 1..] == all[i + 1..];
  }

  class Session {
    var player: Player
    var queue: CommandQueue
    var obstacles: seq<Obstacle>
    var movingTicks: nat
    var cameraOffset: int
    var gameOver: bool

    /** The session's value. */
    function Snap(): Snapshot
      reads this, player, queue
    {
      Snapshot(player.State(), obstacles, queue.items, movingTicks, cameraOffset, gameOver)
    }

    /** Start of `main`: a fresh player, queue and obstacle list. */
    constructor (seed: int)
      requires MinSeed <= seed <= MaxSeed
      ensures Snap() == InitialSnapshot(seed)
      ensures fresh(player) && fresh(queue)
    {
      player := new Player();
      queue := new CommandQueue();
      obstacles := [Obstacle(Width + seed)];
      movingTicks := 0;
      cameraOffset := 0;
      gameOver := false;
    }

    /** Restart after game over: everything is rebuilt as at the start of a session. */
    method Restart(seed: int)
      requires gameOver
      requires MinSeed <= seed <= MaxSeed
      modifies this
      ensures Snap() == InitialSnapshot(seed)
      ensures fresh(player) && fresh(queue)
    {
      player := new Player();
      queue := new CommandQueue();
      obstacles := [Obstacle(Width + seed)];
      movingTicks := 0;
      cameraOffset := 0;
      gameOver := false;
    }

    /** The game-over screen: r restarts, any other key leaves the session as it is. */
    method GameOverKey(k: Key, seed: int)
      requires gameOver
      requires MinSeed <= seed <= MaxSeed
      modifies this
      ensures k == KeyR ==> Snap() == InitialSnapshot(seed) && fresh(player) && fresh(queue)
      ensures k != KeyR ==> Snap() == old(Snap()) && player == old(player) && queue == old(queue)
    {
      if k == KeyR {
        Restart(seed);
      }
    }

    /** The recognition worker's pushes for a run of partial results. */
    method Hear(partials: seq<Option<string>>)
      modifies queue
      ensures queue.items == old(queue.items) + Heard(partials)
    {
      for i := 0 to |partials|
        invariant queue.items == old(queue.items) + Heard(partials[..i])
      {
        Listen(queue, partials[i]);
        HeardAppend(partials[..i], [partials[i]]);
        assert partials[..i + 1] == partials[..i] + [partials[i]];
        assert Heard([partials[i]]) == Emitted(partials[i]) + Heard([]);
      }
      assert partials[..|partials|] == partials;
    }

    /** The key presses of one tick, in order. */
    method HandleKeys(keys: seq<Key>)
      modifies player
      ensures player.State() == ApplyAll(old(player.State()), KeyCommands(keys))
    {
      for i := 0 to |keys|
        invariant ApplyAll(player.State(), KeyCommands(keys[i..])) == ApplyAll(old(player.State()), KeyCommands(keys))
      {
        assert keys[i..][0] == keys[i] && keys[i..][1..] == keys[i + 1..];
        match keys[i]
        case Space => player.Jump();
        case KeyS => player.moving := false;
        case KeyW => player.moving := true;
        case _ =>
      }
    }

    /** The drain of the command queue: every queued command, oldest first. */
    method Drain()
      modifies player, queue
      ensures player.State() == ApplyAll(old(player.State()), old(queue.items))
      ensures queue.items == []
    {
      while !queue.IsEmpty()
        invariant ApplyAll(player.State(), queue.items) == ApplyAll(old(player.State()), old(queue.items))
        decreases |queue.items|
      {
        ghost var before := queue.items;
        var cmd := queue.Get();
        assert before[0] == cmd && before[1..] == queue.items;
        match cmd
        case Jump => player.Jump();
        case Stop => player.moving := false;
        case Move => player.moving := true;
      }
    }

    /** Removes, one at a time and in place, every obstacle whose left edge is behind cameraOffset - CullMargin. */
    method Cull()
      modifies this`obstacles
      ensures obstacles == Survivors(old(obstacles), cameraOffset - CullMargin)
    {
      var limit := cameraOffset - CullMargin;
      var all := obstacles;
      var kept := 0;
      for i := 0 to |all|
        invariant obstacles == Survivors(all[..i], limit) + all[i..]
        invariant kept == |Survivors(all[..i], limit)|
      {
        CullStep(all, i, limit);
        if all[i].x < limit {
          obstacles := obstacles[..kept] + obstacles[kept + 1..];
        } else {
          kept := kept + 1;
        }
      }
      assert all[..|all|] == all && all[|all|..] == [];
    }

    /** Appends one obstacle `gap` beyond the last one while fewer than MaxLive are live. */
    method Replenish(gap: int)
      requires |obstacles| > 0
      modifies this`obstacles
      ensures obstacles == Replenished(old(obstacles), gap)
    {
      if |obstacles| < MaxLive {
        var lastObstacle := obstacles[|obstacles| - 1];
        obstacles := obstacles + [Obstacle(lastObstacle.x + gap)];
      }
    }

    /** The first half of a tick: key presses, the queue drain, the update, the camera and the score. */
    method MovePlayer(keys: seq<Key>)
      modifies this, player, queue
      ensures player == old(player) && queue == old(queue)
      ensures Snap() == Moved(old(Snap()), keys)
    {
      ghost var w := Snap();
      HandleKeys(keys);
      Drain();
      player.Update();
      ApplyAllAppend(w.player, KeyCommands(keys), w.pending);
      cameraOffset := player.x - CameraLead;
      if player.moving {
        movingTicks := movingTicks + 1;
      }
    }

    /** The second half of a tick: cull, replenish, and the scan that ends the game on a collision. */
    method StepWorld(gap: int)
      requires |Survivors(obstacles, cameraOffset - CullMargin)| > 0
      modifies this`obstacles, this`gameOver
      ensures Snap() == WorldStep(old(Snap()), gap)
    {
      Cull();
      Replenish(gap);
      var hit := Collides(player.GetRect(), obstacles);
      if hit {
        gameOver := true;
      }
    }

    /** One iteration of the main loop while the game is running. */
    method Tick(keys: seq<Key>, gap: int)
      requires Inv(Snap())
      requires MinGap <= gap <= MaxGap
      modifies this, player, queue
      ensures player == old(player) && queue == old(queue)
      ensures Snap() == TickSpec(old(Snap()), keys, gap)
    {
      ghost var w := Snap();
      MovePlayer(keys);
      TickCullKeepsLast(w, keys);
      StepWorld(gap);
    }

    /** One turn of the main loop: the worker's pushes, then a tick. */
    method Step(input: TickInput)
      requires Inv(Snap())
      requires MinGap <= input.gap <= MaxGap
      modifies this, player, queue
      ensures player == old(player) && queue == old(queue)
      ensures Inv(HearAll(old(Snap()), input.partials))
      ensures Snap() == TickSpec(HearAll(old(Snap()), input.partials), input.keys, input.gap)
    {
      Hear(input.partials);
      Tick(input.keys, input.gap);
    }

    /** The main loop over a run of inputs; stops at game over. Returns the number of ticks run. */
    method Play(inputs: seq<TickInput>) returns (ticks: nat)
      requires Inv(Snap()) && GapsInRange(inputs)
      modifies this, player, queue
      ensures player == old(player) && queue == old(queue)
      ensures Snap() == Run(old(Snap()), inputs)
      ensures ticks <= |inputs| && (ticks < |inputs| ==> gameOver)
    {
      ticks := 0;
      while ticks < |inputs| && !gameOver
        invariant ticks <= |inputs|
        invariant player == old(player) && queue == old(queue)
        invariant Inv(Snap()) && GapsInRange(inputs[ticks..])
        invariant Run(Snap(), inputs[ticks..]) == Run(old(Snap()), inputs)
        decreases |inputs| - ticks
      {
        ghost var w := Snap();
        var input := inputs[ticks];
        ghost var rest := inputs[ticks..];
        assert rest[0] == input && rest[1..] == inputs[ticks + 1..];
        RunUnfold(w, rest);
        Step(input);
        ticks := ticks + 1;
      }
    }
  }
}
