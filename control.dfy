/**
 * How commands act on the player: the drain of the command queue and the
 * keyboard mapping in the main loop of main.py.
 */
module Control {
  import opened Wrappers
  import opened Channel
  import opened Kinematics

  /** One command's effect: jump calls Player.jump; stop and move set `moving`. */
  function ApplyCommand(s: PlayerState, c: Command): PlayerState {
    match c
    case Jump => Jumped(s)
    case Stop => s.(moving := false)
    case Move => s.(moving := true)
  }

  /** The commands applied in order, front to back. */
  function ApplyAll(s: PlayerState, cs: seq<Command>): PlayerState
    decreases |cs|
  {
    if cs == [] then s else ApplyAll(ApplyCommand(s, cs[0]), cs[1..])
  }

  /** The value of `moving` after the commands: the last stop or move decides, else it is unchanged. */
  function LastMoving(cs: seq<Command>, moving: bool): bool
    decreases |cs|
  {
    if cs == [] then moving
    else
      var rest := cs[1..];
      match cs[0]
      case Jump => LastMoving(rest, moving)
      case Stop => LastMoving(rest, false)
      case Move => LastMoving(rest, true)
  }

  /** The key presses the running game reacts to; any other key is ignored. */
  datatype Key = Space | KeyS | KeyW | KeyR | KeyQ | OtherKey

  /** Space jumps, s stops, w moves: the same effects as the voice commands. */
  function KeyCommand(k: Key): (r: Option<Command>)
    ensures r == None <==> !(k == Space || k == KeyS || k == KeyW)
  {
    match k
    case Space => Some(Jump)
    case KeyS => Some(Stop)
    case KeyW => Some(Move)
    case _ => None
  }

  /** The commands a run of key presses stands for, in order. */
  function KeyCommands(keys: seq<Key>): seq<Command>
    decreases |keys|
  {
    if keys == [] then []
    else
      var rest := KeyCommands(keys[1..]);
      match KeyCommand(keys[0])
      case None => rest
      case Some(c) => [c] + rest
  }

  /** Applying a command twice is applying it once, so repeated recognitions are harmless. */
  lemma ApplyCommandIdempotent(s: PlayerState, c: Command)
    ensures ApplyCommand(ApplyCommand(s, c), c) == ApplyCommand(s, c)
  {
  }

  /** Draining a + b is draining a, then b. */
  lemma {:induction false} ApplyAllAppend(s: PlayerState, a: seq<Command>, b: seq<Command>)
    ensures ApplyAll(s, a + b) == ApplyAll(ApplyAll(s, a), b)
    decreases |a|
  {
    if a == [] {
      assert a + b == b;
    } else {
      assert (a + b)[0] == a[0];
      assert (a + b)[1..] == a[1..] + b;
      ApplyAllAppend(ApplyCommand(s, a[0]), a[1..], b);
    }
  }

  /** A command received twice in a row acts as if received once. */
  lemma DuplicateCommandHarmless(s: PlayerState, a: seq<Command>, c: Command, b: seq<Command>)
    ensures ApplyAll(s, a + [c, c] + b) == ApplyAll(s, a + [c] + b)
  {
    var t := ApplyAll(s, a);
    ApplyAllAppend(s, a, [c, c] + b);
    ApplyAllAppend(s, a, [c] + b);
    assert a + [c, c] + b == a + ([c, c] + b);
    assert a + [c] + b == a + ([c] + b);
    assert ([c, c] + b)[1..] == [c] + b;
    assert ([c] + b)[1..] == b;
    ApplyCommandIdempotent(t, c);
  }

  /**
   * What a drain does to the player: x and y never change, jumpVel is kept
   * while airborne, the last stop/move decides `moving`, and the player is
   * jumping afterwards exactly when it was before or a jump command came.
   */
  lemma {:induction false} ApplyAllEffect(s: PlayerState, cs: seq<Command>)
    ensures ApplyAll(s, cs).x == s.x && ApplyAll(s, cs).y == s.y
    ensures s.jumping ==> ApplyAll(s, cs).jumping && ApplyAll(s, cs).jumpVel == s.jumpVel
    ensures ApplyAll(s, cs).jumping <==> s.jumping || Jump in cs
    ensures ApplyAll(s, cs).moving == LastMoving(cs, s.moving)
    decreases |cs|
  {
    if cs != [] {
      ApplyAllEffect(ApplyCommand(s, cs[0]), cs[1..]);
      assert Jump in cs <==> cs[0] == Jump || Jump in cs[1..] by {
        assert cs == [cs[0]] + cs[1..];
      }
    }
  }

  /** Commands keep the physical invariant of the player. */
  lemma {:induction false} ApplyAllPhysInv(s: PlayerState, cs: seq<Command>)
    requires PhysInv(s)
    ensures PhysInv(ApplyAll(s, cs))
    decreases |cs|
  {
    if cs != [] {
      PhysInvPreserved(s, cs[0] == Move);
      ApplyAllPhysInv(ApplyCommand(s, cs[0]), cs[1..]);
    }
  }

  /** Draining nothing changes nothing. */
  lemma ApplyNothing(s: PlayerState)
    ensures ApplyAll(s, []) == s
  {
  }
}
