/**
 * The command vocabulary and the FIFO queue that carries commands from the
 * recognition worker to the simulation loop (queue.Queue in main.py).
 * Only its sequential behaviour is modelled.
 */
module Channel {

  datatype Command = Jump | Stop | Move

  class CommandQueue {
    /** The queued commands, oldest first. */
    var items: seq<Command>

    constructor ()
      ensures items == []
    {
      items := [];
    }

    /** queue.put: appends at the back. */
    method Put(c: Command)
      modifies this
      ensures items == old(items) + [c]
    {
      items := items + [c];
    }

    /** queue.empty */
    predicate IsEmpty()
      reads this
      ensures IsEmpty() <==> items == []
    {
      |items| == 0
    }

    /** queue.get, as the simulation calls it: only on a non-empty queue. */
    method Get() returns (c: Command)
      requires items != []
      modifies this
      ensures [c] + items == old(items)
    {
      c := items[0];
      items := items[1..];
    }
  }
}
