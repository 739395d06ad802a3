/** The pool of tp.cpp, as a caller sees it that no other thread interferes with. */
module TaskPools {
  class TaskPool<Task> {
    var tasks: seq<Task>
    var stop: bool
    ghost var ran: seq<Task>

    /** The worker loop, alone: it calls every queued task in order, and then returns if the pool has been
        stopped, and waits for a notification otherwise. */
    method Work() returns (exited: bool)
      modifies this`tasks, this`ran
      ensures exited == stop
      ensures tasks == [] && ran == old(ran) + old(tasks)
    {
      while true
        invariant ran + tasks == old(ran) + old(tasks)
        decreases |tasks|
      {
        if !(stop || tasks != []) {
          return false;
        }
        if stop && tasks == [] {
          return true;
        }
        var task := tasks[0];
        tasks := tasks[1..];
        ran := ran + [task];
      }
    }
  }
}
