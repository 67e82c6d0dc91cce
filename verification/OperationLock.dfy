/**
 `operation_lock(root)`: an in-process registry of re-entrant mutexes, a file lock on whatever
 inode the path names, and a second look at the path once that lock is held. Threads of any
 number of processes take one step at a time, in any order; a process may die at any point;
 the holder may delete the lock file.
 */
module OperationLock {
  import opened Wrappers

  datatype Thread = Thread(process: nat, id: nat)

  // Where a thread is inside the call. `depth` counts its nested calls while it holds.
  datatype Stage =
    | Waiting
    | Mutexed
    | Opened(inode: nat)
    | Locked(inode: nat)
    | Holding(inode: nat, discarded: bool, depth: nat)
    | Unlocked
    | Leaving

  datatype Call = Call(mutex: nat, stage: Stage)

  // The registry's entry for this root in one process: the mutex and its number of users.
  datatype Entry = Entry(mutex: nat, count: int)

  datatype World = World(
    calls: map<Thread, Call>,
    registry: map<nat, Entry>,
    owners: map<nat, Thread>,
    path: Option<nat>,
    flocks: map<nat, Thread>,
    nextMutex: nat,
    nextInode: nat)

  const START := World(map[], map[], map[], None, map[], 0, 0)

  datatype Action =
    | Enter(t: Thread)
    | TakeMutex(t: Thread)
    | RefuseMutex(t: Thread)
    | Open(t: Thread)
    | TakeFlock(t: Thread)
    | RefuseFlock(t: Thread)
    | Check(t: Thread)
    | Discard(t: Thread)
    | Reenter(t: Thread)
    | Return(t: Thread)
    | ReleaseFlock(t: Thread)
    | ReleaseMutex(t: Thread)
    | ReleaseEntry(t: Thread)
    | Crash(process: nat)

  predicate At(w: World, t: Thread, stage: Stage) {
    t in w.calls && w.calls[t].stage == stage
  }

  function Move(w: World, t: Thread, stage: Stage): World
    requires t in w.calls
  {
    w.(calls := w.calls[t := w.calls[t].(stage := stage)])
  }

  function AddUser(w: World, process: nat): World {
    if process in w.registry then
      w.(registry := w.registry[process := w.registry[process].(count := w.registry[process].count + 1)])
    else
      w.(registry := w.registry[process := Entry(w.nextMutex, 1)], nextMutex := w.nextMutex + 1)
  }

  function DropUser(w: World, process: nat): World {
    if process !in w.registry then w
    else
      var entry := w.registry[process].(count := w.registry[process].count - 1);
      if entry.count <= 0 then w.(registry := w.registry - {process})
      else w.(registry := w.registry[process := entry])
  }

  /** The kernel drops the file locks of a dead process; its memory goes with it. */
  function Crashed(w: World, process: nat): World {
    w.(calls := map t | t in w.calls && t.process != process :: w.calls[t],
       registry := w.registry - {process},
       owners := map m | m in w.owners && w.owners[m].process != process :: w.owners[m],
       flocks := map i | i in w.flocks && w.flocks[i].process != process :: w.flocks[i])
  }

  /** Register with the process's registry, making its entry if there is none. */
  function Entered(w: World, t: Thread): World {
    var w' := AddUser(w, t.process);
    w'.(calls := w'.calls[t := Call(w'.registry[t.process].mutex, Waiting)])
  }

  function Nested(w: World, t: Thread): World
    requires t in w.calls && w.calls[t].stage.Holding?
  {
    AddUser(Move(w, t, w.calls[t].stage.(depth := w.calls[t].stage.depth + 1)), t.process)
  }

  function Unnested(w: World, t: Thread): World
    requires t in w.calls && w.calls[t].stage.Holding? && w.calls[t].stage.depth > 0
  {
    DropUser(Move(w, t, w.calls[t].stage.(depth := w.calls[t].stage.depth - 1)), t.process)
  }

  function Left(w: World, t: Thread): World {
    DropUser(w.(calls := w.calls - {t}), t.process)
  }

  /** Open the lock file, creating it if the path names none. */
  function FileOpened(w: World, t: Thread): World
    requires t in w.calls
  {
    match w.path
    case Some(i) => Move(w, t, Opened(i))
    case None => Move(w.(path := Some(w.nextInode), nextInode := w.nextInode + 1), t, Opened(w.nextInode))
  }

  /** Does the path still name the file this thread has locked? */
  function Checked(w: World, t: Thread): World
    requires t in w.calls && w.calls[t].stage.Locked?
  {
    var i := w.calls[t].stage.inode;
    if w.path == Some(i) then Move(w, t, Holding(i, false, 0))
    else Move(w.(flocks := w.flocks - {i}), t, Mutexed)
  }

  predicate Enabled(w: World, a: Action) {
    match a
    case Crash(_) => true
    case Enter(t) => t !in w.calls
    case TakeMutex(t) => At(w, t, Waiting) && w.calls[t].mutex !in w.owners
    case RefuseMutex(t) => At(w, t, Waiting) && w.calls[t].mutex in w.owners
    case Open(t) => At(w, t, Mutexed)
    case TakeFlock(t) => t in w.calls && w.calls[t].stage.Opened? && w.calls[t].stage.inode !in w.flocks
    case RefuseFlock(t) => t in w.calls && w.calls[t].stage.Opened? && w.calls[t].stage.inode in w.flocks
    case Check(t) => t in w.calls && w.calls[t].stage.Locked?
    case Discard(t) => t in w.calls && w.calls[t].stage.Holding? && !w.calls[t].stage.discarded
    case Reenter(t) => t in w.calls && w.calls[t].stage.Holding?
    case Return(t) => t in w.calls && w.calls[t].stage.Holding? && w.calls[t].stage.depth > 0
    case ReleaseFlock(t) => t in w.calls && w.calls[t].stage.Holding? && w.calls[t].stage.depth == 0
    case ReleaseMutex(t) => At(w, t, Unlocked)
    case ReleaseEntry(t) => At(w, t, Leaving)
  }

  function Next(w: World, a: Action): World {
    if !Enabled(w, a) then w
    else
      match a
      case Crash(p) => Crashed(w, p)
      case Enter(t) => Entered(w, t)
      case TakeMutex(t) => Move(w.(owners := w.owners[w.calls[t].mutex := t]), t, Mutexed)
      case RefuseMutex(t) => Move(w, t, Leaving)
      case Open(t) => FileOpened(w, t)
      case TakeFlock(t) =>
        var i := w.calls[t].stage.inode;
        Move(w.(flocks := w.flocks[i := t]), t, Locked(i))
      case RefuseFlock(t) => Move(w, t, Unlocked)
      case Check(t) => Checked(w, t)
      case Discard(t) => Move(w.(path := None), t, w.calls[t].stage.(discarded := true))
      case Reenter(t) => Nested(w, t)
      case Return(t) => Unnested(w, t)
      case ReleaseFlock(t) => Move(w.(flocks := w.flocks - {w.calls[t].stage.inode}), t, Unlocked)
      case ReleaseMutex(t) => Move(w.(owners := w.owners - {w.calls[t].mutex}), t, Leaving)
      case ReleaseEntry(t) => Left(w, t)
  }

  function Run(w: World, actions: seq<Action>): World
    decreases |actions|
  {
    if actions == [] then w else Run(Next(w, actions[0]), actions[1..])
  }
}
