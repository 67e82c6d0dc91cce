/**
 Every run of the lock: what each step of each thread keeps, and what the lock promises.
 */
module LockRuns {
  import opened Wrappers
  import opened OperationLock

  // ----- what every step keeps

  predicate HasFlock(s: Stage) {
    s.Locked? || s.Holding?
  }

  predicate HasMutex(s: Stage) {
    s.Mutexed? || s.Opened? || s.Locked? || s.Holding? || s.Unlocked?
  }

  function Uses(w: World, t: Thread): nat {
    if t !in w.calls then 0
    else match w.calls[t].stage case Holding(_, _, depth) => 1 + depth case _ => 1
  }

  ghost predicate FileKept(w: World) {
    && (forall t :: t in w.calls && HasFlock(w.calls[t].stage) ==>
          w.calls[t].stage.inode in w.flocks && w.flocks[w.calls[t].stage.inode] == t)
    && (forall i :: i in w.flocks ==>
          w.flocks[i] in w.calls && HasFlock(w.calls[w.flocks[i]].stage) && w.calls[w.flocks[i]].stage.inode == i)
    && (forall t :: t in w.calls && w.calls[t].stage.Holding? && !w.calls[t].stage.discarded ==>
          w.path == Some(w.calls[t].stage.inode))
    && (w.path.Some? ==> w.path.value < w.nextInode)
    && (forall t :: t in w.calls && w.calls[t].stage.Opened? ==> w.calls[t].stage.inode < w.nextInode)
    && (forall i :: i in w.flocks ==> i < w.nextInode)
  }

  ghost predicate MutexKept(w: World) {
    && (forall t :: t in w.calls && HasMutex(w.calls[t].stage) ==>
          w.calls[t].mutex in w.owners && w.owners[w.calls[t].mutex] == t)
    && (forall m :: m in w.owners ==>
          w.owners[m] in w.calls && HasMutex(w.calls[w.owners[m]].stage) && w.calls[w.owners[m]].mutex == m)
  }

  /** Every call of a process uses the one mutex its registry names. */
  ghost predicate RegistryKept(w: World) {
    && (forall t :: t in w.calls ==> t.process in w.registry && w.registry[t.process].mutex == w.calls[t].mutex)
    && (forall p :: p in w.registry ==> w.registry[p].mutex < w.nextMutex)
    && (forall p, q :: p in w.registry && q in w.registry && w.registry[p].mutex == w.registry[q].mutex ==> p == q)
  }

  /** `users` says, per process, who is inside the call and how often. */
  ghost predicate CountsKept(w: World, users: map<nat, multiset<Thread>>) {
    && users.Keys == w.registry.Keys
    && (forall p :: p in users ==> w.registry[p].count == |users[p]| && |users[p]| > 0)
    && (forall t: Thread :: t.process in users ==> users[t.process][t] == Uses(w, t))
    && (forall p, t :: p in users && t in users[p] ==> t.process == p)
  }

  ghost predicate Inv(w: World, users: map<nat, multiset<Thread>>) {
    FileKept(w) && MutexKept(w) && RegistryKept(w) && CountsKept(w, users)
  }

  ghost predicate OthersSame(w: World, w': World, t: Thread) {
    forall u :: u != t ==> (u in w'.calls <==> u in w.calls) && (u in w.calls ==> w'.calls[u] == w.calls[u])
  }

  /** A step other than a crash moves one thread and leaves the other calls alone; a call keeps
      the mutex it registered with. */
  lemma OneMoves(w: World, a: Action)
    requires !a.Crash?
    ensures OthersSame(w, Next(w, a), a.t)
    ensures a.t in w.calls && a.t in Next(w, a).calls ==> Next(w, a).calls[a.t].mutex == w.calls[a.t].mutex
  {
  }

  /** What the file invariant sees of a call. */
  function FileView(w: World, t: Thread): Option<Stage> {
    if t in w.calls then
      match w.calls[t].stage
      case Opened(i) => Some(Opened(i))
      case Locked(i) => Some(Locked(i))
      case Holding(i, discarded, _) => Some(Holding(i, discarded, 0))
      case _ => None
    else None
  }

  lemma FileFrame(w: World, w': World, t: Thread)
    requires FileKept(w) && OthersSame(w, w', t)
    requires w'.path == w.path && w'.flocks == w.flocks && w'.nextInode == w.nextInode
    requires FileView(w', t) == FileView(w, t) || (FileView(w', t) == None && FileView(w, t).Some? && FileView(w, t).value.Opened?)
    ensures FileKept(w')
  {
    forall u ensures FileView(w', u) == FileView(w, u) || (u == t && FileView(w', u) == None) { }
    forall i | i in w'.flocks
      ensures w'.flocks[i] in w'.calls && HasFlock(w'.calls[w'.flocks[i]].stage) && w'.calls[w'.flocks[i]].stage.inode == i
    {
      var u := w.flocks[i];
      assert FileView(w', u) == FileView(w, u);
    }
  }

  /** Steps that touch neither the path nor a file lock. */
  lemma FileUntouched(w: World, a: Action)
    requires FileKept(w) && Enabled(w, a)
    requires a.Enter? || a.TakeMutex? || a.RefuseMutex? || a.RefuseFlock? || a.Reenter? || a.Return? || a.ReleaseMutex? || a.ReleaseEntry?
    ensures FileKept(Next(w, a))
  {
    OneMoves(w, a);
    FileFrame(w, Next(w, a), a.t);
  }

  lemma FileAfterOpen(w: World, t: Thread)
    requires FileKept(w)
    ensures FileKept(Next(w, Open(t)))
  {
  }

  lemma FileAfterCheck(w: World, t: Thread)
    requires FileKept(w)
    ensures FileKept(Next(w, Check(t)))
  {
  }

  lemma FileAfterRelease(w: World, t: Thread)
    requires FileKept(w)
    ensures FileKept(Next(w, ReleaseFlock(t)))
  {
  }

  lemma FileStep(w: World, a: Action)
    requires FileKept(w)
    ensures FileKept(Next(w, a))
  {
    if !Enabled(w, a) { return; }
    if a.Open? {
      FileAfterOpen(w, a.t);
    } else if a.Check? {
      FileAfterCheck(w, a.t);
    } else if a.ReleaseFlock? {
      FileAfterRelease(w, a.t);
    } else if !a.TakeFlock? && !a.Discard? && !a.Crash? {
      FileUntouched(w, a);
    }
  }

  predicate OwnsMutex(w: World, t: Thread) {
    t in w.calls && HasMutex(w.calls[t].stage)
  }

  lemma SameOwner(w: World, a: Action)
    requires !a.TakeMutex? && !a.ReleaseMutex? && !a.Crash?
    ensures Next(w, a).owners == w.owners
    ensures OwnsMutex(Next(w, a), a.t) == OwnsMutex(w, a.t)
  {
  }

  /** Steps that neither take nor give up a mutex. */
  lemma MutexUntouched(w: World, a: Action)
    requires MutexKept(w) && !a.TakeMutex? && !a.ReleaseMutex? && !a.Crash?
    ensures MutexKept(Next(w, a))
  {
    OneMoves(w, a);
    SameOwner(w, a);
  }

  lemma MutexStep(w: World, a: Action)
    requires MutexKept(w)
    ensures MutexKept(Next(w, a))
  {
    match a
    case TakeMutex(t) =>
    case ReleaseMutex(t) => MutexAfterRelease(w, t);
    case Crash(p) => MutexAfterCrash(w, p);
    case _ => MutexUntouched(w, a);
  }

  lemma MutexAfterRelease(w: World, t: Thread)
    requires MutexKept(w)
    ensures MutexKept(Next(w, ReleaseMutex(t)))
  {
  }

  lemma MutexAfterCrash(w: World, process: nat)
    requires MutexKept(w)
    ensures MutexKept(Crashed(w, process))
  {
  }

  lemma AddUserCounts(w: World, users: map<nat, multiset<Thread>>, t: Thread, w': World) returns (users': map<nat, multiset<Thread>>)
    requires CountsKept(w, users) && (t in w.calls ==> t.process in w.registry)
    requires w'.registry == AddUser(w, t.process).registry
    requires Uses(w', t) == Uses(w, t) + 1 && forall u: Thread :: u != t ==> Uses(w', u) == Uses(w, u)
    requires t.process !in w.registry ==> forall u: Thread :: u.process == t.process ==> Uses(w, u) == 0
    ensures CountsKept(w', users')
  {
    var p := t.process;
    users' := users[p := (if p in users then users[p] else multiset{}) + multiset{t}];
  }

  lemma DropUserCounts(w: World, users: map<nat, multiset<Thread>>, t: Thread, w': World) returns (users': map<nat, multiset<Thread>>)
    requires CountsKept(w, users) && t.process in w.registry && Uses(w, t) > 0
    requires w'.registry == DropUser(w, t.process).registry
    requires Uses(w', t) == Uses(w, t) - 1 && forall u: Thread :: u != t ==> Uses(w', u) == Uses(w, u)
    ensures CountsKept(w', users')
  {
    var p := t.process;
    var rest := users[p] - multiset{t};
    assert t in users[p];
    users' := if |rest| == 0 then users - {p} else users[p := rest];
  }

  lemma NobodyWithoutEntry(w: World, users: map<nat, multiset<Thread>>, p: nat)
    requires RegistryKept(w) && p !in w.registry
    ensures forall u: Thread :: u.process == p ==> Uses(w, u) == 0
  {
  }

  /** With one use counted, it is this thread's only one and nobody else in the process has any. */
  lemma LastUser(w: World, users: map<nat, multiset<Thread>>, t: Thread)
    requires RegistryKept(w) && CountsKept(w, users) && t in w.calls && w.registry[t.process].count <= 1
    ensures Uses(w, t) == 1
    ensures forall u :: u in w.calls && u.process == t.process ==> u == t
  {
    var all := users[t.process];
    assert all[t] >= 1;
    assert |all - multiset{t}| == 0;
    assert all == multiset{t} + (all - multiset{t});
    forall u | u in w.calls && u.process == t.process ensures u == t { assert all[u] >= 1; }
  }

  lemma RegistryUntouched(w: World, a: Action)
    requires RegistryKept(w) && !a.Enter? && !a.Reenter? && !a.Return? && !a.ReleaseEntry? && !a.Crash?
    ensures RegistryKept(Next(w, a))
  {
  }

  lemma RegistryAfterEnter(w: World, t: Thread)
    requires RegistryKept(w)
    ensures RegistryKept(Next(w, Enter(t)))
  {
  }

  lemma RegistryAfterReenter(w: World, t: Thread)
    requires RegistryKept(w)
    ensures RegistryKept(Next(w, Reenter(t)))
  {
  }

  lemma FewerUses(w: World, a: Action)
    requires Enabled(w, a) && (a.Return? || a.ReleaseEntry?)
    ensures Next(w, a).registry == DropUser(w, a.t.process).registry && Uses(Next(w, a), a.t) == Uses(w, a.t) - 1
    ensures Next(w, a).nextMutex == w.nextMutex && Next(w, a).calls.Keys <= w.calls.Keys
  {
  }

  lemma RegistryAfterDrop(w: World, users: map<nat, multiset<Thread>>, a: Action)
    requires RegistryKept(w) && CountsKept(w, users) && (a.Return? || a.ReleaseEntry?)
    ensures RegistryKept(Next(w, a))
  {
    if Enabled(w, a) {
      OneMoves(w, a);
      FewerUses(w, a);
      if w.registry[a.t.process].count <= 1 { LastUser(w, users, a.t); }
      DroppedEntry(w, Next(w, a), a.t.process);
    }
  }

  lemma DroppedEntry(w: World, w': World, p: nat)
    requires RegistryKept(w) && p in w.registry
    requires w'.registry == DropUser(w, p).registry && w'.nextMutex == w.nextMutex
    requires w'.calls.Keys <= w.calls.Keys && forall t :: t in w'.calls ==> w'.calls[t].mutex == w.calls[t].mutex
    requires w.registry[p].count <= 1 ==> forall t :: t in w'.calls ==> t.process != p
    ensures RegistryKept(w')
  {
  }

  lemma RegistryAfterCrash(w: World, process: nat)
    requires RegistryKept(w)
    ensures RegistryKept(Crashed(w, process))
  {
  }

  lemma RegistryStep(w: World, users: map<nat, multiset<Thread>>, a: Action)
    requires RegistryKept(w) && CountsKept(w, users)
    ensures RegistryKept(Next(w, a))
  {
    match a
    case Enter(t) => RegistryAfterEnter(w, t);
    case Reenter(t) => RegistryAfterReenter(w, t);
    case Return(_) => RegistryAfterDrop(w, users, a);
    case ReleaseEntry(_) => RegistryAfterDrop(w, users, a);
    case Crash(p) => RegistryAfterCrash(w, p);
    case _ => RegistryUntouched(w, a);
  }

  lemma CountsAfterCrash(w: World, users: map<nat, multiset<Thread>>, p: nat)
    requires CountsKept(w, users)
    ensures CountsKept(Crashed(w, p), users - {p})
  {
    var w' := Crashed(w, p);
    forall t: Thread | t.process != p ensures Uses(w', t) == Uses(w, t) { }
  }

  lemma UsesOfOthers(w: World, w': World, t: Thread)
    requires OthersSame(w, w', t)
    ensures forall u: Thread :: u != t ==> Uses(w', u) == Uses(w, u)
  {
  }

  lemma CountsFrame(w: World, users: map<nat, multiset<Thread>>, w': World, t: Thread)
    requires CountsKept(w, users) && OthersSame(w, w', t)
    requires w'.registry == w.registry && Uses(w', t) == Uses(w, t)
    ensures CountsKept(w', users)
  {
    UsesOfOthers(w, w', t);
    assert forall u: Thread :: Uses(w', u) == Uses(w, u);
  }

  lemma CountsUntouched(w: World, users: map<nat, multiset<Thread>>, a: Action)
    requires CountsKept(w, users) && Enabled(w, a)
    requires !a.Enter? && !a.Reenter? && !a.Return? && !a.ReleaseEntry? && !a.Crash?
    ensures CountsKept(Next(w, a), users)
  {
    OneMoves(w, a);
    SameUses(w, a);
    CountsFrame(w, users, Next(w, a), a.t);
  }

  lemma SameUses(w: World, a: Action)
    requires Enabled(w, a) && !a.Enter? && !a.Reenter? && !a.Return? && !a.ReleaseEntry? && !a.Crash?
    ensures Next(w, a).registry == w.registry && Uses(Next(w, a), a.t) == Uses(w, a.t)
  {
  }

  lemma MoreUses(w: World, a: Action)
    requires Enabled(w, a) && (a.Enter? || a.Reenter?)
    ensures Next(w, a).registry == AddUser(w, a.t.process).registry && Uses(Next(w, a), a.t) == Uses(w, a.t) + 1
  {
  }

  lemma CountsAfterAdd(w: World, users: map<nat, multiset<Thread>>, a: Action) returns (users': map<nat, multiset<Thread>>)
    requires RegistryKept(w) && CountsKept(w, users) && Enabled(w, a) && (a.Enter? || a.Reenter?)
    ensures CountsKept(Next(w, a), users')
  {
    OneMoves(w, a);
    UsesOfOthers(w, Next(w, a), a.t);
    MoreUses(w, a);
    if a.t.process !in w.registry { NobodyWithoutEntry(w, users, a.t.process); }
    users' := AddUserCounts(w, users, a.t, Next(w, a));
  }

  lemma CountsAfterDrop(w: World, users: map<nat, multiset<Thread>>, a: Action) returns (users': map<nat, multiset<Thread>>)
    requires RegistryKept(w) && CountsKept(w, users) && Enabled(w, a) && (a.Return? || a.ReleaseEntry?)
    ensures CountsKept(Next(w, a), users')
  {
    OneMoves(w, a);
    UsesOfOthers(w, Next(w, a), a.t);
    FewerUses(w, a);
    users' := DropUserCounts(w, users, a.t, Next(w, a));
  }

  lemma CountsStep(w: World, users: map<nat, multiset<Thread>>, a: Action) returns (users': map<nat, multiset<Thread>>)
    requires RegistryKept(w) && CountsKept(w, users)
    ensures CountsKept(Next(w, a), users')
  {
    users' := users;
    if a.Crash? {
      CountsAfterCrash(w, users, a.process);
      users' := users - {a.process};
    } else if Enabled(w, a) {
      if a.Enter? || a.Reenter? {
        users' := CountsAfterAdd(w, users, a);
      } else if a.Return? || a.ReleaseEntry? {
        users' := CountsAfterDrop(w, users, a);
      } else {
        CountsUntouched(w, users, a);
      }
    }
  }

  lemma StepKeeps(w: World, users: map<nat, multiset<Thread>>, a: Action) returns (users': map<nat, multiset<Thread>>)
    requires Inv(w, users)
    ensures Inv(Next(w, a), users')
  {
    FileStep(w, a);
    MutexStep(w, a);
    RegistryStep(w, users, a);
    users' := CountsStep(w, users, a);
  }

  lemma {:induction false} RunKeeps(w: World, users: map<nat, multiset<Thread>>, actions: seq<Action>)
    returns (users': map<nat, multiset<Thread>>)
    requires Inv(w, users)
    ensures Inv(Run(w, actions), users')
    decreases |actions|
  {
    if actions == [] {
      users' := users;
    } else {
      users' := StepKeeps(w, users, actions[0]);
      users' := RunKeeps(Next(w, actions[0]), users', actions[1..]);
    }
  }

  // ----- what the lock promises

  /** Between acquiring the lock and deleting its file or letting go. */
  predicate Holds(w: World, t: Thread) {
    t in w.calls && w.calls[t].stage.Holding? && !w.calls[t].stage.discarded
  }

  /** However many processes open, wait for, take, delete and recreate the lock file, at most
      one thread of all of them holds the lock, and it has locked the file the path names. */
  lemma AtMostOneHolder(actions: seq<Action>, t: Thread, u: Thread)
    requires Holds(Run(START, actions), t) && Holds(Run(START, actions), u)
    ensures t == u
    ensures var w := Run(START, actions);
            w.path.Some? && w.path.value in w.flocks && w.flocks[w.path.value] == t
  {
    var _ := RunKeeps(START, map[], actions);
  }

  /** The mutex a registry entry names is the one every caller of that process holds or waits
      for: while any of them is inside, no step replaces it. */
  lemma MutexIsNeverReplaced(actions: seq<Action>, a: Action, t: Thread)
    requires t in Run(START, actions).calls && t in Next(Run(START, actions), a).calls
    ensures var w, w' := Run(START, actions), Next(Run(START, actions), a);
            && t.process in w.registry && t.process in w'.registry
            && w.registry[t.process].mutex == w'.registry[t.process].mutex == w.calls[t].mutex == w'.calls[t].mutex
  {
    var w := Run(START, actions);
    var users := RunKeeps(START, map[], actions);
    MutexStays(w, users, a, t);
  }

  lemma MutexStays(w: World, users: map<nat, multiset<Thread>>, a: Action, t: Thread)
    requires Inv(w, users) && t in w.calls && t in Next(w, a).calls
    ensures var w' := Next(w, a);
            && t.process in w.registry && t.process in w'.registry
            && w.registry[t.process].mutex == w'.registry[t.process].mutex == w.calls[t].mutex == w'.calls[t].mutex
  {
    RegistryStep(w, users, a);
    if !a.Crash? { OneMoves(w, a); }
  }

  /** An entry exists exactly while somebody in that process uses it, and its mutex has at
      most one owner among them. */
  lemma EntryLivesWhileUsed(actions: seq<Action>, process: nat)
    ensures var w := Run(START, actions);
            process in w.registry <==> exists t :: t in w.calls && t.process == process
    ensures var w := Run(START, actions);
            forall t, u :: (t in w.calls && u in w.calls && t.process == u.process == process &&
                            HasMutex(w.calls[t].stage) && HasMutex(w.calls[u].stage)) ==> t == u
  {
    var w := Run(START, actions);
    var users := RunKeeps(START, map[], actions);
    if process in w.registry {
      var t :| t in users[process];
      assert Uses(w, t) > 0;
    }
  }

  /** A thread woken on a file that is no longer at the path does not hold the lock, and gives
      that file up. */
  lemma WokenOnDeletedFileGivesItUp(actions: seq<Action>, t: Thread)
    requires var w := Run(START, actions);
             t in w.calls && w.calls[t].stage.Locked? && w.path != Some(w.calls[t].stage.inode)
    ensures var w := Run(START, actions);
            var woken := Next(w, Check(t));
            && !Holds(woken, t) && At(woken, t, Mutexed)
            && woken.flocks == w.flocks - {w.calls[t].stage.inode}
            && woken.path == w.path && woken.owners == w.owners && woken.registry == w.registry
  {
  }

  /** It then gets the lock on the file that is there, or on a new one, if and only if nobody has
      locked that. */
  lemma WokenOnDeletedFileGoesRound(actions: seq<Action>, t: Thread)
    requires var w := Run(START, actions);
             t in w.calls && w.calls[t].stage.Locked? && w.path != Some(w.calls[t].stage.inode)
    ensures var w := Run(START, actions);
            Holds(Run(Next(w, Check(t)), [Open(t), TakeFlock(t), Check(t)]), t) <==>
            (w.path.Some? ==> w.path.value !in w.flocks)
  {
    var users := RunKeeps(START, map[], actions);
    GoesRound(Run(START, actions), t);
  }

  lemma GoesRound(w: World, t: Thread)
    requires FileKept(w) && t in w.calls && w.calls[t].stage.Locked? && w.path != Some(w.calls[t].stage.inode)
    ensures Holds(Run(Next(w, Check(t)), [Open(t), TakeFlock(t), Check(t)]), t) <==>
            (w.path.Some? ==> w.path.value !in w.flocks)
  {
    var w1 := Next(w, Check(t));
    var w2 := Next(w1, Open(t));
    var w3 := Next(w2, TakeFlock(t));
    assert At(w1, t, Mutexed);
    assert w2.calls[t].stage.Opened? && w2.path == Some(w2.calls[t].stage.inode);
    assert w2.calls[t].stage.inode in w2.flocks <==> w.path.Some? && w.path.value in w.flocks;
    var rest := [Open(t), TakeFlock(t), Check(t)];
    assert rest[1..] == [TakeFlock(t), Check(t)];
    assert [TakeFlock(t), Check(t)][1..] == [Check(t)];
    assert [Check(t)][1..] == [];
    assert Run(w1, rest) == Run(w2, [TakeFlock(t), Check(t)]) == Run(w3, [Check(t)]) == Next(w3, Check(t));
  }

  // ----- one call

  /** A thread that enters and is not interrupted. */
  function Acquiring(t: Thread): seq<Action> {
    [Enter(t)] + ([TakeMutex(t)] + ([Open(t)] + ([TakeFlock(t)] + ([Check(t)] + []))))
  }

  function Releasing(t: Thread): seq<Action> {
    [ReleaseFlock(t)] + ([ReleaseMutex(t)] + ([ReleaseEntry(t)] + []))
  }

  /** Nobody of its own process has the mutex, and nobody at all the file lock. */
  predicate Free(w: World, process: nat) {
    && (process in w.registry ==> w.registry[process].mutex !in w.owners)
    && (w.path.Some? ==> w.path.value !in w.flocks)
  }

  lemma RunOne(w: World, a: Action, rest: seq<Action>)
    ensures Run(w, [a] + rest) == Run(Next(w, a), rest)
  {
    assert ([a] + rest)[1..] == rest;
  }

  lemma NewOnesAreFree(w: World, users: map<nat, multiset<Thread>>)
    requires Inv(w, users)
    ensures w.nextInode !in w.flocks && w.nextMutex !in w.owners
  {
    forall m | m in w.owners ensures m < w.nextMutex {
      assert w.registry[w.owners[m].process].mutex == m;
    }
  }

  function Users(w: World, process: nat): int {
    if process in w.registry then w.registry[process].count else 0
  }

  function MutexOf(w: World, process: nat): nat {
    if process in w.registry then w.registry[process].mutex else w.nextMutex
  }

  function FileOf(w: World): nat {
    if w.path.Some? then w.path.value else w.nextInode
  }

  lemma Enters(w: World, t: Thread)
    requires t !in w.calls
    ensures var m := MutexOf(w, t.process);
            Next(w, Enter(t)) ==
            w.(calls := w.calls[t := Call(m, Waiting)], registry := w.registry[t.process := Entry(m, Users(w, t.process) + 1)],
               nextMutex := if t.process in w.registry then w.nextMutex else w.nextMutex + 1)
  {
  }

  lemma Takes(w: World, t: Thread, m: nat)
    requires t in w.calls && w.calls[t] == Call(m, Waiting)
    ensures Next(w, TakeMutex(t)) ==
            if m in w.owners then w else w.(calls := w.calls[t := Call(m, Mutexed)], owners := w.owners[m := t])
  {
  }

  lemma Opens(w: World, t: Thread, m: nat)
    requires t in w.calls && w.calls[t] == Call(m, Mutexed)
    ensures Next(w, Open(t)) ==
            w.(calls := w.calls[t := Call(m, Opened(FileOf(w)))], path := Some(FileOf(w)),
               nextInode := if w.path.Some? then w.nextInode else w.nextInode + 1)
  {
  }

  lemma Flocks(w: World, t: Thread, m: nat, i: nat)
    requires t in w.calls && w.calls[t] == Call(m, Opened(i)) && w.path == Some(i)
    ensures var checked := Next(Next(w, TakeFlock(t)), Check(t));
            checked == if i in w.flocks then w
                       else w.(calls := w.calls[t := Call(m, Holding(i, false, 0))], flocks := w.flocks[i := t])
  {
    var locked := Next(w, TakeFlock(t));
    if i !in w.flocks { assert locked.calls == w.calls[t := Call(m, Locked(i))]; }
  }

  /** The world in which this thread holds the lock, and nothing else is different. */
  function Held(w: World, t: Thread): World {
    var m, i := MutexOf(w, t.process), FileOf(w);
    World(w.calls[t := Call(m, Holding(i, false, 0))], w.registry[t.process := Entry(m, Users(w, t.process) + 1)],
          w.owners[m := t], Some(i), w.flocks[i := t],
          if t.process in w.registry then w.nextMutex else w.nextMutex + 1,
          if w.path.Some? then w.nextInode else w.nextInode + 1)
  }

  lemma Stuck(w: World, t: Thread, rest: seq<Action>)
    requires t in w.calls && w.calls[t].stage.Waiting?
    requires forall i :: 0 <= i < |rest| ==> rest[i] == Open(t) || rest[i] == TakeFlock(t) || rest[i] == Check(t)
    ensures Run(w, rest) == w
  {
    if rest != [] { Stuck(w, t, rest[1..]); }
  }

  lemma OpensAndLocks(w: World, t: Thread, m: nat)
    requires t in w.calls && w.calls[t] == Call(m, Mutexed) && w.nextInode !in w.flocks
    ensures var i := FileOf(w);
            var after := Run(w, [Open(t)] + ([TakeFlock(t)] + ([Check(t)] + [])));
            if i !in w.flocks then
              after == w.(calls := w.calls[t := Call(m, Holding(i, false, 0))], path := Some(i), flocks := w.flocks[i := t],
                          nextInode := if w.path.Some? then w.nextInode else w.nextInode + 1)
            else t in after.calls && !after.calls[t].stage.Holding?
  {
    RunOne(w, Open(t), [TakeFlock(t)] + ([Check(t)] + []));
    Opens(w, t, m);
    var w1 := Next(w, Open(t));
    RunOne(w1, TakeFlock(t), [Check(t)] + []);
    RunOne(Next(w1, TakeFlock(t)), Check(t), []);
    Flocks(w1, t, m, FileOf(w));
    SetTwice(w.calls, t, Call(m, Opened(FileOf(w))), Call(m, Holding(FileOf(w), false, 0)));
  }

  lemma TakesAndLocks(w: World, t: Thread, m: nat)
    requires t in w.calls && w.calls[t] == Call(m, Waiting) && w.nextInode !in w.flocks
    ensures var i := FileOf(w);
            var after := Run(w, [TakeMutex(t)] + ([Open(t)] + ([TakeFlock(t)] + ([Check(t)] + []))));
            if m !in w.owners && i !in w.flocks then
              after == w.(calls := w.calls[t := Call(m, Holding(i, false, 0))], owners := w.owners[m := t],
                          path := Some(i), flocks := w.flocks[i := t],
                          nextInode := if w.path.Some? then w.nextInode else w.nextInode + 1)
            else t in after.calls && !after.calls[t].stage.Holding?
  {
    var rest := [Open(t)] + ([TakeFlock(t)] + ([Check(t)] + []));
    RunOne(w, TakeMutex(t), rest);
    Takes(w, t, m);
    if m in w.owners {
      Stuck(w, t, rest);
    } else {
      OpensAndLocks(Next(w, TakeMutex(t)), t, m);
      SetTwice(w.calls, t, Call(m, Mutexed), Call(m, Holding(FileOf(w), false, 0)));
    }
  }

  lemma AcquiringRuns(w: World, t: Thread)
    requires t !in w.calls && w.nextInode !in w.flocks && w.nextMutex !in w.owners
    ensures var after := Run(w, Acquiring(t));
            if Free(w, t.process) then after == Held(w, t) else t in after.calls && !after.calls[t].stage.Holding?
  {
    var m := MutexOf(w, t.process);
    RunOne(w, Enter(t), [TakeMutex(t)] + ([Open(t)] + ([TakeFlock(t)] + ([Check(t)] + []))));
    Enters(w, t);
    var w1 := Next(w, Enter(t));
    assert FileOf(w1) == FileOf(w) && w1.owners == w.owners && w1.flocks == w.flocks && w1.path == w.path;
    TakesAndLocks(w1, t, m);
    SetTwice(w.calls, t, Call(m, Waiting), Call(m, Holding(FileOf(w), false, 0)));
  }

  lemma SetTwice(calls: map<Thread, Call>, t: Thread, a: Call, b: Call)
    ensures calls[t := a][t := b] == calls[t := b]
  {
  }

  /** In any state a thread that calls and is not interrupted comes to hold the lock if and only if
      its mutex and the lock file are free. */
  lemma LockIsTakenExactly(actions: seq<Action>, t: Thread)
    requires t !in Run(START, actions).calls
    ensures var w := Run(START, actions);
            Holds(Run(w, Acquiring(t)), t) <==> Free(w, t.process)
  {
    var w := Run(START, actions);
    var users := RunKeeps(START, map[], actions);
    NewOnesAreFree(w, users);
    AcquiringRuns(w, t);
  }

  lemma GivesUpFile(w: World, t: Thread)
    requires t !in w.calls && Free(w, t.process) && FileOf(w) !in w.flocks
    ensures Next(Held(w, t), ReleaseFlock(t)) ==
            Held(w, t).(calls := w.calls[t := Call(MutexOf(w, t.process), Unlocked)], flocks := w.flocks)
  {
    assert w.flocks[FileOf(w) := t] - {FileOf(w)} == w.flocks;
    SetTwice(w.calls, t, Call(MutexOf(w, t.process), Holding(FileOf(w), false, 0)), Call(MutexOf(w, t.process), Unlocked));
  }

  lemma GivesUpMutex(w: World, t: Thread, m: nat, owners: map<nat, Thread>, calls: map<Thread, Call>)
    requires m !in owners && w.owners == owners[m := t] && w.calls == calls[t := Call(m, Unlocked)]
    ensures Next(w, ReleaseMutex(t)) == w.(owners := owners, calls := calls[t := Call(m, Leaving)])
  {
    assert owners[m := t] - {m} == owners;
    SetTwice(calls, t, Call(m, Unlocked), Call(m, Leaving));
  }

  lemma GivesUpEntry(w: World, t: Thread, m: nat, registry: map<nat, Entry>, calls: map<Thread, Call>)
    requires t !in calls && w.calls == calls[t := Call(m, Leaving)]
    requires t.process in registry ==> registry[t.process].mutex == m && registry[t.process].count > 0
    requires w.registry == registry[t.process := Entry(m, 1 + if t.process in registry then registry[t.process].count else 0)]
    ensures Next(w, ReleaseEntry(t)) == w.(calls := calls, registry := registry)
  {
    assert calls[t := Call(m, Leaving)] - {t} == calls;
    if t.process in registry {
      assert w.registry[t.process := registry[t.process]] == registry;
    } else {
      assert w.registry - {t.process} == registry;
    }
  }

  /** A call that takes the lock and lets it go leaves nothing behind but the file. */
  lemma CallLeavesNoTrace(actions: seq<Action>, t: Thread)
    requires t !in Run(START, actions).calls && Free(Run(START, actions), t.process)
    ensures var w := Run(START, actions);
            var after := Run(Run(w, Acquiring(t)), Releasing(t));
            after == w.(path := Some(if w.path.Some? then w.path.value else w.nextInode),
                        nextMutex := after.nextMutex, nextInode := after.nextInode)
  {
    var w := Run(START, actions);
    var users := RunKeeps(START, map[], actions);
    NewOnesAreFree(w, users);
    AcquiringRuns(w, t);
    LetsGo(w, t);
  }

  lemma LetsGo(w: World, t: Thread)
    requires t !in w.calls && Free(w, t.process) && FileOf(w) !in w.flocks && MutexOf(w, t.process) !in w.owners
    requires t.process in w.registry ==> w.registry[t.process].count > 0
    ensures var after := Run(Held(w, t), Releasing(t));
            after == w.(path := Some(FileOf(w)), nextMutex := after.nextMutex, nextInode := after.nextInode)
  {
    var m := MutexOf(w, t.process);
    RunOne(Held(w, t), ReleaseFlock(t), [ReleaseMutex(t)] + ([ReleaseEntry(t)] + []));
    GivesUpFile(w, t);
    var w1 := Next(Held(w, t), ReleaseFlock(t));
    RunOne(w1, ReleaseMutex(t), [ReleaseEntry(t)] + []);
    GivesUpMutex(w1, t, m, w.owners, w.calls);
    var w2 := Next(w1, ReleaseMutex(t));
    RunOne(w2, ReleaseEntry(t), []);
    GivesUpEntry(w2, t, m, w.registry, w.calls);
  }

  /** A nested call of the holder changes nothing once it is over. */
  lemma NestedCallLeavesNoTrace(actions: seq<Action>, t: Thread)
    requires Holds(Run(START, actions), t)
    ensures var w := Run(START, actions);
            var inside := Next(w, Reenter(t));
            && Holds(inside, t) && inside.calls[t].stage.depth == w.calls[t].stage.depth + 1
            && Next(inside, ReleaseFlock(t)) == inside && Next(inside, Return(t)) == w
  {
    var users := RunKeeps(START, map[], actions);
    ComesBack(Run(START, actions), t);
  }

  lemma GoesIn(w: World, t: Thread)
    requires t in w.calls && w.calls[t].stage.Holding? && t.process in w.registry
    ensures var inside := Next(w, Reenter(t));
            inside == w.(calls := w.calls[t := w.calls[t].(stage := w.calls[t].stage.(depth := w.calls[t].stage.depth + 1))],
                         registry := w.registry[t.process := w.registry[t.process].(count := w.registry[t.process].count + 1)])
  {
  }

  lemma ComesBack(w: World, t: Thread)
    requires Holds(w, t) && t.process in w.registry && w.registry[t.process].count > 0
    ensures var inside := Next(w, Reenter(t));
            && Holds(inside, t) && inside.calls[t].stage.depth == w.calls[t].stage.depth + 1
            && Next(inside, ReleaseFlock(t)) == inside && Next(inside, Return(t)) == w
  {
    GoesIn(w, t);
    var deeper := w.calls[t].(stage := w.calls[t].stage.(depth := w.calls[t].stage.depth + 1));
    SetTwice(w.calls, t, deeper, w.calls[t]);
    assert w.calls[t := w.calls[t]] == w.calls;
    assert w.registry[t.process := w.registry[t.process]] == w.registry;
  }
}
