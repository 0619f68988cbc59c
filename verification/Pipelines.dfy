/** Process pipelines: popen, popen_pipeline and pclose (lib/posix/init.lua).

    A process is a table from descriptor numbers to ends. The calling process runs the Lua code;
    every forked child owns a copy of the caller's table and a script of descriptor calls that it
    still has to make before it runs its task. Children are scheduled freely: `Yield` lets any of
    them advance by any number of calls, and it happens before every call of the caller. */
module Pipelines {

  /** What a descriptor refers to. `Inherited` is anything that is not an end of a pipe. */
  datatype End = Inherited(file: nat) | ReadEnd(pipe: nat) | WriteEnd(pipe: nat)

  type FdTable = map<nat, End>

  const STDIN_FILENO: nat := 0
  const STDOUT_FILENO: nat := 1

  datatype Task = Command(argv: seq<string>) | Function(id: nat)

  /** The task popen hands to execx: a pipeline wraps all but the first stage in a closure that
      moves the previous pipe onto a standard descriptor first. */
  datatype Job = Direct(task: Task) | Rewired(fd: nat, task: Task)

  datatype Syscall = Dup2(from: nat, to: nat) | Close(fd: nat)

  /** `todo` are the calls left before the task starts; `failed` marks a refused dup2. */
  datatype Process = Process(fds: FdTable, todo: seq<Syscall>, task: Task, failed: bool)

  datatype Who = Caller | Child(pid: nat)

  datatype Status = Exited(code: int) | Killed(signal: int) | Stopped(signal: int)

  datatype Result<+T> = Success(value: T) | InvalidMode

  // ---------------------------------------------------------------------------
  // Descriptor calls
  // ---------------------------------------------------------------------------

  function Perform(p: Process): Process
    requires p.todo != []
  {
    match p.todo[0]
    case Dup2(from, to) =>
      if from in p.fds
      then p.(fds := p.fds[to := p.fds[from]], todo := p.todo[1..])
      else p.(todo := [], failed := true)
    case Close(fd) =>
      p.(fds := p.fds - {fd}, todo := p.todo[1..])
  }

  /** The process at the moment its task starts. */
  function Settle(p: Process): Process
    decreases |p.todo|
  {
    if p.todo == [] then p else Settle(Perform(p))
  }

  /** The lowest descriptor that is not open, searching upwards from `i`. */
  function LowestFreeFrom(t: FdTable, i: nat): (fd: nat)
    ensures fd >= i && fd !in t
    ensures forall j :: i <= j < fd ==> j in t
    decreases |t|
  {
    if i in t then
      var fd := LowestFreeFrom(t - {i}, i + 1);
      assert forall j {:trigger j in t} :: i < j < fd ==> j in t - {i};
      fd
    else i
  }

  function LowestFree(t: FdTable): (fd: nat)
    ensures fd !in t && forall j :: 0 <= j < fd ==> j in t
  {
    LowestFreeFrom(t, 0)
  }

  /** move_fd as the calls it makes. */
  function MoveFd(from: nat, to: nat): seq<Syscall> {
    if from != to then [Dup2(from, to), Close(from)] else []
  }

  // ---------------------------------------------------------------------------
  // What one popen child does
  // ---------------------------------------------------------------------------

  predicate ValidMode(mode: string) { mode == "r" || mode == "w" }

  function ReadFd(t: FdTable): nat { LowestFree(t) }

  function WriteFd(t: FdTable, pipe: nat): nat { LowestFree(t[ReadFd(t) := ReadEnd(pipe)]) }

  function WithPipe(t: FdTable, pipe: nat): FdTable {
    t[ReadFd(t) := ReadEnd(pipe)][WriteFd(t, pipe) := WriteEnd(pipe)]
  }

  /** The descriptor popen returns. */
  function ParentFd(t: FdTable, mode: string, pipe: nat): nat {
    if mode == "r" then ReadFd(t) else WriteFd(t, pipe)
  }

  function ChildFd(t: FdTable, mode: string, pipe: nat): nat {
    if mode == "r" then WriteFd(t, pipe) else ReadFd(t)
  }

  function ParentEnd(mode: string, pipe: nat): End {
    if mode == "r" then ReadEnd(pipe) else WriteEnd(pipe)
  }

  function ChildEnd(mode: string, pipe: nat): End {
    if mode == "r" then WriteEnd(pipe) else ReadEnd(pipe)
  }

  function InFd(mode: string): nat { if mode == "r" then STDIN_FILENO else STDOUT_FILENO }

  function OutFd(mode: string): nat { if mode == "r" then STDOUT_FILENO else STDIN_FILENO }

  function JobCalls(job: Job, inFd: nat): seq<Syscall> {
    match job
    case Direct(_) => []
    case Rewired(fd, _) => MoveFd(fd, inFd)
  }

  /** A child just forked from a caller whose table was `t` before the pipe was opened. */
  function Forked(t: FdTable, mode: string, pipe: nat, job: Job): Process {
    Process(WithPipe(t, pipe),
            MoveFd(ChildFd(t, mode, pipe), OutFd(mode)) + [Close(ParentFd(t, mode, pipe))] + JobCalls(job, InFd(mode)),
            job.task, false)
  }

  // ---------------------------------------------------------------------------
  // What a pipeline should be
  // ---------------------------------------------------------------------------

  /** The task of the k-th forked stage. */
  function ForkOrder(tasks: seq<Task>, mode: string, k: nat): Task
    requires k < |tasks|
  {
    if mode == "w" then tasks[|tasks| - 1 - k] else tasks[k]
  }

  /** The table the k-th forked stage should run its task with; pipe k is the one opened for it. */
  function StageTable(base: FdTable, mode: string, first: nat, k: nat): FdTable {
    if mode == "w" then
      var t := base[STDIN_FILENO := ReadEnd(first + k)];
      if k == 0 then t else t[STDOUT_FILENO := WriteEnd(first + k - 1)]
    else
      var t := base[STDOUT_FILENO := WriteEnd(first + k)];
      if k == 0 then t else t[STDIN_FILENO := ReadEnd(first + k - 1)]
  }

  /** Whether the k-th forked stage gets the table it should. */
  predicate StageWorks(base: FdTable, mode: string, k: nat) {
    mode == "w" || STDOUT_FILENO in base || (STDIN_FILENO !in base && k == 0)
  }

  /** Whether a pipeline of n stages is wired correctly: a test on the caller's own descriptors. */
  predicate PipelineWorks(base: FdTable, mode: string, n: nat) {
    mode == "w" || STDOUT_FILENO in base || (STDIN_FILENO !in base && n == 1)
  }

  predicate StageIs(p: Process, base: FdTable, mode: string, first: nat, tasks: seq<Task>, k: nat)
    requires k < |tasks|
  {
    && !p.failed && p.todo == [] && p.task == ForkOrder(tasks, mode, k)
    && (if StageWorks(base, mode, k) then p.fds == StageTable(base, mode, first, k) else STDOUT_FILENO !in p.fds)
  }

  predicate StageAt(procs: map<nat, Process>, base: FdTable, mode: string, first: nat, firstPid: nat,
                    tasks: seq<Task>, k: nat)
    requires k < |tasks|
  {
    firstPid + k in procs && StageIs(procs[firstPid + k], base, mode, first, tasks, k)
  }

  ghost predicate PipesBelow(t: FdTable, n: nat) {
    forall fd :: fd in t && !t[fd].Inherited? ==> t[fd].pipe < n
  }

  ghost predicate Holds(world: map<Who, FdTable>, who: Who, fd: nat, e: End) {
    who in world && fd in world[who] && world[who][fd] == e
  }

  /** Over every table of every process, `e` is open exactly once. */
  ghost predicate OnlyHolder(world: map<Who, FdTable>, who: Who, fd: nat, e: End) {
    forall x, f :: Holds(world, x, f, e) <==> x == who && f == fd
  }

  /** Pipe k of n has one end at stage k and the other at stage k + 1, or at the caller's `fd` when
      k is the last, and no process holds any other copy of either end. */
  ghost predicate PipeWired(world: map<Who, FdTable>, mode: string, n: nat, first: nat, firstPid: nat, fd: nat,
                            k: nat) {
    var (next, nextFd) := if k + 1 < n then (Child(firstPid + k + 1), InFd(mode)) else (Caller, fd);
    && OnlyHolder(world, Child(firstPid + k), OutFd(mode), ChildEnd(mode, first + k))
    && OnlyHolder(world, next, nextFd, ParentEnd(mode, first + k))
  }

  ghost predicate Wired(world: map<Who, FdTable>, mode: string, n: nat, first: nat, firstPid: nat, fd: nat) {
    forall k :: 0 <= k < n ==> PipeWired(world, mode, n, first, firstPid, fd, k)
  }

  /** The process ids of n children forked one after the other. */
  function Pids(first: nat, n: nat): (pids: seq<nat>)
    ensures |pids| == n && forall k :: 0 <= k < n ==> pids[k] == first + k
  {
    seq(n, k requires 0 <= k => first + k)
  }

  // ---------------------------------------------------------------------------
  // One stage
  // ---------------------------------------------------------------------------

  lemma SettleSteps(p: Process)
    requires p.todo != []
    ensures Settle(p) == Settle(Perform(p))
  {
  }

  /** A moved descriptor, whatever is still to be done after it. */
  lemma SettleMove(t: FdTable, from: nat, to: nat, rest: seq<Syscall>, task: Task)
    requires from in t
    ensures Settle(Process(t, MoveFd(from, to) + rest, task, false))
         == Settle(Process(if from == to then t else t[to := t[from]] - {from}, rest, task, false))
  {
    if from == to {
      assert MoveFd(from, to) + rest == rest;
    } else {
      var p := Process(t, [Dup2(from, to), Close(from)] + rest, task, false);
      assert p.todo[1..] == [Close(from)] + rest;
      var q := Perform(p);
      assert q.todo[1..] == rest;
      SettleSteps(p);
      SettleSteps(q);
    }
  }

  /** No call a child makes gives it an end it did not have. */
  lemma {:induction false} SettleKeepsEnds(p: Process)
    ensures Settle(p).fds.Values <= p.fds.Values
    decreases |p.todo|
  {
    if p.todo != [] {
      PerformKeepsEnds(p);
      SettleKeepsEnds(Perform(p));
    }
  }

  lemma PerformKeepsEnds(p: Process)
    requires p.todo != []
    ensures Perform(p).fds.Values <= p.fds.Values
  {
  }

  lemma SettleKeepsBelow(p: Process, n: nat)
    requires PipesBelow(p.fds, n)
    ensures PipesBelow(Settle(p).fds, n)
  {
    SettleKeepsEnds(p);
    var t := Settle(p).fds;
    forall fd | fd in t && !t[fd].Inherited? ensures t[fd].pipe < n {
      assert t[fd] in t.Values;
    }
  }

  function Moved(t: FdTable, from: nat, to: nat): FdTable
    requires from in t
  {
    if from == to then t else t[to := t[from]] - {from}
  }

  /** The settled table of a popen child, call by call. */
  lemma SettleForked(t: FdTable, mode: string, pipe: nat, job: Job)
    requires ValidMode(mode)
    requires job.Rewired? ==>
               job.fd in Moved(WithPipe(t, pipe), ChildFd(t, mode, pipe), OutFd(mode)) - {ParentFd(t, mode, pipe)}
    ensures var u := Moved(WithPipe(t, pipe), ChildFd(t, mode, pipe), OutFd(mode)) - {ParentFd(t, mode, pipe)};
            Settle(Forked(t, mode, pipe, job)) ==
            Process(if job.Rewired? then Moved(u, job.fd, InFd(mode)) else u, [], job.task, false)
  {
    var calls := JobCalls(job, InFd(mode));
    var rest := [Close(ParentFd(t, mode, pipe))] + calls;
    assert Forked(t, mode, pipe, job).todo == MoveFd(ChildFd(t, mode, pipe), OutFd(mode)) + rest;
    SettleMove(WithPipe(t, pipe), ChildFd(t, mode, pipe), OutFd(mode), rest, job.task);
    var p := Process(Moved(WithPipe(t, pipe), ChildFd(t, mode, pipe), OutFd(mode)), rest, job.task, false);
    assert rest[1..] == calls;
    SettleSteps(p);
    if job.Rewired? {
      assert calls == MoveFd(job.fd, InFd(mode)) + [];
      SettleMove(Perform(p).fds, job.fd, InFd(mode), [], job.task);
    }
  }

  /** The first stage, forked from the caller's own table. */
  lemma FirstStage(base: FdTable, mode: string, first: nat, tasks: seq<Task>)
    requires ValidMode(mode) && tasks != []
    ensures StageIs(Settle(Forked(base, mode, first, Direct(ForkOrder(tasks, mode, 0)))), base, mode, first, tasks, 0)
  {
    SettleForked(base, mode, first, Direct(ForkOrder(tasks, mode, 0)));
  }

  /** A later stage, forked while the caller holds the previous pipe at `fd`. */
  lemma NextStage(base: FdTable, fd: nat, mode: string, first: nat, tasks: seq<Task>, k: nat)
    requires ValidMode(mode) && 0 < k < |tasks| && fd !in base
    requires mode == "w" ==> fd > 0
    requires mode == "r" && STDIN_FILENO !in base && STDOUT_FILENO !in base ==> fd <= 1
    ensures StageIs(Settle(Forked(base[fd := ParentEnd(mode, first + k - 1)], mode, first + k,
                                  Rewired(fd, ForkOrder(tasks, mode, k)))),
                    base, mode, first, tasks, k)
  {
    if mode == "w" {
      NextStageWrites(base, fd, first, tasks, k);
    } else {
      NextStageReads(base, fd, first, tasks, k);
    }
  }

  lemma NextStageWrites(base: FdTable, fd: nat, first: nat, tasks: seq<Task>, k: nat)
    requires 0 < k < |tasks| && fd !in base && fd > 0
    ensures StageIs(Settle(Forked(base[fd := WriteEnd(first + k - 1)], "w", first + k,
                                  Rewired(fd, ForkOrder(tasks, "w", k)))),
                    base, "w", first, tasks, k)
  {
    var t := base[fd := WriteEnd(first + k - 1)];
    SettleForked(t, "w", first + k, Rewired(fd, ForkOrder(tasks, "w", k)));
    assert 0 in t || ReadFd(t) == 0;
    MovesWrite(base, fd, ReadFd(t), WriteFd(t, first + k), WriteEnd(first + k - 1), ReadEnd(first + k),
        WriteEnd(first + k));
  }

  /** The descriptors of a later stage in mode 'w': the new pipe to stdin, the previous one to stdout. */
  lemma MovesWrite(base: FdTable, fd: nat, r: nat, w: nat, previous: End, reading: End, writing: End)
    requires fd !in base && fd > 0 && r !in base && w !in base && r != fd && w != fd && w > 0 && r != w
    requires r == 0 || 0 in base
    ensures var u := Moved(base[fd := previous][r := reading][w := writing], r, STDIN_FILENO) - {w};
            fd in u && Moved(u, fd, STDOUT_FILENO) == base[STDIN_FILENO := reading][STDOUT_FILENO := previous]
  {
    var u := Moved(base[fd := previous][r := reading][w := writing], r, STDIN_FILENO) - {w};
    assert u == base[STDIN_FILENO := reading][fd := previous];
  }

  lemma NextStageReads(base: FdTable, fd: nat, first: nat, tasks: seq<Task>, k: nat)
    requires 0 < k < |tasks| && fd !in base
    requires STDIN_FILENO !in base && STDOUT_FILENO !in base ==> fd <= 1
    ensures StageIs(Settle(Forked(base[fd := ReadEnd(first + k - 1)], "r", first + k,
                                  Rewired(fd, ForkOrder(tasks, "r", k)))),
                    base, "r", first, tasks, k)
  {
    var t := base[fd := ReadEnd(first + k - 1)];
    SettleForked(t, "r", first + k, Rewired(fd, ForkOrder(tasks, "r", k)));
    if STDOUT_FILENO !in base && fd != STDOUT_FILENO {
      assert STDOUT_FILENO !in t;
      assert ReadFd(t) == STDOUT_FILENO;
    }
    MovesRead(base, fd, ReadFd(t), WriteFd(t, first + k), ReadEnd(first + k - 1), ReadEnd(first + k),
        WriteEnd(first + k));
  }

  /** The descriptors of a later stage in mode 'r': the new pipe to stdout, the previous one to stdin;
      except that without a stdout of the caller's the stage has none. */
  lemma MovesRead(base: FdTable, fd: nat, r: nat, w: nat, previous: End, reading: End, writing: End)
    requires fd !in base && r !in base && w !in base && r != fd && w != fd && r != w
    requires STDOUT_FILENO in base || fd == STDOUT_FILENO || r == STDOUT_FILENO
    ensures var u := Moved(base[fd := previous][r := reading][w := writing], w, STDOUT_FILENO) - {r};
            && (fd in u)
            && (STDOUT_FILENO in base ==>
                  Moved(u, fd, STDIN_FILENO) == base[STDOUT_FILENO := writing][STDIN_FILENO := previous])
            && (STDOUT_FILENO !in base ==> STDOUT_FILENO !in Moved(u, fd, STDIN_FILENO))
  {
    var u := Moved(base[fd := previous][r := reading][w := writing], w, STDOUT_FILENO) - {r};
    if STDOUT_FILENO in base {
      assert u == base[STDOUT_FILENO := writing][fd := previous];
    }
  }

  // ---------------------------------------------------------------------------
  // The whole network
  // ---------------------------------------------------------------------------

  /** Every process and its descriptors. */
  ghost function World(callerFds: FdTable, procs: map<nat, Process>): map<Who, FdTable> {
    map who | who in (set pid | pid in procs :: Child(pid)) + {Caller} ::
      if who.Caller? then callerFds else procs[who.pid].fds
  }

  /** What popen_pipeline leaves: the caller holds `fd` besides its own descriptors, and the stages
      are there beside processes that know nothing of the new pipes. */
  ghost predicate Built(callerFds: FdTable, procs: map<nat, Process>, base: FdTable, mode: string,
                        tasks: seq<Task>, first: nat, firstPid: nat, fd: nat)
    requires tasks != []
  {
    && fd !in base
    && callerFds == base[fd := ParentEnd(mode, first + |tasks| - 1)]
    && (forall k: nat :: k < |tasks| ==> StageAt(procs, base, mode, first, firstPid, tasks, k))
    && PipesBelow(base, first)
    && (forall pid :: pid in procs && !(firstPid <= pid < firstPid + |tasks|) ==> PipesBelow(procs[pid].fds, first))
  }

  /** What process x sees at descriptor f, when the pipeline works. */
  lemma TableOf(callerFds: FdTable, procs: map<nat, Process>, base: FdTable, mode: string,
                tasks: seq<Task>, first: nat, firstPid: nat, fd: nat, k: nat)
    requires tasks != [] && ValidMode(mode) && k < |tasks|
    requires Built(callerFds, procs, base, mode, tasks, first, firstPid, fd)
    requires PipelineWorks(base, mode, |tasks|)
    ensures Child(firstPid + k) in World(callerFds, procs)
    ensures World(callerFds, procs)[Child(firstPid + k)] == StageTable(base, mode, first, k)
  {
    assert StageAt(procs, base, mode, first, firstPid, tasks, k);
  }

  lemma PipeIsWired(callerFds: FdTable, procs: map<nat, Process>, base: FdTable, mode: string,
                    tasks: seq<Task>, first: nat, firstPid: nat, fd: nat, k: nat)
    requires tasks != [] && ValidMode(mode) && k < |tasks|
    requires Built(callerFds, procs, base, mode, tasks, first, firstPid, fd)
    requires PipelineWorks(base, mode, |tasks|)
    ensures PipeWired(World(callerFds, procs), mode, |tasks|, first, firstPid, fd, k)
  {
    var world, e, e' := World(callerFds, procs), ChildEnd(mode, first + k), ParentEnd(mode, first + k);
    var (next, nextFd) := if k + 1 < |tasks| then (Child(firstPid + k + 1), InFd(mode)) else (Caller, fd);
    forall x: Who, f: nat {:trigger Holds(world, x, f, e)} {:trigger Holds(world, x, f, e')}
      ensures Holds(world, x, f, e) <==> x == Child(firstPid + k) && f == OutFd(mode)
      ensures Holds(world, x, f, e') <==> x == next && f == nextFd
    {
      EndsAt(callerFds, procs, base, mode, tasks, first, firstPid, fd, k, x, f);
    }
  }

  /** Which ends of new pipes the j-th stage holds, and where. */
  lemma EndsAtStage(base: FdTable, mode: string, first: nat, j: nat, k: nat, f: nat)
    requires ValidMode(mode) && PipesBelow(base, first)
    ensures var t := StageTable(base, mode, first, j);
            && ((f in t && t[f] == ChildEnd(mode, first + k)) <==> j == k && f == OutFd(mode))
            && ((f in t && t[f] == ParentEnd(mode, first + k)) <==> j == k + 1 && f == InFd(mode))
  {
  }

  /** Who holds the ends of pipe k, and where: of all processes x and descriptors f. */
  lemma EndsAt(callerFds: FdTable, procs: map<nat, Process>, base: FdTable, mode: string,
               tasks: seq<Task>, first: nat, firstPid: nat, fd: nat, k: nat, x: Who, f: nat)
    requires tasks != [] && ValidMode(mode) && k < |tasks|
    requires Built(callerFds, procs, base, mode, tasks, first, firstPid, fd)
    requires PipelineWorks(base, mode, |tasks|)
    ensures Holds(World(callerFds, procs), x, f, ChildEnd(mode, first + k))
        <==> x == Child(firstPid + k) && f == OutFd(mode)
    ensures Holds(World(callerFds, procs), x, f, ParentEnd(mode, first + k))
            <==> if k + 1 < |tasks| then x == Child(firstPid + k + 1) && f == InFd(mode) else x == Caller && f == fd
  {
    if x.Caller? {
      assert World(callerFds, procs)[x] == callerFds;
    } else if firstPid <= x.pid < firstPid + |tasks| {
      TableOf(callerFds, procs, base, mode, tasks, first, firstPid, fd, x.pid - firstPid);
      EndsAtStage(base, mode, first, x.pid - firstPid, k, f);
    } else if x in World(callerFds, procs) {
      assert PipesBelow(World(callerFds, procs)[x], first);
    }
  }

  /** The wiring is right exactly when the caller's descriptors allow it. */
  lemma WiredIff(callerFds: FdTable, procs: map<nat, Process>, base: FdTable, mode: string,
                 tasks: seq<Task>, first: nat, firstPid: nat, fd: nat)
    requires tasks != [] && ValidMode(mode)
    requires Built(callerFds, procs, base, mode, tasks, first, firstPid, fd)
    ensures Wired(World(callerFds, procs), mode, |tasks|, first, firstPid, fd) <==> PipelineWorks(base, mode, |tasks|)
  {
    if PipelineWorks(base, mode, |tasks|) {
      forall k | 0 <= k < |tasks|
        ensures PipeWired(World(callerFds, procs), mode, |tasks|, first, firstPid, fd, k)
      {
        PipeIsWired(callerFds, procs, base, mode, tasks, first, firstPid, fd, k);
      }
    } else {
      var k := if STDIN_FILENO in base then 0 else 1;
      assert StageAt(procs, base, mode, first, firstPid, tasks, k);
      assert !Holds(World(callerFds, procs), Child(firstPid + k), STDOUT_FILENO, WriteEnd(first + k));
      assert !PipeWired(World(callerFds, procs), mode, |tasks|, first, firstPid, fd, k);
    }
  }

  // ---------------------------------------------------------------------------
  // How a pipeline comes to its end
  // ---------------------------------------------------------------------------

  /** A pipeline of n stages, forked from the table `base`, by its pipes and its pids. */
  datatype Pipeline = Pipeline(base: FdTable, mode: string, n: nat, first: nat, firstPid: nat)

  function Stage(p: Pipeline, k: nat): Who { Child(p.firstPid + k) }

  predicate IsStage(p: Pipeline, x: Who) { x.Child? && p.firstPid <= x.pid < p.firstPid + p.n }

  /** The end that popen_pipeline returns to the caller. */
  function LastEnd(p: Pipeline): End
    requires p.n > 0
  {
    ParentEnd(p.mode, p.first + p.n - 1)
  }

  predicate Ours(p: Pipeline, e: End) { !e.Inherited? && p.first <= e.pipe < p.first + p.n }

  ghost predicate HoldsLastOnly(p: Pipeline, t: FdTable)
    requires p.n > 0
  {
    forall f :: f in t && Ours(p, t[f]) ==> t[f] == LastEnd(p)
  }

  /** Any state after popen_pipeline has returned: some stages may have exited, the caller may have closed
      its end, and other children, forked since, may hold copies of it. */
  ghost predicate Among(world: map<Who, FdTable>, p: Pipeline) {
    && p.n > 0 && ValidMode(p.mode) && PipesBelow(p.base, p.first)
    && (forall x :: x in world && IsStage(p, x) ==>
          world[x] == StageTable(p.base, p.mode, p.first, x.pid - p.firstPid))
    && (forall x :: x in world && !IsStage(p, x) ==> HoldsLastOnly(p, world[x]))
  }

  ghost predicate Held(world: map<Who, FdTable>, e: End) {
    exists who, fd :: Holds(world, who, fd, e)
  }

  /** A process outside the pipeline that holds the caller's end: the caller itself, or a child. */
  ghost predicate Heir(world: map<Who, FdTable>, p: Pipeline, x: Who)
    requires p.n > 0
  {
    !IsStage(p, x) && exists f :: Holds(world, x, f, LastEnd(p))
  }

  ghost predicate HasHeir(world: map<Who, FdTable>, p: Pipeline)
    requires p.n > 0
  {
    exists x :: Heir(world, p, x)
  }

  /** End-of-file and broken pipes, exactly: the end of pipe k at stage k is open as long as that stage
      lives; the other end as long as the next stage does, or, for the last pipe, as long as there is an
      heir. */
  lemma HeldIff(world: map<Who, FdTable>, p: Pipeline, k: nat)
    requires Among(world, p) && k < p.n
    ensures Held(world, ChildEnd(p.mode, p.first + k)) <==> Stage(p, k) in world
    ensures Held(world, ParentEnd(p.mode, p.first + k))
            <==> if k + 1 < p.n then Stage(p, k + 1) in world else HasHeir(world, p)
  {
    ChildHeld(world, p, k);
    ParentHeld(world, p, k);
  }

  lemma ChildHeld(world: map<Who, FdTable>, p: Pipeline, k: nat)
    requires Among(world, p) && k < p.n
    ensures Held(world, ChildEnd(p.mode, p.first + k)) <==> Stage(p, k) in world
  {
    var e := ChildEnd(p.mode, p.first + k);
    if x, f :| Holds(world, x, f, e) {
      assert Ours(p, e) && e != LastEnd(p);
      assert IsStage(p, x);
      EndsAtStage(p.base, p.mode, p.first, x.pid - p.firstPid, k, f);
    }
    if Stage(p, k) in world {
      assert IsStage(p, Stage(p, k));
      EndsAtStage(p.base, p.mode, p.first, k, k, OutFd(p.mode));
      assert Holds(world, Stage(p, k), OutFd(p.mode), e);
    }
  }

  lemma ParentHeld(world: map<Who, FdTable>, p: Pipeline, k: nat)
    requires Among(world, p) && k < p.n
    ensures Held(world, ParentEnd(p.mode, p.first + k))
            <==> if k + 1 < p.n then Stage(p, k + 1) in world else HasHeir(world, p)
  {
    var e := ParentEnd(p.mode, p.first + k);
    if x, f :| Holds(world, x, f, e) {
      assert Ours(p, e);
      if IsStage(p, x) {
        EndsAtStage(p.base, p.mode, p.first, x.pid - p.firstPid, k, f);
      } else {
        assert k + 1 == p.n && Heir(world, p, x);
      }
    }
    if k + 1 == p.n {
      if x :| Heir(world, p, x) {
        var f :| Holds(world, x, f, LastEnd(p));
        assert Held(world, e);
      }
    } else if Stage(p, k + 1) in world {
      assert IsStage(p, Stage(p, k + 1));
      EndsAtStage(p.base, p.mode, p.first, k + 1, k, InFd(p.mode));
      assert Holds(world, Stage(p, k + 1), InFd(p.mode), e);
    }
  }

  /** The reads from stdin reach the end of the file. */
  ghost predicate InputEnds(world: map<Who, FdTable>, t: FdTable) {
    STDIN_FILENO in t && t[STDIN_FILENO].ReadEnd? && !Held(world, WriteEnd(t[STDIN_FILENO].pipe))
  }

  /** The writes to stdout fail. */
  ghost predicate OutputBreaks(world: map<Who, FdTable>, t: FdTable) {
    STDOUT_FILENO in t && t[STDOUT_FILENO].WriteEnd? && !Held(world, ReadEnd(t[STDOUT_FILENO].pipe))
  }

  ghost predicate Released(world: map<Who, FdTable>, who: Who) {
    who in world && (InputEnds(world, world[who]) || OutputBreaks(world, world[who]))
  }

  /** What the first stage forked has from the caller instead of a pipe: its stdout in mode 'w', its stdin
      in mode 'r'. */
  ghost predicate OuterGone(world: map<Who, FdTable>, p: Pipeline) {
    if p.mode == "w" then OutputBreaks(world, p.base) else InputEnds(world, p.base)
  }

  /** A stage is released exactly when one of its two neighbours is gone, on the caller's side every heir,
      and on the other side what the caller had there. */
  lemma ReleasedIff(world: map<Who, FdTable>, p: Pipeline, k: nat)
    requires Among(world, p) && k < p.n && Stage(p, k) in world
    ensures Released(world, Stage(p, k)) <==>
            || (if k + 1 < p.n then Stage(p, k + 1) !in world else !HasHeir(world, p))
            || (if k > 0 then Stage(p, k - 1) !in world else OuterGone(world, p))
  {
    TableOfStage(world, p, k);
    StageReleased(world, p, k);
    ParentHeld(world, p, k);
    if k > 0 {
      ChildHeld(world, p, k - 1);
    }
  }

  lemma TableOfStage(world: map<Who, FdTable>, p: Pipeline, k: nat)
    requires Among(world, p) && k < p.n && Stage(p, k) in world
    ensures world[Stage(p, k)] == StageTable(p.base, p.mode, p.first, k)
  {
    assert IsStage(p, Stage(p, k));
  }

  /** The same in terms of ends of pipes. */
  lemma StageReleased(world: map<Who, FdTable>, p: Pipeline, k: nat)
    requires ValidMode(p.mode) && Stage(p, k) in world
    requires world[Stage(p, k)] == StageTable(p.base, p.mode, p.first, k)
    ensures Released(world, Stage(p, k)) <==>
            || !Held(world, ParentEnd(p.mode, p.first + k))
            || (if k > 0 then !Held(world, ChildEnd(p.mode, p.first + k - 1)) else OuterGone(world, p))
  {
    if p.mode == "w" {
      assert InputEnds(world, world[Stage(p, k)]) <==> !Held(world, WriteEnd(p.first + k));
    } else {
      assert OutputBreaks(world, world[Stage(p, k)]) <==> !Held(world, ReadEnd(p.first + k));
    }
  }

  function Countdown(n: nat): (order: seq<nat>)
    ensures |order| == n && forall i :: 0 <= i < n ==> order[i] == n - 1 - i
  {
    seq(n, i requires 0 <= i < n => n - 1 - i)
  }

  /** The world without the stages in `ended`. */
  ghost function Without(world: map<Who, FdTable>, p: Pipeline, ended: seq<nat>): map<Who, FdTable> {
    world - set k | k in ended :: Stage(p, k)
  }

  /** The stages can exit in this order, each released by those before it, or gone already. */
  ghost predicate ExitOrder(world: map<Who, FdTable>, p: Pipeline, order: seq<nat>) {
    forall i :: 0 <= i < |order| ==> MayExit(world, p, order[..i], order[i])
  }

  ghost predicate MayExit(world: map<Who, FdTable>, p: Pipeline, before: seq<nat>, k: nat) {
    Stage(p, k) in world ==> Released(Without(world, p, before), Stage(p, k))
  }

  lemma WithoutStages(world: map<Who, FdTable>, p: Pipeline, ended: seq<nat>)
    requires Among(world, p) && forall k :: k in ended ==> k < p.n
    ensures Among(Without(world, p, ended), p)
    ensures HasHeir(Without(world, p, ended), p) <==> HasHeir(world, p)
  {
    var later := Without(world, p, ended);
    forall x | !IsStage(p, x) ensures Heir(later, p, x) <==> Heir(world, p, x) {
      forall f ensures Holds(later, x, f, LastEnd(p)) <==> Holds(world, x, f, LastEnd(p)) {
      }
    }
  }

  /** Once nobody holds the caller's end any more every stage is released, the last forked first, so that
      waiting for them ends. */
  lemma StagesMayExit(world: map<Who, FdTable>, p: Pipeline)
    requires Among(world, p) && !HasHeir(world, p)
    ensures ExitOrder(world, p, Countdown(p.n))
  {
    var order := Countdown(p.n);
    forall i | 0 <= i < p.n ensures MayExit(world, p, order[..i], order[i]) {
      var later := Without(world, p, order[..i]);
      WithoutStages(world, p, order[..i]);
      if i > 0 {
        assert order[..i][i - 1] == p.n - i;
      }
      if Stage(p, order[i]) in world {
        assert Stage(p, order[i]) in later;
        ReleasedIff(later, p, order[i]);
      }
    }
  }

  ghost predicate AllLive(world: map<Who, FdTable>, p: Pipeline) {
    forall k: nat :: k < p.n ==> Stage(p, k) in world
  }

  ghost predicate SomeReleased(world: map<Who, FdTable>, p: Pipeline) {
    exists k: nat :: k < p.n && Released(world, Stage(p, k))
  }

  /** But as long as there is one heir, none is: not before the caller closes its end, and not after, when a
      child that was forked in between lives on. */
  lemma StuckIff(world: map<Who, FdTable>, p: Pipeline)
    requires Among(world, p) && AllLive(world, p) && !OuterGone(world, p)
    ensures !SomeReleased(world, p) <==> HasHeir(world, p)
  {
    forall k: nat | k < p.n
      ensures Released(world, Stage(p, k)) <==> k + 1 == p.n && !HasHeir(world, p)
    {
      assert Stage(p, k) in world && (k > 0 ==> Stage(p, k - 1) in world) && (k + 1 < p.n ==> Stage(p, k + 1) in world);
      ReleasedIff(world, p, k);
    }
    if !HasHeir(world, p) {
      assert Released(world, Stage(p, p.n - 1));
    }
  }

  /** In mode 'w' that says that no stage reaches the end of its input while there is an heir. */
  lemma InputStaysOpen(world: map<Who, FdTable>, p: Pipeline, k: nat)
    requires Among(world, p) && AllLive(world, p) && p.mode == "w" && HasHeir(world, p) && k < p.n
    ensures Stage(p, k) in world && STDIN_FILENO in world[Stage(p, k)] && !InputEnds(world, world[Stage(p, k)])
  {
    assert IsStage(p, Stage(p, k)) && (k + 1 < p.n ==> Stage(p, k + 1) in world);
    HeldIff(world, p, k);
  }

  // ---------------------------------------------------------------------------
  // From the return of popen_pipeline to its end
  // ---------------------------------------------------------------------------

  /** All stages live, and the caller is the only heir. */
  ghost predicate JustOpened(world: map<Who, FdTable>, p: Pipeline) {
    Among(world, p) && AllLive(world, p) && forall x :: Heir(world, p, x) <==> x == Caller
  }

  lemma BuiltAmong(callerFds: FdTable, procs: map<nat, Process>, base: FdTable, mode: string, tasks: seq<Task>,
                   first: nat, firstPid: nat, fd: nat)
    requires tasks != [] && ValidMode(mode)
    requires Built(callerFds, procs, base, mode, tasks, first, firstPid, fd)
    requires PipelineWorks(base, mode, |tasks|)
    ensures JustOpened(World(callerFds, procs), Pipeline(base, mode, |tasks|, first, firstPid))
  {
    var p, world := Pipeline(base, mode, |tasks|, first, firstPid), World(callerFds, procs);
    forall k: nat | k < p.n
      ensures Stage(p, k) in world && world[Stage(p, k)] == StageTable(base, mode, first, k)
    {
      TableOf(callerFds, procs, base, mode, tasks, first, firstPid, fd, k);
    }
    forall x | x in world && IsStage(p, x)
      ensures world[x] == StageTable(base, mode, first, x.pid - firstPid)
    {
      assert x == Stage(p, x.pid - firstPid);
    }
    forall x | !IsStage(p, x)
      ensures (x in world ==> HoldsLastOnly(p, world[x])) && (Heir(world, p, x) <==> x == Caller)
    {
      OutsideBuilt(callerFds, procs, base, mode, tasks, first, firstPid, fd, x);
    }
  }

  lemma OutsideBuilt(callerFds: FdTable, procs: map<nat, Process>, base: FdTable, mode: string, tasks: seq<Task>,
                     first: nat, firstPid: nat, fd: nat, x: Who)
    requires tasks != [] && ValidMode(mode)
    requires Built(callerFds, procs, base, mode, tasks, first, firstPid, fd)
    requires !IsStage(Pipeline(base, mode, |tasks|, first, firstPid), x)
    ensures var p, world := Pipeline(base, mode, |tasks|, first, firstPid), World(callerFds, procs);
            (x in world ==> HoldsLastOnly(p, world[x])) && (Heir(world, p, x) <==> x == Caller)
  {
    var p, world := Pipeline(base, mode, |tasks|, first, firstPid), World(callerFds, procs);
    if x.Caller? {
      assert world[x] == callerFds && Holds(world, x, fd, LastEnd(p));
    } else if x in world {
      assert PipesBelow(world[x], first);
    }
  }

  /** A child that the caller forks later has what the caller had, or newer pipes. */
  lemma LaterChild(p: Pipeline, t: FdTable, mode: string, pipe: nat, job: Job)
    requires p.n > 0 && HoldsLastOnly(p, t) && pipe >= p.first + p.n
    ensures HoldsLastOnly(p, Settle(Forked(t, mode, pipe, job)).fds)
    ensures HoldsLastOnly(p, t[ParentFd(t, mode, pipe) := ParentEnd(mode, pipe)])
  {
    var child := Forked(t, mode, pipe, job);
    SettleKeepsEnds(child);
    var u := Settle(child).fds;
    forall f | f in u && Ours(p, u[f]) ensures u[f] == LastEnd(p) {
      assert u[f] in u.Values;
      var g :| g in child.fds && child.fds[g] == u[f];
    }
  }

  /** Every later popen leaves a pipeline among what there is: it adds an heir at most. */
  lemma PopenKeepsAmong(callerFds: FdTable, procs: map<nat, Process>, p: Pipeline, mode: string, pipe: nat, pid: nat,
                        job: Job)
    requires Among(World(callerFds, procs), p) && pipe >= p.first + p.n && pid >= p.firstPid + p.n
    ensures Among(World(callerFds[ParentFd(callerFds, mode, pipe) := ParentEnd(mode, pipe)],
                        procs[pid := Settle(Forked(callerFds, mode, pipe, job))]), p)
  {
    assert World(callerFds, procs)[Caller] == callerFds;
    LaterChild(p, callerFds, mode, pipe, job);
    AddsOne(callerFds, procs, p, callerFds[ParentFd(callerFds, mode, pipe) := ParentEnd(mode, pipe)],
            pid, Settle(Forked(callerFds, mode, pipe, job)));
  }

  lemma OthersStay(callerFds: FdTable, procs: map<nat, Process>, callerFds': FdTable, pid: nat, child: Process, x: Who)
    ensures var world, world' := World(callerFds, procs), World(callerFds', procs[pid := child]);
            && world'[Caller] == callerFds' && world'[Child(pid)] == child.fds
            && (x != Caller && x != Child(pid) && x in world' ==> x in world && world'[x] == world[x])
  {
  }

  lemma AddsOne(callerFds: FdTable, procs: map<nat, Process>, p: Pipeline, callerFds': FdTable, pid: nat,
      child: Process)
    requires Among(World(callerFds, procs), p) && pid >= p.firstPid + p.n
    requires HoldsLastOnly(p, callerFds') && HoldsLastOnly(p, child.fds)
    ensures Among(World(callerFds', procs[pid := child]), p)
  {
    var world, world' := World(callerFds, procs), World(callerFds', procs[pid := child]);
    forall x | x in world' ensures AsBefore(world, world', p, x) {
      OthersStay(callerFds, procs, callerFds', pid, child, x);
    }
    StillAmong(world, world', p);
  }

  ghost predicate AsBefore(world: map<Who, FdTable>, world': map<Who, FdTable>, p: Pipeline, x: Who)
    requires p.n > 0 && x in world'
  {
    (x in world && world'[x] == world[x]) || (!IsStage(p, x) && HoldsLastOnly(p, world'[x]))
  }

  lemma StillAmong(world: map<Who, FdTable>, world': map<Who, FdTable>, p: Pipeline)
    requires Among(world, p) && forall x :: x in world' ==> AsBefore(world, world', p, x)
    ensures Among(world', p)
  {
    forall x | x in world' && IsStage(p, x)
      ensures world'[x] == StageTable(p.base, p.mode, p.first, x.pid - p.firstPid)
    {
      assert AsBefore(world, world', p, x);
    }
    forall x | x in world' && !IsStage(p, x) ensures HoldsLastOnly(p, world'[x]) {
      assert AsBefore(world, world', p, x);
    }
  }

  lemma SameHeirs(before: map<Who, FdTable>, world: map<Who, FdTable>, p: Pipeline)
    requires p.n > 0
    requires forall x :: x != Caller ==> (x in world <==> x in before) && (x in world ==> world[x] == before[x])
    ensures forall x :: x != Caller ==> (Heir(world, p, x) <==> Heir(before, p, x))
  {
    forall x | x != Caller ensures Heir(world, p, x) <==> Heir(before, p, x) {
      if f :| Holds(before, x, f, LastEnd(p)) {
        assert Holds(world, x, f, LastEnd(p));
      }
      if f :| Holds(world, x, f, LastEnd(p)) {
        assert Holds(before, x, f, LastEnd(p));
      }
    }
  }

  /** The caller closes its only copy of the end, and the children forked meanwhile remain as heirs. */
  lemma CloseLeavesHeirs(callerFds: FdTable, procs: map<nat, Process>, p: Pipeline, fd: nat)
    requires Among(World(callerFds, procs), p)
    requires forall f :: f in callerFds && callerFds[f] == LastEnd(p) ==> f == fd
    ensures var world := World(callerFds - {fd}, procs);
            && Among(world, p)
            && forall x :: Heir(world, p, x) <==> x != Caller && Heir(World(callerFds, procs), p, x)
  {
    var before, world := World(callerFds, procs), World(callerFds - {fd}, procs);
    AmongClosed(callerFds, procs, p, fd);
    assert world[Caller] == callerFds - {fd};
    forall x | x != Caller ensures x in world <==> x in before
      ensures x in world ==> world[x] == before[x]
    {
    }
    SameHeirs(before, world, p);
    forall f ensures !Holds(world, Caller, f, LastEnd(p)) {
    }
  }

  lemma AddedOpens(callerFds: FdTable, procs: map<nat, Process>, callerFds': FdTable, procs': map<nat, Process>,
                   p: Pipeline)
    requires Added(procs', procs, p.firstPid, p.n)
    ensures Opens(World(callerFds, procs), World(callerFds', procs'), p)
  {
  }

  /** The caller, its children, and the numbers of the next child and pipe. */
  datatype Config = Config(fds: FdTable, procs: map<nat, Process>, nextPid: nat, nextPipe: nat)

  /** What can happen later: the caller calls popen, by itself or as a part of popen_pipeline, or closes a
      descriptor, or a child exits. */
  datatype Change = Popens(job: Job, mode: string) | Closes(fd: nat) | Exits(pid: nat)

  function After(c: Config, change: Change): Config {
    match change
    case Popens(job, mode) =>
      if ValidMode(mode)
      then Config(c.fds[ParentFd(c.fds, mode, c.nextPipe) := ParentEnd(mode, c.nextPipe)],
                  c.procs[c.nextPid := Settle(Forked(c.fds, mode, c.nextPipe, job))], c.nextPid + 1, c.nextPipe + 1)
      else c.(fds := WithPipe(c.fds, c.nextPipe), nextPipe := c.nextPipe + 1)
    case Closes(fd) => c.(fds := c.fds - {fd})
    case Exits(pid) => c.(procs := c.procs - {pid})
  }

  function AfterAll(c: Config, changes: seq<Change>): Config
    decreases |changes|
  {
    if changes == [] then c else AfterAll(After(c, changes[0]), changes[1..])
  }

  lemma {:induction false} AfterAllAppend(c: Config, changes: seq<Change>, more: seq<Change>)
    ensures AfterAll(c, changes + more) == AfterAll(AfterAll(c, changes), more)
    decreases |changes|
  {
    if changes == [] {
      assert changes + more == more;
    } else {
      assert (changes + more)[1..] == changes[1..] + more;
      AfterAllAppend(After(c, changes[0]), changes[1..], more);
    }
  }

  /** Some list of changes leads from one state to another. */
  ghost predicate Leads(c: Config, d: Config) { exists changes :: AfterAll(c, changes) == d }

  lemma LeadsOn(c: Config, changes: seq<Change>, d: Config)
    requires Leads(c, d)
    ensures Leads(c, AfterAll(d, changes))
  {
    var before :| AfterAll(c, before) == d;
    AfterAllAppend(c, before, changes);
    assert AfterAll(c, before + changes) == AfterAll(d, changes);
  }

  lemma LeadsFirst(c: Config, change: Change)
    ensures Leads(c, After(c, change))
  {
    assert [change][1..] == [];
    assert AfterAll(c, [change]) == After(c, change);
  }

  lemma AfterTwo(c: Config, x: Change, y: Change)
    ensures AfterAll(c, [x, y]) == After(After(c, x), y)
  {
    assert [x, y][1..] == [y] && [y][1..] == [];
    assert AfterAll(c, [x, y]) == AfterAll(After(c, x), [y]);
  }

  ghost predicate NoPopens(changes: seq<Change>) { forall i :: 0 <= i < |changes| ==> !changes[i].Popens? }

  function ClosedBy(changes: seq<Change>): set<nat> { set x | x in changes && x.Closes? :: x.fd }

  function ExitedBy(changes: seq<Change>): set<nat> { set x | x in changes && x.Exits? :: x.pid }

  function ExitsOf(pids: seq<nat>): seq<Change> { seq(|pids|, i requires 0 <= i < |pids| => Exits(pids[i])) }

  /** Without popen things only go: the descriptors that are closed, and the children that exit. */
  lemma {:induction false} OnlyLess(c: Config, changes: seq<Change>)
    requires NoPopens(changes)
    ensures AfterAll(c, changes)
         == c.(fds := c.fds - ClosedBy(changes), procs := c.procs - ExitedBy(changes))
    decreases |changes|
  {
    if changes != [] {
      var x, rest := changes[0], changes[1..];
      assert changes == [x] + rest;
      OnlyLess(After(c, x), rest);
      assert ClosedBy(changes) == ClosedBy(rest) + if x.Closes? then {x.fd} else {};
      assert ExitedBy(changes) == ExitedBy(rest) + if x.Exits? then {x.pid} else {};
      assert c.fds - ClosedBy(changes) == After(c, x).fds - ClosedBy(rest);
      assert c.procs - ExitedBy(changes) == After(c, x).procs - ExitedBy(rest);
    }
  }

  /** What pclose does, as a list of changes. */
  lemma ClosingIs(c: Config, fd: nat, pids: seq<nat>)
    ensures AfterAll(c, [Closes(fd)] + ExitsOf(pids))
         == c.(fds := c.fds - {fd}, procs := c.procs - (set pid | pid in pids))
  {
    var exits := ExitsOf(pids);
    OnlyLess(c, [Closes(fd)] + exits);
    forall pid | pid in pids ensures Exits(pid) in [Closes(fd)] + exits {
      var i :| 0 <= i < |pids| && pids[i] == pid;
      assert exits[i] == Exits(pid);
    }
    assert ClosedBy([Closes(fd)] + exits) == {fd};
    assert ExitedBy([Closes(fd)] + exits) == set pid | pid in pids;
  }

  ghost predicate Stands(c: Config, p: Pipeline) {
    Among(World(c.fds, c.procs), p) && c.nextPid >= p.firstPid + p.n && c.nextPipe >= p.first + p.n
  }

  lemma StillStands(c: Config, p: Pipeline, change: Change)
    requires Stands(c, p)
    ensures Stands(After(c, change), p)
  {
    match change
    case Popens(job, mode) =>
      if ValidMode(mode) {
        PopenKeepsAmong(c.fds, c.procs, p, mode, c.nextPipe, c.nextPid, job);
      } else {
        PipeKeepsAmong(c.fds, c.procs, p, c.nextPipe);
      }
    case Closes(fd) => AmongClosed(c.fds, c.procs, p, fd);
    case Exits(pid) => ExitKeepsAmong(c.fds, c.procs, p, pid);
  }

  /** An invalid mode leaves both ends of a new pipe open. */
  lemma PipeKeepsAmong(callerFds: FdTable, procs: map<nat, Process>, p: Pipeline, pipe: nat)
    requires Among(World(callerFds, procs), p) && pipe >= p.first + p.n
    ensures Among(World(WithPipe(callerFds, pipe), procs), p)
  {
    var world, world' := World(callerFds, procs), World(WithPipe(callerFds, pipe), procs);
    assert world[Caller] == callerFds && world'[Caller] == WithPipe(callerFds, pipe);
    forall x | x in world' ensures AsBefore(world, world', p, x) {
      if x.Child? {
        assert x in world && world'[x] == world[x];
      }
    }
    StillAmong(world, world', p);
  }

  lemma ExitKeepsAmong(callerFds: FdTable, procs: map<nat, Process>, p: Pipeline, pid: nat)
    requires Among(World(callerFds, procs), p)
    ensures Among(World(callerFds, procs - {pid}), p)
  {
    var world, world' := World(callerFds, procs), World(callerFds, procs - {pid});
    forall x | x in world' ensures AsBefore(world, world', p, x) {
      assert x in world && world'[x] == world[x];
    }
    StillAmong(world, world', p);
  }

  /** Whatever happens later, the pipeline stands: each of its stages lives and has its two pipes, or is gone,
      and all that others can hold of it are copies of the caller's end. */
  lemma {:induction false} AlwaysStands(c: Config, p: Pipeline, changes: seq<Change>)
    requires Stands(c, p)
    ensures Stands(AfterAll(c, changes), p)
    decreases |changes|
  {
    if changes != [] {
      StillStands(c, p, changes[0]);
      AlwaysStands(After(c, changes[0]), p, changes[1..]);
    }
  }

  /** Another popen_pipeline is such a list too. */
  lemma LedToStands(c: Config, p: Pipeline, d: Config)
    requires Stands(c, p) && Leads(c, d)
    ensures Stands(d, p)
  {
    var changes :| AfterAll(c, changes) == d;
    AlwaysStands(c, p, changes);
  }

  /** So when a stage is released is decided, in every later state, as ReleasedIff says. */
  lemma LaterReleasedIff(c: Config, p: Pipeline, changes: seq<Change>, k: nat)
    requires JustOpened(World(c.fds, c.procs), p)
    requires c.nextPid >= p.firstPid + p.n && c.nextPipe >= p.first + p.n && k < p.n
    ensures var later := AfterAll(c, changes);
            var world := World(later.fds, later.procs);
            Stage(p, k) in world ==>
              (Released(world, Stage(p, k)) <==>
                || (if k + 1 < p.n then Stage(p, k + 1) !in world else !HasHeir(world, p))
                || (if k > 0 then Stage(p, k - 1) !in world else OuterGone(world, p)))
  {
    AlwaysStands(c, p, changes);
    var later := AfterAll(c, changes);
    if Stage(p, k) in World(later.fds, later.procs) {
      ReleasedIff(World(later.fds, later.procs), p, k);
    }
  }

  /** When nothing is forked any more: somebody holds the caller's end exactly as long as the caller has not closed
      every copy of it, and after that the last stage, if it lives, is released. */
  lemma ClosingReleases(c: Config, p: Pipeline, changes: seq<Change>)
    requires JustOpened(World(c.fds, c.procs), p) && NoPopens(changes)
    requires c.nextPid >= p.firstPid + p.n && c.nextPipe >= p.first + p.n
    ensures var later := AfterAll(c, changes);
            var world := World(later.fds, later.procs);
            && (HasHeir(world, p) <==> exists f :: f in c.fds && c.fds[f] == LastEnd(p) && Closes(f) !in changes)
            && (!HasHeir(world, p) && Stage(p, p.n - 1) in world ==> Released(world, Stage(p, p.n - 1)))
  {
    var before, later := World(c.fds, c.procs), AfterAll(c, changes);
    var world := World(later.fds, later.procs);
    OnlyLess(c, changes);
    HeirsLater(c, later, p);
    assert forall f :: f in ClosedBy(changes) <==> Closes(f) in changes;
    assert HasHeir(world, p) <==> exists f :: f in c.fds && c.fds[f] == LastEnd(p) && Closes(f) !in changes;
    if !HasHeir(world, p) && Stage(p, p.n - 1) in world {
      LaterReleasedIff(c, p, changes, p.n - 1);
    }
  }

  lemma HeirsLater(c: Config, later: Config, p: Pipeline)
    requires JustOpened(World(c.fds, c.procs), p)
    requires forall f :: f in later.fds ==> f in c.fds && later.fds[f] == c.fds[f]
    requires forall pid :: pid in later.procs ==> pid in c.procs && later.procs[pid] == c.procs[pid]
    ensures HasHeir(World(later.fds, later.procs), p) <==> exists f :: f in later.fds && later.fds[f] == LastEnd(p)
  {
    var before, world := World(c.fds, c.procs), World(later.fds, later.procs);
    assert world[Caller] == later.fds;
    if x :| Heir(world, p, x) {
      var f :| Holds(world, x, f, LastEnd(p));
      if x.Child? {
        assert Holds(before, x, f, LastEnd(p));
        assert Heir(before, p, x);
      }
    }
    if f :| f in later.fds && later.fds[f] == LastEnd(p) {
      assert Holds(world, Caller, f, LastEnd(p));
      assert Heir(world, p, Caller);
    }
  }

  /** Between two states the stages of a second pipeline have come to be, and no other child. */
  ghost predicate Opens(before: map<Who, FdTable>, world: map<Who, FdTable>, two: Pipeline) {
    && Caller in before && Caller in world
    && (forall x :: x in before && x.Child? ==> x in world && world[x] == before[x])
    && (forall x :: x in world && x.Child? && !IsStage(two, x) ==> x in before)
  }

  /** A second pipeline, opened while the caller holds the end of the first one at fd: it leaves the first one
      among what there is, and these of its stages inherit that end. */
  lemma SecondPipeline(before: map<Who, FdTable>, world: map<Who, FdTable>, one: Pipeline, two: Pipeline, fd: nat)
    requires JustOpened(before, one) && JustOpened(world, two) && Opens(before, world, two)
    requires two.base == before[Caller] && two.first >= one.first + one.n && two.firstPid >= one.firstPid + one.n
    requires fd in two.base && two.base[fd] == LastEnd(one) && HoldsLastOnly(one, world[Caller])
    requires forall f :: f in two.base && Ours(one, two.base[f]) ==> f == fd
    ensures Among(world, one) && AllLive(world, one)
    ensures forall k: nat :: k < two.n ==>
              (Heir(world, one, Stage(two, k)) <==> fd != OutFd(two.mode) && (k > 0 ==> fd != InFd(two.mode)))
  {
    forall k: nat | k < one.n ensures Stage(one, k) in world {
      assert Stage(one, k) in before;
    }
    forall k: nat | k < two.n
      ensures HoldsLastOnly(one, world[Stage(two, k)])
      ensures Heir(world, one, Stage(two, k)) <==> fd != OutFd(two.mode) && (k > 0 ==> fd != InFd(two.mode))
    {
      StageInherits(world, one, two, fd, k);
    }
    forall x | x in world && !IsStage(one, x) ensures HoldsLastOnly(one, world[x]) {
      if IsStage(two, x) {
        assert x == Stage(two, x.pid - two.firstPid);
      }
    }
  }

  lemma StageInherits(world: map<Who, FdTable>, one: Pipeline, two: Pipeline, fd: nat, k: nat)
    requires Among(world, two) && AllLive(world, two) && k < two.n && one.n > 0
    requires two.first >= one.first + one.n && two.firstPid >= one.firstPid + one.n
    requires fd in two.base && two.base[fd] == LastEnd(one)
    requires forall f :: f in two.base && Ours(one, two.base[f]) ==> f == fd
    ensures Stage(two, k) in world && HoldsLastOnly(one, world[Stage(two, k)])
    ensures Heir(world, one, Stage(two, k)) <==> fd != OutFd(two.mode) && (k > 0 ==> fd != InFd(two.mode))
  {
    var x := Stage(two, k);
    assert x in world && IsStage(two, x) && !IsStage(one, x);
    Inherits(one, fd, two.base, two.mode, two.first, k);
    assert Holds(world, x, fd, LastEnd(one)) <==> fd != OutFd(two.mode) && (k > 0 ==> fd != InFd(two.mode));
    if f :| Holds(world, x, f, LastEnd(one)) {
      assert f == fd;
    }
  }

  /** What a stage table keeps of the caller's descriptors. */
  lemma Inherits(one: Pipeline, fd: nat, base: FdTable, mode: string, first: nat, k: nat)
    requires one.n > 0 && fd in base && base[fd] == LastEnd(one) && ValidMode(mode) && first >= one.first + one.n
    requires forall f :: f in base && Ours(one, base[f]) ==> f == fd
    ensures var t := StageTable(base, mode, first, k);
            && HoldsLastOnly(one, t)
            && forall f :: f in t && t[f] == LastEnd(one) <==>
                 f == fd && fd != OutFd(mode) && (k > 0 ==> fd != InFd(mode))
  {
  }

  /** When the first of two pipelines is closed its end lives on in the second one's stages, and nobody is
      released. */
  lemma TwoOpen(base: FdTable, one: Pipeline, two: Pipeline, fd: nat, fd': nat, before: map<Who, FdTable>,
                callerFds: FdTable, procs: map<nat, Process>)
    requires JustOpened(before, one) && one.base == base && STDIN_FILENO in base && STDOUT_FILENO in base
    requires base[STDIN_FILENO].Inherited? && base[STDOUT_FILENO].Inherited?
    requires Opens(before, World(callerFds, procs), two) && JustOpened(World(callerFds, procs), two)
    requires fd !in base && two.base == base[fd := LastEnd(one)] && before[Caller] == two.base
    requires two.first >= one.first + one.n && two.firstPid >= one.firstPid + one.n
    requires fd' !in two.base && callerFds == two.base[fd' := LastEnd(two)]
    ensures var world := World(callerFds - {fd}, procs);
            && AllLive(world, one) && AllLive(world, two) && !SomeReleased(world, one) && !SomeReleased(world, two)
  {
    TwoTables(one, two, fd, fd', callerFds);
    FirstStuck(one, two, fd, before, callerFds, procs);
    SecondStuck(two, fd, fd', callerFds, procs);
  }

  lemma TwoTables(one: Pipeline, two: Pipeline, fd: nat, fd': nat, callerFds: FdTable)
    requires one.n > 0 && two.n > 0 && PipesBelow(one.base, one.first) && two.first >= one.first + one.n
    requires fd !in one.base && two.base == one.base[fd := LastEnd(one)]
    requires fd' !in two.base && callerFds == two.base[fd' := LastEnd(two)]
    ensures HoldsLastOnly(one, callerFds)
    ensures forall f :: f in two.base && Ours(one, two.base[f]) ==> f == fd
    ensures forall f :: f in callerFds && callerFds[f] == LastEnd(one) ==> f == fd
  {
  }

  lemma FirstStuck(one: Pipeline, two: Pipeline, fd: nat, before: map<Who, FdTable>, callerFds: FdTable,
                   procs: map<nat, Process>)
    requires JustOpened(before, one) && JustOpened(World(callerFds, procs), two)
    requires Opens(before, World(callerFds, procs), two) && HoldsLastOnly(one, callerFds)
    requires two.base == before[Caller] && two.first >= one.first + one.n && two.firstPid >= one.firstPid + one.n
    requires fd in two.base && two.base[fd] == LastEnd(one) && fd > 1
    requires forall f :: f in two.base && Ours(one, two.base[f]) ==> f == fd
    requires forall f :: f in callerFds && callerFds[f] == LastEnd(one) ==> f == fd
    requires !OuterGone(World(callerFds - {fd}, procs), one)
    ensures AllLive(World(callerFds - {fd}, procs), one) && !SomeReleased(World(callerFds - {fd}, procs), one)
  {
    var world, closed := World(callerFds, procs), World(callerFds - {fd}, procs);
    SecondPipeline(before, world, one, two, fd);
    CloseLeavesHeirs(callerFds, procs, one, fd);
    assert Heir(world, one, Stage(two, 0));
    assert Heir(closed, one, Stage(two, 0));
    StillLive(callerFds, procs, one, fd);
    StuckIff(closed, one);
  }

  lemma SecondStuck(two: Pipeline, fd: nat, fd': nat, callerFds: FdTable, procs: map<nat, Process>)
    requires Among(World(callerFds, procs), two) && AllLive(World(callerFds, procs), two)
    requires fd' in callerFds && callerFds[fd'] == LastEnd(two) && fd' != fd
    requires !OuterGone(World(callerFds - {fd}, procs), two)
    ensures AllLive(World(callerFds - {fd}, procs), two) && !SomeReleased(World(callerFds - {fd}, procs), two)
  {
    var closed := World(callerFds - {fd}, procs);
    AmongClosed(callerFds, procs, two, fd);
    assert Holds(closed, Caller, fd', LastEnd(two));
    assert Heir(closed, two, Caller);
    StillLive(callerFds, procs, two, fd);
    StuckIff(closed, two);
  }

  lemma StillLive(callerFds: FdTable, procs: map<nat, Process>, p: Pipeline, fd: nat)
    requires AllLive(World(callerFds, procs), p)
    ensures AllLive(World(callerFds - {fd}, procs), p)
  {
    forall k: nat | k < p.n ensures Stage(p, k) in World(callerFds - {fd}, procs) {
      assert Stage(p, k) in World(callerFds, procs);
    }
  }

  lemma AmongClosed(callerFds: FdTable, procs: map<nat, Process>, p: Pipeline, fd: nat)
    requires Among(World(callerFds, procs), p)
    ensures Among(World(callerFds - {fd}, procs), p)
  {
  }

  // ---------------------------------------------------------------------------
  // What the network computes
  // ---------------------------------------------------------------------------

  type Stream = seq<int>

  /** The tasks one after the other, in list order. */
  function RunAll(f: (Task, Stream) -> Stream, tasks: seq<Task>, x: Stream): Stream {
    if tasks == [] then x else f(tasks[|tasks| - 1], RunAll(f, tasks[..|tasks| - 1], x))
  }

  /** `content` gives every end the bytes that pass through it: the two ends of a pipe carry the
      same bytes, and a stage writes to its stdout what its task makes of its stdin. */
  ghost predicate Carries(content: End -> Stream, f: (Task, Stream) -> Stream, n: nat, firstPid: nat,
                          procs: map<nat, Process>) {
    && (forall p: nat :: content(ReadEnd(p)) == content(WriteEnd(p)))
    && (forall pid :: pid in procs && firstPid <= pid < firstPid + n ==>
          TransformsBy(content, f, procs[pid]))
  }

  ghost predicate TransformsBy(content: End -> Stream, f: (Task, Stream) -> Stream, s: Process) {
    STDIN_FILENO in s.fds && STDOUT_FILENO in s.fds ==>
      content(s.fds[STDOUT_FILENO]) == f(s.task, content(s.fds[STDIN_FILENO]))
  }

  /** Mode 'r': pipe k carries the composition of the first k + 1 tasks. */
  lemma {:induction false} ReadPipeCarries(content: End -> Stream, f: (Task, Stream) -> Stream, base: FdTable,
      tasks: seq<Task>, first: nat, firstPid: nat, procs: map<nat, Process>, k: nat)
    requires STDIN_FILENO in base && STDOUT_FILENO in base && k < |tasks|
    requires forall j: nat :: j < |tasks| ==> StageAt(procs, base, "r", first, firstPid, tasks, j)
    requires Carries(content, f, |tasks|, firstPid, procs)
    ensures content(WriteEnd(first + k)) == RunAll(f, tasks[..k + 1], content(base[STDIN_FILENO]))
  {
    assert StageAt(procs, base, "r", first, firstPid, tasks, k);
    assert tasks[..k + 1][..k] == tasks[..k];
    if k > 0 {
      ReadPipeCarries(content, f, base, tasks, first, firstPid, procs, k - 1);
    }
  }

  /** Mode 'w': the pipe read by the stage that runs task m carries the composition of the first m tasks. */
  lemma {:induction false} WritePipeCarries(content: End -> Stream, f: (Task, Stream) -> Stream, base: FdTable,
      tasks: seq<Task>, first: nat, firstPid: nat, procs: map<nat, Process>, m: nat)
    requires STDOUT_FILENO in base && m < |tasks|
    requires forall j: nat :: j < |tasks| ==> StageAt(procs, base, "w", first, firstPid, tasks, j)
    requires Carries(content, f, |tasks|, firstPid, procs)
    ensures content(ReadEnd(first + |tasks| - 1 - m)) == RunAll(f, tasks[..m], content(WriteEnd(first + |tasks| - 1)))
  {
    if m > 0 {
      WritePipeCarries(content, f, base, tasks, first, firstPid, procs, m - 1);
      var k := |tasks| - m;
      assert StageAt(procs, base, "w", first, firstPid, tasks, k);
      assert tasks[..m][..m - 1] == tasks[..m - 1];
    }
  }

  /** Mode 'w': the last task in the list, forked first, writes to the inherited stdout. */
  lemma LastTaskWrites(content: End -> Stream, f: (Task, Stream) -> Stream, base: FdTable,
      tasks: seq<Task>, first: nat, firstPid: nat, procs: map<nat, Process>)
    requires STDOUT_FILENO in base && tasks != []
    requires forall j: nat :: j < |tasks| ==> StageAt(procs, base, "w", first, firstPid, tasks, j)
    requires Carries(content, f, |tasks|, firstPid, procs)
    ensures content(base[STDOUT_FILENO]) == RunAll(f, tasks, content(WriteEnd(first + |tasks| - 1)))
  {
    var n := |tasks|;
    WritePipeCarries(content, f, base, tasks, first, firstPid, procs, n - 1);
    assert StageAt(procs, base, "w", first, firstPid, tasks, 0);
    var s := procs[firstPid];
    assert s.fds[STDIN_FILENO] == ReadEnd(first) && s.fds[STDOUT_FILENO] == base[STDOUT_FILENO];
    assert first + n - 1 - (n - 1) == first;
  }

  /** Both modes denote the composition of the tasks in list order: in 'r' from the inherited
      stdin to what the caller reads, in 'w' from what the caller writes to the inherited stdout. */
  lemma PipelineComposes(content: End -> Stream, f: (Task, Stream) -> Stream, callerFds: FdTable,
      procs: map<nat, Process>, base: FdTable, mode: string, tasks: seq<Task>, first: nat, firstPid: nat, fd: nat)
    requires tasks != [] && ValidMode(mode) && STDOUT_FILENO in base && (mode == "r" ==> STDIN_FILENO in base)
    requires Built(callerFds, procs, base, mode, tasks, first, firstPid, fd)
    requires Carries(content, f, |tasks|, firstPid, procs)
    ensures mode == "r" ==> content(callerFds[fd]) == RunAll(f, tasks, content(base[STDIN_FILENO]))
    ensures mode == "w" ==> content(base[STDOUT_FILENO]) == RunAll(f, tasks, content(callerFds[fd]))
  {
    if mode == "r" {
      LastPipeRead(content, f, base, tasks, first, firstPid, procs);
    } else {
      LastTaskWrites(content, f, base, tasks, first, firstPid, procs);
    }
  }

  /** Mode 'r': the last pipe, which the caller reads. */
  lemma LastPipeRead(content: End -> Stream, f: (Task, Stream) -> Stream, base: FdTable,
      tasks: seq<Task>, first: nat, firstPid: nat, procs: map<nat, Process>)
    requires STDIN_FILENO in base && STDOUT_FILENO in base && tasks != []
    requires forall j: nat :: j < |tasks| ==> StageAt(procs, base, "r", first, firstPid, tasks, j)
    requires Carries(content, f, |tasks|, firstPid, procs)
    ensures content(ReadEnd(first + |tasks| - 1)) == RunAll(f, tasks, content(base[STDIN_FILENO]))
  {
    ReadPipeCarries(content, f, base, tasks, first, firstPid, procs, |tasks| - 1);
    assert tasks[..|tasks|] == tasks;
    assert content(ReadEnd(first + |tasks| - 1)) == content(WriteEnd(first + |tasks| - 1));
  }

  /** A flow of bytes that the network allows, for any input x. */
  function Flow(f: (Task, Stream) -> Stream, mode: string, tasks: seq<Task>, first: nat, x: Stream): End -> Stream {
    (e: End) =>
      if e.Inherited? || e.pipe < first || e.pipe >= first + |tasks| then
        if mode == "r" then x else RunAll(f, tasks, x)
      else
        RunAll(f, tasks[..if mode == "r" then e.pipe - first + 1 else first + |tasks| - 1 - e.pipe], x)
  }

  /** PipelineComposes is not vacuous: every input has such a flow. */
  lemma FlowExists(f: (Task, Stream) -> Stream, callerFds: FdTable, procs: map<nat, Process>, base: FdTable,
                   mode: string, tasks: seq<Task>, first: nat, firstPid: nat, fd: nat, x: Stream)
    requires tasks != [] && ValidMode(mode) && STDOUT_FILENO in base && (mode == "r" ==> STDIN_FILENO in base)
    requires Built(callerFds, procs, base, mode, tasks, first, firstPid, fd)
    ensures var content := Flow(f, mode, tasks, first, x);
            && Carries(content, f, |tasks|, firstPid, procs)
            && x == content(if mode == "r" then base[STDIN_FILENO] else callerFds[fd])
  {
    forall pid | pid in procs && firstPid <= pid < firstPid + |tasks|
      ensures TransformsBy(Flow(f, mode, tasks, first, x), f, procs[pid])
    {
      assert StageAt(procs, base, mode, first, firstPid, tasks, pid - firstPid);
      FlowAtStage(f, base, mode, tasks, first, x, pid - firstPid, procs[pid]);
    }
  }

  lemma FlowAtStage(f: (Task, Stream) -> Stream, base: FdTable, mode: string, tasks: seq<Task>, first: nat, x: Stream,
                    k: nat, p: Process)
    requires k < |tasks| && ValidMode(mode) && STDOUT_FILENO in base && (mode == "r" ==> STDIN_FILENO in base)
    requires PipesBelow(base, first) && StageIs(p, base, mode, first, tasks, k)
    ensures TransformsBy(Flow(f, mode, tasks, first, x), f, p)
  {
    var m := if mode == "r" then k else |tasks| - 1 - k;
    var t, content := p.fds, Flow(f, mode, tasks, first, x);
    assert tasks[..m + 1][..m] == tasks[..m];
    assert tasks[..|tasks|] == tasks && tasks[..0] == [];
    assert content(t[STDIN_FILENO]) == RunAll(f, tasks[..m], x);
    assert content(t[STDOUT_FILENO]) == RunAll(f, tasks[..m + 1], x);
  }

  // ---------------------------------------------------------------------------
  // How a pipeline grows
  // ---------------------------------------------------------------------------

  /** After k stages: the caller holds `fd` besides its own descriptors, and the k children are wired. */
  ghost predicate Grown(callerFds: FdTable, procs: map<nat, Process>, base: FdTable, procs0: map<nat, Process>,
                        mode: string, tasks: seq<Task>, first: nat, firstPid: nat, fd: nat, k: nat)
  {
    && 1 <= k <= |tasks|
    && fd !in base && callerFds == base[fd := ParentEnd(mode, first + k - 1)]
    && (mode == "w" ==> fd > 0)
    && (mode == "r" && STDIN_FILENO !in base && STDOUT_FILENO !in base ==> fd <= 1)
    && Added(procs, procs0, firstPid, k)
    && (forall j: nat :: j < k ==> StageAt(procs, base, mode, first, firstPid, tasks, j))
  }

  lemma GrownOnce(base: FdTable, procs0: map<nat, Process>, mode: string, tasks: seq<Task>, first: nat, firstPid: nat)
    requires ValidMode(mode) && tasks != [] && forall pid :: pid in procs0 ==> pid < firstPid
    ensures var fd := ParentFd(base, mode, first);
            Grown(base[fd := ParentEnd(mode, first)],
                  procs0[firstPid := Settle(Forked(base, mode, first, Direct(ForkOrder(tasks, mode, 0))))],
                  base, procs0, mode, tasks, first, firstPid, fd, 1)
  {
    FirstStage(base, mode, first, tasks);
  }

  /** One more stage: fork it, drop the previous pipe, keep the new one. */
  lemma GrownAgain(callerFds: FdTable, procs: map<nat, Process>, base: FdTable, procs0: map<nat, Process>,
                   mode: string, tasks: seq<Task>, first: nat, firstPid: nat, fd: nat, k: nat)
    requires ValidMode(mode) && k < |tasks|
    requires Grown(callerFds, procs, base, procs0, mode, tasks, first, firstPid, fd, k)
    ensures var fd' := ParentFd(callerFds, mode, first + k);
            Grown(callerFds[fd' := ParentEnd(mode, first + k)] - {fd},
                  procs[firstPid + k := Settle(Forked(callerFds, mode, first + k,
                      Rewired(fd, ForkOrder(tasks, mode, k))))],
                  base, procs0, mode, tasks, first, firstPid, fd', k + 1)
  {
    NextStage(base, fd, mode, first, tasks, k);
    NextFd(base, fd, mode, first + k);
    var p := Settle(Forked(callerFds, mode, first + k, Rewired(fd, ForkOrder(tasks, mode, k))));
    StagesStay(procs, procs[firstPid + k := p], base, mode, tasks, first, firstPid, k, p);
  }

  /** The caller's descriptors when the next pipe has replaced the previous one. */
  lemma NextFd(base: FdTable, fd: nat, mode: string, pipe: nat)
    requires ValidMode(mode) && pipe > 0 && fd !in base
    requires mode == "w" ==> fd > 0
    requires mode == "r" && STDIN_FILENO !in base && STDOUT_FILENO !in base ==> fd <= 1
    ensures var t := base[fd := ParentEnd(mode, pipe - 1)];
            var fd' := ParentFd(t, mode, pipe);
            && fd' !in base && (mode == "w" ==> fd' > 0)
            && (mode == "r" && STDIN_FILENO !in base && STDOUT_FILENO !in base ==> fd' <= 1)
            && t[fd' := ParentEnd(mode, pipe)] - {fd} == base[fd' := ParentEnd(mode, pipe)]
  {
    var t := base[fd := ParentEnd(mode, pipe - 1)];
    if mode == "w" {
      assert 0 in t || ReadFd(t) == 0;
    } else if STDIN_FILENO !in base && STDOUT_FILENO !in base {
      assert 0 !in t || 1 !in t;
    }
  }

  lemma StagesStay(procs: map<nat, Process>, procs': map<nat, Process>, base: FdTable, mode: string, tasks: seq<Task>,
                   first: nat, firstPid: nat, k: nat, p: Process)
    requires k < |tasks| && StageIs(p, base, mode, first, tasks, k) && procs' == procs[firstPid + k := p]
    requires forall j: nat :: j < k ==> StageAt(procs, base, mode, first, firstPid, tasks, j)
    ensures forall j: nat :: j < k + 1 ==> StageAt(procs', base, mode, first, firstPid, tasks, j)
  {
    forall j: nat | j < k + 1 ensures StageAt(procs', base, mode, first, firstPid, tasks, j) {
      assert j < k ==> StageAt(procs, base, mode, first, firstPid, tasks, j);
    }
  }

  lemma GrownTo(callerFds: FdTable, procs: map<nat, Process>, base: FdTable, procs0: map<nat, Process>,
                mode: string, tasks: seq<Task>, first: nat, firstPid: nat, fd: nat, k: nat,
                callerFds': FdTable, procs': map<nat, Process>, fd': nat)
    requires ValidMode(mode) && k < |tasks|
    requires Grown(callerFds, procs, base, procs0, mode, tasks, first, firstPid, fd, k)
    requires fd' == ParentFd(callerFds, mode, first + k)
    requires callerFds' == callerFds[fd' := ParentEnd(mode, first + k)] - {fd}
    requires procs' == procs[firstPid + k :=
                             Settle(Forked(callerFds, mode, first + k, Rewired(fd, ForkOrder(tasks, mode, k))))]
    ensures Grown(callerFds', procs', base, procs0, mode, tasks, first, firstPid, fd', k + 1)
  {
    GrownAgain(callerFds, procs, base, procs0, mode, tasks, first, firstPid, fd, k);
  }

  lemma GrownIsBuilt(callerFds: FdTable, procs: map<nat, Process>, base: FdTable, procs0: map<nat, Process>,
                     mode: string, tasks: seq<Task>, first: nat, firstPid: nat, fd: nat)
    requires ValidMode(mode) && tasks != [] && PipesBelow(base, first)
    requires forall pid :: pid in procs0 ==> PipesBelow(procs0[pid].fds, first)
    requires Grown(callerFds, procs, base, procs0, mode, tasks, first, firstPid, fd, |tasks|)
    ensures Built(callerFds, procs, base, mode, tasks, first, firstPid, fd)
    ensures Wired(World(callerFds, procs), mode, |tasks|, first, firstPid, fd) <==> PipelineWorks(base, mode, |tasks|)
    ensures PipelineWorks(base, mode, |tasks|) ==>
              JustOpened(World(callerFds, procs), Pipeline(base, mode, |tasks|, first, firstPid))
    ensures Added(procs, procs0, firstPid, |tasks|)
  {
    WiredIff(callerFds, procs, base, mode, tasks, first, firstPid, fd);
    if PipelineWorks(base, mode, |tasks|) {
      BuiltAmong(callerFds, procs, base, mode, tasks, first, firstPid, fd);
    }
  }

  lemma LastPid(pids: seq<nat>, before: seq<nat>, procs: map<nat, Process>)
    requires pids != []
    ensures var init, last := pids[..|pids| - 1], pids[|pids| - 1];
            && before + pids == (before + init) + [last]
            && procs - (set pid | pid in init) - {last} == procs - (set pid | pid in pids)
  {
    assert pids == pids[..|pids| - 1] + [pids[|pids| - 1]];
  }

  lemma NextPid(first: nat, n: nat)
    ensures Pids(first, n) + [first + n] == Pids(first, n + 1)
  {
  }

  /** n children more, and nothing else changed. */
  ghost predicate Added(procs: map<nat, Process>, procs0: map<nat, Process>, firstPid: nat, n: nat) {
    && (forall pid :: pid in procs <==> pid in procs0 || firstPid <= pid < firstPid + n)
    && (forall pid :: pid in procs0 ==> pid < firstPid && procs[pid] == procs0[pid])
  }

  lemma RangeRemoved(before: map<nat, Process>, after: map<nat, Process>, first: nat, n: nat)
    requires Added(after, before, first, n)
    ensures forall k :: 0 <= k < n ==> Pids(first, n)[k] in after
    ensures after - (set pid | pid in Pids(first, n)) == before
  {
    forall pid | first <= pid < first + n
      ensures pid in Pids(first, n)
    {
      assert Pids(first, n)[pid - first] == pid;
    }
  }

  // ---------------------------------------------------------------------------
  // The caller and its children
  // ---------------------------------------------------------------------------

  /** The pipeline object: a table with fields `fd` and `pids`, updated in place. */
  class Pfd {
    var fd: nat
    var pids: seq<nat>

    constructor (pid: nat, fd: nat)
      ensures this.fd == fd && pids == [pid]
    {
      this.fd := fd;
      pids := [pid];
    }
  }

  /** Every child is one of those forked so far, and holds ends of pipes opened so far only. */
  ghost predicate AllBelow(procs: map<nat, Process>, nextPid: nat, nextPipe: nat) {
    forall pid :: pid in procs ==> pid < nextPid && PipesBelow(procs[pid].fds, nextPipe)
  }

  /** Opening a pipe keeps every descriptor within the pipes opened so far. */
  lemma PipeKeepsBelow(t: FdTable, procs: map<nat, Process>, nextPid: nat, pipe: nat)
    requires PipesBelow(t, pipe) && AllBelow(procs, nextPid, pipe)
    ensures PipesBelow(WithPipe(t, pipe), pipe + 1) && AllBelow(procs, nextPid, pipe + 1)
  {
  }

  /** So does forking, and closing the child's descriptor leaves the caller its own. */
  lemma ForkKeepsBelow(t: FdTable, mode: string, pipe: nat, job: Job, procs: map<nat, Process>, pid: nat)
    requires ValidMode(mode) && PipesBelow(t, pipe) && AllBelow(procs, pid, pipe)
    ensures AllBelow(procs[pid := Settle(Forked(t, mode, pipe, job))], pid + 1, pipe + 1)
    ensures WithPipe(t, pipe) - {ChildFd(t, mode, pipe)} == t[ParentFd(t, mode, pipe) := ParentEnd(mode, pipe)]
    ensures PipesBelow(t[ParentFd(t, mode, pipe) := ParentEnd(mode, pipe)], pipe + 1)
  {
    PipeKeepsBelow(t, procs, pid, pipe);
    SettleKeepsBelow(Forked(t, mode, pipe, job), pipe + 1);
  }

  class Kernel {
    /** The caller's descriptors. */
    var fds: FdTable
    /** Children that have not been waited for, by process id. */
    var children: map<nat, Process>
    var nextPid: nat
    var nextPipe: nat
    /** Every successful wait, in order. */
    var waited: seq<nat>
    /** How each child ends, decided by its task. */
    const exitOf: nat -> Status

    constructor (fds: FdTable, nextPipe: nat, exitOf: nat -> Status)
      requires PipesBelow(fds, nextPipe)
      ensures Valid() && this.fds == fds && children == map[] && waited == []
    {
      this.fds := fds;
      this.children := map[];
      this.nextPid := 1;
      this.nextPipe := nextPipe;
      this.waited := [];
      this.exitOf := exitOf;
    }

    /** The children once each has made its remaining calls. */
    ghost function Settled(): map<nat, Process>
      reads this
    {
      map pid | pid in children :: Settle(children[pid])
    }

    /** The state, with every child as it will be once it has made its remaining calls. */
    ghost function Now(): Config
      reads this
    {
      Config(fds, Settled(), nextPid, nextPipe)
    }

    ghost predicate Valid()
      reads this
    {
      PipesBelow(fds, nextPipe) && AllBelow(Settled(), nextPid, nextPipe)
    }

    /** Any child advances by any number of calls: what it will have settled to stays the same. */
    method Yield()
      modifies this`children
      ensures Settled() == old(Settled()) && children.Keys == old(children.Keys)
    {
      var budget: nat := *;
      while budget > 0
        invariant Settled() == old(Settled()) && children.Keys == old(children.Keys)
      {
        if pid :| pid in children && children[pid].todo != [] {
          ghost var before := Settled();
          SettleSteps(children[pid]);
          children := children[pid := Perform(children[pid])];
          assert Settled() == before;
        }
        budget := budget - 1;
      }
    }

    method Pipe() returns (r: nat, w: nat)
      modifies this`children, this`fds, this`nextPipe
      ensures Settled() == old(Settled())
      ensures r == ReadFd(old(fds)) && w == WriteFd(old(fds), old(nextPipe))
      ensures fds == WithPipe(old(fds), old(nextPipe)) && nextPipe == old(nextPipe) + 1
    {
      Yield();
      r := LowestFree(fds);
      w := LowestFree(fds[r := ReadEnd(nextPipe)]);
      fds := fds[r := ReadEnd(nextPipe)][w := WriteEnd(nextPipe)];
      nextPipe := nextPipe + 1;
    }

    /** The child starts as a copy of the caller; `todo` is what the code makes it do. */
    method Fork(todo: seq<Syscall>, task: Task) returns (pid: nat)
      modifies this`children, this`nextPid
      ensures pid == old(nextPid) && nextPid == pid + 1
      ensures Settled() == old(Settled())[pid := Settle(Process(fds, todo, task, false))]
    {
      Yield();
      pid := nextPid;
      children := children[pid := Process(fds, todo, task, false)];
      nextPid := nextPid + 1;
    }

    method CloseFd(fd: nat)
      modifies this`children, this`fds
      ensures Settled() == old(Settled())
      ensures fds == old(fds) - {fd}
      ensures Now() == After(old(Now()), Closes(fd))
    {
      Yield();
      fds := fds - {fd};
    }

    /** Blocks until the child has ended, and reaps it; None when there is no such child. */
    method Wait(pid: nat) returns (status: Status, ok: bool)
      modifies this`children, this`waited
      ensures ok == (pid in old(children))
      ensures ok ==> status == exitOf(pid) && waited == old(waited) + [pid]
      ensures !ok ==> waited == old(waited)
      ensures Settled() == old(Settled()) - {pid}
      ensures Now() == After(old(Now()), Exits(pid))
    {
      Yield();
      status := exitOf(pid);
      ok := pid in children;
      if ok {
        waited := waited + [pid];
      }
      children := children - {pid};
    }

    method Popen(job: Job, mode: string) returns (res: Result<Pfd>)
      requires Valid()
      modifies this`children, this`fds, this`nextPid, this`nextPipe
      ensures Valid() && nextPipe == old(nextPipe) + 1
      ensures Now() == After(old(Now()), Popens(job, mode))
      ensures res.InvalidMode? <==> !ValidMode(mode)
      // the pipe is opened before the mode is looked at
      ensures res.InvalidMode? ==>
        fds == WithPipe(old(fds), old(nextPipe)) && nextPid == old(nextPid) && Settled() == old(Settled())
      ensures res.Success? ==>
        && fresh(res.value) && res.value.pids == [old(nextPid)]
        && res.value.fd == ParentFd(old(fds), mode, old(nextPipe))
        && nextPid == old(nextPid) + 1
        && fds == old(fds)[res.value.fd := ParentEnd(mode, old(nextPipe))]
        && Settled() == old(Settled())[old(nextPid) := Settle(Forked(old(fds), mode, old(nextPipe), job))]
    {
      ghost var base, pipe, procs := fds, nextPipe, Settled();
      PipeKeepsBelow(base, procs, nextPid, pipe);
      var readFd, writeFd := Pipe();
      var parentFd, childFd, inFd, outFd;
      if mode == "r" {
        parentFd, childFd, inFd, outFd := readFd, writeFd, STDIN_FILENO, STDOUT_FILENO;
      } else if mode == "w" {
        parentFd, childFd, inFd, outFd := writeFd, readFd, STDOUT_FILENO, STDIN_FILENO;
      } else {
        return InvalidMode;
      }
      ForkKeepsBelow(base, mode, pipe, job, procs, nextPid);
      var pid := Fork(MoveFd(childFd, outFd) + [Close(parentFd)] + JobCalls(job, inFd), job.task);
      CloseFd(childFd);
      var pfd := new Pfd(pid, parentFd);
      res := Success(pfd);
    }

    /** The body of the loop in popen_pipeline. */
    method LoopBody(pfd: Pfd, task: Task, mode: string, ghost start: Config)
      requires Valid() && ValidMode(mode) && Leads(start, Now())
      modifies this`children, this`fds, this`nextPid, this`nextPipe, pfd
      ensures Valid() && nextPid == old(nextPid) + 1 && nextPipe == old(nextPipe) + 1
      ensures pfd.fd == ParentFd(old(fds), mode, old(nextPipe)) && pfd.pids == old(pfd.pids) + [old(nextPid)]
      ensures fds == old(fds)[pfd.fd := ParentEnd(mode, old(nextPipe))] - {old(pfd.fd)}
      ensures Settled() == old(Settled())[old(nextPid) :=
                             Settle(Forked(old(fds), mode, old(nextPipe), Rewired(old(pfd.fd), task)))]
      ensures Now() == AfterAll(old(Now()), [Popens(Rewired(old(pfd.fd), task), mode), Closes(old(pfd.fd))])
      ensures Leads(start, Now())
    {
      LeadsOn(start, [Popens(Rewired(pfd.fd, task), mode), Closes(pfd.fd)], Now());
      AfterTwo(Now(), Popens(Rewired(pfd.fd, task), mode), Closes(pfd.fd));
      var next := Popen(Rewired(pfd.fd, task), mode);
      CloseFd(pfd.fd);
      pfd.fd := next.value.fd;
      pfd.pids := pfd.pids + [next.value.pids[0]];
    }

    /** Between two turns of the loop in popen_pipeline, which has started at `start`. */
    ghost predicate Underway(pfd: Pfd, base: FdTable, procs0: map<nat, Process>, mode: string, tasks: seq<Task>,
                             first: nat, firstPid: nat, k: nat, start: Config)
      requires k <= |tasks|
      reads this, pfd
    {
      && Valid() && nextPid == firstPid + k && nextPipe == first + k && pfd.pids == Pids(firstPid, k)
      && Grown(fds, Settled(), base, procs0, mode, tasks, first, firstPid, pfd.fd, k)
      && Leads(start, Now())
    }

    /** One turn of the loop in popen_pipeline; the ghost arguments say where the pipeline stands. */
    method AddStage(pfd: Pfd, task: Task, mode: string, ghost base: FdTable, ghost procs0: map<nat, Process>,
                    ghost tasks: seq<Task>, ghost first: nat, ghost firstPid: nat, ghost k: nat, ghost start: Config)
      requires ValidMode(mode) && k < |tasks| && task == ForkOrder(tasks, mode, k)
      requires Underway(pfd, base, procs0, mode, tasks, first, firstPid, k, start)
      modifies this`children, this`fds, this`nextPid, this`nextPipe, pfd
      ensures Underway(pfd, base, procs0, mode, tasks, first, firstPid, k + 1, start)
    {
      ghost var fds0, procs, fd := fds, Settled(), pfd.fd;
      LoopBody(pfd, task, mode, start);
      NextPid(firstPid, k);
      GrownTo(fds0, procs, base, procs0, mode, tasks, first, firstPid, fd, k, fds, Settled(), pfd.fd);
    }

    /** `tasks` is numbered from 1, as in the source. */
    method PopenPipeline(tasks: seq<Task>, mode: string) returns (res: Result<Pfd>)
      requires Valid() && tasks != []
      modifies this`children, this`fds, this`nextPid, this`nextPipe
      ensures res.InvalidMode? <==> !ValidMode(mode)
      ensures res.InvalidMode? ==> fds == WithPipe(old(fds), old(nextPipe)) && Settled() == old(Settled())
      ensures Leads(old(Now()), Now())
      ensures res.Success? ==>
        && Valid() && fresh(res.value)
        && nextPid == old(nextPid) + |tasks| && nextPipe == old(nextPipe) + |tasks|
        && res.value.pids == Pids(old(nextPid), |tasks|)
        && Added(Settled(), old(Settled()), old(nextPid), |tasks|)
        && Built(fds, Settled(), old(fds), mode, tasks, old(nextPipe), old(nextPid), res.value.fd)
        && (Wired(World(fds, Settled()), mode, |tasks|, old(nextPipe), old(nextPid), res.value.fd)
            <==> PipelineWorks(old(fds), mode, |tasks|))
        && (PipelineWorks(old(fds), mode, |tasks|) ==>
              JustOpened(World(fds, Settled()), Pipeline(old(fds), mode, |tasks|, old(nextPipe), old(nextPid))))
    {
      ghost var base, pipe0, pid0, procs0 := fds, nextPipe, nextPid, Settled();
      var n := |tasks|;
      var first, from, to, inc := 1, 2, n, 1;
      if mode == "w" {
        first, from, to, inc := n, n - 1, 1, -1;
      }
      ghost var start := Now();
      res := Popen(Direct(tasks[first - 1]), mode);
      LeadsFirst(start, Popens(Direct(tasks[first - 1]), mode));
      if res.InvalidMode? {
        return;
      }
      GrownOnce(base, procs0, mode, tasks, pipe0, pid0);
      var pfd := res.value;
      AddStages(pfd, tasks, mode, from, to, inc, base, procs0, pipe0, pid0, start);
      GrownIsBuilt(fds, Settled(), base, procs0, mode, tasks, pipe0, pid0, pfd.fd);
    }

    /** The loop of popen_pipeline. */
    method AddStages(pfd: Pfd, tasks: seq<Task>, mode: string, from: int, to: int, inc: int,
                     ghost base: FdTable, ghost procs0: map<nat, Process>, ghost first: nat, ghost firstPid: nat,
                     ghost start: Config)
      requires ValidMode(mode) && tasks != []
      requires if mode == "w" then from == |tasks| - 1 && to == 1 && inc == -1
               else from == 2 && to == |tasks| && inc == 1
      requires Underway(pfd, base, procs0, mode, tasks, first, firstPid, 1, start)
      modifies this`children, this`fds, this`nextPid, this`nextPipe, pfd
      ensures Underway(pfd, base, procs0, mode, tasks, first, firstPid, |tasks|, start)
    {
      var i := from;
      ghost var k := 1;
      while if inc > 0 then i <= to else i >= to
        invariant 1 <= k <= |tasks| && i == if mode == "w" then |tasks| - k else k + 1
        invariant Underway(pfd, base, procs0, mode, tasks, first, firstPid, k, start)
        decreases |tasks| - k
      {
        assert tasks[i - 1] == ForkOrder(tasks, mode, k);
        AddStage(pfd, tasks[i - 1], mode, base, procs0, tasks, first, firstPid, k, start);
        i := i + inc;
        k := k + 1;
      }
    }

    /** Every pid is a child that has not been waited for, and none is listed twice. */
    ghost predicate Unwaited(pids: seq<nat>)
      reads this
    {
      && (forall i, j :: 0 <= i < j < |pids| ==> pids[i] != pids[j])
      && (forall i :: 0 <= i < |pids| ==> pids[i] in Settled())
    }

    /** `ok` is false when the last wait fails, as it does for a pipeline that was closed before. */
    method Pclose(pfd: Pfd) returns (status: Status, ok: bool)
      requires pfd.pids != []
      modifies this`children, this`fds, this`waited
      ensures fds == old(fds) - {pfd.fd}
      ensures Settled() == old(Settled()) - (set pid | pid in pfd.pids)
      ensures ok ==> status == exitOf(pfd.pids[|pfd.pids| - 1])
      ensures pfd.pids[|pfd.pids| - 1] !in old(Settled()) ==> !ok
      ensures old(Unwaited(pfd.pids)) ==> ok && waited == old(waited) + pfd.pids
      ensures Now() == AfterAll(old(Now()), [Closes(pfd.fd)] + ExitsOf(pfd.pids))
    {
      ghost var start, procs, before, last := Now(), Settled(), waited, pfd.pids[|pfd.pids| - 1];
      CloseFd(pfd.fd);
      var n := |pfd.pids|;
      WaitFirst(pfd.pids, n - 1);
      assert last in Settled() <==> last in procs && last !in pfd.pids[..n - 1];
      status, ok := Wait(pfd.pids[n - 1]);
      LastPid(pfd.pids, before, procs);
      ClosingIs(start, pfd.fd, pfd.pids);
    }

    /** The loop of pclose, over the first m pids. */
    method WaitFirst(pids: seq<nat>, m: nat)
      requires m <= |pids|
      modifies this`children, this`waited
      ensures Settled() == old(Settled()) - (set pid | pid in pids[..m])
      ensures old(Unwaited(pids)) ==> waited == old(waited) + pids[..m]
    {
      ghost var unwaited, before := Unwaited(pids), waited;
      for i := 0 to m
        invariant unwaited ==> waited == before + pids[..i]
        invariant Settled() == old(Settled()) - (set pid | pid in pids[..i])
      {
        assert pids[..i + 1] == pids[..i] + [pids[i]];
        assert before + pids[..i + 1] == (before + pids[..i]) + [pids[i]];
        assert unwaited ==> pids[i] in Settled();
        var _, _ := Wait(pids[i]);
      }
    }

    /** Two pipelines are open when the first one is closed. The stages of the second hold copies of its end,
        so no stage of the first sees the end of its input or a broken pipe; nor does one of the second, which
        the caller still holds. The waits of pclose then end only when tasks do by themselves. */
    method OpenTwoCloseFirst(tasks: seq<Task>, mode: string, tasks': seq<Task>, mode': string)
      returns (one: Pfd, two: Pfd, ghost p: Pipeline, ghost p': Pipeline)
      requires Valid() && tasks != [] && tasks' != [] && ValidMode(mode) && ValidMode(mode')
      requires STDIN_FILENO in fds && STDOUT_FILENO in fds
      requires fds[STDIN_FILENO].Inherited? && fds[STDOUT_FILENO].Inherited?
      modifies this`children, this`fds, this`nextPid, this`nextPipe
      ensures p.n == |tasks| && p'.n == |tasks'|
      ensures one.pids == Pids(p.firstPid, p.n) && two.pids == Pids(p'.firstPid, p'.n)
      ensures one.fd !in fds && two.fd in fds && fds[two.fd] == LastEnd(p')
      ensures AllLive(World(fds, Settled()), p) && AllLive(World(fds, Settled()), p')
      ensures !SomeReleased(World(fds, Settled()), p) && !SomeReleased(World(fds, Settled()), p')
    {
      ghost var base := fds;
      one, p := OpenWorking(tasks, mode);
      ghost var fds0, procs0 := fds, Settled();
      two, p' := OpenWorking(tasks', mode');
      AddedOpens(fds0, procs0, fds, Settled(), p');
      ghost var fds1, procs1 := fds, Settled();
      TwoOpen(base, p, p', one.fd, two.fd, World(fds0, procs0), fds1, procs1);
      CloseFd(one.fd);
      assert fds == fds1 - {one.fd} && Settled() == procs1;
    }

    /** What a caller with an open stdout needs to know of a pipeline it has opened. */
    method OpenWorking(tasks: seq<Task>, mode: string) returns (pfd: Pfd, ghost p: Pipeline)
      requires Valid() && tasks != [] && ValidMode(mode) && STDOUT_FILENO in fds
      modifies this`children, this`fds, this`nextPid, this`nextPipe
      ensures Valid() && fresh(pfd)
      ensures p == Pipeline(old(fds), mode, |tasks|, old(nextPipe), old(nextPid))
      ensures nextPid == p.firstPid + p.n && nextPipe == p.first + p.n && pfd.pids == Pids(p.firstPid, p.n)
      ensures pfd.fd !in old(fds) && fds == old(fds)[pfd.fd := LastEnd(p)]
      ensures JustOpened(World(fds, Settled()), p) && Added(Settled(), old(Settled()), p.firstPid, p.n)
    {
      p := Pipeline(fds, mode, |tasks|, nextPipe, nextPid);
      var res := PopenPipeline(tasks, mode);
      pfd := res.value;
    }

    /** What a caller who only wants to close the pipeline again needs to know of it. */
    method OpenValid(tasks: seq<Task>, mode: string) returns (pfd: Pfd)
      requires Valid() && tasks != [] && ValidMode(mode)
      modifies this`children, this`fds, this`nextPid, this`nextPipe
      ensures pfd.fd !in old(fds) && fds == old(fds)[pfd.fd := ParentEnd(mode, old(nextPipe) + |tasks| - 1)]
      ensures pfd.pids == Pids(old(nextPid), |tasks|)
      ensures Added(Settled(), old(Settled()), old(nextPid), |tasks|)
    {
      var res := PopenPipeline(tasks, mode);
      pfd := res.value;
    }

    /** Opening and closing a pipeline leaves the caller as it was: no descriptor is gained or lost,
        every stage is waited for exactly once, and the status is that of the last stage forked. */
    method OpenThenClose(tasks: seq<Task>, mode: string) returns (status: Status)
      requires Valid() && tasks != [] && ValidMode(mode)
      modifies this`children, this`fds, this`nextPid, this`nextPipe, this`waited
      ensures fds == old(fds) && Settled() == old(Settled())
      ensures waited == old(waited) + Pids(old(nextPid), |tasks|)
      ensures status == exitOf(old(nextPid) + |tasks| - 1)
    {
      ghost var procs0, pids := Settled(), Pids(nextPid, |tasks|);
      var pfd := OpenValid(tasks, mode);
      RangeRemoved(procs0, Settled(), old(nextPid), |tasks|);
      assert pfd.pids == pids && fds - {pfd.fd} == old(fds);
      assert pids[|pids| - 1] == old(nextPid) + |tasks| - 1;
      assert Unwaited(pfd.pids);
      var ok;
      status, ok := Pclose(pfd);
    }
  }
}
