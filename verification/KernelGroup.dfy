/** One group of lazily compiled kernels, shared by any number of threads. Each thread runs the blocking
    prewarm, the background prewarm and the lookup one atomic step at a time, in any interleaving. */
module KernelGroup {
  import opened Prelude

  datatype Pc<K> =
    | Idle | Created | Dead
    // the blocking prewarm: two unlocked reads, the compile lock, the second read, the build
    | ReadAvailable | ReadReady | WaitCompile | Recheck | Building | Store(result: K) | SetReady | GiveUp | Unlock
    // the background prewarm: the same two reads, the thread lock, a liveness test, a spawn
    | AsyncAvailable | AsyncReady | WaitThread | AsyncRecheck | TestAlive | Spawn | Start | AsyncUnlock
    // the lookup
    | Lookup | ReadKernels

  /** A thread; `background` ones are spawned to prewarm once, `looking` ones are inside a lookup. */
  datatype Thread<K> = Thread(background: bool, looking: bool, pc: Pc<K>)

  /** What a lookup returned: the fallback, or the kernels field as it stood after seeing it ready. */
  datatype Answer<K> = Fallback | Compiled(kernels: Option<K>)

  /** The group's fields, and what has happened so far: results of completed builds, and answers given. */
  datatype Group<K> = Group(
    available: bool, ready: bool, kernels: Option<K>, compileLock: Option<nat>, threadLock: Option<nat>,
    warmer: Option<nat>, builds: seq<K>, answers: seq<Answer<K>>)

  datatype State<K> = State(group: Group<K>, threads: map<nat, Thread<K>>, nextId: nat)

  /** What an idle thread calls next, or how a build ends; other steps take no choice. */
  datatype Choice<K> = Prewarm | PrewarmAsync | Get | Succeed(result: K) | Fail | Go

  // ---------------------------------------------------------------- one step of one thread

  datatype Local<K> = Local(group: Group<K>, thread: Thread<K>)

  /** The call is over: a lookup that got here answers with the fallback. */
  function Return<K>(g: Group<K>, th: Thread<K>): Local<K> {
    Local(if th.looking then g.(answers := g.answers + [Fallback]) else g,
          Thread(th.background, false, if th.background then Dead else Idle))
  }

  function StepPrewarm<K>(g: Group<K>, me: nat, th: Thread<K>, c: Choice<K>): Local<K> {
    match th.pc
    case ReadAvailable => if !g.available then Return(g, th) else Local(g, th.(pc := ReadReady))
    case ReadReady => if g.ready then Return(g, th) else Local(g, th.(pc := WaitCompile))
    case WaitCompile =>
      if g.compileLock.None? then Local(g.(compileLock := Some(me)), th.(pc := Recheck)) else Local(g, th)
    case Recheck => Local(g, th.(pc := if g.ready then Unlock else Building))
    case Building =>
      if c.Succeed? then Local(g.(builds := g.builds + [c.result]), th.(pc := Store(c.result)))
      else if c.Fail? then Local(g, th.(pc := GiveUp))
      else Local(g, th)
    case Store(result) => Local(g.(kernels := Some(result)), th.(pc := SetReady))
    case SetReady => Local(g.(ready := true), th.(pc := Unlock))
    case GiveUp => Local(g.(available := false), th.(pc := Unlock))
    case Unlock => Return(g.(compileLock := None), th)
    case _ => Local(g, th)
  }

  /** `alive` says whether the group's current background thread is running. */
  function StepAsync<K>(g: Group<K>, me: nat, th: Thread<K>, alive: bool): Local<K> {
    match th.pc
    case AsyncAvailable => if !g.available then Return(g, th) else Local(g, th.(pc := AsyncReady))
    case AsyncReady => if g.ready then Return(g, th) else Local(g, th.(pc := WaitThread))
    case WaitThread =>
      if g.threadLock.None? then Local(g.(threadLock := Some(me)), th.(pc := AsyncRecheck)) else Local(g, th)
    case AsyncRecheck => Local(g, th.(pc := if g.ready then AsyncUnlock else TestAlive))
    case TestAlive => Local(g, th.(pc := if alive then AsyncUnlock else Spawn))
    case AsyncUnlock => Return(g.(threadLock := None), th)
    case _ => Local(g, th)
  }

  function StepOther<K>(g: Group<K>, th: Thread<K>, c: Choice<K>): Local<K> {
    match th.pc
    case Lookup => Local(g, th.(pc := if g.ready then ReadKernels else AsyncAvailable))
    case ReadKernels => Local(g.(answers := g.answers + [Compiled(g.kernels)]), Thread(th.background, false, Idle))
    case Idle =>
      Local(g, match c
               case Prewarm => th.(pc := ReadAvailable)
               case PrewarmAsync => th.(pc := AsyncAvailable)
               case Get => Thread(th.background, true, Lookup)
               case _ => th)
    case _ => Local(g, th)
  }

  predicate HoldsCompile<K>(pc: Pc<K>) {
    pc.Recheck? || pc.Building? || pc.Store? || pc.SetReady? || pc.GiveUp? || pc.Unlock?
  }

  predicate HoldsThread<K>(pc: Pc<K>) {
    pc.AsyncRecheck? || pc.TestAlive? || pc.Spawn? || pc.Start? || pc.AsyncUnlock?
  }

  predicate InPrewarm<K>(pc: Pc<K>) { pc.ReadAvailable? || pc.ReadReady? || pc.WaitCompile? || HoldsCompile(pc) }

  predicate InAsync<K>(pc: Pc<K>) { pc.AsyncAvailable? || pc.AsyncReady? || pc.WaitThread? || HoldsThread(pc) }

  function StepAlone<K>(g: Group<K>, me: nat, th: Thread<K>, alive: bool, c: Choice<K>): Local<K> {
    if InPrewarm(th.pc) then StepPrewarm(g, me, th, c)
    else if InAsync(th.pc) then StepAsync(g, me, th, alive)
    else StepOther(g, th, c)
  }

  // ---------------------------------------------------------------- interleavings

  predicate Alive<K>(s: State<K>, t: Option<nat>) {
    t.Some? && t.value in s.threads && !s.threads[t.value].pc.Created? && !s.threads[t.value].pc.Dead?
  }

  function SpawnStep<K>(s: State<K>, t: nat): State<K>
    requires t in s.threads
  {
    State(s.group.(warmer := Some(s.nextId)),
          s.threads[t := s.threads[t].(pc := Start)][s.nextId := Thread(true, false, Created)], s.nextId + 1)
  }

  function StartStep<K>(s: State<K>, t: nat): State<K>
    requires t in s.threads
  {
    var moved := s.threads[t := s.threads[t].(pc := AsyncUnlock)];
    var w := s.group.warmer;
    s.(threads := if w.Some? && w.value in moved && moved[w.value].pc.Created?
                  then moved[w.value := moved[w.value].(pc := ReadAvailable)] else moved)
  }

  /** One step of thread `t`; a thread that cannot move, or does not exist, stays. */
  function Step<K>(s: State<K>, t: nat, c: Choice<K>): State<K> {
    if t !in s.threads then s
    else if s.threads[t].pc.Spawn? then SpawnStep(s, t)
    else if s.threads[t].pc.Start? then StartStep(s, t)
    else
      var r := StepAlone(s.group, t, s.threads[t], Alive(s, s.group.warmer), c);
      State(r.group, s.threads[t := r.thread], s.nextId)
  }

  /** An interleaving: which thread moves, with which choice. */
  function Run<K>(s: State<K>, schedule: seq<(nat, Choice<K>)>): State<K>
    decreases |schedule|
  {
    if schedule == [] then s else Run(Step(s, schedule[0].0, schedule[0].1), schedule[1..])
  }

  /** A group just made, with any number of application threads. */
  ghost predicate Init<K(!new)>(s: State<K>) {
    && s.group == Group(s.group.available, false, None, None, None, None, [], [])
    && forall t :: t in s.threads ==> t < s.nextId && s.threads[t] == Thread(false, false, Idle)
  }

  // ---------------------------------------------------------------- what every step keeps

  /** What holds of the group whoever moves: one completed build at most, published by readiness. */
  ghost predicate GroupOk<K>(g: Group<K>) {
    && |g.builds| <= 1
    && (g.ready ==> |g.builds| == 1 && g.kernels == Some(g.builds[0]))
    && (!g.ready && g.compileLock.None? ==> |g.builds| == 0)
    && (forall k :: 0 <= k < |g.answers| && g.answers[k].Compiled? ==>
          g.ready && g.answers[k].kernels == Some(g.builds[0]))
  }

  /** What holds of a thread's position: the locks it says it holds, and how far the build has come. */
  ghost predicate ThreadOk<K>(g: Group<K>, t: nat, th: Thread<K>) {
    && (HoldsCompile(th.pc) <==> g.compileLock == Some(t))
    && (HoldsThread(th.pc) <==> g.threadLock == Some(t))
    && (th.pc.Building? || th.pc.Store? || th.pc.SetReady? || th.pc.GiveUp? ==> !g.ready)
    && (th.pc.Recheck? || th.pc.Building? || th.pc.GiveUp? || th.pc.Unlock? ==> g.ready || |g.builds| == 0)
    && (th.pc.Store? ==> g.builds == [th.pc.result])
    && (th.pc.SetReady? ==> |g.builds| == 1 && g.kernels == Some(g.builds[0]))
    && (th.pc.ReadKernels? ==> g.ready)
    && (th.background ==> th.pc.Created? || th.pc.Dead? || InPrewarm(th.pc))
    && (th.background && !th.pc.Dead? ==> g.warmer == Some(t))
    && (th.pc.Created? || th.pc.Dead? ==> th.background)
  }

  /** What holds of two threads: whoever spawns does so over an ended background thread, and starts the one it made. */
  ghost predicate PairOk<K>(g: Group<K>, t: nat, th: Thread<K>, u: nat, other: Thread<K>) {
    && (th.pc.Spawn? && other.background ==> other.pc.Dead?)
    && (th.pc.Start? && g.warmer == Some(u) ==> other.pc.Created?)
    && (other.pc.Created? ==> g.threadLock.Some? && (g.threadLock == Some(t) ==> th.pc.Start?))
  }

  ghost predicate Inv<K(!new)>(s: State<K>) {
    && GroupOk(s.group)
    && (forall t :: t in s.threads ==> t < s.nextId && ThreadOk(s.group, t, s.threads[t]))
    && (forall t, u {:trigger s.threads[t], s.threads[u]} :: t in s.threads && u in s.threads ==>
          PairOk(s.group, t, s.threads[t], u, s.threads[u]))
    && (s.group.warmer.Some? ==> s.group.warmer.value in s.threads)
    && (s.group.compileLock.Some? ==> s.group.compileLock.value in s.threads)
    && (s.group.threadLock.Some? ==> s.group.threadLock.value in s.threads)
  }

  lemma OwnBuild<K>(g: Group<K>, t: nat, th: Thread<K>, c: Choice<K>)
    requires GroupOk(g) && ThreadOk(g, t, th) && HoldsCompile(th.pc) && !th.pc.Recheck?
    ensures var r := StepPrewarm(g, t, th, c); GroupOk(r.group) && ThreadOk(r.group, t, r.thread)
  {
  }

  lemma OwnReads<K>(g: Group<K>, t: nat, th: Thread<K>, c: Choice<K>)
    requires GroupOk(g) && ThreadOk(g, t, th) && InPrewarm(th.pc) && (!HoldsCompile(th.pc) || th.pc.Recheck?)
    ensures var r := StepPrewarm(g, t, th, c); GroupOk(r.group) && ThreadOk(r.group, t, r.thread)
  {
  }

  lemma OwnAsync<K>(g: Group<K>, t: nat, th: Thread<K>, alive: bool)
    requires GroupOk(g) && ThreadOk(g, t, th) && InAsync(th.pc) && !th.pc.Spawn? && !th.pc.Start?
    ensures var r := StepAsync(g, t, th, alive); GroupOk(r.group) && ThreadOk(r.group, t, r.thread)
  {
  }

  lemma OthersAsync<K>(g: Group<K>, t: nat, th: Thread<K>, alive: bool, u: nat, other: Thread<K>)
    requires GroupOk(g) && ThreadOk(g, t, th) && InAsync(th.pc) && !th.pc.Spawn? && !th.pc.Start?
    requires ThreadOk(g, u, other) && u != t
    ensures ThreadOk(StepAsync(g, t, th, alive).group, u, other)
  {
  }

  lemma OwnOther<K>(g: Group<K>, t: nat, th: Thread<K>, c: Choice<K>)
    requires GroupOk(g) && ThreadOk(g, t, th) && !InPrewarm(th.pc) && !InAsync(th.pc)
    ensures var r := StepOther(g, th, c); GroupOk(r.group) && ThreadOk(r.group, t, r.thread)
  {
  }

  lemma OwnStep<K>(g: Group<K>, t: nat, th: Thread<K>, alive: bool, c: Choice<K>)
    requires GroupOk(g) && ThreadOk(g, t, th) && !th.pc.Spawn? && !th.pc.Start?
    ensures var r := StepAlone(g, t, th, alive, c); GroupOk(r.group) && ThreadOk(r.group, t, r.thread)
  {
    if HoldsCompile(th.pc) && !th.pc.Recheck? {
      OwnBuild(g, t, th, c);
    } else if InPrewarm(th.pc) {
      OwnReads(g, t, th, c);
    } else if InAsync(th.pc) {
      OwnAsync(g, t, th, alive);
    } else {
      OwnOther(g, t, th, c);
    }
  }

  lemma OthersUndisturbed<K>(g: Group<K>, t: nat, th: Thread<K>, alive: bool, c: Choice<K>, u: nat, other: Thread<K>)
    requires GroupOk(g) && ThreadOk(g, t, th) && !th.pc.Spawn? && !th.pc.Start?
    requires ThreadOk(g, u, other) && u != t
    ensures ThreadOk(StepAlone(g, t, th, alive, c).group, u, other)
  {
    if InPrewarm(th.pc) {
      assert StepAlone(g, t, th, alive, c) == StepPrewarm(g, t, th, c);
    } else if InAsync(th.pc) {
      OthersAsync(g, t, th, alive, u, other);
    } else {
      assert StepAlone(g, t, th, alive, c) == StepOther(g, th, c);
    }
  }

  /** What a step does to the locks and to the background threads. */
  ghost predicate PairEffect<K>(g: Group<K>, t: nat, th: Thread<K>, alive: bool, r: Local<K>) {
    && r.group.warmer == g.warmer
    && (g.threadLock.Some? && g.threadLock != Some(t) ==> r.group.threadLock == g.threadLock)
    && (r.group.threadLock.Some? ==> r.group.threadLock == g.threadLock || r.group.threadLock == Some(t))
    && (r.group.compileLock.Some? ==> r.group.compileLock == g.compileLock || r.group.compileLock == Some(t))
    && (r.thread.pc.Spawn? ==> th.pc.TestAlive? && !alive)
    && !r.thread.pc.Start?
    && r.thread.background == th.background
    && (r.thread.pc.Created? <==> th.pc.Created?) && (th.pc.Dead? ==> r.thread.pc.Dead?)
  }

  lemma AsyncForPairs<K>(g: Group<K>, t: nat, th: Thread<K>, alive: bool, c: Choice<K>)
    requires InAsync(th.pc) && (HoldsThread(th.pc) <==> g.threadLock == Some(t)) && !th.pc.Spawn? && !th.pc.Start?
    requires !th.background
    ensures PairEffect(g, t, th, alive, StepAsync(g, t, th, alive))
  {
  }

  lemma OtherForPairs<K>(g: Group<K>, t: nat, th: Thread<K>, alive: bool, c: Choice<K>)
    requires !InPrewarm(th.pc) && !InAsync(th.pc)
    ensures PairEffect(g, t, th, alive, StepOther(g, th, c))
  {
  }

  lemma StepForPairs<K>(g: Group<K>, t: nat, th: Thread<K>, alive: bool, c: Choice<K>)
    requires ThreadOk(g, t, th) && !th.pc.Spawn? && !th.pc.Start?
    ensures PairEffect(g, t, th, alive, StepAlone(g, t, th, alive, c))
  {
    if InPrewarm(th.pc) {
      assert StepAlone(g, t, th, alive, c) == StepPrewarm(g, t, th, c);
    } else if InAsync(th.pc) {
      AsyncForPairs(g, t, th, alive, c);
    } else {
      OtherForPairs(g, t, th, alive, c);
    }
  }

  lemma PairsUndisturbed<K>(g: Group<K>, t: nat, th: Thread<K>, alive: bool, c: Choice<K>,
                            u: nat, other: Thread<K>, v: nat, third: Thread<K>)
    requires GroupOk(g) && ThreadOk(g, t, th) && !th.pc.Spawn? && !th.pc.Start?
    requires ThreadOk(g, u, other) && ThreadOk(g, v, third) && u != t && v != t
    requires PairOk(g, t, th, u, other) && PairOk(g, u, other, t, th)
    requires PairOk(g, t, th, v, third) && PairOk(g, u, other, v, third)
    requires g.warmer == Some(u) ==> (alive <==> !other.pc.Created? && !other.pc.Dead?)
    ensures var r := StepAlone(g, t, th, alive, c);
            && PairOk(r.group, t, r.thread, u, other) && PairOk(r.group, u, other, t, r.thread)
            && PairOk(r.group, u, other, v, third)
  {
    StepForPairs(g, t, th, alive, c);
  }

  lemma OwnPair<K>(g: Group<K>, t: nat, th: Thread<K>, alive: bool, c: Choice<K>)
    requires GroupOk(g) && ThreadOk(g, t, th) && !th.pc.Spawn? && !th.pc.Start? && PairOk(g, t, th, t, th)
    ensures var r := StepAlone(g, t, th, alive, c); PairOk(r.group, t, r.thread, t, r.thread)
  {
    StepForPairs(g, t, th, alive, c);
  }

  // ---------------------------------------------------------------- every step of every thread

  lemma AlonePair<K(!new)>(s: State<K>, t: nat, c: Choice<K>, u: nat, v: nat)
    requires Inv(s) && t in s.threads && !s.threads[t].pc.Spawn? && !s.threads[t].pc.Start?
    requires u in s.threads && v in s.threads
    ensures var r := Step(s, t, c); PairOk(r.group, u, r.threads[u], v, r.threads[v])
  {
    var g, th, alive := s.group, s.threads[t], Alive(s, s.group.warmer);
    if u == t && v == t {
      OwnPair(g, t, th, alive, c);
    } else {
      var x := if u == t then v else u;
      var y := if v == t then x else v;
      PairsUndisturbed(g, t, th, alive, c, x, s.threads[x], y, s.threads[y]);
    }
  }

  lemma AloneKeeps<K(!new)>(s: State<K>, t: nat, c: Choice<K>)
    requires Inv(s) && t in s.threads && !s.threads[t].pc.Spawn? && !s.threads[t].pc.Start?
    ensures Inv(Step(s, t, c))
  {
    var g, th, alive := s.group, s.threads[t], Alive(s, s.group.warmer);
    var r := Step(s, t, c);
    OwnStep(g, t, th, alive, c);
    forall u | u in r.threads ensures u < r.nextId && ThreadOk(r.group, u, r.threads[u]) {
      if u != t { OthersUndisturbed(g, t, th, alive, c, u, s.threads[u]); }
    }
    forall u, v | u in r.threads && v in r.threads ensures PairOk(r.group, u, r.threads[u], v, r.threads[v]) {
      AlonePair(s, t, c, u, v);
    }
    StepForPairs(g, t, th, alive, c);
  }

  lemma SpawnKeeps<K(!new)>(s: State<K>, t: nat)
    requires Inv(s) && t in s.threads && s.threads[t].pc.Spawn?
    ensures Inv(SpawnStep(s, t))
  {
    var r := SpawnStep(s, t);
    forall u | u in r.threads ensures u < r.nextId && ThreadOk(r.group, u, r.threads[u]) {
      if u in s.threads { assert PairOk(s.group, t, s.threads[t], u, s.threads[u]); }
    }
    forall u, v | u in r.threads && v in r.threads ensures PairOk(r.group, u, r.threads[u], v, r.threads[v]) {
      if u in s.threads { assert ThreadOk(s.group, u, s.threads[u]); }
      if v in s.threads {
        assert ThreadOk(s.group, v, s.threads[v]);
        assert PairOk(s.group, t, s.threads[t], v, s.threads[v]);
      }
      if u in s.threads && v in s.threads { assert PairOk(s.group, u, s.threads[u], v, s.threads[v]); }
    }
  }

  lemma StartKeeps<K(!new)>(s: State<K>, t: nat)
    requires Inv(s) && t in s.threads && s.threads[t].pc.Start?
    ensures Inv(StartStep(s, t))
  {
    var r := StartStep(s, t);
    forall u | u in r.threads ensures u < r.nextId && ThreadOk(r.group, u, r.threads[u]) {}
    forall u, v | u in r.threads && v in r.threads ensures PairOk(r.group, u, r.threads[u], v, r.threads[v]) {
      assert ThreadOk(s.group, u, s.threads[u]) && ThreadOk(s.group, v, s.threads[v]);
      assert PairOk(s.group, t, s.threads[t], v, s.threads[v]) && PairOk(s.group, u, s.threads[u], v, s.threads[v]);
    }
  }

  lemma StepKeeps<K(!new)>(s: State<K>, t: nat, c: Choice<K>)
    requires Inv(s)
    ensures Inv(Step(s, t, c))
  {
    if t in s.threads {
      if s.threads[t].pc.Spawn? { SpawnKeeps(s, t); }
      else if s.threads[t].pc.Start? { StartKeeps(s, t); }
      else { AloneKeeps(s, t, c); }
    }
  }

  lemma {:induction false} RunKeeps<K(!new)>(s: State<K>, schedule: seq<(nat, Choice<K>)>)
    requires Inv(s)
    ensures Inv(Run(s, schedule))
    decreases |schedule|
  {
    if schedule != [] {
      StepKeeps(s, schedule[0].0, schedule[0].1);
      RunKeeps(Step(s, schedule[0].0, schedule[0].1), schedule[1..]);
    }
  }

  /** Over every interleaving from a new group: one builder at a time, one completed build at most, one
      running background thread at most, and every answer given after seeing the group ready is that build. */
  lemma EveryInterleavingIsSafe<K(!new)>(s: State<K>, schedule: seq<(nat, Choice<K>)>)
    requires Init(s)
    ensures var r := Run(s, schedule);
            && (forall t, u ::
                  t in r.threads && u in r.threads && r.threads[t].pc.Building? && r.threads[u].pc.Building? ==> t == u)
            && |r.group.builds| <= 1
            && (forall t :: t in r.threads && r.threads[t].background && Alive(r, Some(t)) ==>
                  r.group.warmer == Some(t))
            && (forall k :: 0 <= k < |r.group.answers| && r.group.answers[k].Compiled? ==>
                  |r.group.builds| == 1 && r.group.answers[k].kernels == Some(r.group.builds[0]))
  {
    RunKeeps(s, schedule);
    var r := Run(s, schedule);
    forall t, u | t in r.threads && u in r.threads && r.threads[t].pc.Building? && r.threads[u].pc.Building?
      ensures t == u
    {
      assert ThreadOk(r.group, t, r.threads[t]) && ThreadOk(r.group, u, r.threads[u]);
    }
  }
}
