/** What a group of lazily compiled kernels can still become: ready for ever, or off after a failed build. */
module KernelOutcomes {
  import opened Prelude
  import opened KernelGroup

  // ---------------------------------------------------------------- once ready

  ghost predicate SameOutcome<K>(g: Group<K>, h: Group<K>) {
    h.ready == g.ready && h.kernels == g.kernels && h.builds == g.builds && h.available == g.available
  }

  predicate Writes<K>(pc: Pc<K>) { pc.Building? || pc.Store? || pc.SetReady? || pc.GiveUp? }

  lemma PrewarmReadsOnly<K>(g: Group<K>, t: nat, th: Thread<K>, c: Choice<K>)
    requires InPrewarm(th.pc) && !Writes(th.pc)
    ensures SameOutcome(g, StepPrewarm(g, t, th, c).group)
  {
  }

  lemma AsyncReadsOnly<K>(g: Group<K>, t: nat, th: Thread<K>, alive: bool)
    requires InAsync(th.pc)
    ensures SameOutcome(g, StepAsync(g, t, th, alive).group)
  {
  }

  /** Only a build in progress writes what the group publishes. */
  lemma OnlyBuildsWrite<K>(g: Group<K>, t: nat, th: Thread<K>, alive: bool, c: Choice<K>)
    requires !Writes(th.pc)
    ensures SameOutcome(g, StepAlone(g, t, th, alive, c).group)
  {
    if InPrewarm(th.pc) {
      PrewarmReadsOnly(g, t, th, c);
    } else if InAsync(th.pc) {
      AsyncReadsOnly(g, t, th, alive);
    }
  }

  lemma ReadyStays<K(!new)>(s: State<K>, t: nat, c: Choice<K>)
    requires Inv(s) && s.group.ready
    ensures SameOutcome(s.group, Step(s, t, c).group)
  {
    if t in s.threads {
      assert ThreadOk(s.group, t, s.threads[t]);
      OnlyBuildsWrite(s.group, t, s.threads[t], Alive(s, s.group.warmer), c);
    }
  }

  /** Once the group is ready its kernels never change, no build completes again, and it is never marked unavailable. */
  lemma {:induction false} ReadyIsForever<K(!new)>(s: State<K>, schedule: seq<(nat, Choice<K>)>)
    requires Inv(s) && s.group.ready
    ensures SameOutcome(s.group, Run(s, schedule).group)
    decreases |schedule|
  {
    if schedule != [] {
      ReadyStays(s, schedule[0].0, schedule[0].1);
      StepKeeps(s, schedule[0].0, schedule[0].1);
      ReadyIsForever(Step(s, schedule[0].0, schedule[0].1), schedule[1..]);
    }
  }

  // ---------------------------------------------------------------- lookups of a ready group

  /** The thread is inside a lookup of a ready group, before its answer. */
  ghost predicate Asking<K(!new)>(s: State<K>, t: nat) {
    && Inv(s) && s.group.ready && t in s.threads && s.threads[t].looking && !s.threads[t].background
    && (s.threads[t].pc.Lookup? || s.threads[t].pc.ReadKernels?)
  }

  /** Whatever another thread does, it goes on asking where it is. */
  lemma OthersLetAsk<K(!new)>(s: State<K>, t: nat, u: nat, c: Choice<K>)
    requires Asking(s, t) && u != t
    ensures Asking(Step(s, u, c), t) && Step(s, u, c).threads[t].pc == s.threads[t].pc
    ensures Step(s, u, c).group.builds == s.group.builds
  {
    StepKeeps(s, u, c);
    ReadyStays(s, u, c);
  }

  /** Its own two steps read the group ready and answer with the one build there was, kernels compiled. */
  lemma AskingSteps<K(!new)>(s: State<K>, t: nat, c: Choice<K>)
    requires Asking(s, t)
    ensures var r := Step(s, t, c);
            && r.group.builds == s.group.builds && |s.group.builds| == 1
            && if s.threads[t].pc.Lookup? then Asking(r, t) && r.threads[t].pc.ReadKernels? && r.group == s.group
               else r.group.answers == s.group.answers + [Compiled(Some(s.group.builds[0]))]
                    && r.threads[t] == Thread(false, false, Idle)
  {
    StepKeeps(s, t, c);
  }

  /** Moves of other threads only. */
  predicate WithoutMovesOf<K>(schedule: seq<(nat, Choice<K>)>, t: nat) {
    forall k :: 0 <= k < |schedule| ==> schedule[k].0 != t
  }

  lemma {:induction false} OthersRun<K(!new)>(s: State<K>, t: nat, schedule: seq<(nat, Choice<K>)>)
    requires Asking(s, t) && WithoutMovesOf(schedule, t)
    ensures var r := Run(s, schedule);
            Asking(r, t) && r.threads[t].pc == s.threads[t].pc && r.group.builds == s.group.builds
    decreases |schedule|
  {
    if schedule != [] {
      OthersLetAsk(s, t, schedule[0].0, schedule[0].1);
      OthersRun(Step(s, schedule[0].0, schedule[0].1), t, schedule[1..]);
    }
  }

  /** A lookup begun after the group is ready is answered by its second step with the kernels built, whatever other
      threads do before and between. */
  lemma ReadyLookupsAnswer<K(!new)>(s: State<K>, t: nat, before: seq<(nat, Choice<K>)>, c: Choice<K>,
                                    between: seq<(nat, Choice<K>)>, d: Choice<K>)
    requires Asking(s, t) && s.threads[t].pc.Lookup? && WithoutMovesOf(before, t) && WithoutMovesOf(between, t)
    ensures var looked := Step(Run(s, before), t, c);
            var waited := Run(looked, between);
            && Step(waited, t, d).group.answers == waited.group.answers + [Compiled(Some(s.group.builds[0]))]
            && t in Step(waited, t, d).threads && Step(waited, t, d).threads[t].pc.Idle?
  {
    OthersRun(s, t, before);
    AskingSteps(Run(s, before), t, c);
    OthersRun(Step(Run(s, before), t, c), t, between);
    AskingSteps(Run(Step(Run(s, before), t, c), between), t, d);
  }

  // ---------------------------------------------------------------- every lookup is answered once

  /** What a step adds to the answers: one when it ends a lookup, none otherwise; the kernels where the lookup saw the
      group ready, else the fallback. */
  ghost predicate AnswersTheLookup<K(!new)>(g: Group<K>, th: Thread<K>, r: Local<K>) {
    if th.looking && !r.thread.looking then
      r.group.answers == g.answers + [if th.pc.ReadKernels? then Compiled(g.kernels) else Fallback]
    else r.group.answers == g.answers
  }

  /** Inside a lookup a thread is reading, or asking for the background prewarm; threads made for that never look. */
  ghost predicate LooksOnlyThere<K(!new)>(th: Thread<K>) {
    && (th.looking ==> th.pc.Lookup? || th.pc.ReadKernels? || InAsync(th.pc))
    && (th.pc.Lookup? || th.pc.ReadKernels? ==> th.looking)
    && (th.background ==> !th.looking && !th.pc.Idle? && !InAsync(th.pc))
  }

  lemma PrewarmAnswers<K(!new)>(g: Group<K>, t: nat, th: Thread<K>, c: Choice<K>)
    requires LooksOnlyThere(th) && InPrewarm(th.pc)
    ensures var r := StepPrewarm(g, t, th, c); AnswersTheLookup(g, th, r) && LooksOnlyThere(r.thread)
  {
  }

  lemma AsyncAnswers<K(!new)>(g: Group<K>, t: nat, th: Thread<K>, alive: bool)
    requires LooksOnlyThere(th) && InAsync(th.pc)
    ensures var r := StepAsync(g, t, th, alive); AnswersTheLookup(g, th, r) && LooksOnlyThere(r.thread)
  {
  }

  /** A lookup ends in exactly one answer, and nothing else is answered: not a prewarm, not the background thread. */
  lemma EveryLookupIsAnsweredOnce<K(!new)>(g: Group<K>, t: nat, th: Thread<K>, alive: bool, c: Choice<K>)
    requires LooksOnlyThere(th) && !th.pc.Spawn? && !th.pc.Start?
    ensures var r := StepAlone(g, t, th, alive, c); AnswersTheLookup(g, th, r) && LooksOnlyThere(r.thread)
  {
    if InPrewarm(th.pc) {
      PrewarmAnswers(g, t, th, c);
    } else if InAsync(th.pc) {
      AsyncAnswers(g, t, th, alive);
    } else {
      assert StepAlone(g, t, th, alive, c) == StepOther(g, th, c);
    }
  }

  ghost predicate EveryoneLooksThere<K(!new)>(s: State<K>) {
    forall t :: t in s.threads ==> LooksOnlyThere(s.threads[t])
  }

  lemma LookingStays<K(!new)>(s: State<K>, t: nat, c: Choice<K>)
    requires EveryoneLooksThere(s)
    ensures EveryoneLooksThere(Step(s, t, c))
  {
    if t in s.threads && !s.threads[t].pc.Spawn? && !s.threads[t].pc.Start? {
      EveryLookupIsAnsweredOnce(s.group, t, s.threads[t], Alive(s, s.group.warmer), c);
    }
  }

  /** Over every interleaving from a new group the steps of every thread answer lookups so. */
  lemma {:induction false} LookingStaysForever<K(!new)>(s: State<K>, schedule: seq<(nat, Choice<K>)>)
    requires EveryoneLooksThere(s) || Init(s)
    ensures EveryoneLooksThere(Run(s, schedule))
    decreases |schedule|
  {
    if schedule != [] {
      LookingStays(s, schedule[0].0, schedule[0].1);
      LookingStaysForever(Step(s, schedule[0].0, schedule[0].1), schedule[1..]);
    }
  }

  // ---------------------------------------------------------------- the background prewarm

  /** The steps of one thread alone. */
  function GoOn<K>(s: State<K>, t: nat, n: nat): State<K> { if n == 0 then s else Step(GoOn(s, t, n - 1), t, Go) }

  /** The same state but for the group and one thread. */
  function With<K>(s: State<K>, t: nat, g: Group<K>, th: Thread<K>): State<K> { State(g, s.threads[t := th], s.nextId) }

  lemma StepAloneIs<K>(s: State<K>, t: nat, c: Choice<K>)
    requires t in s.threads && !s.threads[t].pc.Spawn? && !s.threads[t].pc.Start?
    ensures var r := StepAlone(s.group, t, s.threads[t], Alive(s, s.group.warmer), c);
            Step(s, t, c) == With(s, t, r.group, r.thread)
  {
  }

  lemma WithTwice<K>(s: State<K>, t: nat, g: Group<K>, th: Thread<K>, h: Group<K>, after: Thread<K>)
    ensures With(With(s, t, g, th), t, h, after) == With(s, t, h, after)
  {
    assert s.threads[t := th][t := after] == s.threads[t := after];
  }

  /** What each call begins with. */
  lemma CallsBegin<K>(g: Group<K>, t: nat, alive: bool)
    ensures var th := Thread(false, false, Idle);
            && StepAlone(g, t, th, alive, Prewarm) == Local(g, th.(pc := ReadAvailable))
            && StepAlone(g, t, th, alive, PrewarmAsync) == Local(g, th.(pc := AsyncAvailable))
            && StepAlone(g, t, th, alive, Get) == Local(g, Thread(false, true, Lookup))
  {
  }

  /** A lookup of a group not ready goes on as a background prewarm. */
  lemma LookupAsks<K>(g: Group<K>, t: nat, alive: bool, c: Choice<K>)
    requires !g.ready
    ensures StepAlone(g, t, Thread(false, true, Lookup), alive, c) == Local(g, Thread(false, true, AsyncAvailable))
  {
  }

  /** How a background prewarm of an available group not ready goes on, the thread lock free. */
  lemma AsyncGoesOn<K>(g: Group<K>, t: nat, looking: bool, alive: bool)
    requires g.available && !g.ready && g.threadLock.None?
    ensures var th, locked := Thread(false, looking, AsyncAvailable), g.(threadLock := Some(t));
            && StepAlone(g, t, th, alive, Go) == Local(g, th.(pc := AsyncReady))
            && StepAlone(g, t, th.(pc := AsyncReady), alive, Go) == Local(g, th.(pc := WaitThread))
            && StepAlone(g, t, th.(pc := WaitThread), alive, Go) == Local(locked, th.(pc := AsyncRecheck))
            && StepAlone(locked, t, th.(pc := AsyncRecheck), alive, Go) == Local(locked, th.(pc := TestAlive))
  {
  }

  /** How it goes on from there, and how it ends. */
  lemma AsyncEnds<K>(g: Group<K>, t: nat, looking: bool, alive: bool)
    requires !g.ready
    ensures var th := Thread(false, looking, TestAlive);
            && StepAlone(g, t, th, alive, Go) == Local(g, th.(pc := if alive then AsyncUnlock else Spawn))
            && StepAlone(g, t, th.(pc := AsyncUnlock), alive, Go)
               == Local(g.(threadLock := None, answers := g.answers + if looking then [Fallback] else []),
                        Thread(false, false, Idle))
  {
    if !looking { assert g.answers + [] == g.answers; }
  }

  /** Asked for a background prewarm of a group that is available and not ready, and the thread lock free. */
  ghost predicate AsksForPrewarm<K(!new)>(s: State<K>, t: nat) {
    && Inv(s) && t in s.threads && !s.threads[t].background && s.threads[t].pc.AsyncAvailable?
    && s.group.available && !s.group.ready && s.group.threadLock.None?
  }

  lemma OneStepOn<K>(s: State<K>, t: nat, n: nat, g: Group<K>, th: Thread<K>, h: Group<K>, after: Thread<K>)
    returns (m: nat)
    requires GoOn(s, t, n) == With(s, t, g, th) && !th.pc.Spawn? && !th.pc.Start?
    requires StepAlone(g, t, th, Alive(With(s, t, g, th), g.warmer), Go) == Local(h, after)
    ensures m == n + 1 && GoOn(s, t, m) == With(s, t, h, after)
  {
    m := n + 1;
    StepAloneIs(With(s, t, g, th), t, Go);
    WithTwice(s, t, g, th, h, after);
  }

  /** It takes the lock and looks whether the thread made last is still running. */
  lemma ReachesTheTest<K(!new)>(s: State<K>, t: nat) returns (n: nat)
    requires AsksForPrewarm(s, t)
    ensures GoOn(s, t, n) == With(s, t, s.group.(threadLock := Some(t)), s.threads[t].(pc := TestAlive))
  {
    var g, th := s.group, s.threads[t];
    var locked := g.(threadLock := Some(t));
    AsyncGoesOn(g, t, th.looking, false);
    AsyncGoesOn(g, t, th.looking, true);
    assert s.threads[t := th] == s.threads;
    n := 0;
    n := OneStepOn(s, t, n, g, th, g, th.(pc := AsyncReady));
    n := OneStepOn(s, t, n, g, th.(pc := AsyncReady), g, th.(pc := WaitThread));
    n := OneStepOn(s, t, n, g, th.(pc := WaitThread), locked, th.(pc := AsyncRecheck));
    n := OneStepOn(s, t, n, locked, th.(pc := AsyncRecheck), locked, th.(pc := TestAlive));
  }

  /** The group once the call is over: as it was, the lock free, a lookup answered with the fallback. */
  function Answered<K>(g: Group<K>, looking: bool): Group<K> {
    g.(threadLock := None, answers := g.answers + if looking then [Fallback] else [])
  }

  /** While that thread is running, none is made. */
  lemma RunningOneIsLeft<K(!new)>(s: State<K>, t: nat) returns (n: nat)
    requires AsksForPrewarm(s, t) && Alive(s, s.group.warmer)
    ensures GoOn(s, t, n) == With(s, t, Answered(s.group, s.threads[t].looking), Thread(false, false, Idle))
  {
    var g, th := s.group, s.threads[t];
    var locked := g.(threadLock := Some(t));
    n := ReachesTheTest(s, t);
    AsyncEnds(locked, t, th.looking, true);
    n := OneStepOn(s, t, n, locked, th.(pc := TestAlive), locked, th.(pc := AsyncUnlock));
    AsyncEnds(locked, t, th.looking, Alive(With(s, t, locked, th.(pc := AsyncUnlock)), g.warmer));
    n := OneStepOn(s, t, n, locked, th.(pc := AsyncUnlock), Answered(g, th.looking), Thread(false, false, Idle));
  }

  /** The state with one more thread, made last and running its prewarm. */
  function WithWarmer<K>(s: State<K>, t: nat, g: Group<K>, th: Thread<K>): State<K> {
    State(g.(warmer := Some(s.nextId)), s.threads[t := th][s.nextId := Thread(true, false, ReadAvailable)],
          s.nextId + 1)
  }

  lemma SpawnsAndStarts<K>(s: State<K>, t: nat, g: Group<K>, th: Thread<K>)
    requires t in s.threads && t < s.nextId && th.pc.Spawn?
    ensures Step(Step(With(s, t, g, th), t, Go), t, Go) == WithWarmer(s, t, g, th.(pc := AsyncUnlock))
  {
    var a := With(s, t, g, th);
    var b := SpawnStep(a, t);
    assert Step(a, t, Go) == b && Step(b, t, Go) == StartStep(b, t);
    assert StartStep(b, t).threads == WithWarmer(s, t, g, th.(pc := AsyncUnlock)).threads;
  }

  lemma UnlocksBeside<K>(s: State<K>, t: nat, g: Group<K>, th: Thread<K>)
    requires t in s.threads && t < s.nextId && !g.ready && th == Thread(false, th.looking, AsyncUnlock)
    ensures Step(WithWarmer(s, t, g, th), t, Go)
            == WithWarmer(s, t, Answered(g, th.looking), Thread(false, false, Idle))
  {
    var a := WithWarmer(s, t, g, th);
    AsyncEnds(a.group, t, th.looking, Alive(a, a.group.warmer));
    StepAloneIs(a, t, Go);
    assert Step(a, t, Go).threads == WithWarmer(s, t, Answered(g, th.looking), Thread(false, false, Idle)).threads;
  }

  lemma DecidesToSpawn<K(!new)>(s: State<K>, t: nat) returns (n: nat)
    requires AsksForPrewarm(s, t) && !Alive(s, s.group.warmer)
    ensures GoOn(s, t, n) == With(s, t, s.group.(threadLock := Some(t)), s.threads[t].(pc := Spawn))
  {
    var locked, th := s.group.(threadLock := Some(t)), s.threads[t];
    n := ReachesTheTest(s, t);
    AsyncEnds(locked, t, th.looking, false);
    n := OneStepOn(s, t, n, locked, th.(pc := TestAlive), locked, th.(pc := Spawn));
  }

  lemma OneMore<K>(s: State<K>, t: nat, n: nat)
    ensures GoOn(s, t, n + 1) == Step(GoOn(s, t, n), t, Go)
  {
  }

  lemma SpawnsAndReturns<K>(s: State<K>, t: nat, n: nat, g: Group<K>, th: Thread<K>)
    requires t in s.threads && t < s.nextId && !g.ready && th == Thread(false, th.looking, Spawn)
    requires GoOn(s, t, n) == With(s, t, g, th)
    ensures GoOn(s, t, n + 3) == WithWarmer(s, t, Answered(g, th.looking), Thread(false, false, Idle))
  {
    OneMore(s, t, n);
    OneMore(s, t, n + 1);
    OneMore(s, t, n + 2);
    SpawnsAndStarts(s, t, g, th);
    UnlocksBeside(s, t, g, th.(pc := AsyncUnlock));
  }

  /** Where it has ended, or none was ever made, a new one is made and started, past the test at its first step; from
      there the group can become ready. */
  lemma EndedOneIsReplaced<K(!new)>(s: State<K>, t: nat) returns (n: nat)
    requires AsksForPrewarm(s, t) && !Alive(s, s.group.warmer)
    ensures GoOn(s, t, n) == WithWarmer(s, t, Answered(s.group, s.threads[t].looking), Thread(false, false, Idle))
  {
    var locked, spawning := s.group.(threadLock := Some(t)), s.threads[t].(pc := Spawn);
    n := DecidesToSpawn(s, t);
    SpawnsAndReturns(s, t, n, locked, spawning);
    n := n + 3;
  }

  // ---------------------------------------------------------------- calls that have nothing to do

  /** Whoever comes to hold a lock of a group that is ready meanwhile builds nothing and makes no thread. */
  lemma LateIsNothingToDo<K>(g: Group<K>, t: nat, th: Thread<K>, alive: bool, c: Choice<K>)
    requires g.ready && (th.pc.Recheck? || th.pc.AsyncRecheck?)
    ensures StepAlone(g, t, th, alive, c) == Local(g, th.(pc := if th.pc.Recheck? then Unlock else AsyncUnlock))
  {
  }

  /** A build ends with kernels or with a failure, and goes on until it does. */
  lemma BuildsEndEitherWay<K>(g: Group<K>, t: nat, th: Thread<K>, alive: bool, c: Choice<K>)
    requires th.pc.Building?
    ensures var r := StepAlone(g, t, th, alive, c);
            match c
            case Succeed(result) => r == Local(g.(builds := g.builds + [result]), th.(pc := Store(result)))
            case Fail => r == Local(g, th.(pc := GiveUp))
            case _ => r == Local(g, th)
  {
  }

  /** The call is over; the group is as it was but for the answer of a lookup. */
  ghost predicate Over<K(!new)>(g: Group<K>, th: Thread<K>, r: Local<K>) {
    && r.group == g.(answers := if th.looking then g.answers + [Fallback] else g.answers)
    && r.thread == Thread(th.background, false, if th.background then Dead else Idle)
  }

  /** A prewarm, blocking or not, of a group that is unavailable is over at its first step, and of a ready group at its
      second: neither waits for a lock. */
  lemma NothingToWaitFor<K(!new)>(g: Group<K>, t: nat, th: Thread<K>, alive: bool, c: Choice<K>)
    requires th.pc.ReadAvailable? || th.pc.AsyncAvailable?
    ensures var r := StepAlone(g, t, th, alive, c);
            if !g.available then Over(g, th, r)
            else r.group == g && (g.ready ==> Over(g, r.thread, StepAlone(g, t, r.thread, alive, c)))
  {
  }

  // ---------------------------------------------------------------- after a failed build

  /** Past the availability test, and not yet done with the build. */
  predicate PastTheTest<K>(pc: Pc<K>) {
    pc.ReadReady? || pc.WaitCompile? || pc.Recheck? || pc.Building? || pc.Store? || pc.SetReady?
  }

  ghost predicate Retired<K(!new)>(s: State<K>) {
    !s.group.available && !s.group.ready && forall t :: t in s.threads ==> !PastTheTest(s.threads[t].pc)
  }

  lemma HaltedOther<K>(g: Group<K>, t: nat, th: Thread<K>, c: Choice<K>)
    requires !g.available && !PastTheTest(th.pc) && !InPrewarm(th.pc) && !InAsync(th.pc)
    ensures !PastTheTest(StepOther(g, th, c).thread.pc)
  {
  }

  lemma NoOnePasses<K>(g: Group<K>, t: nat, th: Thread<K>, alive: bool, c: Choice<K>)
    requires !g.available && !PastTheTest(th.pc)
    ensures !PastTheTest(StepAlone(g, t, th, alive, c).thread.pc)
  {
    if InPrewarm(th.pc) {
      assert StepAlone(g, t, th, alive, c) == StepPrewarm(g, t, th, c);
    } else if InAsync(th.pc) {
      assert StepAlone(g, t, th, alive, c) == StepAsync(g, t, th, alive);
    } else {
      HaltedOther(g, t, th, c);
    }
  }

  /** No step of a thread before the test completes a build or makes the group ready. */
  lemma RetiredAlone<K>(g: Group<K>, t: nat, th: Thread<K>, alive: bool, c: Choice<K>)
    requires !g.available && !g.ready && !PastTheTest(th.pc)
    ensures var h := StepAlone(g, t, th, alive, c).group; !h.available && !h.ready && h.builds == g.builds
  {
    if !th.pc.GiveUp? { OnlyBuildsWrite(g, t, th, alive, c); }
  }

  lemma RetiredStep<K(!new)>(s: State<K>, t: nat, c: Choice<K>)
    requires Inv(s) && Retired(s)
    ensures Retired(Step(s, t, c)) && Step(s, t, c).group.builds == s.group.builds
  {
    if t in s.threads {
      var g, th, alive := s.group, s.threads[t], Alive(s, s.group.warmer);
      assert !PastTheTest(th.pc);
      NoOnePasses(g, t, th, alive, c);
      RetiredAlone(g, t, th, alive, c);
    }
  }

  /** A failed group that no thread is past the test of never builds again, and only ever answers with the fallback. */
  lemma {:induction false} RetiredIsForever<K(!new)>(s: State<K>, schedule: seq<(nat, Choice<K>)>)
    requires Inv(s) && Retired(s)
    ensures var r := Run(s, schedule);
            Retired(r) && r.group.builds == s.group.builds
            && forall k :: 0 <= k < |r.group.answers| ==> r.group.answers[k].Fallback?
    decreases |schedule|
  {
    if schedule != [] {
      RetiredStep(s, schedule[0].0, schedule[0].1);
      StepKeeps(s, schedule[0].0, schedule[0].1);
      RetiredIsForever(Step(s, schedule[0].0, schedule[0].1), schedule[1..]);
    }
  }

  /** Steps left until a thread past the test, or the one that keeps it waiting, has made the group ready. */
  function Distance<K>(s: State<K>, t: nat): nat
    requires t in s.threads
  {
    match s.threads[t].pc
    case ReadReady => 8
    case WaitCompile =>
      var h := s.group.compileLock;
      if h.Some? && h.value in s.threads then
        if s.threads[h.value].pc.GiveUp? then 7 else if s.threads[h.value].pc.Unlock? then 6 else 5
      else 5
    case Recheck => 4
    case Building => 3
    case Store(_) => 2
    case _ => 1
  }

  /** Who moves next, and how, on the way to readiness. */
  function NextMover<K>(s: State<K>, t: nat): nat
    requires t in s.threads
  {
    if s.threads[t].pc.WaitCompile? && s.group.compileLock.Some? && s.group.compileLock.value in s.threads
    then s.group.compileLock.value else t
  }

  lemma Nearer<K(!new)>(s: State<K>, t: nat, result: K)
    requires Inv(s) && !s.group.ready && t in s.threads && PastTheTest(s.threads[t].pc)
    requires NextMover(s, t) == t || s.threads[NextMover(s, t)].pc.GiveUp? || s.threads[NextMover(s, t)].pc.Unlock?
    ensures var r := Step(s, NextMover(s, t), Succeed(result));
            r.group.ready || (t in r.threads && PastTheTest(r.threads[t].pc) && Distance(r, t) < Distance(s, t))
  {
    var m := NextMover(s, t);
    assert ThreadOk(s.group, t, s.threads[t]) && ThreadOk(s.group, m, s.threads[m]);
  }

  /** One thread past the test is enough for the group to become ready after all. */
  lemma {:induction false} CanStillSucceed<K(!new)>(s: State<K>, t: nat, result: K)
    returns (schedule: seq<(nat, Choice<K>)>)
    requires Inv(s) && !s.group.ready && t in s.threads && PastTheTest(s.threads[t].pc)
    ensures Run(s, schedule).group.ready
    decreases Distance(s, t)
  {
    var m := NextMover(s, t);
    assert ThreadOk(s.group, m, s.threads[m]);
    if m != t && !s.threads[m].pc.GiveUp? && !s.threads[m].pc.Unlock? {
      schedule := CanStillSucceed(s, m, result);
    } else {
      Nearer(s, t, result);
      StepKeeps(s, m, Succeed(result));
      var r := Step(s, m, Succeed(result));
      var rest := [];
      if !r.group.ready { rest := CanStillSucceed(r, t, result); }
      schedule := [(m, Succeed(result))] + rest;
      assert schedule[1..] == rest;
    }
  }

  ghost predicate CanBecomeReady<K(!new)>(s: State<K>) { exists schedule :: Run(s, schedule).group.ready }

  ghost predicate SomeonePast<K(!new)>(s: State<K>) { exists t :: t in s.threads && PastTheTest(s.threads[t].pc) }

  /** A group marked unavailable stays off exactly when no thread had already passed the availability test. */
  lemma FailureIsPermanentExactlyIf<K(!new)>(s: State<K>, result: K)
    requires Inv(s) && !s.group.available && !s.group.ready
    ensures CanBecomeReady(s) <==> SomeonePast(s)
  {
    if SomeonePast(s) {
      var t :| t in s.threads && PastTheTest(s.threads[t].pc);
      var schedule := CanStillSucceed(s, t, result);
    }
    if CanBecomeReady(s) && !SomeonePast(s) {
      var schedule :| Run(s, schedule).group.ready;
      RetiredIsForever(s, schedule);
    }
  }

  // ---------------------------------------------------------------- a failed group that becomes ready

  lemma {:induction false} RunThenRun<K>(s: State<K>, a: seq<(nat, Choice<K>)>, b: seq<(nat, Choice<K>)>)
    ensures Run(s, a + b) == Run(Run(s, a), b)
    decreases |a|
  {
    if a == [] {
      assert a + b == b;
    } else {
      assert (a + b)[1..] == a[1..] + b;
      RunThenRun(Step(s, a[0].0, a[0].1), a[1..], b);
    }
  }

  lemma UnavailableStays<K>(g: Group<K>, t: nat, th: Thread<K>, alive: bool, c: Choice<K>)
    requires !g.available
    ensures !StepAlone(g, t, th, alive, c).group.available
  {
    if Writes(th.pc) {
    } else {
      OnlyBuildsWrite(g, t, th, alive, c);
    }
  }

  lemma {:induction false} UnavailableIsForever<K(!new)>(s: State<K>, schedule: seq<(nat, Choice<K>)>)
    requires !s.group.available
    ensures !Run(s, schedule).group.available
    decreases |schedule|
  {
    if schedule != [] {
      var t, c := schedule[0].0, schedule[0].1;
      if t in s.threads { UnavailableStays(s.group, t, s.threads[t], Alive(s, s.group.warmer), c); }
      UnavailableIsForever(Step(s, t, c), schedule[1..]);
    }
  }

  /** One more step at the end of a schedule. */
  lemma ThenStep<K>(s: State<K>, schedule: seq<(nat, Choice<K>)>, r: State<K>, t: nat, c: Choice<K>)
    requires Run(s, schedule) == r
    ensures Run(s, schedule + [(t, c)]) == Step(r, t, c)
  {
    RunThenRun(s, schedule, [(t, c)]);
    var last := [(t, c)];
    assert last[1..] == [];
    assert Run(r, last) == Run(Step(r, t, c), last[1..]);
  }

  /** An idle thread calls the blocking prewarm and comes to wait for the compile lock. */
  lemma Arrives<K(!new)>(s: State<K>, t: nat) returns (schedule: seq<(nat, Choice<K>)>, r: State<K>)
    requires t in s.threads && s.threads[t] == Thread(false, false, Idle) && s.group.available && !s.group.ready
    ensures r == Run(s, schedule) && r == s.(threads := s.threads[t := Thread(false, false, WaitCompile)])
  {
    schedule, r := [], s;
    ThenStep(s, schedule, r, t, Prewarm);
    schedule, r := schedule + [(t, Prewarm)], Step(r, t, Prewarm);
    assert r == s.(threads := s.threads[t := Thread(false, false, ReadAvailable)]);
    ThenStep(s, schedule, r, t, Go);
    schedule, r := schedule + [(t, Go)], Step(r, t, Go);
    assert r == s.(threads := s.threads[t := Thread(false, false, ReadReady)]);
    ThenStep(s, schedule, r, t, Go);
    schedule, r := schedule + [(t, Go)], Step(r, t, Go);
  }

  /** A waiting thread takes the free lock and starts to build. */
  lemma Enters<K(!new)>(s: State<K>, t: nat) returns (schedule: seq<(nat, Choice<K>)>, r: State<K>)
    requires t in s.threads && s.threads[t].pc.WaitCompile? && s.group.compileLock.None? && !s.group.ready
    ensures r == Run(s, schedule) && r.threads == s.threads[t := s.threads[t].(pc := Building)]
    ensures r.group == s.group.(compileLock := Some(t))
  {
    schedule, r := [], s;
    ThenStep(s, schedule, r, t, Go);
    schedule, r := schedule + [(t, Go)], Step(r, t, Go);
    ThenStep(s, schedule, r, t, Go);
    schedule, r := schedule + [(t, Go)], Step(r, t, Go);
  }

  /** One thread waits for the compile lock while another one builds. */
  lemma TwoCallers<K(!new)>(s: State<K>, a: nat, b: nat) returns (schedule: seq<(nat, Choice<K>)>, r: State<K>)
    requires Init(s) && s.group.available && a in s.threads && b in s.threads && a != b
    ensures r == Run(s, schedule) && a in r.threads && b in r.threads && !r.group.ready
    ensures r.threads[a].pc.Building? && r.threads[b].pc.WaitCompile?
  {
    var first, r1 := Arrives(s, a);
    var second, r2 := Arrives(r1, b);
    var third, r3 := Enters(r2, a);
    RunThenRun(s, first, second);
    RunThenRun(s, first + second, third);
    schedule, r := first + second + third, r3;
  }

  lemma BuildFails<K(!new)>(s: State<K>, a: nat, b: nat) returns (schedule: seq<(nat, Choice<K>)>, r: State<K>)
    requires a in s.threads && b in s.threads && a != b && !s.group.ready
    requires s.threads[a].pc.Building? && s.threads[b].pc.WaitCompile?
    ensures r == Run(s, schedule) && b in r.threads && r.threads[b].pc.WaitCompile?
    ensures !r.group.available && !r.group.ready
  {
    schedule, r := [], s;
    ThenStep(s, schedule, r, a, Fail);
    schedule, r := schedule + [(a, Fail)], Step(r, a, Fail);
    ThenStep(s, schedule, r, a, Go);
    schedule, r := schedule + [(a, Go)], Step(r, a, Go);
  }

  /** Two threads are enough for a group whose build failed to end up ready and yet marked unavailable:
      failure is not permanent. */
  lemma FailureNeedNotBePermanent<K(!new)>(s: State<K>, a: nat, b: nat, result: K)
    returns (schedule: seq<(nat, Choice<K>)>)
    requires Init(s) && s.group.available && a in s.threads && b in s.threads && a != b
    ensures var g := Run(s, schedule).group; g.ready && !g.available
  {
    var first, r1 := TwoCallers(s, a, b);
    var second, r2 := BuildFails(r1, a, b);
    RunKeeps(s, first);
    RunKeeps(r1, second);
    var third := CanStillSucceed(r2, b, result);
    UnavailableIsForever(r2, third);
    RunThenRun(s, first, second);
    RunThenRun(s, first + second, third);
    schedule := first + second + third;
  }
}
