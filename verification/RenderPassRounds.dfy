/** What the bank holds of the callbacks measured: of every group the newest of its current round, over any run. */
module RenderPassRounds {
  import opened Prelude
  import opened OrderedDict
  import opened RenderPassBank

  function SamplesOf(banks: Banks, k: LocalKey): seq<Sample>
    requires Resident(banks, k)
  {
    banks.at[k.structure].at[k.group]
  }

  predicate Usable(observed: Option<Sample>) { observed.Some? && observed.value.items > 0 }

  /** The newest of these, eight at most. */
  function Newest(samples: seq<Sample>): seq<Sample> { samples[|samples| - Min(8, |samples|)..] }

  // ---------------------------------------------------------------- one decision

  lemma DecideLeavesOthers(s: State, kind: PassKind, observed: Option<Sample>, fit: Fit, q: LocalKey)
    requires kind in s.contexts && Resident(s.banks, KeyOf(kind, s.contexts[kind]))
    ensures var t := Decide(s, kind, observed, fit);
            && (Resident(t.banks, q) <==> Resident(s.banks, q))
            && (q != KeyOf(kind, s.contexts[kind]) && Resident(s.banks, q) ==>
                  SamplesOf(t.banks, q) == SamplesOf(s.banks, q))
  {
  }

  /** A usable observation goes to the end of its group's samples, the oldest making room beyond eight; without one
      they stay. No other group is touched. */
  lemma DecideObserves(s: State, kind: PassKind, observed: Option<Sample>, fit: Fit)
    requires Invariant(s) && kind in s.contexts
    ensures var k, t := KeyOf(kind, s.contexts[kind]), Decide(s, kind, observed, fit);
            && Resident(s.banks, k) && Resident(t.banks, k)
            && var held, now := SamplesOf(s.banks, k), SamplesOf(t.banks, k);
               if Usable(observed)
               then now == Newest(held + [observed.value]) && |now| == Min(8, |held| + 1)
                    && now[|now| - 1] == observed.value
               else now == held
  {
    assert kind == Preview || kind == Target;
    assert Active(s.banks, s.contexts, kind);
  }

  // ---------------------------------------------------------------- one beginning

  /** What is held after making room was held before, with the same samples. */
  ghost predicate OnlyFewer(a: Banks, b: Banks, k: LocalKey) {
    && (forall q :: q != k && Resident(b, q) ==> Resident(a, q) && SamplesOf(b, q) == SamplesOf(a, q))
    && (Resident(a, k) ==> Resident(b, k) && SamplesOf(b, k) == SamplesOf(a, k))
    && (Resident(b, k) && !Resident(a, k) ==> SamplesOf(b, k) == [])
  }

  lemma EnterStructureSamples(s: State, k: LocalKey)
    requires Bounded(s.banks)
    ensures OnlyFewer(s.banks, EnterStructure(s, k.structure).banks, k)
    ensures k.structure in EnterStructure(s, k.structure).banks.at
  {
  }

  lemma PutOnlyThere(banks: Banks, k: LocalKey, q: LocalKey)
    requires k.structure in banks.at && q != k
    ensures var r := PutSamples(banks, k, []);
            (Resident(r, q) <==> Resident(banks, q)) && (Resident(banks, q) ==> SamplesOf(r, q) == SamplesOf(banks, q))
  {
  }

  lemma DroppedOnlyThere(banks: Banks, gone: LocalKey, q: LocalKey)
    requires gone.structure in banks.at && Resident(DropGroup(banks, gone), q)
    ensures Resident(banks, q) && SamplesOf(DropGroup(banks, gone), q) == SamplesOf(banks, q)
  {
  }

  /** Making room for a group costs another one at most all of its samples. */
  lemma EnterGroupSamples(s: State, k: LocalKey, q: LocalKey)
    requires k.structure in s.banks.at && Resident(EnterGroup(s, k).banks, q) && q != k
    ensures Resident(s.banks, q) && SamplesOf(EnterGroup(s, k).banks, q) == SamplesOf(s.banks, q)
  {
    if !Resident(s.banks, k) {
      var order := s.banks.at[k.structure].order;
      if |order| >= LIMIT && order != [] {
        var gone := LocalKey(k.structure, Stale(order, ActiveGroups(s.contexts, k.structure)));
        PutOnlyThere(DropGroup(s.banks, gone), k, q);
        DroppedOnlyThere(s.banks, gone, q);
      } else {
        PutOnlyThere(s.banks, k, q);
      }
    }
  }

  lemma EnterGroupHolds(s: State, k: LocalKey)
    requires k.structure in s.banks.at
    ensures var t := EnterGroup(s, k);
            Resident(t.banks, k) && SamplesOf(t.banks, k) == if Resident(s.banks, k) then SamplesOf(s.banks, k) else []
  {
  }

  lemma StartRoundSamples(s: State, kind: PassKind, token: int, c: Context, q: LocalKey)
    requires Resident(s.banks, KeyOf(kind, c)) && Resident(StartRound(s, kind, token, c).banks, q)
    ensures var k, t := KeyOf(kind, c), StartRound(s, kind, token, c);
            && Resident(s.banks, q) && t.tokens == s.tokens[kind := (token, c)] && Resident(t.banks, k)
            && (q != k ==> SamplesOf(t.banks, q) == SamplesOf(s.banks, q))
            && SamplesOf(t.banks, k) ==
               if kind in s.tokens && s.tokens[kind] == (token, c) then SamplesOf(s.banks, k) else []
  {
    if kind in s.tokens && s.tokens[kind] == (token, c) {
      assert s.tokens[kind := (token, c)] == s.tokens;
    } else if q != KeyOf(kind, c) {
      PutOnlyThere(s.banks, KeyOf(kind, c), q);
    }
  }

  /** A new token empties the group begun and leaves every other group that is still held as it was. */
  lemma BeginSamples(s: State, kind: PassKind, token: int, c: Context, q: LocalKey)
    requires Invariant(s) && Resident(Begin(s, kind, token, c).banks, q)
    ensures var k, t := KeyOf(kind, c), Begin(s, kind, token, c);
            && (q != k ==> Resident(s.banks, q) && SamplesOf(t.banks, q) == SamplesOf(s.banks, q))
            && (q == k ==>
                  SamplesOf(t.banks, k) ==
                  if kind in s.tokens && s.tokens[kind] == (token, c) && Resident(s.banks, k)
                  then SamplesOf(s.banks, k) else [])
  {
    var k, a := KeyOf(kind, c), s.(contexts := s.contexts[kind := c]);
    var b := EnterStructure(a, c.structure);
    EnterStructureSamples(a, k);
    EnterGroupHolds(b, k);
    StartRoundSamples(EnterGroup(b, k), kind, token, c, q);
    if q != k { EnterGroupSamples(b, k, q); }
  }

  lemma RoomCostsNoToken(s: State, k: LocalKey)
    ensures EnterStructure(s, k.structure).tokens == s.tokens && EnterGroup(s, k).tokens == s.tokens
  {
  }

  /** Whatever token it is begun under is the last of its kind, and the others stay. */
  lemma BeginTokens(s: State, kind: PassKind, token: int, c: Context)
    ensures Begin(s, kind, token, c).tokens == s.tokens[kind := (token, c)]
  {
    var k, a := KeyOf(kind, c), s.(contexts := s.contexts[kind := c]);
    RoomCostsNoToken(a, k);
    RoomCostsNoToken(EnterStructure(a, c.structure), k);
    if kind in s.tokens && s.tokens[kind] == (token, c) { assert s.tokens[kind := (token, c)] == s.tokens; }
  }

  // ---------------------------------------------------------------- the rounds of a run

  /** The last beginning of this kind. */
  function LastBegun(ops: seq<Op>, kind: PassKind): Option<(int, Context)>
    decreases |ops|
  {
    if ops == [] then None
    else
      match ops[|ops| - 1]
      case BeginOp(k, token, c) => if k == kind then Some((token, c)) else LastBegun(ops[..|ops| - 1], kind)
      case DecideOp(_, _, _) => LastBegun(ops[..|ops| - 1], kind)
  }

  /** The usable observations of a group since a beginning of it under a new token or after another context. */
  function RoundOf(ops: seq<Op>, k: LocalKey): seq<Sample>
    decreases |ops|
  {
    if ops == [] then []
    else
      var before := ops[..|ops| - 1];
      match ops[|ops| - 1]
      case BeginOp(kind, token, c) =>
        if KeyOf(kind, c) == k && LastBegun(before, kind) != Some((token, c)) then [] else RoundOf(before, k)
      case DecideOp(kind, observed, _) =>
        var last := LastBegun(before, kind);
        RoundOf(before, k)
        + if Usable(observed) && last.Some? && KeyOf(kind, last.value.1) == k then [observed.value] else []
  }

  ghost predicate BeganLast(s: State, ops: seq<Op>, kind: PassKind) {
    match LastBegun(ops, kind)
    case None => kind !in s.contexts && kind !in s.tokens
    case Some(last) => kind in s.contexts && s.contexts[kind] == last.1 && kind in s.tokens && s.tokens[kind] == last
  }

  /** The state knows what was begun last, and holds of every group the newest of its round. */
  ghost predicate Recalls(s: State, ops: seq<Op>) {
    && Invariant(s) && (forall kind :: BeganLast(s, ops, kind))
    && forall k :: Resident(s.banks, k) ==> SamplesOf(s.banks, k) == Newest(RoundOf(ops, k))
  }

  lemma BeginChangesRounds(ops: seq<Op>, op: Op, q: LocalKey)
    requires op.BeginOp?
    ensures RoundOf(ops + [op], q) ==
            if KeyOf(op.kind, op.context) == q && LastBegun(ops, op.kind) != Some((op.token, op.context)) then []
            else RoundOf(ops, q)
  {
    assert (ops + [op])[..|ops|] == ops;
  }

  lemma DecideChangesRounds(ops: seq<Op>, op: Op, q: LocalKey)
    requires op.DecideOp?
    ensures var last := LastBegun(ops, op.kind);
            RoundOf(ops + [op], q) == RoundOf(ops, q) + if Usable(op.observed) && last.Some?
                                                           && KeyOf(op.kind, last.value.1) == q
                                                        then [op.observed.value] else []
  {
    assert (ops + [op])[..|ops|] == ops;
  }

  lemma LastBegunNext(ops: seq<Op>, op: Op, kind: PassKind)
    ensures LastBegun(ops + [op], kind) ==
            if op.BeginOp? && op.kind == kind then Some((op.token, op.context)) else LastBegun(ops, kind)
  {
    assert (ops + [op])[..|ops|] == ops;
  }

  lemma NewestOfMore(samples: seq<Sample>, sample: Sample)
    ensures Newest(Newest(samples) + [sample]) == Newest(samples + [sample])
  {
  }

  lemma DecideRecallsGroup(s: State, ops: seq<Op>, op: Op, q: LocalKey)
    requires Recalls(s, ops) && op.DecideOp? && op.kind in s.contexts && Resident(Step(s, op).banks, q)
    ensures SamplesOf(Step(s, op).banks, q) == Newest(RoundOf(ops + [op], q))
  {
    var k := KeyOf(op.kind, s.contexts[op.kind]);
    DecideObserves(s, op.kind, op.observed, op.fit);
    DecideLeavesOthers(s, op.kind, op.observed, op.fit, q);
    DecideChangesRounds(ops, op, q);
    assert BeganLast(s, ops, op.kind);
    if q == k && Usable(op.observed) { NewestOfMore(RoundOf(ops, k), op.observed.value); }
  }

  lemma DecideRecalls(s: State, ops: seq<Op>, op: Op)
    requires Recalls(s, ops) && op.DecideOp? && op.kind in s.contexts
    ensures Recalls(Step(s, op), ops + [op])
  {
    var t, all := Step(s, op), ops + [op];
    DecideKeeps(s, op.kind, op.observed, op.fit);
    forall kind ensures BeganLast(t, all, kind) {
      assert BeganLast(s, ops, kind);
      LastBegunNext(ops, op, kind);
    }
    forall q | Resident(t.banks, q) ensures SamplesOf(t.banks, q) == Newest(RoundOf(all, q)) {
      DecideRecallsGroup(s, ops, op, q);
    }
  }

  lemma BeginRecalls(s: State, ops: seq<Op>, op: Op)
    requires Recalls(s, ops) && op.BeginOp?
    ensures Recalls(Step(s, op), ops + [op])
  {
    var t, all := Step(s, op), ops + [op];
    var k := KeyOf(op.kind, op.context);
    BeginKeeps(s, op.kind, op.token, op.context);
    BeginTokens(s, op.kind, op.token, op.context);
    forall kind ensures BeganLast(t, all, kind) {
      assert BeganLast(s, ops, kind);
      LastBegunNext(ops, op, kind);
    }
    assert BeganLast(s, ops, op.kind);
    assert op.kind == Preview || op.kind == Target;
    assert Active(s.banks, s.contexts, op.kind);
    forall q | Resident(t.banks, q) ensures SamplesOf(t.banks, q) == Newest(RoundOf(all, q)) {
      BeginSamples(s, op.kind, op.token, op.context, q);
      BeginChangesRounds(ops, op, q);
    }
  }

  lemma StepRecalls(s: State, ops: seq<Op>, op: Op)
    requires Recalls(s, ops) && (op.DecideOp? ==> op.kind in s.contexts)
    ensures Recalls(Step(s, op), ops + [op]) && Step(s, op).contexts.Keys == Begun(s.contexts.Keys, op)
  {
    if op.BeginOp? { BeginRecalls(s, ops, op); } else { DecideRecalls(s, ops, op); }
    StepKeeps(s, op);
  }

  function Fold(step: (State, Op) -> State, s: State, ops: seq<Op>): State
    decreases |ops|
  {
    if ops == [] then s else Fold(step, step(s, ops[0]), ops[1..])
  }

  lemma {:induction false} RunIsFold(step: (State, Op) -> State, s: State, ops: seq<Op>)
    requires forall t, op :: step(t, op) == Step(t, op)
    ensures Run(s, ops) == Fold(step, s, ops)
    decreases |ops|
  {
    if ops != [] { RunIsFold(step, step(s, ops[0]), ops[1..]); }
  }

  /** What every step keeps of the state, the steps so far and the kinds begun, every run keeps. */
  lemma {:induction false} FoldKeeps(step: (State, Op) -> State, keeps: (State, seq<Op>, set<PassKind>) -> bool,
                                     s: State, past: seq<Op>, begun: set<PassKind>, ops: seq<Op>)
    returns (kinds: set<PassKind>)
    requires keeps(s, past, begun) && WellBegun(ops, begun)
    requires forall t: State, before: seq<Op>, b, op: Op {:trigger keeps(step(t, op), before + [op], Begun(b, op))} ::
               keeps(t, before, b) && (op.DecideOp? ==> op.kind in b) ==>
                 keeps(step(t, op), before + [op], Begun(b, op))
    ensures keeps(Fold(step, s, ops), past + ops, kinds)
    decreases |ops|
  {
    if ops == [] {
      kinds := begun;
      assert past + ops == past;
    } else {
      var next, more := step(s, ops[0]), Begun(begun, ops[0]);
      assert keeps(next, past + [ops[0]], more);
      kinds := FoldKeeps(step, keeps, next, past + [ops[0]], more, ops[1..]);
      assert past + [ops[0]] + ops[1..] == past + ops;
    }
  }

  lemma NothingToRecall()
    ensures Recalls(INITIAL, []) && INITIAL.contexts.Keys == {}
  {
  }

  /** After any run that begins each kind before deciding it, the samples of every group held are the newest usable
      observations of its current round, eight at most. */
  lemma EveryGroupHoldsItsRound(ops: seq<Op>, k: LocalKey)
    requires WellBegun(ops, {}) && Resident(Run(INITIAL, ops).banks, k)
    ensures SamplesOf(Run(INITIAL, ops).banks, k) == Newest(RoundOf(ops, k))
  {
    NothingToRecall();
    var step := (s: State, op: Op) => Step(s, op);
    ghost var keeps := (s: State, past: seq<Op>, begun: set<PassKind>) => Recalls(s, past) && s.contexts.Keys == begun;
    forall t: State, before: seq<Op>, b, op: Op {:trigger keeps(step(t, op), before + [op], Begun(b, op))}
      | keeps(t, before, b) && (op.DecideOp? ==> op.kind in b)
      ensures keeps(step(t, op), before + [op], Begun(b, op))
    {
      StepRecalls(t, before, op);
    }
    RunIsFold(step, INITIAL, ops);
    var kinds := FoldKeeps(step, keeps, INITIAL, [], {}, ops);
    assert [] + ops == ops;
  }

  // ---------------------------------------------------------------- who makes room

  /** The first of the keys that is not active has left, or the very first where all are; the rest stay in order. */
  ghost predicate OldestInactiveLeft<K(!new)>(before: seq<K>, active: set<K>, after: seq<K>) {
    exists i :: 0 <= i < |before| && after == before[..i] + before[i + 1..]
                && (forall j :: 0 <= j < i ==> before[j] in active)
                && (before[i] in active ==> i == 0 && forall k :: k in before ==> k in active)
  }

  lemma {:induction false} WithoutIsCut<K>(s: seq<K>, k: K, i: nat)
    requires i < |s| && s[i] == k && k !in s[..i]
    ensures Without(s, k) == s[..i] + s[i + 1..]
  {
    if i > 0 {
      assert s[0] == s[..i][0];
      assert s[1..][..i - 1] == s[..i][1..];
      WithoutIsCut(s[1..], k, i - 1);
    }
  }

  lemma StaleLeaves<K(!new)>(order: seq<K>, active: set<K>)
    requires NoDuplicates(order) && order != []
    ensures OldestInactiveLeft(order, active, Without(order, Stale(order, active)))
  {
    var i := FirstInactive(order, active);
    if i < |order| {
      WithoutIsCut(order, order[i], i);
    } else {
      WithoutIsCut(order, order[0], 0);
      forall k | k in order ensures k in active { var j :| 0 <= j < |order| && order[j] == k; }
    }
  }

  /** Structures stay while there are fewer than eight; then the oldest that no pass kind is working on leaves. */
  lemma StructureMakesRoom(s: State, structure: string)
    requires Bounded(s.banks) && structure !in s.banks.at
    ensures var order, t := s.banks.order, EnterStructure(s, structure).banks.order;
            if |order| < 8 then t == order + [structure]
            else t != [] && t[|t| - 1] == structure
                 && OldestInactiveLeft(order, ActiveStructures(s.contexts), t[..|t| - 1])
  {
    var order := s.banks.order;
    if |order| >= 8 {
      StaleLeaves(order, ActiveStructures(s.contexts));
      var rest := Without(order, Stale(order, ActiveStructures(s.contexts)));
      assert (rest + [structure])[..|rest|] == rest;
    }
  }

  /** So it is with the groups of a structure. */
  lemma GroupMakesRoom(s: State, k: LocalKey)
    requires Bounded(s.banks) && k.structure in s.banks.at && !Resident(s.banks, k)
    ensures k.structure in EnterGroup(s, k).banks.at
    ensures var order, t := s.banks.at[k.structure].order, EnterGroup(s, k).banks.at[k.structure].order;
            if |order| < 8 then t == order + [k.group]
            else t != [] && t[|t| - 1] == k.group
                 && OldestInactiveLeft(order, ActiveGroups(s.contexts, k.structure), t[..|t| - 1])
  {
    var bank := s.banks.at[k.structure];
    var order, active := bank.order, ActiveGroups(s.contexts, k.structure);
    assert BankOk(bank);
    if |order| >= 8 {
      StaleLeaves(order, active);
      var rest := Without(order, Stale(order, active));
      assert (rest + [k.group])[..|rest|] == rest;
    }
  }

  /** A structure or group is active exactly while some pass kind is working on it. */
  lemma ActiveMeans(contexts: map<PassKind, Context>, structure: string, g: Group)
    ensures structure in ActiveStructures(contexts) <==>
              exists kind :: kind in contexts && contexts[kind].structure == structure
    ensures g in ActiveGroups(contexts, structure) <==>
              g.kind in contexts && contexts[g.kind] == Context(structure, g.representation)
  {
  }

  // ---------------------------------------------------------------- what a decision remembers

  /** The fit of a decision is remembered as the group's own if it has a fixed and an item or byte term and the samples
      two different sizes; the last model of its structure and kind is then that fit too, unless the group has a
      reference, which is. */
  lemma DecisionRemembers(s: State, kind: PassKind, observed: Option<Sample>, fit: Fit)
    requires kind in s.contexts
    ensures var k, t := KeyOf(kind, s.contexts[kind]), Decide(s, kind, observed, fit);
            var l := StructureKey(k.structure, kind);
            && Resident(t.banks, k)
            && var samples := SamplesOf(t.banks, k);
               var model := fit(samples, Pool(t.banks, s.models, k.structure, fit)).(home := k.structure);
               var solid := model.fixedMs.Some? && (model.itemMs.Some? || model.byteMsPerMib.Some?)
                            && exists i, j :: 0 <= i < j < |samples| && samples[i].items != samples[j].items;
               && t.models.seeds == s.models.seeds && t.models.references == s.models.references
               && t.models.locals == (if solid then s.models.locals[k := model] else s.models.locals)
               && t.models.lasts == (if k in s.models.references then s.models.lasts[l := s.models.references[k]]
                                     else if solid then s.models.lasts[l := model] else s.models.lasts)
  {
  }

  // ---------------------------------------------------------------- what a new round inherits

  /** Four samples of three shapes, scattered by two milliseconds or a twentieth of the mean at most, the largest cohort
      of eight items or more and four times the smallest; and a fixed term with an item or byte term to go with it. */
  predicate Trustworthy(m: CostModel) {
    && m.fixedMs.Some? && (m.itemMs.Some? || m.byteMsPerMib.Some?) && m.samples >= 4 && m.designPoints >= 3
    && m.residualRmsMs.Some?
    && (m.residualRmsMs.value <= 2.0
        || (m.meanElapsedMs.Some? && 20.0 * m.residualRmsMs.value <= m.meanElapsedMs.value))
    && m.observedItemMax >= 8 && (m.observedItemMin >= 1 ==> m.observedItemMax >= 4 * m.observedItemMin)
  }

  lemma CarriesExactly(m: Models, k: LocalKey)
    ensures var l, n := StructureKey(k.structure, k.group.kind), Carry(m, k);
            && n.lasts == m.lasts && n.locals == m.locals
            && n.seeds == (if l in m.lasts then m.seeds[k := m.lasts[l]] else m.seeds)
            && n.references == (if k in m.locals && Trustworthy(m.locals[k]) then m.references[k := m.locals[k]]
                                else m.references)
  {
  }

  /** Under a new token a group inherits the last model of its structure and pass kind as its seed, and its own last
      model as its reference exactly if that is to be trusted; everything else stays as it was. */
  lemma NewRoundInherits(s: State, kind: PassKind, token: int, c: Context)
    requires Invariant(s) && Resident(s.banks, KeyOf(kind, c)) && !(kind in s.tokens && s.tokens[kind] == (token, c))
    ensures var k, l := KeyOf(kind, c), StructureKey(c.structure, kind);
            var m, n := s.models, Begin(s, kind, token, c).models;
            && n.lasts == m.lasts && n.locals == m.locals
            && n.seeds == (if l in m.lasts then m.seeds[k := m.lasts[l]] else m.seeds)
            && n.references == (if k in m.locals && Trustworthy(m.locals[k]) then m.references[k := m.locals[k]]
                                else m.references)
  {
    var a, k := s.(contexts := s.contexts[kind := c]), KeyOf(kind, c);
    assert EnterStructure(a, c.structure) == a && EnterGroup(a, k) == a;
    CarriesExactly(s.models, k);
  }

  /** Over every run that begins each kind before deciding it, every reference is to be trusted. */
  lemma EveryReferenceIsTrustworthy(ops: seq<Op>, k: LocalKey)
    requires WellBegun(ops, {}) && k in Run(INITIAL, ops).models.references
    ensures Trustworthy(Run(INITIAL, ops).models.references[k])
  {
    EveryRunIsBounded(ops);
    assert Stable(Run(INITIAL, ops).models.references[k]);
  }

  // ---------------------------------------------------------------- what is pooled into a fit

  /** The fit of one group of the structure on its own. */
  predicate IsGroupFit(bank: Bank, from: nat, structure: string, fit: Fit, m: CostModel) {
    exists i :: from <= i < |bank.order| && bank.order[i] in bank.at && |bank.at[bank.order[i]]| >= 2
                && m == fit(bank.at[bank.order[i]], []).(home := structure)
  }

  lemma {:induction false} GroupFitsExactly(bank: Bank, from: nat, structure: string, fit: Fit, m: CostModel)
    ensures m in GroupFits(bank, from, structure, fit) <==> IsGroupFit(bank, from, structure, fit, m)
    decreases |bank.order| - from
  {
    if from < |bank.order| {
      GroupFitsExactly(bank, from + 1, structure, fit, m);
      if i :| from <= i < |bank.order| && bank.order[i] in bank.at && |bank.at[bank.order[i]]| >= 2
              && m == fit(bank.at[bank.order[i]], []).(home := structure)
      {
        assert i > from ==> IsGroupFit(bank, from + 1, structure, fit, m);
      }
    }
  }

  predicate IsLastModel(m: Models, structure: string, kind: PassKind, model: CostModel) {
    StructureKey(structure, kind) in m.lasts && m.lasts[StructureKey(structure, kind)] == model
  }

  /** A fit is given the last models of its structure, and the fit of each of its groups with two samples or more. */
  lemma PooledExactly(banks: Banks, m: Models, structure: string, fit: Fit, model: CostModel)
    ensures model in Pool(banks, m, structure, fit) <==>
              || (exists kind :: IsLastModel(m, structure, kind, model))
              || (structure in banks.at && IsGroupFit(banks.at[structure], 0, structure, fit, model))
  {
    if structure in banks.at { GroupFitsExactly(banks.at[structure], 0, structure, fit, model); }
    forall kind
      ensures model in LastModel(m, StructureKey(structure, kind)) <==> IsLastModel(m, structure, kind, model)
    {}
    if kind :| IsLastModel(m, structure, kind, model) { assert kind == Preview || kind == Target; }
  }
}
