/** The cost knowledge the render-pass governor retains: samples by structure and by group, and the
    models seeded, referenced and remembered from them, all bounded by eviction. */
module RenderPassBank {
  import opened Prelude
  import opened OrderedDict

  datatype PassKind = Preview | Target

  datatype Sample = Sample(items: nat, elapsedMs: real, bytes: nat)

  /** A pass kind at one representation: the owner of one list of samples. */
  datatype Group = Group(kind: PassKind, representation: string)

  datatype Context = Context(structure: string, representation: string)

  datatype LocalKey = LocalKey(structure: string, group: Group)

  datatype StructureKey = StructureKey(structure: string, kind: PassKind)

  /** A fitted cost model.  `home` records the structure whose samples produced it. */
  datatype CostModel = CostModel(
    home: string, fixedMs: Option<real>, itemMs: Option<real>, byteMsPerMib: Option<real>,
    residualRmsMs: Option<real>, meanElapsedMs: Option<real>,
    samples: nat, designPoints: nat, observedItemMin: int, observedItemMax: int)

  type Bank = Dict<Group, seq<Sample>>
  type Banks = Dict<string, Bank>

  datatype Models = Models(
    seeds: map<LocalKey, CostModel>, lasts: map<StructureKey, CostModel>,
    references: map<LocalKey, CostModel>, locals: map<LocalKey, CostModel>)

  datatype State = State(banks: Banks, contexts: map<PassKind, Context>, models: Models,
                         tokens: map<PassKind, (int, Context)>)

  const LIMIT: nat := 8

  predicate Identifiable(m: CostModel) { m.fixedMs.Some? && (m.itemMs.Some? || m.byteMsPerMib.Some?) }

  /** Whether a fit may anchor the next rounds: enough shapes, small residuals, a real cohort span. */
  predicate Stable(m: CostModel) {
    && Identifiable(m) && m.samples >= 4 && m.designPoints >= 3
    && m.residualRmsMs.Some?
    && m.residualRmsMs.value <= RMax(2.0, 0.05 * (if m.meanElapsedMs.Some? then m.meanElapsedMs.value else 0.0))
    && m.observedItemMax >= 8 && m.observedItemMax >= 4 * Max(1, m.observedItemMin)
  }

  function Other(kind: PassKind): PassKind { if kind.Preview? then Target else Preview }

  // ---------------------------------------------------------------- what every run keeps

  predicate Resident(banks: Banks, k: LocalKey) {
    k.structure in banks.at && k.group in banks.at[k.structure].at
  }

  ghost predicate BankOk(bank: Bank) {
    Ordered(bank) && |bank.order| <= LIMIT && forall g :: g in bank.at ==> |bank.at[g]| <= LIMIT
  }

  /** At most eight structures of at most eight groups of at most eight samples. */
  ghost predicate Bounded(banks: Banks) {
    Ordered(banks) && |banks.order| <= LIMIT && forall k :: k in banks.at ==> BankOk(banks.at[k])
  }

  predicate AtHome(banks: Banks, m: map<LocalKey, CostModel>) {
    forall k :: k in m ==> Resident(banks, k) && m[k].home == k.structure
  }

  predicate LastsAtHome(banks: Banks, m: map<StructureKey, CostModel>) {
    forall k :: k in m ==> k.structure in banks.at && m[k].home == k.structure
  }

  predicate AllStable(m: map<LocalKey, CostModel>) { forall k :: k in m ==> Stable(m[k]) }

  /** Models exist only for what is held, and only where their samples came from; only stable fits anchor. */
  predicate ModelsAtHome(banks: Banks, m: Models) {
    && AtHome(banks, m.seeds) && AtHome(banks, m.references) && AtHome(banks, m.locals)
    && LastsAtHome(banks, m.lasts) && AllStable(m.references)
  }

  function KeyOf(kind: PassKind, c: Context): LocalKey { LocalKey(c.structure, Group(kind, c.representation)) }

  /** The group a pass kind is working on is held. */
  predicate Active(banks: Banks, contexts: map<PassKind, Context>, kind: PassKind) {
    kind in contexts ==> Resident(banks, KeyOf(kind, contexts[kind]))
  }

  ghost predicate Invariant(s: State) {
    && Bounded(s.banks) && ModelsAtHome(s.banks, s.models)
    && Active(s.banks, s.contexts, Preview) && Active(s.banks, s.contexts, Target)
  }

  /** Everything held before is still held. */
  ghost predicate Grows(a: Banks, b: Banks) {
    && (forall k :: k in a.at ==> k in b.at)
    && (forall k :: Resident(a, k) ==> Resident(b, k))
  }

  lemma GrowthKeepsModels(a: Banks, b: Banks, m: Models)
    requires Grows(a, b) && ModelsAtHome(a, m)
    ensures ModelsAtHome(b, m)
  {}

  // ---------------------------------------------------------------- operations on the banks

  /** First key that is not active; the first key of all when every one is. */
  function Stale<K(==)>(order: seq<K>, active: set<K>): (k: K)
    requires order != []
    ensures k in order
  {
    var i := FirstInactive(order, active);
    if i < |order| then order[i] else order[0]
  }

  function FirstInactive<K(==)>(order: seq<K>, active: set<K>): (i: nat)
    ensures i <= |order| && (i < |order| ==> order[i] !in active)
    ensures forall j :: 0 <= j < i ==> order[j] in active
  {
    if order == [] || order[0] !in active then 0 else 1 + FirstInactive(order[1..], active)
  }

  function ActiveStructures(contexts: map<PassKind, Context>): set<string> {
    set k | k in contexts :: contexts[k].structure
  }

  function ActiveGroups(contexts: map<PassKind, Context>, structure: string): set<Group> {
    set k | k in contexts && contexts[k].structure == structure :: Group(k, contexts[k].representation)
  }

  function HoldStructure(banks: Banks, structure: string): (r: Banks)
    ensures structure in r.at
  {
    if structure in banks.at then banks else Put(banks, structure, Empty())
  }

  function PutSamples(banks: Banks, k: LocalKey, samples: seq<Sample>): (r: Banks)
    ensures Resident(r, k)
  {
    var b := HoldStructure(banks, k.structure);
    Put(b, k.structure, Put(b.at[k.structure], k.group, samples))
  }

  function DropGroup(banks: Banks, k: LocalKey): Banks {
    if k.structure in banks.at then Put(banks, k.structure, Remove(banks.at[k.structure], k.group)) else banks
  }

  /** With at most one active key resident, the evicted one is never active. */
  lemma StaleIsInactive<K>(order: seq<K>, active: set<K>, resident: K)
    requires NoDuplicates(order) && |order| >= 2 && forall k :: k in active && k in order ==> k == resident
    ensures Stale(order, active) !in active
  {
    assert order[0] != order[1];
    var i := FirstInactive(order, active);
    if i > 1 { assert order[0] in active && order[1] in active; }
  }

  lemma HoldStructureKeeps(banks: Banks, structure: string)
    requires Bounded(banks) && (structure in banks.at || |banks.order| < LIMIT)
    ensures Bounded(HoldStructure(banks, structure)) && Grows(banks, HoldStructure(banks, structure))
  {}

  /** Writing one group's samples changes that group alone. */
  lemma PutSamplesKeeps(banks: Banks, k: LocalKey, samples: seq<Sample>)
    requires Bounded(banks) && k.structure in banks.at && |samples| <= LIMIT
    requires k.group in banks.at[k.structure].at || |banks.at[k.structure].order| < LIMIT
    ensures var r := PutSamples(banks, k, samples);
            && Bounded(r) && Grows(banks, r) && r.at[k.structure].at[k.group] == samples
            && forall q :: q != k && Resident(banks, q) ==>
                 r.at[q.structure].at[q.group] == banks.at[q.structure].at[q.group]
  {}

  lemma DropGroupKeeps(banks: Banks, k: LocalKey)
    requires Bounded(banks) && Resident(banks, k)
    ensures var r := DropGroup(banks, k);
            && Bounded(r) && k.structure in r.at && |r.at[k.structure].order| < LIMIT
            && (forall s :: s in banks.at <==> s in r.at)
            && (forall q :: Resident(r, q) <==> q != k && Resident(banks, q))
  {}

  lemma RemoveStructureKeeps(banks: Banks, gone: string)
    requires Bounded(banks) && gone in banks.at
    ensures var r := Remove(banks, gone);
            && Bounded(r) && |r.order| < LIMIT
            && (forall s :: s in r.at <==> s != gone && s in banks.at)
            && (forall q :: Resident(r, q) <==> q.structure != gone && Resident(banks, q))
  {}

  // ---------------------------------------------------------------- beginning a pass

  /** A structure leaves with every model that belongs to it. */
  function ForgetStructure(m: Models, gone: string): Models {
    Models(map k | k in m.seeds && k.structure != gone :: m.seeds[k],
           map k | k in m.lasts && k.structure != gone :: m.lasts[k],
           map k | k in m.references && k.structure != gone :: m.references[k],
           map k | k in m.locals && k.structure != gone :: m.locals[k])
  }

  /** A group leaves with its seed, reference and local model. */
  function ForgetGroup(m: Models, gone: LocalKey): Models {
    Models(m.seeds - {gone}, m.lasts, m.references - {gone}, m.locals - {gone})
  }

  /** Make room for a structure not yet held, then hold it. */
  function EnterStructure(s: State, structure: string): State {
    if structure in s.banks.at then s
    else if |s.banks.order| >= LIMIT && s.banks.order != [] then
      var gone := Stale(s.banks.order, ActiveStructures(s.contexts));
      s.(banks := HoldStructure(Remove(s.banks, gone), structure), models := ForgetStructure(s.models, gone))
    else s.(banks := HoldStructure(s.banks, structure))
  }

  /** Make room for a group not yet held, then hold it without samples. */
  function EnterGroup(s: State, k: LocalKey): State {
    if Resident(s.banks, k) then s
    else if k.structure in s.banks.at && |s.banks.at[k.structure].order| >= LIMIT
            && s.banks.at[k.structure].order != [] then
      var gone := LocalKey(k.structure,
                           Stale(s.banks.at[k.structure].order, ActiveGroups(s.contexts, k.structure)));
      s.(banks := PutSamples(DropGroup(s.banks, gone), k, []), models := ForgetGroup(s.models, gone))
    else s.(banks := PutSamples(s.banks, k, []))
  }

  /** A stable local model becomes the reference; the structure's last model of this kind the seed. */
  function Carry(m: Models, k: LocalKey): Models {
    var l := StructureKey(k.structure, k.group.kind);
    m.(references := if k in m.locals && Stable(m.locals[k]) then m.references[k := m.locals[k]] else m.references,
       seeds := if l in m.lasts then m.seeds[k := m.lasts[l]] else m.seeds)
  }

  /** A new token starts a round: models are carried over, raw samples are not. */
  function StartRound(s: State, kind: PassKind, token: int, c: Context): State {
    if kind in s.tokens && s.tokens[kind] == (token, c) then s
    else State(PutSamples(s.banks, KeyOf(kind, c), []), s.contexts, Carry(s.models, KeyOf(kind, c)),
               s.tokens[kind := (token, c)])
  }

  function Begin(s: State, kind: PassKind, token: int, c: Context): State {
    var a := EnterStructure(s.(contexts := s.contexts[kind := c]), c.structure);
    StartRound(EnterGroup(a, KeyOf(kind, c)), kind, token, c)
  }

  lemma OtherStructure(contexts: map<PassKind, Context>, kind: PassKind, structure: string) returns (other: string)
    requires kind in contexts && contexts[kind].structure == structure
    ensures forall k :: k in ActiveStructures(contexts) ==> k == structure || k == other
    ensures Other(kind) in contexts ==> contexts[Other(kind)].structure in ActiveStructures(contexts)
  {
    other := if Other(kind) in contexts then contexts[Other(kind)].structure else structure;
    forall k | k in ActiveStructures(contexts) ensures k == structure || k == other {
      var p :| p in contexts && contexts[p].structure == k;
      assert p == kind || p == Other(kind);
    }
  }

  /** Making room never evicts what the other pass kind is using, and the new structure is held. */
  lemma EnterStructureKeeps(s: State, kind: PassKind, structure: string)
    requires Bounded(s.banks) && ModelsAtHome(s.banks, s.models) && Active(s.banks, s.contexts, Other(kind))
    requires kind in s.contexts && s.contexts[kind].structure == structure
    ensures var t := EnterStructure(s, structure);
            && Bounded(t.banks) && ModelsAtHome(t.banks, t.models) && Active(t.banks, t.contexts, Other(kind))
            && structure in t.banks.at && t.contexts == s.contexts
  {
    if structure !in s.banks.at && |s.banks.order| >= LIMIT {
      var other := OtherStructure(s.contexts, kind, structure);
      var gone := Stale(s.banks.order, ActiveStructures(s.contexts));
      StaleIsInactive(s.banks.order, ActiveStructures(s.contexts), other);
      RemoveStructureKeeps(s.banks, gone);
      var banks, models := Remove(s.banks, gone), ForgetStructure(s.models, gone);
      assert ModelsAtHome(banks, models);
      HoldStructureKeeps(banks, structure);
      GrowthKeepsModels(banks, HoldStructure(banks, structure), models);
    } else if structure !in s.banks.at {
      HoldStructureKeeps(s.banks, structure);
      GrowthKeepsModels(s.banks, HoldStructure(s.banks, structure), s.models);
    }
  }

  lemma OtherGroup(contexts: map<PassKind, Context>, kind: PassKind, c: Context) returns (other: Group)
    requires kind in contexts && contexts[kind] == c
    ensures forall g :: g in ActiveGroups(contexts, c.structure) ==> g == Group(kind, c.representation) || g == other
    ensures Other(kind) in contexts && contexts[Other(kind)].structure == c.structure ==>
              Group(Other(kind), contexts[Other(kind)].representation) in ActiveGroups(contexts, c.structure)
  {
    other := if Other(kind) in contexts then Group(Other(kind), contexts[Other(kind)].representation)
             else Group(kind, c.representation);
    forall g | g in ActiveGroups(contexts, c.structure) ensures g == Group(kind, c.representation) || g == other {
      var p :| p in contexts && contexts[p].structure == c.structure && Group(p, contexts[p].representation) == g;
      assert p == kind || p == Other(kind);
    }
  }

  /** Making room for a group spares the other pass kind's group too. */
  lemma EnterGroupKeeps(s: State, kind: PassKind, c: Context)
    requires Bounded(s.banks) && ModelsAtHome(s.banks, s.models) && Active(s.banks, s.contexts, Other(kind))
    requires kind in s.contexts && s.contexts[kind] == c && c.structure in s.banks.at
    ensures Invariant(EnterGroup(s, KeyOf(kind, c))) && EnterGroup(s, KeyOf(kind, c)).contexts == s.contexts
  {
    var k := KeyOf(kind, c);
    var order := s.banks.at[c.structure].order;
    if !Resident(s.banks, k) && |order| >= LIMIT {
      var other := OtherGroup(s.contexts, kind, c);
      StaleIsInactive(order, ActiveGroups(s.contexts, c.structure), other);
      var gone := LocalKey(c.structure, Stale(order, ActiveGroups(s.contexts, c.structure)));
      DropGroupKeeps(s.banks, gone);
      var banks, models := DropGroup(s.banks, gone), ForgetGroup(s.models, gone);
      assert ModelsAtHome(banks, models);
      PutSamplesKeeps(banks, k, []);
      GrowthKeepsModels(banks, PutSamples(banks, k, []), models);
    } else if !Resident(s.banks, k) {
      PutSamplesKeeps(s.banks, k, []);
      GrowthKeepsModels(s.banks, PutSamples(s.banks, k, []), s.models);
    }
  }

  lemma CarryKeeps(banks: Banks, m: Models, k: LocalKey)
    requires ModelsAtHome(banks, m) && Resident(banks, k)
    ensures ModelsAtHome(banks, Carry(m, k))
  {}

  /** Beginning a pass keeps everything, seeding only within the structure begun. */
  lemma BeginKeeps(s: State, kind: PassKind, token: int, c: Context)
    requires Invariant(s)
    ensures Invariant(Begin(s, kind, token, c)) && Begin(s, kind, token, c).contexts == s.contexts[kind := c]
  {
    var a := s.(contexts := s.contexts[kind := c]);
    EnterStructureKeeps(a, kind, c.structure);
    EnterGroupKeeps(EnterStructure(a, c.structure), kind, c);
    var b, k := EnterGroup(EnterStructure(a, c.structure), KeyOf(kind, c)), KeyOf(kind, c);
    assert Resident(b.banks, k);
    PutSamplesKeeps(b.banks, k, []);
    CarryKeeps(b.banks, b.models, k);
    GrowthKeepsModels(b.banks, PutSamples(b.banks, k, []), Carry(b.models, k));
  }

  // ---------------------------------------------------------------- deciding a pass

  /** How samples and the models pooled with them are fitted; the results below hold for every one. */
  type Fit = (seq<Sample>, seq<CostModel>) -> CostModel

  const DEFAULT: Context := Context("default-commit", "default-representation")

  function ContextOf(s: State, kind: PassKind): Context {
    if kind in s.contexts then s.contexts[kind] else DEFAULT
  }

  /** The eight most recent samples. */
  function Recent(samples: seq<Sample>): (r: seq<Sample>)
    ensures |r| <= LIMIT
  {
    if |samples| > LIMIT then samples[|samples| - LIMIT..] else samples
  }

  /** The models whose fixed and byte terms are shared: the structure's last models and group fits. */
  function Pool(banks: Banks, m: Models, structure: string, fit: Fit): seq<CostModel> {
    LastModel(m, StructureKey(structure, Preview)) + LastModel(m, StructureKey(structure, Target))
    + (if structure in banks.at then GroupFits(banks.at[structure], 0, structure, fit) else [])
  }

  function LastModel(m: Models, l: StructureKey): seq<CostModel> { if l in m.lasts then [m.lasts[l]] else [] }

  function GroupFits(bank: Bank, from: nat, structure: string, fit: Fit): seq<CostModel>
    decreases |bank.order| - from
  {
    if from >= |bank.order| then []
    else
      var g := bank.order[from];
      (if g in bank.at && |bank.at[g]| >= 2 then [fit(bank.at[g], []).(home := structure)] else [])
      + GroupFits(bank, from + 1, structure, fit)
  }

  /** Two different cohort sizes have been measured. */
  predicate SpansTwo(samples: seq<Sample>) {
    exists i, j :: 0 <= i < j < |samples| && samples[i].items != samples[j].items
  }

  /** The group's samples after a decision: a usable new observation goes to the end. */
  function Observed(banks: Banks, k: LocalKey, observed: Option<Sample>): seq<Sample> {
    var held := if Resident(banks, k) then banks.at[k.structure].at[k.group] else [];
    if observed.Some? && observed.value.items > 0 then Recent(held + [observed.value]) else held
  }

  /** What the refit of a decision establishes for later rounds. */
  function Remember(m: Models, k: LocalKey, model: CostModel, solid: bool): Models {
    var l := StructureKey(k.structure, k.group.kind);
    m.(lasts := if k in m.references then m.lasts[l := m.references[k]]
                else if solid then m.lasts[l := model] else m.lasts,
       locals := if solid then m.locals[k := model] else m.locals)
  }

  function Decide(s: State, kind: PassKind, observed: Option<Sample>, fit: Fit): State {
    var k := KeyOf(kind, ContextOf(s, kind));
    var samples := Observed(s.banks, k, observed);
    var banks := PutSamples(s.banks, k, samples);
    var model := fit(samples, Pool(banks, s.models, k.structure, fit)).(home := k.structure);
    s.(banks := banks, models := Remember(s.models, k, model, Identifiable(model) && SpansTwo(samples)))
  }

  lemma RememberKeeps(banks: Banks, m: Models, k: LocalKey, model: CostModel, solid: bool)
    requires ModelsAtHome(banks, m) && Resident(banks, k) && model.home == k.structure
    ensures ModelsAtHome(banks, Remember(m, k, model, solid))
  {}

  /** A decision of a begun pass kind keeps everything. */
  lemma DecideKeeps(s: State, kind: PassKind, observed: Option<Sample>, fit: Fit)
    requires Invariant(s) && kind in s.contexts
    ensures Invariant(Decide(s, kind, observed, fit)) && Decide(s, kind, observed, fit).contexts == s.contexts
  {
    var k := KeyOf(kind, s.contexts[kind]);
    var samples := Observed(s.banks, k, observed);
    var banks := PutSamples(s.banks, k, samples);
    PutSamplesKeeps(s.banks, k, samples);
    GrowthKeepsModels(s.banks, banks, s.models);
    var model := fit(samples, Pool(banks, s.models, k.structure, fit)).(home := k.structure);
    RememberKeeps(banks, s.models, k, model, Identifiable(model) && SpansTwo(samples));
  }

  /** Everything pooled into a fit was measured on the fit's own structure. */
  lemma PoolIsLocal(banks: Banks, m: Models, structure: string, fit: Fit)
    requires LastsAtHome(banks, m.lasts)
    ensures forall i :: 0 <= i < |Pool(banks, m, structure, fit)| ==>
              Pool(banks, m, structure, fit)[i].home == structure
  {
    if structure in banks.at { GroupFitsAreLocal(banks.at[structure], 0, structure, fit); }
  }

  lemma {:induction false} GroupFitsAreLocal(bank: Bank, from: nat, structure: string, fit: Fit)
    ensures forall i :: 0 <= i < |GroupFits(bank, from, structure, fit)| ==>
              GroupFits(bank, from, structure, fit)[i].home == structure
    decreases |bank.order| - from
  {
    if from < |bank.order| { GroupFitsAreLocal(bank, from + 1, structure, fit); }
  }

  /** A kind that was never begun falls back to a default context nothing made room for: the bounds
      then survive exactly when that context is already held or there is room for it. */
  lemma DecideWithoutBegin(s: State, kind: PassKind, observed: Option<Sample>, fit: Fit)
    requires Invariant(s) && kind !in s.contexts
    ensures var k := KeyOf(kind, DEFAULT);
            Bounded(Decide(s, kind, observed, fit).banks) <==>
              if k.structure in s.banks.at
              then k.group in s.banks.at[k.structure].at || |s.banks.at[k.structure].order| < LIMIT
              else |s.banks.order| < LIMIT
  {
    var k := KeyOf(kind, DEFAULT);
    var samples := Observed(s.banks, k, observed);
    assert Decide(s, kind, observed, fit).banks == PutSamples(s.banks, k, samples);
    PutSamplesNeedsRoom(s.banks, k, samples);
  }

  lemma PutSamplesNeedsRoom(banks: Banks, k: LocalKey, samples: seq<Sample>)
    requires Bounded(banks) && |samples| <= LIMIT
    ensures Bounded(PutSamples(banks, k, samples)) <==>
              if k.structure in banks.at
              then k.group in banks.at[k.structure].at || |banks.at[k.structure].order| < LIMIT
              else |banks.order| < LIMIT
  {
    if k.structure in banks.at {
      var full := Put(banks.at[k.structure], k.group, samples);
      if |full.order| > LIMIT { assert !BankOk(PutSamples(banks, k, samples).at[k.structure]); }
      else { PutSamplesKeeps(banks, k, samples); }
    } else if |banks.order| < LIMIT {
      HoldStructureKeeps(banks, k.structure);
      PutSamplesKeeps(HoldStructure(banks, k.structure), k, samples);
    }
  }

  // ---------------------------------------------------------------- runs

  datatype Op =
    | BeginOp(kind: PassKind, token: int, context: Context)
    | DecideOp(kind: PassKind, observed: Option<Sample>, fit: Fit)

  function Step(s: State, op: Op): State {
    match op
    case BeginOp(kind, token, context) => Begin(s, kind, token, context)
    case DecideOp(kind, observed, fit) => Decide(s, kind, observed, fit)
  }

  function Run(s: State, ops: seq<Op>): State
    decreases |ops|
  {
    if ops == [] then s else Run(Step(s, ops[0]), ops[1..])
  }

  function Begun(begun: set<PassKind>, op: Op): set<PassKind> { if op.BeginOp? then begun + {op.kind} else begun }

  /** Each pass kind is begun before it is decided. */
  predicate WellBegun(ops: seq<Op>, begun: set<PassKind>)
    decreases |ops|
  {
    ops == [] || ((ops[0].DecideOp? ==> ops[0].kind in begun) && WellBegun(ops[1..], Begun(begun, ops[0])))
  }

  const INITIAL: State := State(Empty(), map[], Models(map[], map[], map[], map[]), map[])

  lemma StepKeeps(s: State, op: Op)
    requires Invariant(s) && (op.DecideOp? ==> op.kind in s.contexts)
    ensures Invariant(Step(s, op)) && Step(s, op).contexts.Keys == Begun(s.contexts.Keys, op)
  {
    match op {
      case BeginOp(kind, token, context) => BeginKeeps(s, kind, token, context);
      case DecideOp(kind, observed, fit) => DecideKeeps(s, kind, observed, fit);
    }
  }

  lemma {:induction false} RunKeeps(s: State, ops: seq<Op>)
    requires Invariant(s) && WellBegun(ops, s.contexts.Keys)
    ensures Invariant(Run(s, ops))
    decreases |ops|
  {
    if ops != [] {
      StepKeeps(s, ops[0]);
      RunKeeps(Step(s, ops[0]), ops[1..]);
    }
  }

  /** After any run that begins each kind before deciding it: at most eight structures, groups and
      samples; both active contexts resident; models only for what is held and only from their own
      structure; references only from stable fits. */
  lemma EveryRunIsBounded(ops: seq<Op>)
    requires WellBegun(ops, {})
    ensures Invariant(Run(INITIAL, ops))
  {
    assert INITIAL.contexts.Keys == {};
    RunKeeps(INITIAL, ops);
  }

  // ---------------------------------------------------------------- a run that exceeds the bounds

  /** Target passes begun, one structure after another. */
  function Beginnings(structures: seq<string>): (ops: seq<Op>)
    ensures |ops| == |structures|
  {
    if structures == [] then [] else [BeginOp(Target, 0, Context(structures[0], "shown"))] + Beginnings(structures[1..])
  }

  /** Exactly these structures are held, and no preview was begun. */
  ghost predicate Holding(s: State, held: set<string>, count: nat) {
    && Invariant(s) && Preview !in s.contexts && |s.banks.order| == count
    && forall x :: x in s.banks.at <==> x in held
  }

  /** Beginning a structure not yet held, while there is room, holds it as well. */
  lemma BeginHolds(s: State, structure: string, held: set<string>, count: nat)
    requires Holding(s, held, count) && structure !in held && count < LIMIT
    ensures Holding(Step(s, BeginOp(Target, 0, Context(structure, "shown"))), held + {structure}, count + 1)
  {
    BeginKeeps(s, Target, 0, Context(structure, "shown"));
  }

  lemma RunsOn(s: State, op: Op, ops: seq<Op>)
    ensures Run(s, [op] + ops) == Run(Step(s, op), ops)
  {
    assert ([op] + ops)[1..] == ops;
  }

  function Members(structures: seq<string>): set<string> { set x | x in structures }

  lemma MembersOfTail(structures: seq<string>, held: set<string>)
    requires structures != [] && NoDuplicates(structures) && held !! Members(structures)
    ensures held + {structures[0]} !! Members(structures[1..])
    ensures held + {structures[0]} + Members(structures[1..]) == held + Members(structures)
  {
    assert structures == [structures[0]] + structures[1..];
    assert forall x :: x in structures[1..] ==> x in structures && x != structures[0];
  }

  /** The first of several beginnings, and the run that is left. */
  lemma BeginFirst(s: State, structures: seq<string>, held: set<string>, count: nat) returns (t: State)
    requires structures != [] && Holding(s, held, count) && structures[0] !in held && count < LIMIT
    ensures Holding(t, held + {structures[0]}, count + 1)
    ensures Run(s, Beginnings(structures)) == Run(t, Beginnings(structures[1..]))
  {
    var op := BeginOp(Target, 0, Context(structures[0], "shown"));
    t := Step(s, op);
    BeginHolds(s, structures[0], held, count);
    RunsOn(s, op, Beginnings(structures[1..]));
  }

  lemma {:induction false} BeginningsHold(s: State, structures: seq<string>, held: set<string>, count: nat)
    requires Holding(s, held, count) && count + |structures| <= LIMIT
    requires NoDuplicates(structures) && held !! Members(structures)
    ensures Holding(Run(s, Beginnings(structures)), held + Members(structures), count + |structures|)
    decreases |structures|
  {
    if structures == [] {
      assert held + Members(structures) == held;
    } else {
      MembersOfTail(structures, held);
      var t := BeginFirst(s, structures, held, count);
      BeginningsHold(t, structures[1..], held + {structures[0]}, count + 1);
    }
  }

  /** A run that exceeds the bounds: eight structures begun as targets, then a preview decided that was
      never begun. */
  lemma EightTargetsThenPreview(structures: seq<string>, observed: Option<Sample>, fit: Fit)
    requires |structures| == LIMIT && NoDuplicates(structures) && DEFAULT.structure !in structures
    ensures var s := Run(INITIAL, Beginnings(structures));
            Bounded(s.banks) && !Bounded(Step(s, DecideOp(Preview, observed, fit)).banks)
  {
    BeginningsHold(INITIAL, structures, {}, 0);
    DecideWithoutBegin(Run(INITIAL, Beginnings(structures)), Preview, observed, fit);
  }

  // ---------------------------------------------------------------- the governor's own state

  /** The render-pass part of the governor, updating its dictionaries in place. */
  class Governor {
    var banks: Banks
    var contexts: map<PassKind, Context>
    var seeds: map<LocalKey, CostModel>
    var lasts: map<StructureKey, CostModel>
    var references: map<LocalKey, CostModel>
    var locals: map<LocalKey, CostModel>
    var tokens: map<PassKind, (int, Context)>

    function Value(): State
      reads this
    {
      State(banks, contexts, Models(seeds, lasts, references, locals), tokens)
    }

    constructor ()
      ensures Value() == INITIAL && Invariant(Value())
    {
      banks, contexts, tokens := Empty(), map[], map[];
      seeds, lasts, references, locals := map[], map[], map[], map[];
    }

    method BeginRenderPass(kind: PassKind, token: int, structure: string, representation: string)
      requires Invariant(Value())
      modifies this
      ensures Value() == Begin(old(Value()), kind, token, Context(structure, representation))
      ensures Invariant(Value())
    {
      BeginKeeps(Value(), kind, token, Context(structure, representation));
      contexts := contexts[kind := Context(structure, representation)];
      EnterStructureInPlace(structure);
      EnterGroupInPlace(LocalKey(structure, Group(kind, representation)));
      StartRoundInPlace(kind, token, Context(structure, representation));
    }

    /** First half of the admission: make room for the structure, then hold it. */
    method EnterStructureInPlace(structure: string)
      modifies this
      ensures Value() == EnterStructure(old(Value()), structure)
    {
      if structure in banks.at { return; }
      if |banks.order| >= LIMIT && banks.order != [] {
        var gone := Stale(banks.order, ActiveStructures(contexts));
        banks := Remove(banks, gone);
        seeds := map k | k in seeds && k.structure != gone :: seeds[k];
        lasts := map k | k in lasts && k.structure != gone :: lasts[k];
        references := map k | k in references && k.structure != gone :: references[k];
        locals := map k | k in locals && k.structure != gone :: locals[k];
      }
      banks := HoldStructure(banks, structure);
    }

    /** A round under a new token. */
    method StartRoundInPlace(kind: PassKind, token: int, context: Context)
      modifies this
      ensures Value() == StartRound(old(Value()), kind, token, context)
    {
      if kind in tokens && tokens[kind] == (token, context) { return; }
      var k, l := KeyOf(kind, context), StructureKey(context.structure, kind);
      if k in locals && Stable(locals[k]) { references := references[k := locals[k]]; }
      if l in lasts { seeds := seeds[k := lasts[l]]; }
      banks := PutSamples(banks, k, []);
      tokens := tokens[kind := (token, context)];
    }

    /** Second half of the admission: make room for the group, then hold it. */
    method EnterGroupInPlace(k: LocalKey)
      modifies this
      ensures Value() == EnterGroup(old(Value()), k)
    {
      if Resident(banks, k) { return; }
      if k.structure in banks.at && |banks.at[k.structure].order| >= LIMIT && banks.at[k.structure].order != [] {
        var gone := LocalKey(k.structure, Stale(banks.at[k.structure].order, ActiveGroups(contexts, k.structure)));
        banks := DropGroup(banks, gone);
        seeds, references, locals := seeds - {gone}, references - {gone}, locals - {gone};
      }
      banks := PutSamples(banks, k, []);
    }

    method DecideRenderPass(kind: PassKind, observed: Option<Sample>, fit: Fit)
      modifies this
      ensures Value() == Decide(old(Value()), kind, observed, fit)
      ensures old(Invariant(Value()) && kind in contexts) ==> Invariant(Value())
    {
      if Invariant(Value()) && kind in contexts { DecideKeeps(Value(), kind, observed, fit); }
      var k := KeyOf(kind, if kind in contexts then contexts[kind] else DEFAULT);
      var samples := Observed(banks, k, observed);
      banks := PutSamples(banks, k, samples);
      var pool := Pool(banks, Models(seeds, lasts, references, locals), k.structure, fit);
      var model := fit(samples, pool).(home := k.structure);
      RememberInPlace(k, model, Identifiable(model) && SpansTwo(samples));
    }

    /** What the refit establishes for later rounds. */
    method RememberInPlace(k: LocalKey, model: CostModel, solid: bool)
      modifies this
      ensures Value() == old(Value()).(models := Remember(old(Value()).models, k, model, solid))
    {
      var l := StructureKey(k.structure, k.group.kind);
      if k in references {
        lasts := lasts[l := references[k]];
      } else if solid {
        lasts := lasts[l := model];
      }
      if solid { locals := locals[k := model]; }
    }
  }
}
