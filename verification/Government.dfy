/** The repository of government actions and its lifecycle transitions. */
module Government {
  import opened Prelude
  import opened Lifecycle

  datatype Action = Action(
    status: Status,
    firstObservedAt: Time,
    supersedes: Option<string>,
    version: int,
    evidence: seq<string>,
    entities: set<string>,
    mechanisms: set<string>
  )

  /**
   What other components have recorded: evidence and entities with their observation times, and the mechanism
   registry.
   */
  datatype World = World(evidence: map<string, Time>, entities: map<string, Time>, mechanisms: set<string>)

  /** The action table and, per action, its transitions in the order they were recorded. */
  datatype Book = Book(actions: map<string, Action>, logs: map<string, seq<Transition>>)

  function Log(b: Book, id: string): seq<Transition> {
    if id in b.logs then b.logs[id] else []
  }

  /** What the constructor of an action checks; the entities are the issuing body and those affected. */
  predicate WellFormed(a: Action) {
    && a.evidence != [] && a.version >= 1 && (a.version > 1 ==> a.supersedes.Some?)
    && a.entities != {}
  }

  predicate HasEvidence(w: World, ids: seq<string>, at: Time) {
    forall id :: id in ids ==> id in w.evidence && w.evidence[id] <= at
  }

  predicate Blank(text: string) {
    forall c :: c in text ==> Space(c)
  }

  function AppendTransition(b: Book, id: string, t: Transition): Book {
    b.(logs := b.logs[id := Log(b, id) + [t]])
  }

  function WithTransition(b: Book, w: World, id: string, from: Option<Status>, to: Status, at: Time,
                          evidence: seq<string>, rationale: string)
    : Result<Book, Violation>
  {
    if id !in b.actions then Err(IntegrityViolation)
    else if CurrentStatus(Log(b, id), at) != from then Err(IntegrityViolation)
    else if to !in Next(from) then Err(ValidationError)
    else if !HasEvidence(w, evidence, at) then Err(IntegrityViolation)
    else if evidence == [] || Blank(rationale) then Err(ValidationError)
    else Ok(AppendTransition(b, id, Transition(from, to, at, evidence, rationale, |Log(b, id)|)))
  }

  const INITIAL_RATIONALE := "Initial government action observation"

  /** The records that a new action refers to are stored as of its first observation. */
  predicate RefersToRecords(b: Book, w: World, a: Action) {
    && HasEvidence(w, a.evidence, a.firstObservedAt)
    && (a.supersedes.Some? ==>
          a.supersedes.value in b.actions && a.version == b.actions[a.supersedes.value].version + 1)
    && (forall e :: e in a.entities ==> e in w.entities && w.entities[e] <= a.firstObservedAt)
  }

  /** All references of a new action resolve, its mechanisms in the registry. */
  predicate Resolves(b: Book, w: World, a: Action) {
    RefersToRecords(b, w, a) && a.mechanisms <= w.mechanisms
  }

  /** Adding an action records its first transition; the row stays pending even when that transition is refused. */
  function WithAction(b: Book, w: World, id: string, a: Action): (Book, Result<bool, Violation>) {
    if id in b.actions then (b, if b.actions[id] == a then Ok(false) else Err(IntegrityViolation))
    else if !RefersToRecords(b, w, a) then (b, Err(IntegrityViolation))
    else if !(a.mechanisms <= w.mechanisms) then (b, Err(ValidationError))
    else
      var stored := b.(actions := b.actions[id := a]);
      match WithTransition(stored, w, id, None, a.status, a.firstObservedAt, a.evidence, INITIAL_RATIONALE)
      case Ok(done) => (done, Ok(true))
      case Err(e) => (stored, Err(e))
  }

  datatype Op =
    | OpAction(id: string, action: Action)
    | OpTransition(id: string, from: Option<Status>, to: Status, at: Time, evidence: seq<string>, rationale: string)
  {
    function At(): Time {
      match this
      case OpAction(_, a) => a.firstObservedAt
      case OpTransition(_, _, _, at, _, _) => at
    }
  }

  function Apply(b: Book, w: World, op: Op): Book {
    match op
    case OpAction(id, a) => WithAction(b, w, id, a).0
    case OpTransition(id, from, to, at, evidence, rationale) =>
      var r := WithTransition(b, w, id, from, to, at, evidence, rationale);
      if r.Ok? then r.value else b
  }

  /** A series of operations, each with what the rest of the system had recorded by then. */
  function Run(b: Book, ops: seq<(Op, World)>): Book {
    if ops == [] then b
    else Apply(Run(b, ops[..|ops| - 1]), ops[|ops| - 1].1, ops[|ops| - 1].0)
  }

  const NO_ACTIONS := Book(map[], map[])

  // ---------------------------------------------------------------------------------------------
  // What every run keeps
  // ---------------------------------------------------------------------------------------------

  ghost predicate Legal(t: Transition) {
    t.to in Next(t.from) && t.evidence != [] && !Blank(t.rationale)
  }

  ghost predicate Kept(b: Book, id: string) {
    && Numbered(Log(b, id)) && (Log(b, id) != [] ==> id in b.actions)
    && forall t :: t in Log(b, id) ==> Legal(t)
  }

  ghost predicate Sound(b: Book) {
    forall id :: Kept(b, id)
  }

  /** All of the evidence is known, and was observed by the given date. */
  ghost predicate KnownBy(w: World, evidence: seq<string>, at: Time) {
    forall e :: e in evidence ==> e in w.evidence && w.evidence[e] <= at
  }

  /** Some character is not a space. */
  ghost predicate Readable(text: string) {
    exists c :: c in text && !Space(c)
  }

  /** A text of blanks, tabs and line breaks is not readable; one with a printable character is. */
  lemma ReadableTexts(text: string)
    ensures (forall c :: c in text ==> c in [' ', '\t', '\n', '\r']) ==> !Readable(text)
    ensures (exists c :: c in text && '!' <= c <= '~') ==> Readable(text)
  {
  }

  /** A request is accepted just when action, status, arrow, evidence and rationale are in order, and why it is not. */
  lemma TransitionIff(b: Book, w: World, id: string, from: Option<Status>, to: Status, at: Time,
                      evidence: seq<string>, rationale: string)
    ensures var r := WithTransition(b, w, id, from, to, at, evidence, rationale);
            var due := id in b.actions && CurrentStatus(Log(b, id), at) == from;
            && (r.Ok? <==> due && to in Next(from) && KnownBy(w, evidence, at) && evidence != [] && Readable(rationale))
            && (r == Err(ValidationError) <==>
                due && (to !in Next(from) || (KnownBy(w, evidence, at) && (evidence == [] || !Readable(rationale)))))
            && (r.Err? ==> r.error == ValidationError || r.error == IntegrityViolation)
            && (r.Ok? ==>
                  && r.value.actions == b.actions && r.value.logs.Keys == b.logs.Keys + {id}
                  && Log(r.value, id) == Log(b, id) + [Transition(from, to, at, evidence, rationale, |Log(b, id)|)]
                  && forall other :: other != id ==> Log(r.value, other) == Log(b, other))
  {
    assert HasEvidence(w, evidence, at) <==> KnownBy(w, evidence, at);
    assert Blank(rationale) <==> !Readable(rationale);
    hide CurrentStatus, Next, HasEvidence, KnownBy, Blank, Readable;
  }

  /** The transition is the one that the operation asks for; its evidence was known and not later than itself. */
  ghost predicate RecordedBy(op: Op, w: World, id: string, t: Transition) {
    && id == op.id && t.at == op.At() && t.evidence != [] && KnownBy(w, t.evidence, t.at) && Readable(t.rationale)
    && match op
       case OpAction(_, a) => t.from == None && t.to == a.status && t.evidence == a.evidence
       case OpTransition(_, from, to, _, evidence, rationale) =>
         t.from == from && t.to == to && t.evidence == evidence && t.rationale == rationale
  }

  /** What an operation asks for, if it comes to that. */
  function Request(op: Op, sequence: int): Transition {
    match op
    case OpAction(_, a) => Transition(None, a.status, a.firstObservedAt, a.evidence, INITIAL_RATIONALE, sequence)
    case OpTransition(_, from, to, at, evidence, rationale) => Transition(from, to, at, evidence, rationale, sequence)
  }

  /** An operation leaves the logs alone or has its request recorded. */
  lemma StepRecordsRequest(b: Book, w: World, op: Op)
    ensures var after, t := Apply(b, w, op), Request(op, |Log(b, op.id)|);
            || (after.logs == b.logs && b.actions.Keys <= after.actions.Keys)
            || (exists stored: Book ::
                  && stored.logs == b.logs && b.actions.Keys <= stored.actions.Keys
                  && WithTransition(stored, w, op.id, t.from, t.to, t.at, t.evidence, t.rationale) == Ok(after))
  {
    hide WithTransition, RefersToRecords;
    if op.OpAction? {
      var stored := b.(actions := b.actions[op.id := op.action]);
      assert stored.logs == b.logs;
    } else {
      assert b.logs == b.logs;
    }
  }

  lemma RequestIsRecordedBy(b: Book, w: World, op: Op, t: Transition)
    requires t == Request(op, |Log(b, op.id)|) && CurrentStatus(Log(b, op.id), t.at) == t.from && t.to in Next(t.from)
    requires KnownBy(w, t.evidence, t.at) && t.evidence != [] && Readable(t.rationale)
    ensures RecordedBy(op, w, op.id, t) && Legal(t) && Admissible(Log(b, op.id), t) && t.at == op.At()
  {
    assert !Blank(t.rationale);
    hide CurrentStatus, Next, KnownBy, Blank, Readable;
  }

  /** An operation records at most one transition, of the action it names, and that one was admissible. */
  lemma OneStep(b: Book, w: World, op: Op, id: string) returns (t: Transition)
    requires Sound(b)
    ensures Log(Apply(b, w, op), id) == Log(b, id) || Log(Apply(b, w, op), id) == Log(b, id) + [t]
    ensures Log(Apply(b, w, op), id) != Log(b, id) ==>
      id == op.id && id in Apply(b, w, op).actions && t.at == op.At() && Legal(t) && Admissible(Log(b, id), t)
    ensures Log(Apply(b, w, op), id) != Log(b, id) ==> RecordedBy(op, w, id, t)
    ensures b.actions.Keys <= Apply(b, w, op).actions.Keys
  {
    var after := Apply(b, w, op);
    t := Request(op, |Log(b, op.id)|);
    StepRecordsRequest(b, w, op);
    hide Apply, WithTransition, RecordedBy, Legal, Admissible, CurrentStatus, Next, KnownBy, Readable, Request;
    if after.logs != b.logs || !(b.actions.Keys <= after.actions.Keys) {
      var stored: Book :| && stored.logs == b.logs && b.actions.Keys <= stored.actions.Keys
                    && WithTransition(stored, w, op.id, t.from, t.to, t.at, t.evidence, t.rationale) == Ok(after);
      TransitionIff(stored, w, op.id, t.from, t.to, t.at, t.evidence, t.rationale);
      RequestIsRecordedBy(b, w, op, t);
      RequestIsItself(op, |Log(b, op.id)|);
    }
  }

  lemma RequestIsItself(op: Op, n: int)
    ensures var t := Request(op, n); t == Transition(t.from, t.to, t.at, t.evidence, t.rationale, n)
  {
  }

  lemma StepKeepsSound(b: Book, w: World, op: Op)
    requires Sound(b)
    ensures Sound(Apply(b, w, op))
  {
    var after := Apply(b, w, op);
    forall id ensures Kept(after, id) {
      assert Kept(b, id);
      var t := OneStep(b, w, op, id);
      hide Apply, Legal;
    }
  }

  /** Some operation, given what was known by then, asked for the transition. */
  ghost predicate Asked(ops: seq<(Op, World)>, id: string, t: Transition) {
    exists i :: 0 <= i < |ops| && RecordedBy(ops[i].0, ops[i].1, id, t)
  }

  lemma StaysAsked(ops: seq<(Op, World)>, n: nat, id: string, t: Transition)
    requires n <= |ops| && Asked(ops[..n], id, t)
    ensures Asked(ops, id, t)
  {
    hide RecordedBy;
    var i :| 0 <= i < n && RecordedBy(ops[..n][i].0, ops[..n][i].1, id, t);
    assert ops[..n][i] == ops[i];
  }

  /**
   Back-dated or not, sequences stay gap-free and every recorded transition legal; each of them, a first one
   included, was asked for and cites only evidence that was known then and observed by the date of the transition.
   */
  lemma {:induction false} RunsKeepSound(ops: seq<(Op, World)>)
    ensures Sound(Run(NO_ACTIONS, ops))
    ensures forall id, t :: t in Log(Run(NO_ACTIONS, ops), id) ==> Asked(ops, id, t)
  {
    if ops == [] {
      assert forall id :: Log(NO_ACTIONS, id) == [];
    } else {
      var n := |ops| - 1;
      var before := Run(NO_ACTIONS, ops[..n]);
      RunsKeepSound(ops[..n]);
      StepKeepsSound(before, ops[n].1, ops[n].0);
      assert Run(NO_ACTIONS, ops) == Apply(before, ops[n].1, ops[n].0);
      hide Sound, Apply, Run, RecordedBy;
      forall id, t | t in Log(Run(NO_ACTIONS, ops), id) ensures Asked(ops, id, t) {
        hide Log;
        var added := OneStep(before, ops[n].1, ops[n].0, id);
        if t in Log(before, id) {
          StaysAsked(ops, n, id, t);
        } else {
          assert RecordedBy(ops[n].0, ops[n].1, id, t);
        }
      }
    }
  }

  // ---------------------------------------------------------------------------------------------
  // Runs without back-dating
  // ---------------------------------------------------------------------------------------------

  /** The operation records nothing, or is dated no earlier than anything already recorded for its action. */
  predicate Timely(b: Book, w: World, op: Op) {
    Log(Apply(b, w, op), op.id) == Log(b, op.id) || forall t :: t in Log(b, op.id) ==> t.at <= op.At()
  }

  predicate TimelyRun(ops: seq<(Op, World)>) {
    forall i :: 0 <= i < |ops| ==> Timely(Run(NO_ACTIONS, ops[..i]), ops[i].1, ops[i].0)
  }

  lemma TimelyPrefix(ops: seq<(Op, World)>, n: nat)
    requires TimelyRun(ops) && n <= |ops|
    ensures TimelyRun(ops[..n])
  {
    hide Timely, Run;
    forall i | 0 <= i < n ensures Timely(Run(NO_ACTIONS, ops[..n][..i]), ops[..n][i].1, ops[..n][i].0) {
      assert ops[..n][..i] == ops[..i];
    }
  }

  /**
   Lifecycle runs: when no operation is back-dated, every action's transitions, in the order they were
   recorded, are in chronological order and form a chain of the lifecycle graph.
   */
  lemma {:induction false} TimelyRunsAreChains(ops: seq<(Op, World)>, id: string)
    requires TimelyRun(ops)
    ensures var log := Log(Run(NO_ACTIONS, ops), id);
            Numbered(log) && Ascending(log) && Chain(log) && History(log) == log
  {
    if ops == [] {
      assert Log(NO_ACTIONS, id) == [];
    } else {
      var n := |ops| - 1;
      TimelyPrefix(ops, n);
      TimelyRunsAreChains(ops[..n], id);
      RunsKeepSound(ops[..n]);
      assert Timely(Run(NO_ACTIONS, ops[..n]), ops[n].1, ops[n].0);
      TimelyStep(Run(NO_ACTIONS, ops[..n]), ops[n].1, ops[n].0, id);
    }
  }

  lemma TimelyStep(b: Book, w: World, op: Op, id: string)
    requires Sound(b) && Timely(b, w, op) && Ascending(Log(b, id)) && Chain(Log(b, id))
    ensures var log := Log(Apply(b, w, op), id);
            Numbered(log) && Ascending(log) && Chain(log) && History(log) == log
  {
    assert Kept(b, id);
    var log := Log(b, id);
    AscendingLogIsHistory(log);
    var t := OneStep(b, w, op, id);
    assert id == op.id && Log(Apply(b, w, op), id) != log ==> forall u :: u in log ==> u.at <= op.At();
    hide *;
    if Log(Apply(b, w, op), id) != log {
      TimelyAppend(log, t);
    }
  }

  lemma TimelyAppend(log: seq<Transition>, t: Transition)
    requires Numbered(log) && Ascending(log) && Chain(log) && Admissible(log, t)
    requires forall u :: u in log ==> u.at <= t.at
    ensures Numbered(log + [t]) && Ascending(log + [t]) && Chain(log + [t]) && History(log + [t]) == log + [t]
  {
    hide History, Chain, CurrentStatus, Next;
    AscendingLogIsHistory(log);
    ChainKeptIffNotBackDated(log, t);
    AscendingLogIsHistory(log + [t]);
  }

  /**
   In such a run the status at a cutoff is the end of the prefix recorded up to it, and the graph's landmarks hold.
   */
  lemma TimelyStatus(ops: seq<(Op, World)>, id: string, cutoff: Time)
    requires TimelyRun(ops)
    ensures var log := Log(Run(NO_ACTIONS, ops), id);
            CurrentStatus(log, cutoff) == StatusBefore(log, Position(log, cutoff))
  {
    TimelyRunsAreChains(ops, id);
    StatusIsEndOfPrefix(Log(Run(NO_ACTIONS, ops), id), cutoff);
  }

  /**
   The landmarks of a status: enforced or expired actions were effective earlier, repealed or expired ones stay so.
   */
  ghost predicate Landmarks(log: seq<Transition>, status: Option<Status>, cutoff: Time) {
    && (status == Some(Enforced) || status == Some(Expired) ==>
          exists t :: t in log && t.at <= cutoff && t.to == Effective)
    && (status == Some(Repealed) || status == Some(Expired) ==> forall t :: t in log ==> t.at <= cutoff)
  }

  /** The landmarks hold of the status at every cutoff of a run without back-dating. */
  lemma TimelyLandmarks(ops: seq<(Op, World)>, id: string, cutoff: Time)
    requires TimelyRun(ops)
    ensures var log := Log(Run(NO_ACTIONS, ops), id);
            Landmarks(log, CurrentStatus(log, cutoff), cutoff)
  {
    TimelyRunsAreChains(ops, id);
    TimelyStatus(ops, id, cutoff);
    hide *;
    ChainLandmarks(Log(Run(NO_ACTIONS, ops), id), cutoff);
  }

  lemma ChainLandmarks(log: seq<Transition>, cutoff: Time)
    requires Chain(log)
    ensures Landmarks(log, StatusBefore(log, Position(log, cutoff)), cutoff)
  {
    var k := Position(log, cutoff);
    hide Chain, Position;
    if k > 0 {
      if log[k - 1].to == Enforced || log[k - 1].to == Expired {
        var j := EffectiveComesFirst(log, k - 1);
        assert log[j] in log;
      }
      if log[k - 1].to == Repealed || log[k - 1].to == Expired {
        TerminalStatusesAreLast(log, k - 1);
      }
    }
  }

  // ---------------------------------------------------------------------------------------------
  // Back-dating
  // ---------------------------------------------------------------------------------------------

  /** After the first n operations the history of the action is a chain. */
  ghost predicate ChainedAfter(ops: seq<(Op, World)>, n: nat, id: string)
    requires n <= |ops|
  {
    Chain(History(Log(Run(NO_ACTIONS, ops[..n]), id)))
  }

  lemma LateStepBreaks(b: Book, w: World, op: Op)
    requires Sound(b) && !Timely(b, w, op) && Chain(History(Log(b, op.id)))
    ensures !Chain(History(Log(Apply(b, w, op), op.id)))
  {
    assert Kept(b, op.id);
    var log := Log(b, op.id);
    var t := OneStep(b, w, op, op.id);
    assert Numbered(log) && Admissible(log, t) && t.at == op.At();
    hide History, Chain, Apply, CurrentStatus, Next;
    ChainKeptIffNotBackDated(log, t);
  }

  /** A back-dated record breaks a chain. */
  lemma LateRunBreaks(ops: seq<(Op, World)>, i: nat)
    requires i < |ops| && !Timely(Run(NO_ACTIONS, ops[..i]), ops[i].1, ops[i].0)
    ensures !ChainedAfter(ops, i, ops[i].0.id) || !ChainedAfter(ops, i + 1, ops[i].0.id)
  {
    RunsKeepSound(ops[..i]);
    assert ops[..i + 1][..i] == ops[..i];
    assert Run(NO_ACTIONS, ops[..i + 1]) == Apply(Run(NO_ACTIONS, ops[..i]), ops[i].1, ops[i].0);
    hide Apply, Chain, History, Sound, Timely, Run;
    if ChainedAfter(ops, i, ops[i].0.id) {
      LateStepBreaks(Run(NO_ACTIONS, ops[..i]), ops[i].1, ops[i].0);
    }
  }

  /** Histories are chains at every point of a run if and only if no operation of it records a back-dated transition. */
  lemma ChainsIffTimely(ops: seq<(Op, World)>)
    ensures TimelyRun(ops) <==> forall n: nat, id :: n <= |ops| ==> ChainedAfter(ops, n, id)
  {
    hide Chain, History, Timely, Run, Log;
    if TimelyRun(ops) {
      forall n: nat, id | n <= |ops| ensures ChainedAfter(ops, n, id) {
        TimelyPrefix(ops, n);
        TimelyRunsAreChains(ops[..n], id);
      }
    } else {
      var i :| 0 <= i < |ops| && !Timely(Run(NO_ACTIONS, ops[..i]), ops[i].1, ops[i].0);
      LateRunBreaks(ops, i);
    }
  }

  /**
   A new action whose references resolve is accepted just when its status may come first. Otherwise the
   call raises but the row is already pending, with no status at any time, and adding it again succeeds.
   */
  lemma FirstStatusDecides(b: Book, w: World, id: string, a: Action, cutoff: Time)
    requires Sound(b) && id !in b.actions && WellFormed(a) && Resolves(b, w, a)
    ensures var (after, r) := WithAction(b, w, id, a);
            && id in after.actions && (r.Ok? <==> a.status in Next(None))
            && (r.Err? ==> && CurrentStatus(Log(after, id), cutoff) == None
                           && WithAction(after, w, id, a) == (after, Ok(false)))
  {
    assert Kept(b, id);
    FirstTransition(b.(actions := b.actions[id := a]), w, id, a);
    hide WithTransition, RefersToRecords, Next;
  }

  lemma FirstTransition(b: Book, w: World, id: string, a: Action)
    requires id in b.actions && Log(b, id) == [] && a.evidence != [] && HasEvidence(w, a.evidence, a.firstObservedAt)
    ensures WithTransition(b, w, id, None, a.status, a.firstObservedAt, a.evidence, INITIAL_RATIONALE)
            == if a.status in Next(None)
               then Ok(AppendTransition(b, id, Transition(None, a.status, a.firstObservedAt, a.evidence,
                                                          INITIAL_RATIONALE, 0)))
               else Err(ValidationError)
  {
    assert INITIAL_RATIONALE[0] == 'I' && INITIAL_RATIONALE[0] in INITIAL_RATIONALE && !Blank(INITIAL_RATIONALE);
    hide Next, HasEvidence, Blank;
  }

  /** What a new action refers to, as of its first observation. */
  ghost predicate References(b: Book, w: World, a: Action) {
    && KnownBy(w, a.evidence, a.firstObservedAt)
    && (forall e :: e in a.entities ==> e in w.entities && w.entities[e] <= a.firstObservedAt)
    && (a.supersedes.Some? ==>
          a.supersedes.value in b.actions && a.version == b.actions[a.supersedes.value].version + 1)
  }

  /** The answer to adding an action, and the rows that are there afterwards. */
  lemma ActionIff(b: Book, w: World, id: string, a: Action)
    requires Sound(b) && WellFormed(a)
    ensures var (after, r) := WithAction(b, w, id, a);
            && (r == Ok(false) <==> id in b.actions && b.actions[id] == a)
            && (r == Ok(true) <==>
                id !in b.actions && References(b, w, a) && a.mechanisms <= w.mechanisms && a.status in Next(None))
            && (r == Err(ValidationError) <==>
                id !in b.actions && References(b, w, a) && !(a.mechanisms <= w.mechanisms && a.status in Next(None)))
            && (r.Err? ==> r.error == ValidationError || r.error == IntegrityViolation)
            && after.actions == (if id !in b.actions && References(b, w, a) && a.mechanisms <= w.mechanisms
                                 then b.actions[id := a] else b.actions)
            && (r != Ok(true) ==> after.logs == b.logs)
            && (r == Ok(true) ==>
                  && after.logs.Keys == b.logs.Keys + {id}
                  && (forall other :: other != id ==> Log(after, other) == Log(b, other))
                  && Log(after, id)
                     == [Transition(None, a.status, a.firstObservedAt, a.evidence, INITIAL_RATIONALE, 0)])
  {
    assert RefersToRecords(b, w, a) <==> References(b, w, a);
    assert Kept(b, id) && Log(b.(actions := b.actions[id := a]), id) == Log(b, id);
    if id !in b.actions && References(b, w, a) {
      FirstTransition(b.(actions := b.actions[id := a]), w, id, a);
    }
    hide References, RefersToRecords, Next, WithTransition, Sound, Kept, HasEvidence;
  }

  /** Some operation, given what was known by then, asked for the action, and its references were in order. */
  ghost predicate Introduced(ops: seq<(Op, World)>, id: string, a: Action) {
    exists i :: 0 <= i < |ops| && IntroducedAt(ops, i, id, a)
  }

  ghost predicate IntroducedAt(ops: seq<(Op, World)>, i: nat, id: string, a: Action)
    requires i < |ops|
  {
    && ops[i].0 == OpAction(id, a) && References(Run(NO_ACTIONS, ops[..i]), ops[i].1, a)
    && a.mechanisms <= ops[i].1.mechanisms
  }

  lemma StepIntroduces(b: Book, w: World, op: Op, id: string)
    requires id in Apply(b, w, op).actions && (id !in b.actions || Apply(b, w, op).actions[id] != b.actions[id])
    ensures var a := Apply(b, w, op).actions[id];
            id !in b.actions && op == OpAction(id, a) && References(b, w, a) && a.mechanisms <= w.mechanisms
  {
    hide CurrentStatus, Next, Blank;
    assert op.OpAction?;
    assert RefersToRecords(b, w, op.action) ==> References(b, w, op.action);
  }

  /** Over every run, each stored action was asked for and its evidence, entities, mechanisms and prior were there. */
  lemma {:induction false} ActionsAreIntroduced(ops: seq<(Op, World)>, id: string)
    requires id in Run(NO_ACTIONS, ops).actions
    ensures Introduced(ops, id, Run(NO_ACTIONS, ops).actions[id])
  {
    if ops != [] {
      var n := |ops| - 1;
      var before, a := Run(NO_ACTIONS, ops[..n]), Run(NO_ACTIONS, ops).actions[id];
      assert Run(NO_ACTIONS, ops) == Apply(before, ops[n].1, ops[n].0);
      hide Apply, Run, References;
      if id in before.actions && before.actions[id] == a {
        ActionsAreIntroduced(ops[..n], id);
        var i :| 0 <= i < n && IntroducedAt(ops[..n], i, id, a);
        assert ops[..n][..i] == ops[..i];
        assert IntroducedAt(ops, i, id, a);
      } else {
        StepIntroduces(before, ops[n].1, ops[n].0, id);
        assert IntroducedAt(ops, n, id, a);
      }
    }
  }

  // ---------------------------------------------------------------------------------------------
  // The repository
  // ---------------------------------------------------------------------------------------------

  class SqlGovernmentRepository {
    var actions: map<string, Action>
    var logs: map<string, seq<Transition>>
    var world: World

    function Contents(): Book
      reads this
    {
      Book(actions, logs)
    }

    ghost predicate Valid()
      reads this
    {
      Sound(Contents())
    }

    constructor (world: World)
      ensures Valid() && Contents() == NO_ACTIONS && this.world == world
    {
      actions, logs := map[], map[];
      this.world := world;
      new;
      RunsKeepSound([]);
    }

    method RecordTransition(id: string, from: Option<Status>, to: Status, at: Time, evidence: seq<string>,
                            rationale: string)
      returns (r: Result<Transition, Violation>)
      requires Valid()
      modifies this`logs
      ensures Valid()
      ensures match WithTransition(old(Contents()), world, id, from, to, at, evidence, rationale)
              case Ok(after) => Contents() == after && r.Ok?
                  && Contents() == AppendTransition(old(Contents()), id, r.value)
              case Err(e) => r == Err(e) && Contents() == old(Contents())
      ensures r.Ok? <==>
              && id in actions && CurrentStatus(old(Log(Contents(), id)), at) == from && to in Next(from)
              && KnownBy(world, evidence, at) && evidence != [] && Readable(rationale)
      ensures r.Ok? ==> r.value == Transition(from, to, at, evidence, rationale, |old(Log(Contents(), id))|)
    {
      TransitionIff(Contents(), world, id, from, to, at, evidence, rationale);
      StepKeepsSound(Contents(), world, OpTransition(id, from, to, at, evidence, rationale));
      hide Sound, Next, CurrentStatus, HasEvidence, Blank, KnownBy, Readable;
      if id !in actions {
        return Err(IntegrityViolation);
      }
      var log := Log(Contents(), id);
      var current := CurrentStatus(log, at);
      if current != from {
        return Err(IntegrityViolation);
      }
      if to !in Next(from) {
        return Err(ValidationError);
      }
      if !HasEvidence(world, evidence, at) {
        return Err(IntegrityViolation);
      }
      var t := Transition(from, to, at, evidence, rationale, |log|);
      if evidence == [] || Blank(rationale) {
        return Err(ValidationError);
      }
      logs := logs[id := log + [t]];
      return Ok(t);
    }

    method AddAction(id: string, a: Action) returns (r: Result<bool, Violation>)
      requires Valid() && WellFormed(a)
      modifies this`actions, this`logs
      ensures Valid()
      ensures (Contents(), r) == WithAction(old(Contents()), world, id, a)
    {
      StepKeepsSound(Contents(), world, OpAction(id, a));
      if id in actions {
        if actions[id] != a {
          return Err(IntegrityViolation);
        }
        return Ok(false);
      }
      if !RefersToRecords(Contents(), world, a) {
        return Err(IntegrityViolation);
      }
      if !(a.mechanisms <= world.mechanisms) {
        return Err(ValidationError);
      }
      ActionRowKeepsSound(Contents(), id, a);
      hide Sound, WithTransition, RefersToRecords;
      actions := actions[id := a];
      var first := RecordTransition(id, None, a.status, a.firstObservedAt, a.evidence, INITIAL_RATIONALE);
      if first.Err? {
        return Err(first.error);
      }
      return Ok(true);
    }
  }

  lemma ActionRowKeepsSound(b: Book, id: string, a: Action)
    requires Sound(b)
    ensures Sound(b.(actions := b.actions[id := a]))
  {
    var stored := b.(actions := b.actions[id := a]);
    forall other ensures Kept(stored, other) {
      assert Kept(b, other);
    }
  }
}
