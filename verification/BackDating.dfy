/** A run whose fourth transition is back-dated and breaks the history, and whose fifth repairs it. */
module BackDating {
  import opened Prelude
  import opened Lifecycle
  import opened Government

  // Approved at 0, effective at 1, enforced at 10; then suspended with effect from 5, and effective again from 7.

  function Records(evidence: seq<string>): seq<Transition> {
    [Transition(None, Approved, 0, evidence, INITIAL_RATIONALE, 0),
     Transition(Some(Approved), Effective, 1, evidence, "r", 1),
     Transition(Some(Effective), Enforced, 10, evidence, "r", 2),
     Transition(Some(Effective), Suspended, 5, evidence, "r", 3),
     Transition(Some(Suspended), Effective, 7, evidence, "r", 4)]
  }

  const BODY := "government.body"

  function ApprovedAction(evidence: seq<string>): Action {
    Action(Approved, 0, None, 1, evidence, {BODY}, {})
  }

  /** The evidence and the issuing body of the action are on record when it is first observed. */
  predicate OnRecord(w: World, evidence: seq<string>) {
    evidence != [] && HasEvidence(w, evidence, 0) && BODY in w.entities && w.entities[BODY] <= 0
  }

  /** The operations that ask for the first n of the records. */
  function Asks(evidence: seq<string>, w: World, n: nat): seq<(Op, World)>
    requires n <= 5
  {
    if n == 0 then []
    else if n == 1 then [(OpAction("a", ApprovedAction(evidence)), w)]
    else
      var t := Records(evidence)[n - 1];
      Asks(evidence, w, n - 1) + [(OpTransition("a", t.from, t.to, t.at, evidence, "r"), w)]
  }

  /**
   The last of a log, if it is dated by the cutoff and nothing before it is later, is the latest; if it is dated
   later it is skipped.
   */
  lemma StatusAfter(log: seq<Transition>, t: Transition, cutoff: Time)
    ensures t.at > cutoff ==> CurrentStatus(log + [t], cutoff) == CurrentStatus(log, cutoff)
    ensures t.at <= cutoff && (forall u :: u in log && u.at <= cutoff ==> Precedes(u, t)) ==>
              CurrentStatus(log + [t], cutoff) == Some(t.to)
  {
    assert (log + [t])[..|log|] == log;
    LatestAtMeaning(log, cutoff);
  }

  lemma Prefixes(evidence: seq<string>, n: nat)
    requires n < 5
    ensures Records(evidence)[..n + 1] == Records(evidence)[..n] + [Records(evidence)[n]]
  {
  }

  lemma RecordedInOrder(evidence: seq<string>, n: nat, cutoff: Time)
    requires n <= 3
    ensures n == 0 || Records(evidence)[n - 1].at > cutoff
            || CurrentStatus(Records(evidence)[..n], cutoff) == Some(Records(evidence)[n - 1].to)
  {
    if n > 0 {
      Prefixes(evidence, n - 1);
      StatusAfter(Records(evidence)[..n - 1], Records(evidence)[n - 1], cutoff);
    }
  }

  /** What is recorded at each step starts from the status of its own moment. */
  lemma EachIsDue(evidence: seq<string>, n: nat)
    requires 0 < n < 5
    ensures CurrentStatus(Records(evidence)[..n], Records(evidence)[n].at) == Records(evidence)[n].from
  {
    var rs := Records(evidence);
    if n <= 2 {
      RecordedInOrder(evidence, n, rs[n].at);
    } else {
      RecordedInOrder(evidence, 2, 5);
      Prefixes(evidence, 2);
      StatusAfter(rs[..2], rs[2], rs[n].at);
      if n == 4 {
        Prefixes(evidence, 3);
        StatusAfter(rs[..3], rs[3], 7);
      }
    }
  }

  function AfterRecords(evidence: seq<string>, n: nat): Book
    requires n <= 5
  {
    if n == 0 then NO_ACTIONS else Book(map["a" := ApprovedAction(evidence)], map["a" := Records(evidence)[..n]])
  }

  lemma RationalesAreNotBlank()
    ensures !Blank("r") && !Blank(INITIAL_RATIONALE)
  {
    assert "r"[0] in "r" && INITIAL_RATIONALE[0] in INITIAL_RATIONALE;
  }

  lemma ActionIsReceivable(evidence: seq<string>, w: World)
    requires OnRecord(w, evidence)
    ensures WellFormed(ApprovedAction(evidence)) && Resolves(NO_ACTIONS, w, ApprovedAction(evidence))
  {
  }

  lemma Records1(evidence: seq<string>, w: World)
    requires OnRecord(w, evidence)
    ensures Apply(NO_ACTIONS, w, OpAction("a", ApprovedAction(evidence))) == AfterRecords(evidence, 1)
  {
    RationalesAreNotBlank();
    var stored := Book(map["a" := ApprovedAction(evidence)], map[]);
    FirstTransition(stored, w, "a", ApprovedAction(evidence));
    assert Records(evidence)[..1] == [] + [Records(evidence)[0]];
    hide Blank, HasEvidence, WithTransition;
  }

  lemma StatusAllows(evidence: seq<string>, n: nat)
    requires 0 < n < 5
    ensures Records(evidence)[n].to in Next(Records(evidence)[n].from)
    ensures Records(evidence)[n].evidence == evidence && Records(evidence)[n].rationale == "r"
            && Records(evidence)[n].sequence == n
    ensures Records(evidence)[n].at >= 0
  {
  }

  /** A transition that meets all conditions is recorded. */
  lemma Recorded(b: Book, w: World, id: string, t: Transition)
    requires id in b.actions && id in b.logs && CurrentStatus(b.logs[id], t.at) == t.from && t.to in Next(t.from)
    requires HasEvidence(w, t.evidence, t.at) && t.evidence != [] && !Blank(t.rationale) && t.sequence == |b.logs[id]|
    ensures Apply(b, w, OpTransition(id, t.from, t.to, t.at, t.evidence, t.rationale))
            == b.(logs := b.logs[id := b.logs[id] + [t]])
  {
    hide CurrentStatus, HasEvidence, Blank, Next;
  }

  lemma RecordsNext(evidence: seq<string>, w: World, n: nat)
    requires 0 < n < 5 && OnRecord(w, evidence)
    ensures var t := Records(evidence)[n];
            Apply(AfterRecords(evidence, n), w, OpTransition("a", t.from, t.to, t.at, evidence, "r"))
                == AfterRecords(evidence, n + 1)
  {
    var b, t := AfterRecords(evidence, n), Records(evidence)[n];
    StatusAllows(evidence, n);
    EachIsDue(evidence, n);
    RationalesAreNotBlank();
    Prefixes(evidence, n);
    assert b.logs["a"] == Records(evidence)[..n] && |b.logs["a"]| == n && "a" in b.actions;
    assert AfterRecords(evidence, n + 1) == b.(logs := b.logs["a" := b.logs["a"] + [t]]);
    assert HasEvidence(w, evidence, t.at);
    hide *;
    Recorded(b, w, "a", t);
  }

  /** Every one of the five requests is accepted. */
  lemma {:induction false} AllAreAccepted(evidence: seq<string>, w: World, n: nat)
    requires n <= 5 && OnRecord(w, evidence)
    ensures Run(NO_ACTIONS, Asks(evidence, w, n)) == AfterRecords(evidence, n)
  {
    hide Records, HasEvidence;
    if n == 0 {
    } else if n == 1 {
      Records1(evidence, w);
      assert Asks(evidence, w, 1)[..0] == [];
    } else {
      AllAreAccepted(evidence, w, n - 1);
      RecordsNext(evidence, w, n - 1);
      assert Asks(evidence, w, n)[..|Asks(evidence, w, n)| - 1] == Asks(evidence, w, n - 1);
    }
  }

  // ---------------------------------------------------------------------------------------------
  // The histories
  // ---------------------------------------------------------------------------------------------

  lemma NumberedRecords(evidence: seq<string>, n: nat)
    requires n <= 5
    ensures Numbered(Records(evidence)[..n])
  {
  }

  lemma AdmissibleRecord(evidence: seq<string>, n: nat)
    requires 0 < n < 5
    ensures Numbered(Records(evidence)[..n]) && Admissible(Records(evidence)[..n], Records(evidence)[n])
  {
    NumberedRecords(evidence, n);
    EachIsDue(evidence, n);
    StatusAllows(evidence, n);
    hide CurrentStatus, Next, Records;
  }

  /** The first three records come in time order and form a chain. */
  lemma InOrderAtFirst(evidence: seq<string>)
    ensures var log := Records(evidence)[..3]; Chain(log) && History(log) == log
  {
    var log := Records(evidence)[..3];
    NumberedRecords(evidence, 3);
    AscendingLogIsHistory(log);
    assert Linked(log, 0) && Linked(log, 1) && Linked(log, 2);
  }

  /** A transition dated between the second and the third of a history goes between them. */
  lemma GoesInBetween(log: seq<Transition>, t: Transition)
    requires |log| == 3 && Numbered(log) && History(log) == log && t.sequence == 3
    requires log[0].at <= t.at && log[1].at <= t.at < log[2].at
    ensures History(log + [t]) == [log[0], log[1], t, log[2]]
  {
    assert Position(log, t.at) == 2;
    assert log[..2] + [t] + log[2..] == [log[0], log[1], t, log[2]];
    hide Position, History;
    HistoryAfterAppend(log, t);
  }

  lemma TimesOfRecords(evidence: seq<string>)
    ensures var rs := Records(evidence);
            && |rs| == 5 && rs[..3][0] == rs[0] && rs[..3][1] == rs[1] && rs[..3][2] == rs[2]
            && rs[0].at <= rs[3].at && rs[1].at <= rs[3].at < rs[2].at && rs[3].sequence == 3
  {
  }

  /** The suspension from 5 goes in front of the enforcement at 10. */
  lemma SuspendedHistory(evidence: seq<string>)
    ensures var rs := Records(evidence); |rs| == 5 && History(rs[..4]) == [rs[0], rs[1], rs[3], rs[2]]
  {
    hide *;
    InOrderAtFirst(evidence);
    NumberedRecords(evidence, 3);
    Prefixes(evidence, 3);
    TimesOfRecords(evidence);
    GoesInBetween(Records(evidence)[..3], Records(evidence)[3]);
  }

  lemma BreaksAtFour(evidence: seq<string>)
    ensures Chain(History(Records(evidence)[..3])) && !Chain(History(Records(evidence)[..4]))
  {
    var rs := Records(evidence);
    InOrderAtFirst(evidence);
    AdmissibleRecord(evidence, 3);
    Prefixes(evidence, 3);
    assert rs[..3][2] in rs[..3] && rs[..3][2].at > rs[3].at;
    hide Records, Chain, History, Admissible;
    ChainKeptIffNotBackDated(rs[..3], rs[3]);
  }

  /** A transition that leads to where the last of four starts, and that starts where the third ends, rejoins them. */
  lemma RejoinsBeforeLast(h: seq<Transition>, t: Transition)
    requires |h| == 4 && Linked(h, 0) && Linked(h, 1) && Linked(h, 2) && h[3].from == Some(t.to)
             && h[3].to in Next(h[3].from)
    requires h[0].at <= t.at && h[1].at <= t.at && h[2].at <= t.at < h[3].at
    ensures Position(h, t.at) == 3 && Rejoins(h, t, 3)
  {
    hide Next, Linked;
    assert h[1..][1..] == h[2..] && h[2..][1..] == h[3..];
  }

  lemma LinksOfFour(evidence: seq<string>)
    ensures var rs := Records(evidence);
            var h := [rs[0], rs[1], rs[3], rs[2]];
            && Linked(h, 0) && Linked(h, 1) && Linked(h, 2) && h[3].from == Some(rs[4].to) && h[3].to in Next(h[3].from)
            && h[0].at <= rs[4].at && h[1].at <= rs[4].at && h[2].at <= rs[4].at < h[3].at
  {
  }

  lemma RepairedAtFive(evidence: seq<string>)
    ensures Chain(History(Records(evidence)[..5]))
  {
    SuspendedHistory(evidence);
    AdmissibleRecord(evidence, 4);
    Prefixes(evidence, 4);
    LinksOfFour(evidence);
    var rs := Records(evidence);
    hide *;
    RejoinsBeforeLast([rs[0], rs[1], rs[3], rs[2]], rs[4]);
    ChainAfterStepIff(rs[..4], rs[4]);
  }

  lemma StatusOnDaySix(evidence: seq<string>)
    ensures CurrentStatus(Records(evidence)[..3], 6) == Some(Effective)
            && CurrentStatus(Records(evidence)[..4], 6) == Some(Suspended)
  {
    RecordedInOrder(evidence, 2, 6);
    Prefixes(evidence, 2);
    Prefixes(evidence, 3);
    StatusAfter(Records(evidence)[..2], Records(evidence)[2], 6);
    StatusAfter(Records(evidence)[..3], Records(evidence)[3], 6);
  }

  lemma LogsOfRun(evidence: seq<string>, w: World, n: nat)
    requires 0 < n <= 5 && OnRecord(w, evidence)
    ensures Log(Run(NO_ACTIONS, Asks(evidence, w, n)), "a") == Records(evidence)[..n] && |Records(evidence)[..n]| == n
  {
    AllAreAccepted(evidence, w, n);
    assert |Records(evidence)| == 5;
    hide Run, Records, Asks;
  }

  lemma AsksOfFour(evidence: seq<string>, w: World)
    ensures |Asks(evidence, w, 4)| == 4 && |Asks(evidence, w, 5)| == 5
            && Asks(evidence, w, 5)[..4] == Asks(evidence, w, 4)
  {
    hide Records;
    assert |Asks(evidence, w, 1)| == 1;
    assert |Asks(evidence, w, 2)| == 2;
    assert |Asks(evidence, w, 3)| == 3;
  }

  lemma BrokenRunIsNotTimely(ops: seq<(Op, World)>, n: nat)
    requires n <= |ops| && !Chain(History(Log(Run(NO_ACTIONS, ops[..n]), "a")))
    ensures !TimelyRun(ops)
  {
    assert !ChainedAfter(ops, n, "a");
    hide Chain, History, Run, TimelyRun, ChainedAfter;
    ChainsIffTimely(ops);
  }

  /**
   The run of five accepted requests: after three the history is a chain, the back-dated suspension breaks
   it and rewrites the status at 6, and the back-dated return to effectiveness makes it a chain again.
   */
  lemma BackDatingBreaksAndRepairs(w: World, evidence: seq<string>)
    requires OnRecord(w, evidence)
    ensures
      var ops := Asks(evidence, w, 5);
      var before := Log(Run(NO_ACTIONS, Asks(evidence, w, 3)), "a");
      var broken := Log(Run(NO_ACTIONS, Asks(evidence, w, 4)), "a");
      var repaired := Log(Run(NO_ACTIONS, ops), "a");
      && WellFormed(ApprovedAction(evidence)) && Resolves(NO_ACTIONS, w, ApprovedAction(evidence))
      && |before| == 3 && |broken| == 4 && |repaired| == 5
      && Chain(History(before)) && !Chain(History(broken)) && Chain(History(repaired))
      && CurrentStatus(before, 6) == Some(Effective) && CurrentStatus(broken, 6) == Some(Suspended)
      && !TimelyRun(ops)
  {
    hide *;
    LogsOfRun(evidence, w, 3);
    LogsOfRun(evidence, w, 4);
    LogsOfRun(evidence, w, 5);
    BreaksAtFour(evidence);
    RepairedAtFive(evidence);
    StatusOnDaySix(evidence);
    AsksOfFour(evidence, w);
    ActionIsReceivable(evidence, w);
    BrokenRunIsNotTimely(Asks(evidence, w, 5), 4);
  }
}
