/** The lifecycle graph of government actions and the histories it admits. */
module Lifecycle {
  import opened Prelude
  import opened Ordering

  datatype Status =
    | Rumored | Proposed | Consultation | Submitted | Committee | Approved | Published | Effective
    | Enforced | Challenged | Amended | Suspended | Repealed | Expired

  datatype Transition = Transition(
    from: Option<Status>, to: Status, at: Time, evidence: seq<string>, rationale: string, sequence: int)

  function Next(from: Option<Status>): set<Status> {
    match from
    case None => {Rumored, Proposed, Consultation, Submitted, Approved, Published}
    case Some(Rumored) => {Proposed}
    case Some(Proposed) => {Consultation, Submitted, Approved, Suspended}
    case Some(Consultation) => {Submitted, Approved}
    case Some(Submitted) => {Committee, Approved}
    case Some(Committee) => {Approved, Suspended}
    case Some(Approved) => {Published, Effective, Challenged}
    case Some(Published) => {Effective, Amended, Challenged}
    case Some(Effective) => {Enforced, Amended, Challenged, Suspended, Repealed, Expired}
    case Some(Enforced) => {Amended, Challenged, Suspended, Repealed, Expired}
    case Some(Challenged) => {Effective, Suspended, Repealed}
    case Some(Amended) => {Published, Effective, Repealed}
    case Some(Suspended) => {Effective, Repealed}
    case Some(Repealed) => {}
    case Some(Expired) => {}
  }

  // ---------------------------------------------------------------------------------------------
  // As-of status and history of one action
  // ---------------------------------------------------------------------------------------------

  /** ORDER BY transitioned_at, sequence. */
  predicate Precedes(a: Transition, b: Transition) {
    a.at < b.at || (a.at == b.at && a.sequence <= b.sequence)
  }

  function Chronological(): (Transition, Transition) -> bool {
    (a: Transition, b: Transition) => Precedes(a, b)
  }

  function History(log: seq<Transition>): seq<Transition> {
    SortBy(log, Chronological())
  }

  /** The last transition at or before the cutoff; log holds them in the order they were recorded. */
  function LatestAt(log: seq<Transition>, cutoff: Time): Option<Transition> {
    if log == [] then None
    else
      var rest, t := LatestAt(log[..|log| - 1], cutoff), log[|log| - 1];
      if t.at <= cutoff && (rest.None? || Precedes(rest.value, t)) then Some(t) else rest
  }

  function CurrentStatus(log: seq<Transition>, cutoff: Time): Option<Status> {
    var t := LatestAt(log, cutoff);
    if t.None? then None else Some(t.value.to)
  }

  /** The sequence number of a transition is the number of transitions recorded before it. */
  predicate Numbered(log: seq<Transition>) {
    forall i :: 0 <= i < |log| ==> log[i].sequence == i
  }

  function StatusBefore(h: seq<Transition>, i: nat): Option<Status>
    requires i <= |h|
  {
    if i == 0 then None else Some(h[i - 1].to)
  }

  /** Every transition starts where the one before it ended and is one the graph allows. */
  predicate Chain(h: seq<Transition>) {
    forall i :: 0 <= i < |h| ==> Linked(h, i)
  }

  predicate Linked(h: seq<Transition>, i: nat)
    requires i < |h|
  {
    h[i].from == StatusBefore(h, i) && h[i].to in Next(h[i].from)
  }

  /** How many transitions of a sorted history lie at or before an instant. */
  function Position(h: seq<Transition>, at: Time): (k: nat)
    ensures k <= |h|
    ensures forall i :: 0 <= i < k ==> h[i].at <= at
    ensures k < |h| ==> h[k].at > at
  {
    if h == [] || h[0].at > at then 0 else 1 + Position(h[1..], at)
  }

  lemma ChronologicalOrder()
    ensures TotalPreorder(Chronological())
  {
  }

  lemma {:induction false} LatestAtMeaning(log: seq<Transition>, cutoff: Time)
    ensures
      match LatestAt(log, cutoff)
      case None => forall t :: t in log ==> t.at > cutoff
      case Some(latest) => latest in log && latest.at <= cutoff && forall t :: t in log && t.at <= cutoff ==>
          Precedes(t, latest)
  {
    if log != [] {
      LatestAtMeaning(log[..|log| - 1], cutoff);
    }
  }

  predicate Sequenced(h: seq<Transition>) {
    forall i, j :: 0 <= i < j < |h| ==> Precedes(h[i], h[j])
  }

  lemma HistoryMembers(log: seq<Transition>)
    ensures Sequenced(History(log)) && |History(log)| == |log|
    ensures forall t :: t in History(log) <==> t in log
  {
    ChronologicalOrder();
    SortBySorted(log, Chronological());
    SortByMembers(log, Chronological());
    forall i, j | 0 <= i < j < |History(log)| ensures Precedes(History(log)[i], History(log)[j]) {
      assert Chronological()(History(log)[i], History(log)[j]);
    }
  }

  lemma SameSequenceSameTransition(log: seq<Transition>, a: Transition, b: Transition)
    requires Numbered(log) && a in log && b in log && a.sequence == b.sequence
    ensures a == b
  {
  }

  lemma AfterPosition(h: seq<Transition>, at: Time)
    requires Sequenced(h)
    ensures forall i :: Position(h, at) <= i < |h| ==> h[i].at > at
  {
    var k := Position(h, at);
    forall i | k <= i < |h| ensures h[i].at > at {
      assert k < i ==> Precedes(h[k], h[i]);
    }
  }

  /** Before its position for a cutoff a history holds exactly what is dated by the cutoff. */
  lemma PrefixIsDatedBy(h: seq<Transition>, cutoff: Time, t: Transition)
    requires Sequenced(h) && t in h && t.at <= cutoff
    ensures var k := Position(h, cutoff);
            k > 0 && (t == h[k - 1] || Precedes(t, h[k - 1]))
  {
    var i :| 0 <= i < |h| && h[i] == t;
    AfterPosition(h, cutoff);
  }

  /** The status at a cutoff is what the sorted history says after its transitions up to the cutoff. */
  lemma StatusIsEndOfPrefix(log: seq<Transition>, cutoff: Time)
    requires Numbered(log)
    ensures CurrentStatus(log, cutoff) == StatusBefore(History(log), Position(History(log), cutoff))
  {
    var h := History(log);
    var k := Position(h, cutoff);
    HistoryMembers(log);
    assert k > 0 ==> h[k - 1] in h && h[k - 1] in log;
    LatestAtMeaning(log, cutoff);
    hide History, LatestAt, Position, Sequenced;
    if LatestAt(log, cutoff).Some? {
      var latest := LatestAt(log, cutoff).value;
      assert latest in h;
      PrefixIsDatedBy(h, cutoff, latest);
      assert Precedes(h[k - 1], latest);
      SameSequenceSameTransition(log, latest, h[k - 1]);
    }
  }

  lemma AppendedSequence(log: seq<Transition>, t: Transition)
    requires Numbered(log) && t.sequence == |log|
    ensures Numbered(log + [t])
  {
  }

  /** A new transition takes its place in the history after everything up to its own time. */
  lemma HistoryAfterAppend(log: seq<Transition>, t: Transition)
    requires Numbered(log) && t.sequence == |log|
    ensures var h := History(log);
            var k := Position(h, t.at);
            History(log + [t]) == h[..k] + [t] + h[k..]
  {
    var h := History(log);
    var k := Position(h, t.at);
    var merged, all := h[..k] + [t] + h[k..], History(log + [t]);
    ChronologicalOrder();
    AppendedSequence(log, t);
    SortBySorted(log + [t], Chronological());
    SortByMembers(log + [t], Chronological());
    MergedSorted(log, t);
    MergedMultiset(log, t);
    hide Precedes, Position, SortBy, Sorted;
    forall x, y | x in all && y in all && Chronological()(x, y) && Chronological()(y, x) ensures x == y {
      SameInstant(x, y);
      SameSequenceSameTransition(log + [t], x, y);
    }
    SortedUnique(all, merged, Chronological());
  }

  lemma SameInstant(x: Transition, y: Transition)
    requires Chronological()(x, y) && Chronological()(y, x)
    ensures x.sequence == y.sequence
  {
  }

  lemma MergedMultiset(log: seq<Transition>, t: Transition)
    ensures var h := History(log);
            var k := Position(h, t.at);
            multiset(History(log + [t])) == multiset(h[..k] + [t] + h[k..])
  {
    var h := History(log);
    var k := Position(h, t.at);
    assert h == h[..k] + h[k..];
    assert multiset(h[..k] + [t] + h[k..]) == multiset(h) + multiset{t};
    assert multiset(log + [t]) == multiset(log) + multiset{t};
  }

  lemma MergedSorted(log: seq<Transition>, t: Transition)
    requires Numbered(log) && t.sequence == |log|
    ensures var h := History(log);
            var k := Position(h, t.at);
            Sorted(h[..k] + [t] + h[k..], Chronological())
  {
    var h := History(log);
    var k := Position(h, t.at);
    HistoryMembers(log);
    AfterPosition(h, t.at);
    hide History, Position;
    forall i | 0 <= i < k ensures Precedes(h[i], t) {
      assert h[i] in h && h[i] in log;
    }
    MergeKeepsOrder(h, t, k);
    forall i, j | 0 <= i < j < |h| + 1 ensures Chronological()((h[..k] + [t] + h[k..])[i], (h[..k] + [t] + h[k..])[j]) {
      assert Precedes((h[..k] + [t] + h[k..])[i], (h[..k] + [t] + h[k..])[j]);
    }
  }

  lemma MergeKeepsOrder(h: seq<Transition>, t: Transition, k: nat)
    requires Sequenced(h) && k <= |h|
    requires (forall i :: 0 <= i < k ==> Precedes(h[i], t)) && forall i :: k <= i < |h| ==> Precedes(t, h[i])
    ensures Sequenced(h[..k] + [t] + h[k..])
  {
    hide Precedes;
    var merged := h[..k] + [t] + h[k..];
    forall i, j | 0 <= i < j < |merged| ensures Precedes(merged[i], merged[j]) {
      assert i < k ==> merged[i] == h[i];
      assert j > k ==> merged[j] == h[j - 1];
      assert i > k ==> merged[i] == h[i - 1];
      assert j < k ==> merged[j] == h[j];
    }
  }

  /** Recorded in chronological order. */
  predicate Ascending(log: seq<Transition>) {
    forall i, j :: 0 <= i < j < |log| ==> log[i].at <= log[j].at
  }

  /** A log that was recorded in chronological order is its own history. */
  lemma AscendingLogIsHistory(log: seq<Transition>)
    requires Numbered(log) && Ascending(log)
    ensures History(log) == log
  {
    ChronologicalOrder();
    SortBySorted(log, Chronological());
    SortByMembers(log, Chronological());
    forall x, y | x in History(log) && y in History(log) && Chronological()(x, y) && Chronological()(y, x)
        ensures x == y {
      SameInstant(x, y);
      SameSequenceSameTransition(log, x, y);
    }
    SortedUnique(History(log), log, Chronological());
  }

  // ---------------------------------------------------------------------------------------------
  // One more transition
  // ---------------------------------------------------------------------------------------------

  /** What the repository checks about the lifecycle before it records a transition. */
  predicate Admissible(log: seq<Transition>, t: Transition) {
    t.from == CurrentStatus(log, t.at) && t.to in Next(t.from) && t.sequence == |log|
  }

  /** Which statuses another can be reached from; None stands for the beginning. */
  ghost predicate ReachedFrom(to: Status, from: Option<Status>) {
    match to
    case Rumored => from in {None}
    case Proposed => from in {None, Some(Rumored)}
    case Consultation => from in {None, Some(Proposed)}
    case Submitted => from in {None, Some(Proposed), Some(Consultation)}
    case Committee => from in {Some(Submitted)}
    case Approved => from in {None, Some(Proposed), Some(Consultation), Some(Submitted), Some(Committee)}
    case Published => from in {None, Some(Approved), Some(Amended)}
    case Effective => from in {Some(Approved), Some(Published), Some(Challenged), Some(Amended), Some(Suspended)}
    case Enforced => from in {Some(Effective)}
    case Challenged => from in {Some(Approved), Some(Published), Some(Effective), Some(Enforced)}
    case Amended => from in {Some(Published), Some(Effective), Some(Enforced)}
    case Suspended => from in {Some(Proposed), Some(Committee), Some(Effective), Some(Enforced), Some(Challenged)}
    case Repealed => from in {Some(Effective), Some(Enforced), Some(Challenged), Some(Amended), Some(Suspended)}
    case Expired => from in {Some(Effective), Some(Enforced)}
  }

  lemma EarlyArrows(from: Option<Status>, to: Status)
    requires from.None? || Early(from.value) || from.value == Approved
    ensures to in Next(from) <==> ReachedFrom(to, from)
  {
  }

  lemma LaterArrows(from: Status, to: Status)
    requires !Early(from) && from != Approved
    ensures to in Next(Some(from)) <==> ReachedFrom(to, Some(from))
  {
  }

  /** The lifecycle graph read against its arrows is the same graph. */
  lemma ArrowsBothWays(from: Option<Status>, to: Status)
    ensures to in Next(from) <==> ReachedFrom(to, from)
  {
    hide Next, ReachedFrom;
    if from.None? || Early(from.value) || from.value == Approved {
      EarlyArrows(from, to);
    } else {
      LaterArrows(from.value, to);
    }
  }

  /** No status leads to itself. */
  lemma NoSelfLoops(from: Option<Status>)
    ensures from.Some? ==> from.value !in Next(from)
  {
  }

  /**
   Put in at position k, the transition t leaves a chain: the links before k and behind the transition it
   displaces are intact, and the displaced one may start where t ends.
   */
  predicate Rejoins(h: seq<Transition>, t: Transition, k: nat)
    requires k <= |h|
  {
    && (forall i :: 0 <= i < k ==> Linked(h, i))
    && (k < |h| ==> h[k].from == Some(t.to) && h[k].to in Next(h[k].from))
    && (forall i :: k < i < |h| ==> Linked(h, i))
  }

  lemma InsertionIsChainIff(h: seq<Transition>, t: Transition, k: nat)
    requires k <= |h| && t.from == StatusBefore(h, k) && t.to in Next(t.from)
    ensures Chain(h[..k] + [t] + h[k..]) <==> Rejoins(h, t, k)
  {
    hide Next;
    var all := h[..k] + [t] + h[k..];
    assert Linked(all, k);
    forall i | 0 <= i < k ensures Linked(all, i) == Linked(h, i) {
    }
    forall i | k < i < |h| ensures Linked(all, i + 1) == Linked(h, i) {
      assert all[i + 1] == h[i] && all[i] == h[i - 1];
    }
    assert k < |h| ==> all[k + 1] == h[k] && (Linked(all, k + 1) <==>
                                              h[k].from == Some(t.to) && h[k].to in Next(h[k].from));
    if Rejoins(h, t, k) {
      forall j | 0 <= j < |all| ensures Linked(all, j) {
        assert j > k + 1 ==> Linked(h, j - 1) && Linked(all, (j - 1) + 1);
      }
    }
    if Chain(all) {
      assert k < |h| ==> Linked(all, k + 1);
      forall i | k < i < |h| ensures Linked(h, i) {
        assert Linked(all, i + 1);
      }
    }
  }

  /**
   One step of any history, chain or not: after an admissible transition it is a chain if and only if the
   transition rejoins it at its position. A history that back-dating has broken can so be repaired.
   */
  lemma ChainAfterStepIff(log: seq<Transition>, t: Transition)
    requires Numbered(log) && Admissible(log, t)
    ensures Chain(History(log + [t])) <==> Rejoins(History(log), t, Position(History(log), t.at))
  {
    assert t.from == CurrentStatus(log, t.at) && t.to in Next(t.from) && t.sequence == |log|;
    hide *;
    HistoryAfterAppend(log, t);
    StatusIsEndOfPrefix(log, t.at);
    InsertionIsChainIff(History(log), t, Position(History(log), t.at));
  }

  /**
   An admissible transition keeps the history a chain if and only if it is not back-dated: nothing
   recorded before it may be later than it.
   */
  lemma ChainKeptIffNotBackDated(log: seq<Transition>, t: Transition)
    requires Numbered(log) && Chain(History(log)) && Admissible(log, t)
    ensures Chain(History(log + [t])) <==> forall u :: u in log ==> u.at <= t.at
  {
    var h := History(log);
    var k := Position(h, t.at);
    assert t.from == CurrentStatus(log, t.at) && t.to in Next(t.from) && t.sequence == |log|;
    hide *;
    HistoryAfterAppend(log, t);
    StatusIsEndOfPrefix(log, t.at);
    NothingLaterIff(log, t.at);
    if k == |h| {
      assert h[..k] + [t] + h[k..] == h + [t];
      ChainExtends(h, t);
    } else {
      InsertionBreaksChain(h, t, k);
    }
  }

  lemma NothingLaterIff(log: seq<Transition>, at: Time)
    ensures Position(History(log), at) == |History(log)| <==> forall u :: u in log ==> u.at <= at
  {
    var h := History(log);
    HistoryMembers(log);
    hide History, Sequenced;
    if Position(h, at) == |h| {
      forall u | u in log ensures u.at <= at { assert u in h; }
    } else {
      assert h[Position(h, at)] in h;
    }
  }

  lemma ChainExtends(h: seq<Transition>, t: Transition)
    requires Chain(h) && t.from == StatusBefore(h, |h|) && t.to in Next(t.from)
    ensures Chain(h + [t])
  {
    hide Next;
    forall i | 0 <= i < |h + [t]| ensures Linked(h + [t], i) {
      assert i < |h| ==> Linked(h, i);
    }
  }

  /** A transition put in before another one leaves that one starting from the wrong status. */
  lemma InsertionBreaksChain(h: seq<Transition>, t: Transition, k: nat)
    requires Chain(h) && k < |h| && t.from == StatusBefore(h, k) && t.to in Next(t.from)
    ensures !Chain(h[..k] + [t] + h[k..])
  {
    var all := h[..k] + [t] + h[k..];
    NoSelfLoops(t.from);
    hide Next;
    assert Linked(h, k);
    assert all[k] == t && all[k + 1] == h[k];
    assert !Linked(all, k + 1);
  }

  /**
   Recording an admissible transition changes the status at a cutoff if and only if it is dated by the
   cutoff and no recorded transition lies between the two: back-dating rewrites the past.
   */
  lemma StatusChangesIff(log: seq<Transition>, t: Transition, cutoff: Time)
    requires Numbered(log) && Admissible(log, t)
    ensures CurrentStatus(log + [t], cutoff) != CurrentStatus(log, cutoff)
            <==> t.at <= cutoff && forall u :: u in log ==> u.at <= t.at || u.at > cutoff
  {
    assert (log + [t])[..|log|] == log;
    LatestAtMeaning(log, cutoff);
    LatestAtMeaning(log, t.at);
    NoSelfLoops(t.from);
    if t.at <= cutoff {
      var before, now := LatestAt(log, t.at), LatestAt(log, cutoff);
      if forall u :: u in log ==> u.at <= t.at || u.at > cutoff {
        if before.Some? {
          assert Precedes(before.value, now.value) && Precedes(now.value, before.value);
          SameSequenceSameTransition(log, before.value, now.value);
        }
      }
    }
  }

  // ---------------------------------------------------------------------------------------------
  // What a chain rules out
  // ---------------------------------------------------------------------------------------------

  /** Nothing follows a repeal or an expiry. */
  lemma TerminalStatusesAreLast(h: seq<Transition>, i: nat)
    requires Chain(h) && i < |h| && (h[i].to == Repealed || h[i].to == Expired)
    ensures i == |h| - 1
  {
    assert i + 1 < |h| ==> Linked(h, i + 1);
  }

  /** An action is enforced or expires only after it became effective. */
  lemma {:induction false} EffectiveComesFirst(h: seq<Transition>, i: nat) returns (j: nat)
    requires Chain(h) && i < |h| && (h[i].to == Enforced || h[i].to == Expired)
    ensures j < i && h[j].to == Effective
  {
    assert Linked(h, i);
    assert i > 0;
    if h[i - 1].to == Effective {
      j := i - 1;
    } else {
      j := EffectiveComesFirst(h, i - 1);
    }
  }

  /** What has to precede effectiveness: an approval, a publication or a suspension. */
  predicate Groundwork(s: Status) {
    s == Approved || s == Published || s == Suspended
  }

  /** Whoever is past the proposal stages has been approved, published or suspended at some point. */
  predicate Early(s: Status) {
    s == Rumored || s == Proposed || s == Consultation || s == Submitted || s == Committee
  }

  lemma {:induction false} GroundworkComesFirst(h: seq<Transition>, i: nat) returns (j: nat)
    requires Chain(h) && i < |h| && !Early(h[i].to)
    ensures j <= i && Groundwork(h[j].to)
  {
    assert Linked(h, i);
    if Groundwork(h[i].to) {
      j := i;
    } else {
      assert i > 0;
      j := GroundworkComesFirst(h, i - 1);
    }
  }

  /** Effectiveness does not need approval or publication: a suspended proposal can come into force. */
  lemma EffectiveWithoutApproval(evidence: seq<string>)
    ensures
      var h := [Transition(None, Proposed, 0, evidence, "r", 0),
                Transition(Some(Proposed), Suspended, 1, evidence, "r", 1),
                Transition(Some(Suspended), Effective, 2, evidence, "r", 2)];
      Chain(h) && forall t :: t in h ==> t.to != Approved && t.to != Published
  {
    var h := [Transition(None, Proposed, 0, evidence, "r", 0),
              Transition(Some(Proposed), Suspended, 1, evidence, "r", 1),
              Transition(Some(Suspended), Effective, 2, evidence, "r", 2)];
    assert Linked(h, 0) && Linked(h, 1) && Linked(h, 2);
  }
}
