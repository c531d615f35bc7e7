/** The life of a row that workers lease: what its history of changes must look like, whoever makes them. */
module Leases {
  import opened Json

  type Id = nat
  type Token = nat

  // ---------------------------------------------------------------- events

  /** What a committed transaction did to one leased row. */
  datatype Event =
    | Opened(id: Id)
    | Acquired(id: Id, token: Token)
    | LeaseExhausted(id: Id)
    | Progressed(id: Id, token: Token)
    | Succeeded(id: Id, token: Token)
    | BackedOff(id: Id, token: Token)
    | GaveUp(id: Id, token: Token)
    | Skipped(id: Id)
  {
    /** Done under a lease. */
    predicate Carries(t: Token) { (Progressed? || Succeeded? || BackedOff? || GaveUp?) && token == t }

    /** Changes the row's status. */
    predicate Lifecycle() { !Opened? && !Progressed? }

    predicate Ends() { LeaseExhausted? || Succeeded? || GaveUp? || Skipped? }
  }

  datatype Phase = Absent | Idle | Held(token: Token) | Done

  /** The phase an event leaves its row in, when the row is in a phase that allows it. */
  function After(p: Phase, e: Event): Option<Phase> {
    match e
    case Opened(_) => if p.Absent? then Some(Idle) else None
    case Acquired(_, t) => if p.Idle? || p.Held? then Some(Held(t)) else None
    case LeaseExhausted(_) => if p.Held? then Some(Done) else None
    case Progressed(_, t) => if p == Held(t) then Some(p) else None
    case Succeeded(_, t) => if p == Held(t) then Some(Done) else None
    case BackedOff(_, t) => if p == Held(t) then Some(Idle) else None
    case GaveUp(_, t) => if p == Held(t) then Some(Done) else None
    case Skipped(_) => if p.Idle? || p.Held? then Some(Done) else None
  }

  /** The phase the log leaves row `id` in; `None` once an event was not allowed. */
  function PhaseIn(log: seq<Event>, id: Id): Option<Phase> {
    if log == [] then Some(Absent)
    else
      var before, e := PhaseIn(log[..|log| - 1], id), log[|log| - 1];
      if e.id != id then before else if before.None? then None else After(before.value, e)
  }

  predicate TokensOnce(log: seq<Event>) {
    forall i, j | 0 <= i < j < |log| && log[i].Acquired? && log[j].Acquired? :: log[i].token != log[j].token
  }

  /** Each row's events follow its life cycle, and every claim draws its own token. */
  ghost predicate Legal(log: seq<Event>) {
    TokensOnce(log) && forall id :: PhaseIn(log, id).Some?
  }

  lemma {:induction false} PhaseOfPrefix(log: seq<Event>, n: nat, id: Id)
    requires n <= |log| && PhaseIn(log, id).Some?
    ensures PhaseIn(log[..n], id).Some?
  {
    if n < |log| {
      PhaseOfPrefix(log[..|log| - 1], n, id);
      assert log[..|log| - 1][..n] == log[..n];
    } else {
      assert log[..n] == log;
    }
  }

  /** A row that is held was last claimed with that token, and only advanced since. */
  lemma {:induction false} HeldSince(log: seq<Event>, id: Id, t: Token) returns (j: nat)
    requires PhaseIn(log, id) == Some(Held(t))
    ensures j < |log| && log[j] == Acquired(id, t)
    ensures forall k | j < k < |log| && log[k].id == id :: log[k] == Progressed(id, t)
  {
    var n := |log| - 1;
    if log[n].id == id && log[n].Acquired? {
      j := n;
    } else {
      j := HeldSince(log[..n], id, t);
    }
  }

  /** Once a row is done nothing happens to it any more. */
  lemma {:induction false} NothingAfterEnd(log: seq<Event>, k: nat, id: Id)
    requires k < |log| && log[k].id == id && log[k].Ends() && PhaseIn(log, id).Some?
    ensures PhaseIn(log, id) == Some(Done)
    ensures forall m | k < m < |log| :: log[m].id != id
  {
    var n := |log| - 1;
    if k < n { NothingAfterEnd(log[..n], k, id); }
  }

  /**
   * Fencing. A change made under a lease token comes after the one claim that drew the token, and between the two
   * the row was only advanced under the same token: no other claim, no completion, no failure.
   */
  lemma Fencing(log: seq<Event>, k: nat, t: Token) returns (j: nat)
    requires Legal(log) && k < |log| && log[k].Carries(t)
    ensures j < k && log[j] == Acquired(log[k].id, t)
    ensures forall m | j < m < k && log[m].id == log[k].id :: log[m] == Progressed(log[k].id, t)
    ensures forall m | 0 <= m < |log| && log[m].Acquired? && log[m].token == t :: m == j
  {
    var id := log[k].id;
    PhaseOfPrefix(log, k + 1, id);
    assert log[..k + 1][..k] == log[..k];
    j := HeldSince(log[..k], id, t);
    forall m | j < m < k && log[m].id == id ensures log[m] == Progressed(id, t) { assert log[m] == log[..k][m]; }
  }

  function Lifecycles(log: seq<Event>, id: Id): nat {
    if log == [] then 0
    else
      var e := log[|log| - 1];
      Lifecycles(log[..|log| - 1], id) + if e.id == id && e.Lifecycle() then 1 else 0
  }

  // ---------------------------------------------------------------- a log that records a table

  /** Where a row stands: its phase, the lifecycle transitions it can still make and the most it can make at all. */
  datatype Standing = Standing(phase: Phase, budget: int, limit: int)

  /** The log is the history of rows that stand as `at` says, with tokens from `issued`. */
  ghost predicate Recorded(log: seq<Event>, issued: set<Token>, at: Id -> Standing) {
    && Legal(log)
    && (forall id :: PhaseIn(log, id) == Some(at(id).phase))
    && (forall i | 0 <= i < |log| && log[i].Acquired? :: log[i].token in issued)
    && (forall id :: Lifecycles(log, id) <= if at(id).phase.Absent? then 0 else at(id).limit - at(id).budget)
  }

  /** The event moves its row as the row's phase allows, at the cost of its budget. */
  predicate Moves(from: Standing, e: Event, to: Standing) {
    && After(from.phase, e) == Some(to.phase)
    && !to.phase.Absent?
    && var cost := if e.Lifecycle() then 1 else 0;
    if from.phase.Absent? then to.budget + cost <= to.limit
      else to.limit == from.limit && to.budget + cost <= from.budget
  }

  lemma RecordedStep(log: seq<Event>, issued: set<Token>, at: Id -> Standing, e: Event, drawn: set<Token>,
      to: Id -> Standing)
    requires Recorded(log, issued, at) && Moves(at(e.id), e, to(e.id)) && forall id | id != e.id :: to(id) == at(id)
    requires e.Acquired? ==> e.token in drawn && e.token !in issued
    ensures Recorded(log + [e], issued + drawn, to)
  {
    var after := log + [e];
    assert after[..|after| - 1] == log;
    forall id ensures PhaseIn(after, id) == Some(to(id).phase) { assert PhaseIn(log, id) == Some(at(id).phase); }
    forall i, j | 0 <= i < j < |after| && after[i].Acquired? && after[j].Acquired?
      ensures after[i].token != after[j].token
    {
      assert after[i] == log[i];
    }
    forall id ensures Lifecycles(after, id) == Lifecycles(log, id) + if e.id == id && e.Lifecycle() then 1 else 0 {}
  }

  lemma RecordedStays(log: seq<Event>, issued: set<Token>, at: Id -> Standing, drawn: set<Token>, to: Id -> Standing)
    requires Recorded(log, issued, at) && forall id :: to(id) == at(id)
    ensures Recorded(log, issued + drawn, to)
  {
  }
}
