/** What the album buffer conserves over any sequence of updates and flushes. */
module BufferRuns {
  import opened Json
  import opened Ordering
  import opened Telegram
  import opened MediaGroupBuffer

  // ---------------------------------------------------------------- one release

  function KeyOfArrival(a: Arrival): GroupKey
    requires a.message.group.Some?
  {
    GroupKey(a.message.channel, a.message.group.value)
  }

  /** The group a waiting update belongs to, with the time it started waiting. */
  function Place(pending: Pending, a: Arrival): Due
    requires Waits(pending, a)
  {
    Due(pending[KeyOfArrival(a)].first, KeyOfArrival(a))
  }

  lemma ContentsElements(pending: Pending, k: GroupKey)
    requires PendingOk(pending) && k in pending
    ensures forall a :: a in Contents(pending[k]) <==> Waits(pending, a) && KeyOfArrival(a) == k
    ensures forall i, j | 0 <= i < j < |Contents(pending[k])| ::
      Contents(pending[k])[i].message.part.id < Contents(pending[k])[j].message.part.id
  {
    var w := pending[k];
    var ids := IdsOf(w);
    forall i | 0 <= i < |ids| ensures ids[i] in w.messages { assert ids[i] in ids; }
    forall a | Waits(pending, a) && KeyOfArrival(a) == k ensures a in Contents(w) {
      var i :| 0 <= i < |ids| && ids[i] == a.message.part.id;
      assert Contents(w)[i] == a;
    }
  }

  /** The group that began to wait first, then by channel and group, and within a group ascending message IDs. */
  ghost predicate InReleaseOrder(pending: Pending, a: Arrival, b: Arrival) {
    && Waits(pending, a) && Waits(pending, b)
    && var p, q := pending[KeyOfArrival(a)].first, pending[KeyOfArrival(b)].first;
    p <= q && (p == q ==>
      var k, l := KeyOfArrival(a), KeyOfArrival(b);
      k.channel <= l.channel && (k.channel == l.channel ==>
        k.group <= l.group && (k.group == l.group ==> a.message.part.id < b.message.part.id)))
  }

  ghost predicate Places(pending: Pending, due: seq<Due>) {
    && (forall d | d in due :: d.key in pending && d.first == pending[d.key].first)
    && (forall i, j | 0 <= i < j < |due| :: DueBefore(due[i], due[j]))
  }

  lemma {:induction false} ReleaseElements(pending: Pending, due: seq<Due>)
    requires PendingOk(pending) && Places(pending, due)
    ensures forall a :: a in Released(pending, due) <==> Waits(pending, a) && Place(pending, a) in due
  {
    if due != [] {
      var n := |due| - 1;
      assert due == due[..n] + [due[n]];
      ReleaseElements(pending, due[..n]);
      ContentsElements(pending, due[n].key);
    }
  }

  lemma EarlierPlaces(pending: Pending, due: seq<Due>, n: nat, a: Arrival)
    requires PendingOk(pending) && Places(pending, due) && n < |due| && a in Released(pending, due[..n])
    ensures Waits(pending, a) && DueBefore(Place(pending, a), due[n])
  {
    PlacesBefore(pending, due, n);
    ReleaseElements(pending, due[..n]);
    assert Place(pending, a) in due[..n];
  }

  lemma PlacesBefore(pending: Pending, due: seq<Due>, n: nat)
    requires Places(pending, due) && n < |due|
    ensures Places(pending, due[..n]) && forall d | d in due[..n] :: DueBefore(d, due[n])
  {
    forall d | d in due[..n] ensures d in due {}
  }

  ghost predicate Ordered(pending: Pending, updates: seq<Arrival>) {
    forall i, j | 0 <= i < j < |updates| :: InReleaseOrder(pending, updates[i], updates[j])
  }

  /** A later group's updates go after everything released before it. */
  lemma AppendGroup(pending: Pending, head: seq<Arrival>, tail: seq<Arrival>, d: Due)
    requires Ordered(pending, head) && forall a | a in head :: Waits(pending, a) && DueBefore(Place(pending, a), d)
    requires forall a | a in tail :: Waits(pending, a) && Place(pending, a) == d
    requires forall i, j | 0 <= i < j < |tail| :: tail[i].message.part.id < tail[j].message.part.id
    ensures Ordered(pending, head + tail)
  {
    var all := head + tail;
    forall i, j | 0 <= i < j < |all| ensures InReleaseOrder(pending, all[i], all[j]) {
      if j < |head| {
        assert InReleaseOrder(pending, head[i], head[j]);
      } else if i < |head| {
        assert head[i] in head && tail[j - |head|] in tail;
      } else {
        assert tail[i - |head|] in tail && tail[j - |head|] in tail;
      }
    }
  }

  /** A release is exactly what waits in the released groups, each group whole and in one stretch, in order. */
  lemma {:induction false} ReleaseInOrder(pending: Pending, due: seq<Due>)
    requires PendingOk(pending) && Places(pending, due)
    ensures forall a :: a in Released(pending, due) <==> Waits(pending, a) && Place(pending, a) in due
    ensures Ordered(pending, Released(pending, due))
  {
    ReleaseElements(pending, due);
    if due != [] {
      var n := |due| - 1;
      var head, tail := Released(pending, due[..n]), Contents(pending[due[n].key]);
      ReleaseInOrder(pending, due[..n]);
      ContentsElements(pending, due[n].key);
      forall a | a in head ensures Waits(pending, a) && DueBefore(Place(pending, a), due[n]) {
        EarlierPlaces(pending, due, n, a);
      }
      AppendGroup(pending, head, tail, due[n]);
    }
  }

  lemma SortedPlaces(pending: Pending, groups: set<Due>)
    requires groups <= AllGroups(pending)
    ensures Places(pending, InTurn(groups))
  {
  }

  /** What a flush at `now` releases: every update of every group whose wait has ended, and nothing else. */
  lemma FlushReleases(pending: Pending, window: int, now: Time, a: Arrival)
    requires PendingOk(pending)
    ensures a in FlushedDue(pending, window, now) <==>
      Waits(pending, a) && pending[KeyOfArrival(a)].first + window <= now
    ensures Waits(Undue(pending, window, now), a) <==>
      Waits(pending, a) && pending[KeyOfArrival(a)].first + window > now
    ensures a in FlushedAll(pending) <==> Waits(pending, a)
  {
    SortedPlaces(pending, DueGroups(pending, window, now));
    ReleaseInOrder(pending, InTurn(DueGroups(pending, window, now)));
    SortedPlaces(pending, AllGroups(pending));
    ReleaseInOrder(pending, InTurn(AllGroups(pending)));
  }

  lemma FlushIsOrdered(pending: Pending, groups: set<Due>, i: nat, j: nat)
    requires PendingOk(pending) && groups <= AllGroups(pending) && i < j < |Released(pending, InTurn(groups))|
    ensures InReleaseOrder(pending, Released(pending, InTurn(groups))[i], Released(pending, InTurn(groups))[j])
  {
    SortedPlaces(pending, groups);
    ReleaseInOrder(pending, InTurn(groups));
  }

  // ---------------------------------------------------------------- runs

  datatype Op = Update(message: Delivery, now: Time) | Tick(now: Time) | Stop

  /** The buffer, every update accepted so far, and every update released so far. */
  datatype State = State(pending: Pending, accepted: seq<Delivery>, released: seq<Arrival>)

  function Newest(s: State, message: Delivery): Arrival { Arrival(|s.accepted|, message) }

  /** What one call returns. */
  ghost function Returned(s: State, op: Op, window: int): seq<Arrival> {
    match op
    case Update(m, now) => FlushedDue(s.pending, window, now) + if m.group.None? then [Newest(s, m)] else []
    case Tick(now) => FlushedDue(s.pending, window, now)
    case Stop => FlushedAll(s.pending)
  }

  ghost function After(s: State, op: Op, window: int): State {
    var released := s.released + Returned(s, op, window);
    match op
    case Update(m, now) =>
      var kept := Undue(s.pending, window, now);
      State(if m.group.None? then kept else Joined(kept, Newest(s, m), now), s.accepted + [m], released)
    case Tick(now) => State(Undue(s.pending, window, now), s.accepted, released)
    case Stop => State(map[], s.accepted, released)
  }

  ghost function Run(ops: seq<Op>, window: int): State {
    if ops == [] then State(map[], [], []) else After(Run(ops[..|ops| - 1], window), ops[|ops| - 1], window)
  }

  predicate IsAccepted(s: State, a: Arrival) { a.serial < |s.accepted| && s.accepted[a.serial] == a.message }

  /** A later update of the same component in the same group took the slot while this one waited. */
  ghost predicate Superseded(s: State, a: Arrival) {
    exists j ::
      a.serial < j < |s.accepted| && s.accepted[j].group.Some? && SlotOf(Arrival(j, s.accepted[j])) == SlotOf(a)
  }

  ghost predicate Accounted(s: State, a: Arrival) { a in s.released || Waits(s.pending, a) || Superseded(s, a) }

  predicate NoTwice(updates: seq<Arrival>) { forall i, j | 0 <= i < j < |updates| :: updates[i] != updates[j] }

  ghost predicate Inv(s: State) {
    && PendingOk(s.pending)
    && (forall a | a in s.released :: IsAccepted(s, a))
    && (forall a | Waits(s.pending, a) :: IsAccepted(s, a) && a !in s.released)
    && NoTwice(s.released)
    && (forall a | IsAccepted(s, a) :: Accounted(s, a))
  }

  lemma FlushedOnce(pending: Pending, groups: set<Due>)
    requires PendingOk(pending) && groups <= AllGroups(pending)
    ensures NoTwice(Released(pending, InTurn(groups)))
  {
    var out := Released(pending, InTurn(groups));
    forall i, j | 0 <= i < j < |out| ensures out[i] != out[j] { FlushIsOrdered(pending, groups, i, j); }
  }

  lemma UndueOk(pending: Pending, window: int, now: Time)
    requires PendingOk(pending)
    ensures PendingOk(Undue(pending, window, now))
  {
  }

  lemma DueMoves(pending: Pending, window: int, now: Time)
    requires PendingOk(pending)
    ensures var out, left := FlushedDue(pending, window, now), Undue(pending, window, now);
      NoTwice(out) && PendingOk(left) && forall a ::
        (Waits(pending, a) <==> a in out || Waits(left, a)) && !(a in out && Waits(left, a))
  {
    UndueOk(pending, window, now);
    FlushedOnce(pending, DueGroups(pending, window, now));
    forall a ensures var out, left := FlushedDue(pending, window, now), Undue(pending, window, now);
      (Waits(pending, a) <==> a in out || Waits(left, a)) && !(a in out && Waits(left, a))
    {
      FlushReleases(pending, window, now, a);
    }
  }

  /** Flushing moves updates from the waiting ones to the released ones and loses none. */
  lemma TickKeeps(s: State, now: Time, window: int)
    requires Inv(s)
    ensures Inv(After(s, Tick(now), window))
  {
    DueMoves(s.pending, window, now);
    MovedKeeps(s, After(s, Tick(now), window), FlushedDue(s.pending, window, now));
  }

  lemma StopKeeps(s: State, window: int)
    requires Inv(s)
    ensures Inv(After(s, Stop, window))
  {
    FlushedOnce(s.pending, AllGroups(s.pending));
    forall a ensures a in FlushedAll(s.pending) <==> Waits(s.pending, a) { FlushReleases(s.pending, window, 0, a); }
    MovedKeeps(s, After(s, Stop, window), FlushedAll(s.pending));
  }

  lemma MovedKeeps(s: State, v: State, out: seq<Arrival>)
    requires Inv(s) && PendingOk(v.pending) && v.accepted == s.accepted && v.released == s.released + out
    requires NoTwice(out)
    requires forall a ::
      (Waits(s.pending, a) <==> a in out || Waits(v.pending, a)) && !(a in out && Waits(v.pending, a))
    ensures Inv(v)
  {
    forall i, j | 0 <= i < j < |v.released| ensures v.released[i] != v.released[j] {
      if i < |s.released| <= j {
        assert v.released[i] in s.released && v.released[j] in out;
      }
    }
    forall a | IsAccepted(v, a) ensures Accounted(v, a) {
      assert Accounted(s, a);
      if Superseded(s, a) {
        var j :| a.serial < j < |s.accepted| && s.accepted[j].group.Some?
          && SlotOf(Arrival(j, s.accepted[j])) == SlotOf(a);
        assert Superseded(v, a);
      }
    }
  }

  /** The accepted updates grow by one that is released at once or takes its slot. */
  lemma AcceptKeeps(s: State, v: State, m: Delivery, now: Time)
    requires Inv(s) && v.accepted == s.accepted + [m]
    requires if m.group.None? then v.pending == s.pending && v.released == s.released + [Newest(s, m)]
      else v.pending == Joined(s.pending, Newest(s, m), now) && v.released == s.released
    ensures Inv(v)
  {
    var a := Newest(s, m);
    if m.group.Some? { JoinedOk(s.pending, a, now); }
    forall b
      ensures Waits(v.pending, b) <==>
        (m.group.Some? && b == a) || (Waits(s.pending, b) && !(m.group.Some? && SlotOf(b) == SlotOf(a)))
    {
      JoinedWaits(s.pending, a, now, b);
    }
    forall b | IsAccepted(s, b) ensures IsAccepted(v, b) && Accounted(v, b) { StillAccounted(s, v, m, b); }
    assert IsAccepted(v, a);
    forall i | 0 <= i < |s.released| ensures s.released[i] != a { assert s.released[i] in s.released; }
    forall b | IsAccepted(v, b) ensures Accounted(v, b) { assert b == a || IsAccepted(s, b); }
  }

  lemma JoinedWaits(pending: Pending, a: Arrival, now: Time, b: Arrival)
    requires PendingOk(pending)
    ensures a.message.group.Some? ==>
      (Waits(Joined(pending, a, now), b) <==> b == a || (Waits(pending, b) && SlotOf(b) != SlotOf(a)))
  {
  }

  lemma StillAccounted(s: State, v: State, m: Delivery, b: Arrival)
    requires Inv(s) && IsAccepted(s, b) && v.accepted == s.accepted + [m]
    requires forall x | x in s.released :: x in v.released
    requires Waits(s.pending, b) ==> Waits(v.pending, b) || (m.group.Some? && SlotOf(b) == SlotOf(Newest(s, m)))
    ensures IsAccepted(v, b) && Accounted(v, b)
  {
    assert Accounted(s, b);
    if Superseded(s, b) {
      var j :| b.serial < j < |s.accepted| && s.accepted[j].group.Some?
        && SlotOf(Arrival(j, s.accepted[j])) == SlotOf(b);
      assert v.accepted[j] == s.accepted[j];
    } else if b !in s.released && !Waits(v.pending, b) {
      assert v.accepted[|s.accepted|] == m;
    }
  }

  /** An update flushes first and is accepted then. */
  lemma UpdateFlushesFirst(s: State, m: Delivery, now: Time, window: int)
    ensures var flushed, v := After(s, Tick(now), window), After(s, Update(m, now), window);
      && v.accepted == flushed.accepted + [m]
      && v.pending == (if m.group.None? then flushed.pending else Joined(flushed.pending, Newest(flushed, m), now))
      && v.released == if m.group.None? then flushed.released + [Newest(flushed, m)] else flushed.released
  {
    var out := FlushedDue(s.pending, window, now);
    if m.group.None? {
      assert s.released + (out + [Newest(s, m)]) == s.released + out + [Newest(s, m)];
    } else {
      assert out + [] == out;
    }
  }

  lemma UpdateKeeps(s: State, m: Delivery, now: Time, window: int)
    requires Inv(s)
    ensures Inv(After(s, Update(m, now), window))
  {
    TickKeeps(s, now, window);
    UpdateFlushesFirst(s, m, now, window);
    AcceptKeeps(After(s, Tick(now), window), After(s, Update(m, now), window), m, now);
  }

  lemma StepKeeps(s: State, op: Op, window: int)
    requires Inv(s)
    ensures Inv(After(s, op, window))
  {
    match op
    case Tick(now) => TickKeeps(s, now, window);
    case Stop => StopKeeps(s, window);
    case Update(m, now) => UpdateKeeps(s, m, now, window);
  }

  lemma {:induction false} RunKeeps(ops: seq<Op>, window: int)
    ensures Inv(Run(ops, window))
  {
    if ops != [] {
      RunKeeps(ops[..|ops| - 1], window);
      StepKeeps(Run(ops[..|ops| - 1], window), ops[|ops| - 1], window);
    }
  }

  // ---------------------------------------------------------------- what callers rely on

  /**
   * Conservation: every accepted update is released exactly once, still waiting, or was
   * replaced while it waited by a later update of the same component; in particular the
   * newest update of a component is waiting or released exactly once.
   */
  lemma Conservation(ops: seq<Op>, window: int, i: nat)
    requires i < |Run(ops, window).accepted|
    ensures var s, a := Run(ops, window), Arrival(i, Run(ops, window).accepted[i]);
      && (a in s.released || Waits(s.pending, a) || Superseded(s, a))
      && (!Superseded(s, a) ==> (a in s.released <==> !Waits(s.pending, a)))
      && multiset(s.released)[a] <= 1
      && (forall b | b in s.released || Waits(s.pending, b) :: IsAccepted(s, b))
  {
    RunKeeps(ops, window);
    var s, a := Run(ops, window), Arrival(i, Run(ops, window).accepted[i]);
    assert IsAccepted(s, a) && Accounted(s, a);
    MultiplicityAtMostOne(s.released, a);
  }

  /**
   * After a call at `now` no group waits past its window, whatever
   * earlier clocks said; after a shutdown nothing waits.
   */
  lemma NothingOverdue(ops: seq<Op>, window: int, k: GroupKey)
    requires window > 0 && ops != [] && k in Run(ops, window).pending
    ensures var op := ops[|ops| - 1]; !op.Stop? && Run(ops, window).pending[k].first + window > op.now
  {
    var before, op := Run(ops[..|ops| - 1], window), ops[|ops| - 1];
    assert Run(ops, window) == After(before, op, window);
  }

  /** A flush takes a group whole or leaves it as it is. */
  lemma GroupsReleasedWhole(s: State, op: Op, window: int, a: Arrival, b: Arrival)
    requires PendingOk(s.pending) && Waits(s.pending, a) && Waits(s.pending, b) && KeyOfArrival(a) == KeyOfArrival(b)
    ensures a in Returned(s, op, window) <==> b in Returned(s, op, window)
  {
    var now := if op.Stop? then 0 else op.now;
    FlushReleases(s.pending, window, now, a);
    FlushReleases(s.pending, window, now, b);
    if op.Update? && op.message.group.None? { assert Newest(s, op.message) != a && Newest(s, op.message) != b; }
  }

  function Messages(updates: seq<Arrival>): (messages: seq<Delivery>)
    ensures |messages| == |updates|
  {
    seq(|updates|, i requires 0 <= i < |updates| => updates[i].message)
  }

  /** An update of a component that came grouped comes later with another group, or with none. */
  ghost predicate Regroups(accepted: seq<Delivery>) {
    exists i, j | 0 <= i < j < |accepted| ::
      SameComponent(accepted[i], accepted[j]) && accepted[i].group.Some? && accepted[j].group != accepted[i].group
  }

  predicate ComesFrom(accepted: seq<Delivery>, a: Arrival) { a.serial < |accepted| && accepted[a.serial] == a.message }

  /** Two updates of one component, the earlier of them grouped otherwise than the later. */
  lemma RegroupedPair(accepted: seq<Delivery>, a: Arrival, b: Arrival)
    requires ComesFrom(accepted, a) && ComesFrom(accepted, b) && SameComponent(a.message, b.message)
    requires a.message.group.Some? && a.message.group != b.message.group
    requires (a.serial < b.serial || b.message.group.Some?)
    ensures Regroups(accepted)
  {
    assert a.serial != b.serial;
  }

  lemma FlushHasEachComponentOnce(pending: Pending, groups: set<Due>, accepted: seq<Delivery>, i: nat, j: nat)
    requires PendingOk(pending) && groups <= AllGroups(pending) && !Regroups(accepted)
    requires forall a | Waits(pending, a) :: ComesFrom(accepted, a)
    requires i < j < |Released(pending, InTurn(groups))|
    ensures !SameComponent(Released(pending, InTurn(groups))[i].message, Released(pending, InTurn(groups))[j].message)
  {
    FlushIsOrdered(pending, groups, i, j);
    var a, b := Released(pending, InTurn(groups))[i], Released(pending, InTurn(groups))[j];
    if SameComponent(a.message, b.message) { RegroupedPair(accepted, a, b); }
  }

  lemma FlushedComponentsOnce(pending: Pending, groups: set<Due>, accepted: seq<Delivery>)
    requires PendingOk(pending) && groups <= AllGroups(pending) && !Regroups(accepted)
    requires forall a | Waits(pending, a) :: ComesFrom(accepted, a)
    ensures OncePerComponent(Messages(Released(pending, InTurn(groups))))
    ensures forall a | a in Released(pending, InTurn(groups)) :: Waits(pending, a)
  {
    var out := Released(pending, InTurn(groups));
    SortedPlaces(pending, groups);
    ReleaseInOrder(pending, InTurn(groups));
    forall i, j | 0 <= i < j < |out| ensures !SameComponent(out[i].message, out[j].message) {
      FlushHasEachComponentOnce(pending, groups, accepted, i, j);
    }
  }

  /** A message that stands alone is no component of a group released with it. */
  lemma AppendedComponentOnce(out: seq<Arrival>, a: Arrival, accepted: seq<Delivery>)
    requires OncePerComponent(Messages(out)) && !Regroups(accepted) && ComesFrom(accepted, a) && a.message.group.None?
    requires forall x | x in out :: ComesFrom(accepted, x) && x.serial < a.serial && x.message.group.Some?
    ensures OncePerComponent(Messages(out + [a]))
  {
    forall i | 0 <= i < |out| ensures !SameComponent(out[i].message, a.message) {
      assert out[i] in out;
      if SameComponent(out[i].message, a.message) { RegroupedPair(accepted, out[i], a); }
    }
    assert Messages(out + [a]) == Messages(out) + [a.message];
    assert forall i | 0 <= i < |out| :: Messages(out)[i] == out[i].message;
  }

  lemma BatchHoldsEachComponentOnce(s: State, op: Op, window: int)
    requires Inv(s) && !Regroups(After(s, op, window).accepted)
    ensures OncePerComponent(Messages(Returned(s, op, window)))
  {
    var accepted := After(s, op, window).accepted;
    WaitingWereAccepted(s, op, window);
    var groups := if op.Stop? then AllGroups(s.pending) else DueGroups(s.pending, window, op.now);
    FlushedComponentsOnce(s.pending, groups, accepted);
    if op.Update? && op.message.group.None? {
      AppendedComponentOnce(Released(s.pending, InTurn(groups)), Newest(s, op.message), accepted);
    } else {
      assert Returned(s, op, window) == Released(s.pending, InTurn(groups));
    }
  }

  /**
   * While no waiting component is regrouped no returned batch holds a component twice, so normalization never
   * refuses it for that.
   */
  lemma BatchesHoldEachComponentOnce(ops: seq<Op>, window: int)
    requires ops != [] && !Regroups(Run(ops, window).accepted)
    ensures OncePerComponent(Messages(Returned(Run(ops[..|ops| - 1], window), ops[|ops| - 1], window)))
  {
    RunKeeps(ops[..|ops| - 1], window);
    BatchHoldsEachComponentOnce(Run(ops[..|ops| - 1], window), ops[|ops| - 1], window);
  }

  lemma WaitingWereAccepted(s: State, op: Op, window: int)
    requires Inv(s)
    ensures forall a | Waits(s.pending, a) :: ComesFrom(After(s, op, window).accepted, a) && a.serial < |s.accepted|
    ensures op.Update? ==> ComesFrom(After(s, op, window).accepted, Newest(s, op.message))
  {
    forall a | Waits(s.pending, a) ensures ComesFrom(After(s, op, window).accepted, a) && a.serial < |s.accepted| {
      assert IsAccepted(s, a);
    }
  }

  // ---------------------------------------------------------------- when some schedule returns a component twice

  /** The call that follows these calls returns a component twice. */
  ghost predicate Repeats(init: seq<Op>, op: Op, window: int) {
    !OncePerComponent(Messages(Returned(Run(init, window), op, window)))
  }

  ghost predicate RepeatsAt(ops: seq<Op>, n: nat, window: int) {
    n < |ops| && Repeats(ops[..n], ops[n], window)
  }

  /** Clocks never go back. */
  predicate Timely(ops: seq<Op>) {
    forall i, j | 0 <= i < j < |ops| && !ops[i].Stop? && !ops[j].Stop? :: ops[i].now <= ops[j].now
  }

  /** Calls with clocks that never go back, accepting exactly these updates, one of which returns a component twice. */
  ghost predicate Doubles(ops: seq<Op>, window: int, accepted: seq<Delivery>) {
    Timely(ops) && AcceptedBy(ops) == accepted && exists n: nat :: RepeatsAt(ops, n, window)
  }

  function Updates(messages: seq<Delivery>, now: Time): (ops: seq<Op>)
    ensures |ops| == |messages|
  {
    seq(|messages|, i requires 0 <= i < |messages| => Update(messages[i], now))
  }

  /** The updates among the calls, in order. */
  function AcceptedBy(ops: seq<Op>): seq<Delivery> {
    if ops == [] then []
    else
      var op := ops[|ops| - 1];
      AcceptedBy(ops[..|ops| - 1]) + if op.Update? then [op.message] else []
  }

  lemma {:induction false} RunAccepts(ops: seq<Op>, window: int)
    ensures Run(ops, window).accepted == AcceptedBy(ops)
  {
    if ops != [] { RunAccepts(ops[..|ops| - 1], window); }
  }

  lemma {:induction false} UpdatesAccept(ops: seq<Op>, messages: seq<Delivery>, now: Time)
    ensures AcceptedBy(ops + Updates(messages, now)) == AcceptedBy(ops) + messages
  {
    if messages == [] {
      assert ops + Updates(messages, now) == ops;
    } else {
      var n := |messages| - 1;
      UpdatesAccept(ops, messages[..n], now);
      assert (ops + Updates(messages, now))[..|ops| + n] == ops + Updates(messages[..n], now);
      assert messages == messages[..n] + [messages[n]];
    }
  }

  lemma {:induction false} AcceptedGrow(some: seq<Op>, ops: seq<Op>)
    requires some <= ops
    ensures AcceptedBy(some) <= AcceptedBy(ops)
  {
    if |some| < |ops| { AcceptedGrow(some, ops[..|ops| - 1]); } else { assert some == ops; }
  }

  ghost predicate SlotTaken(pending: Pending, m: Delivery, serial: nat) {
    exists a :: Waits(pending, a) && SlotOf(a) == SlotOf(Arrival(serial, m))
  }

  /** At time zero nothing is due yet: every group that came is waiting since zero, every slot that came is taken. */
  ghost predicate AllWaiting(s: State, messages: seq<Delivery>) {
    && s.accepted == messages && PendingOk(s.pending) && (forall k | k in s.pending :: s.pending[k].first == 0)
    && forall i | 0 <= i < |messages| && messages[i].group.Some? :: SlotTaken(s.pending, messages[i], i)
  }

  lemma {:induction false} WaitingFromZero(messages: seq<Delivery>, window: int)
    requires window > 0
    ensures AllWaiting(Run(Updates(messages, 0), window), messages)
  {
    if messages != [] {
      var n := |messages| - 1;
      WaitingFromZero(messages[..n], window);
      assert Updates(messages, 0)[..n] == Updates(messages[..n], 0);
      NextWaits(Run(Updates(messages[..n], 0), window), messages[..n], messages[n], window);
      assert messages == messages[..n] + [messages[n]];
    }
  }

  lemma NextWaits(s: State, messages: seq<Delivery>, m: Delivery, window: int)
    requires window > 0 && AllWaiting(s, messages)
    ensures AllWaiting(After(s, Update(m, 0), window), messages + [m])
  {
    var v, a := After(s, Update(m, 0), window), Newest(s, m);
    assert Undue(s.pending, window, 0) == s.pending;
    if m.group.Some? { JoinedOk(s.pending, a, 0); }
    forall i | 0 <= i < |messages + [m]| && (messages + [m])[i].group.Some?
      ensures SlotTaken(v.pending, (messages + [m])[i], i)
    {
      JoinedWaits(s.pending, a, 0, a);
      if i == |messages| {
        assert Waits(v.pending, a);
      } else {
        var b :| Waits(s.pending, b) && SlotOf(b) == SlotOf(Arrival(i, messages[i]));
        JoinedWaits(s.pending, a, 0, b);
        if m.group.Some? && SlotOf(b) == SlotOf(a) { assert Waits(v.pending, a); } else { assert Waits(v.pending, b); }
      }
    }
  }

  lemma Twice(out: seq<Arrival>, a: Arrival, b: Arrival)
    requires a in out && b in out && a != b && SameComponent(a.message, b.message)
    ensures !OncePerComponent(Messages(out))
  {
    var i :| 0 <= i < |out| && out[i] == a;
    var j :| 0 <= j < |out| && out[j] == b;
    assert SameComponent(Messages(out)[i], Messages(out)[j]) && SameComponent(Messages(out)[j], Messages(out)[i]);
  }

  /** A shutdown that finds both groups of the component waiting returns both. */
  lemma StopReturnsBoth(s: State, accepted: seq<Delivery>, window: int, i: nat, j: nat)
    requires AllWaiting(s, accepted) && i < j < |accepted| && SameComponent(accepted[i], accepted[j])
    requires accepted[i].group.Some? && accepted[j].group.Some? && accepted[j].group != accepted[i].group
    ensures !OncePerComponent(Messages(Returned(s, Stop, window)))
  {
    var a :| Waits(s.pending, a) && SlotOf(a) == SlotOf(Arrival(i, accepted[i]));
    var b :| Waits(s.pending, b) && SlotOf(b) == SlotOf(Arrival(j, accepted[j]));
    FlushReleases(s.pending, window, 0, a);
    FlushReleases(s.pending, window, 0, b);
    Twice(Returned(s, Stop, window), a, b);
  }

  /** An ungrouped update that comes when the wait of its old group ends is returned after the group. */
  lemma LateUpdateReturnsBoth(s: State, accepted: seq<Delivery>, window: int, i: nat, m: Delivery)
    requires AllWaiting(s, accepted) && i < |accepted| && SameComponent(accepted[i], m)
    requires accepted[i].group.Some? && m.group.None?
    ensures !OncePerComponent(Messages(Returned(s, Update(m, window), window)))
  {
    var a :| Waits(s.pending, a) && SlotOf(a) == SlotOf(Arrival(i, accepted[i]));
    FlushReleases(s.pending, window, window, a);
    var out := Returned(s, Update(m, window), window);
    assert out[|out| - 1] == Newest(s, m) && a in out && Newest(s, m) in out;
    Twice(out, a, Newest(s, m));
  }

  /** Everything comes at time zero, then the buffer shuts down. */
  lemma StopDoubles(accepted: seq<Delivery>, window: int, i: nat, j: nat, ops: seq<Op>)
    requires window > 0 && i < j < |accepted| && SameComponent(accepted[i], accepted[j])
    requires accepted[i].group.Some? && accepted[j].group.Some? && accepted[j].group != accepted[i].group
    requires ops == Updates(accepted, 0) + [Stop]
    ensures RepeatsAt(ops, |accepted|, window)
  {
    var before := Updates(accepted, 0);
    WaitingFromZero(accepted, window);
    StopReturnsBoth(Run(before, window), accepted, window, i, j);
    assert ops[..|accepted|] == before;
  }

  lemma StopAccepts(accepted: seq<Delivery>, ops: seq<Op>)
    requires ops == Updates(accepted, 0) + [Stop]
    ensures Timely(ops) && AcceptedBy(ops) == accepted
  {
    UpdatesAccept([], accepted, 0);
    assert ops[..|accepted|] == Updates(accepted, 0) == [] + Updates(accepted, 0);
  }

  /** The ungrouped update and what follows come at the end of the wait of everything before. */
  lemma LateUpdateDoubles(accepted: seq<Delivery>, window: int, i: nat, j: nat, ops: seq<Op>)
    requires window > 0 && i < j < |accepted| && SameComponent(accepted[i], accepted[j])
    requires accepted[i].group.Some? && accepted[j].group.None?
    requires ops == Updates(accepted[..j], 0) + Updates(accepted[j..], window)
    ensures RepeatsAt(ops, j, window)
  {
    var before := Updates(accepted[..j], 0);
    WaitingFromZero(accepted[..j], window);
    LateUpdateReturnsBoth(Run(before, window), accepted[..j], window, i, accepted[j]);
    assert ops[..j] == before && ops[j] == Update(accepted[j], window);
  }

  lemma LateUpdateAccepts(accepted: seq<Delivery>, window: int, j: nat, ops: seq<Op>)
    requires window > 0 && j < |accepted| && ops == Updates(accepted[..j], 0) + Updates(accepted[j..], window)
    ensures Timely(ops) && AcceptedBy(ops) == accepted
  {
    UpdatesAccept([], accepted[..j], 0);
    UpdatesAccept(Updates(accepted[..j], 0), accepted[j..], window);
    assert accepted[..j] + accepted[j..] == accepted && [] + Updates(accepted[..j], 0) == Updates(accepted[..j], 0);
  }

  lemma LastRepeatRegroups(ops: seq<Op>, n: nat, window: int)
    requires |ops| == n + 1 && RepeatsAt(ops, n, window)
    ensures Regroups(AcceptedBy(ops))
  {
    RunKeeps(ops[..n], window);
    RunAccepts(ops, window);
    if !Regroups(AcceptedBy(ops)) { BatchHoldsEachComponentOnce(Run(ops[..n], window), ops[n], window); }
  }

  lemma RepeatMeansRegrouped(ops: seq<Op>, n: nat, window: int)
    requires RepeatsAt(ops, n, window)
    ensures Regroups(AcceptedBy(ops))
  {
    PrefixRepeats(ops, n, window);
    LastRepeatRegroups(ops[..n + 1], n, window);
    RegroupingStays(ops[..n + 1], ops);
  }

  lemma PrefixRepeats(ops: seq<Op>, n: nat, window: int)
    requires RepeatsAt(ops, n, window)
    ensures RepeatsAt(ops[..n + 1], n, window)
  {
    assert ops[..n + 1][..n] == ops[..n];
  }

  lemma DoublesMeansRegrouped(ops: seq<Op>, window: int, accepted: seq<Delivery>)
    requires Doubles(ops, window, accepted)
    ensures Regroups(accepted)
  {
    var n: nat :| RepeatsAt(ops, n, window);
    RepeatMeansRegrouped(ops, n, window);
  }

  lemma RegroupingStays(some: seq<Op>, ops: seq<Op>)
    requires some <= ops && Regroups(AcceptedBy(some))
    ensures Regroups(AcceptedBy(ops))
  {
    AcceptedGrow(some, ops);
    StillRegroups(AcceptedBy(some), AcceptedBy(ops));
  }

  lemma StillRegroups(some: seq<Delivery>, all: seq<Delivery>)
    requires some <= all && Regroups(some)
    ensures Regroups(all)
  {
    var i, j :| 0 <= i < j < |some| && SameComponent(some[i], some[j]) && some[i].group.Some?
      && some[j].group != some[i].group;
    assert all[i] == some[i] && all[j] == some[j];
  }

  /**
   * Some calls that accept these updates return a component twice in one batch exactly when a component that came
   * grouped comes later with another group or with none.
   */
  lemma RegroupedIsReturnedTwiceExactly(accepted: seq<Delivery>, window: int)
    requires window > 0
    ensures (exists ops :: Doubles(ops, window, accepted)) <==> Regroups(accepted)
  {
    forall ops | Doubles(ops, window, accepted) ensures Regroups(accepted) {
      DoublesMeansRegrouped(ops, window, accepted);
    }
    if Regroups(accepted) { RegroupedDoubles(accepted, window); }
  }

  lemma RegroupedDoubles(accepted: seq<Delivery>, window: int)
    requires window > 0 && Regroups(accepted)
    ensures exists ops :: Doubles(ops, window, accepted)
  {
    var i, j :| 0 <= i < j < |accepted|
      && SameComponent(accepted[i], accepted[j]) && accepted[i].group.Some? && accepted[j].group != accepted[i].group;
    if accepted[j].group.Some? {
      var ops := Updates(accepted, 0) + [Stop];
      StopDoubles(accepted, window, i, j, ops);
      StopAccepts(accepted, ops);
      assert Doubles(ops, window, accepted);
    } else {
      var ops := Updates(accepted[..j], 0) + Updates(accepted[j..], window);
      LateUpdateDoubles(accepted, window, i, j, ops);
      LateUpdateAccepts(accepted, window, j, ops);
      assert Doubles(ops, window, accepted);
    }
  }

  /**
   * A grouped component whose ungrouped update comes before its wait ends is returned alone: its group stays behind.
   */
  lemma EarlyUpdateIsReturnedAlone(s: State, m: Delivery, now: Time, window: int)
    requires PendingOk(s.pending) && m.group.None? && forall k | k in s.pending :: s.pending[k].first + window > now
    ensures Returned(s, Update(m, now), window) == [Newest(s, m)]
    ensures After(s, Update(m, now), window).pending == s.pending
  {
    assert Undue(s.pending, window, now) == s.pending;
    if FlushedDue(s.pending, window, now) != [] {
      var a := FlushedDue(s.pending, window, now)[0];
      FlushReleases(s.pending, window, now, a);
    }
  }
}
