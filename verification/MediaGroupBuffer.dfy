/** The in-memory buffer that holds album parts back until their group's wait is over. */
module MediaGroupBuffer {
  import opened Json
  import opened Ordering
  import opened Telegram

  /** One accepted update; the serial number tells repeated deliveries of equal content apart. */
  datatype Arrival = Arrival(serial: nat, message: Delivery)

  datatype GroupKey = GroupKey(channel: Id, group: int)

  datatype Waiting = Waiting(first: Time, messages: map<int, Arrival>)

  type Pending = map<GroupKey, Waiting>

  /** Where a grouped update waits. */
  datatype Slot = Slot(channel: Id, group: Option<int>, id: int)

  function SlotOf(a: Arrival): Slot { Slot(a.message.channel, a.message.group, a.message.part.id) }

  predicate Waits(pending: Pending, a: Arrival) {
    && a.message.group.Some?
    && var k := GroupKey(a.message.channel, a.message.group.value);
    && k in pending && a.message.part.id in pending[k].messages && pending[k].messages[a.message.part.id] == a
  }

  /** Every update waits in its own slot, and no group is empty. */
  predicate PendingOk(pending: Pending) {
    forall k | k in pending ::
      && pending[k].messages.Keys != {}
      && forall i | i in pending[k].messages :: SlotOf(pending[k].messages[i]) == Slot(k.channel, Some(k.group), i)
  }

  // ---------------------------------------------------------------- the order of release

  datatype Due = Due(first: Time, key: GroupKey)

  predicate DueBefore(a: Due, b: Due) {
    || a.first < b.first
    || (a.first == b.first && a.key.channel < b.key.channel)
    || (a.first == b.first && a.key.channel == b.key.channel && a.key.group < b.key.group)
  }

  predicate IdLess(a: int, b: int) { a < b }

  lemma ReleaseOrders()
    ensures TotalOrder(DueBefore) && TotalOrder(IdLess)
  {
  }

  predicate IsDue(w: Waiting, window: int, now: Time) { w.first + window <= now }

  function DueGroups(pending: Pending, window: int, now: Time): set<Due> {
    set k | k in pending && IsDue(pending[k], window, now) :: Due(pending[k].first, k)
  }

  function AllGroups(pending: Pending): set<Due> { set k | k in pending :: Due(pending[k].first, k) }

  /** The component IDs of a group, ascending. */
  ghost function IdsOf(w: Waiting): (ids: seq<int>)
    ensures |ids| == |w.messages.Keys| && forall id :: id in ids <==> id in w.messages
    ensures forall i, j | 0 <= i < j < |ids| :: ids[i] < ids[j]
  {
    ReleaseOrders();
    var ids := Arrangement(IdLess, w.messages.Keys);
    assert forall i, j | 0 <= i < j < |ids| :: IdLess(ids[i], ids[j]);
    ids
  }

  /** A group's updates by ascending message ID. */
  ghost function Contents(w: Waiting): (updates: seq<Arrival>)
    ensures |updates| == |w.messages.Keys|
  {
    var ids := IdsOf(w);
    seq(|ids|, i requires 0 <= i < |ids| => w.messages[ids[i]])
  }

  ghost function Released(pending: Pending, due: seq<Due>): seq<Arrival> {
    if due == [] then []
    else
      var key := due[|due| - 1].key;
      Released(pending, due[..|due| - 1]) + if key in pending then Contents(pending[key]) else []
  }

  ghost function InTurn(groups: set<Due>): (due: seq<Due>)
    ensures forall d :: d in due <==> d in groups
    ensures forall i, j | 0 <= i < j < |due| :: DueBefore(due[i], due[j])
  {
    ReleaseOrders();
    Arrangement(DueBefore, groups)
  }

  ghost function FlushedDue(pending: Pending, window: int, now: Time): seq<Arrival> {
    Released(pending, InTurn(DueGroups(pending, window, now)))
  }

  ghost function FlushedAll(pending: Pending): seq<Arrival> { Released(pending, InTurn(AllGroups(pending))) }

  function KeysIn(due: seq<Due>): set<GroupKey> { set d | d in due :: d.key }

  lemma DueKeys(pending: Pending, window: int, now: Time)
    ensures pending - KeysIn(InTurn(DueGroups(pending, window, now))) == Undue(pending, window, now)
    ensures pending - KeysIn(InTurn(AllGroups(pending))) == map[]
  {
    var due, all := InTurn(DueGroups(pending, window, now)), InTurn(AllGroups(pending));
    forall k | k in pending ensures k in KeysIn(due) <==> IsDue(pending[k], window, now) ensures k in KeysIn(all) {
      assert Due(pending[k].first, k) in all;
      if IsDue(pending[k], window, now) { assert Due(pending[k].first, k) in due; }
    }
  }

  /** The keys a flush releases are pending and differ from each other. */
  lemma SortedKeys(pending: Pending, groups: set<Due>)
    requires forall d | d in groups :: d.key in pending && d.first == pending[d.key].first
    ensures forall i | 0 <= i < |InTurn(groups)| :: InTurn(groups)[i].key in pending
    ensures forall i, j | 0 <= i < j < |InTurn(groups)| :: InTurn(groups)[i].key != InTurn(groups)[j].key
  {
    var due := InTurn(groups);
    forall i | 0 <= i < |due| ensures due[i] in groups { assert due[i] in due; }
  }

  method SortedGroups(groups: set<Due>) returns (due: seq<Due>)
    ensures due == InTurn(groups)
  {
    ReleaseOrders();
    due := InOrder(DueBefore, groups);
  }

  method SortedContents(w: Waiting) returns (updates: seq<Arrival>)
    ensures updates == Contents(w)
  {
    ReleaseOrders();
    var ids := InOrder(IdLess, w.messages.Keys);
    updates := seq(|ids|, i requires 0 <= i < |ids| => w.messages[ids[i]]);
  }

  function Undue(pending: Pending, window: int, now: Time): Pending {
    map k | k in pending && !IsDue(pending[k], window, now) :: pending[k]
  }

  function Joined(pending: Pending, a: Arrival, now: Time): Pending
    requires a.message.group.Some?
  {
    var k := GroupKey(a.message.channel, a.message.group.value);
    var w := if k in pending then pending[k] else Waiting(now, map[]);
    pending[k := w.(messages := w.messages[a.message.part.id := a])]
  }

  lemma FewerPending(pending: Pending, keys: set<GroupKey>)
    requires PendingOk(pending)
    ensures PendingOk(pending - keys)
  {
  }

  lemma JoinedOk(pending: Pending, a: Arrival, now: Time)
    requires PendingOk(pending) && a.message.group.Some?
    ensures PendingOk(Joined(pending, a, now))
  {
    var after := Joined(pending, a, now);
    forall k | k in after
      ensures after[k].messages.Keys != {}
      ensures forall i | i in after[k].messages :: SlotOf(after[k].messages[i]) == Slot(k.channel, Some(k.group), i)
    {
      assert k in pending ==> pending[k].messages.Keys != {};
      assert k == GroupKey(a.message.channel, a.message.group.value) ==> a.message.part.id in after[k].messages;
    }
  }

  /** Popping the next group off what is left after the first `n`. */
  lemma PopNext(pending: Pending, due: seq<Due>, n: nat)
    requires n < |due| && (forall i, j | 0 <= i < j < |due| :: due[i].key != due[j].key) && due[n].key in pending
    ensures var left := pending - KeysIn(due[..n]);
      due[n].key in left && left[due[n].key] == pending[due[n].key]
        && left - {due[n].key} == pending - KeysIn(due[..n + 1])
    ensures Released(pending, due[..n + 1]) == Released(pending, due[..n]) + Contents(pending[due[n].key])
  {
    assert due[..n + 1] == due[..n] + [due[n]];
    assert KeysIn(due[..n + 1]) == KeysIn(due[..n]) + {due[n].key} && due[n].key !in KeysIn(due[..n]);
    assert due[..n + 1][..n] == due[..n];
  }

  // ---------------------------------------------------------------- the buffer

  class MediaGroupAggregationBuffer {
    const window: int
    var pending: Pending

    predicate Valid()
      reads this
    {
      window > 0 && PendingOk(pending)
    }

    constructor (window: int)
      requires window > 0
      ensures Valid() && pending == map[] && this.window == window
    {
      this.window := window;
      pending := map[];
    }

    /** Accept one update; return it, if it stands alone, after the groups whose wait has ended. */
    method Add(a: Arrival, now: Time) returns (ready: seq<Arrival>)
      requires Valid()
      modifies this`pending
      ensures Valid()
      ensures ready == FlushedDue(old(pending), window, now) + if a.message.group.None? then [a] else []
      ensures pending ==
        if a.message.group.None? then Undue(old(pending), window, now)
          else Joined(Undue(old(pending), window, now), a, now)
    {
      ready := FlushDue(now);
      if a.message.group.None? { return ready + [a]; }
      JoinedOk(pending, a, now);
      var k := GroupKey(a.message.channel, a.message.group.value);
      var group := if k in pending then pending[k] else Waiting(now, map[]);
      pending := pending[k := group.(messages := group.messages[a.message.part.id := a])];
    }

    method FlushDue(now: Time) returns (ready: seq<Arrival>)
      requires Valid()
      modifies this`pending
      ensures Valid()
      ensures ready == FlushedDue(old(pending), window, now)
      ensures pending == Undue(old(pending), window, now)
    {
      var due := SortedGroups(DueGroups(pending, window, now));
      SortedKeys(pending, DueGroups(pending, window, now));
      DueKeys(pending, window, now);
      ready := Release(due);
    }

    method FlushAll() returns (ready: seq<Arrival>)
      requires Valid()
      modifies this`pending
      ensures Valid()
      ensures ready == FlushedAll(old(pending))
      ensures pending == map[]
    {
      var due := SortedGroups(AllGroups(pending));
      SortedKeys(pending, AllGroups(pending));
      DueKeys(pending, window, 0);
      ready := Release(due);
    }

    method Release(due: seq<Due>) returns (released: seq<Arrival>)
      requires Valid() && (forall i | 0 <= i < |due| :: due[i].key in pending)
      requires forall i, j | 0 <= i < j < |due| :: due[i].key != due[j].key
      modifies this`pending
      ensures Valid()
      ensures released == Released(old(pending), due)
      ensures pending == old(pending) - KeysIn(due)
    {
      released := [];
      ghost var before := pending;
      for n := 0 to |due|
        invariant released == Released(before, due[..n])
        invariant pending == before - KeysIn(due[..n])
      {
        PopNext(before, due, n);
        var group := pending[due[n].key];
        pending := pending - {due[n].key};
        var updates := SortedContents(group);
        released := released + updates;
      }
      assert due[..|due|] == due;
      FewerPending(before, KeysIn(due));
    }
  }
}
