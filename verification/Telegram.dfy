/** Telegram components and the logical messages they normalize to. */
module Telegram {
  import opened Json
  import opened Ordering

  type Id = nat
  type Time = int

  datatype Asset = Asset(id: string, snapshot: Json)

  /** One component with its current content; `TelegramMessagePart`. */
  datatype Part = Part(id: int, publishedAt: Time, editedAt: Option<Time>, text: Option<string>, metadata: Json,
    media: seq<Asset>)

  /** One delivered component; `TelegramMessage`. */
  datatype Delivery = Delivery(channel: Id, group: Option<int>, part: Part)

  datatype Logical = Logical(
    channel: Id,
    group: Option<int>,
    primary: int,
    ids: seq<int>,
    publishedAt: Time,
    editedAt: Option<Time>,
    text: Option<string>,
    metadata: seq<(int, Json)>,
    parts: seq<Part>,
    media: seq<Asset>)

  predicate AssetsDistinct(media: seq<Asset>) { forall i, j | 0 <= i < j < |media| :: media[i].id != media[j].id }

  predicate EditedAfter(editedAt: Option<Time>, publishedAt: Time) { editedAt.Some? ==> editedAt.value >= publishedAt }

  /** What the constructors of both component types check. */
  predicate PartOk(p: Part) { p.id > 0 && EditedAfter(p.editedAt, p.publishedAt) && AssetsDistinct(p.media) }

  predicate ById(a: Part, b: Part) { a.id < b.id }

  lemma IdOrder()
    ensures KeyOrder(ById)
  {
  }

  // ---------------------------------------------------------------- one logical message

  function Ids(parts: seq<Part>): (ids: seq<int>)
    ensures |ids| == |parts|
  {
    seq(|parts|, i requires 0 <= i < |parts| => parts[i].id)
  }

  function MetadataOf(parts: seq<Part>): (metadata: seq<(int, Json)>)
    ensures |metadata| == |parts|
  {
    seq(|parts|, i requires 0 <= i < |parts| => (parts[i].id, parts[i].metadata))
  }

  function MediaOf(parts: seq<Part>): seq<Asset> {
    if parts == [] then [] else parts[0].media + MediaOf(parts[1..])
  }

  function FirstText(parts: seq<Part>): Option<string> {
    if parts == [] then None else if parts[0].text.Some? then parts[0].text else FirstText(parts[1..])
  }

  function FirstPublished(parts: seq<Part>): Time
    requires parts != []
  {
    if |parts| == 1 then parts[0].publishedAt
    else
      var rest := FirstPublished(parts[1..]);
      if parts[0].publishedAt <= rest then parts[0].publishedAt else rest
  }

  /** A missing edit time is older than any edit time. */
  predicate NotLater(a: Option<Time>, b: Option<Time>) { a.None? || (b.Some? && a.value <= b.value) }

  function LastEdited(parts: seq<Part>): Option<Time> {
    if parts == [] then None
    else
      var rest := LastEdited(parts[1..]);
      if NotLater(parts[0].editedAt, rest) then rest else parts[0].editedAt
  }

  /** `_normalize_parts` on parts already sorted. */
  function Assemble(channel: Id, group: Option<int>, ordered: seq<Part>): Result<Logical> {
    if ordered == [] then Err("a logical Telegram message must contain at least one part")
    else if !AssetsDistinct(MediaOf(ordered)) then Err("a message cannot contain duplicate asset_id values")
    else if exists i, j :: 0 <= i < j < |ordered| && ordered[i].id == ordered[j].id then
      Err("telegram_message_ids must be unique")
    else if group.None? && |ordered| != 1 then Err("a non-grouped message must have exactly one component ID")
    else if !EditedAfter(LastEdited(ordered), FirstPublished(ordered)) then
      Err("edited_at must not be before published_at")
    else Ok(Logical(
      channel, group, ordered[0].id, Ids(ordered), FirstPublished(ordered), LastEdited(ordered), FirstText(ordered),
        MetadataOf(ordered), ordered, MediaOf(ordered)))
  }

  function Normalize(channel: Id, group: Option<int>, parts: seq<Part>): Result<Logical> {
    Assemble(channel, group, Sort(ById, parts))
  }

  /** Times of a non-empty part list are bounds that some part attains. */
  lemma {:induction false} TimesAreBounds(parts: seq<Part>)
    requires parts != []
    ensures (forall p | p in parts :: FirstPublished(parts) <= p.publishedAt)
    ensures exists p :: p in parts && p.publishedAt == FirstPublished(parts)
    ensures forall p | p in parts :: NotLater(p.editedAt, LastEdited(parts))
    ensures exists p :: p in parts && p.editedAt == LastEdited(parts)
  {
    if |parts| > 1 {
      TimesAreBounds(parts[1..]);
      assert parts[0] in parts && forall p :: p in parts <==> p == parts[0] || p in parts[1..];
    } else {
      assert parts[0] in parts;
    }
  }

  lemma {:induction false} MediaOfMore(parts: seq<Part>, p: Part)
    ensures MediaOf(parts + [p]) == MediaOf(parts) + p.media
  {
    if parts == [] {
      assert parts + [p] == [p] && MediaOf([p]) == p.media + MediaOf([]);
    } else {
      MediaOfMore(parts[1..], p);
      assert (parts + [p])[1..] == parts[1..] + [p];
    }
  }

  function MediaLists(parts: seq<Part>): (lists: seq<seq<Asset>>)
    ensures |lists| == |parts|
  {
    seq(|parts|, i requires 0 <= i < |parts| => parts[i].media)
  }

  lemma {:induction false} MediaConcatenates(parts: seq<Part>) returns (starts: seq<nat>)
    ensures Concatenates(MediaLists(parts), starts, MediaOf(parts))
  {
    if parts == [] {
      starts := [0];
    } else {
      var init, last := parts[..|parts| - 1], parts[|parts| - 1];
      starts := MediaConcatenates(init);
      MediaOfMore(init, last);
      ConcatenatesMore(MediaLists(init), starts, MediaOf(init), last.media);
      assert parts == init + [last] && MediaLists(parts) == MediaLists(init) + [last.media];
      starts := starts + [|MediaOf(init)| + |last.media|];
    }
  }

  /** The text of the part with the smallest ID among those that have one. */
  ghost predicate TextIsFirst(text: Option<string>, parts: seq<Part>) {
    match text
    case None => forall p | p in parts :: p.text.None?
    case Some(_) => exists p :: p in parts && p.text == text && forall q | q in parts && q.text.Some? :: p.id <= q.id
  }

  predicate PartsListed(m: Logical) {
    && m.parts != [] && (forall i, j | 0 <= i < j < |m.parts| :: m.parts[i].id < m.parts[j].id)
    && (m.group.None? ==> |m.parts| == 1)
    && |m.ids| == |m.metadata| == |m.parts|
    && forall i | 0 <= i < |m.parts| ::
         m.ids[i] == m.parts[i].id && m.metadata[i] == (m.parts[i].id, m.parts[i].metadata)
  }

  ghost predicate TimesBound(m: Logical) {
    && (exists p :: p in m.parts && p.publishedAt == m.publishedAt)
    && (forall p | p in m.parts :: m.publishedAt <= p.publishedAt)
    && (exists p :: p in m.parts && p.editedAt == m.editedAt)
    && (forall p | p in m.parts && p.editedAt.Some? :: m.editedAt.Some? && p.editedAt.value <= m.editedAt.value)
  }

  ghost predicate MediaListed(m: Logical) {
    && (exists starts :: Concatenates(MediaLists(m.parts), starts, m.media))
    && forall i, j | 0 <= i < j < |m.media| :: m.media[i].id != m.media[j].id
  }

  /** What each field of a logical message says of its parts. */
  ghost predicate Tells(m: Logical) {
    && PartsListed(m) && TimesBound(m) && TextIsFirst(m.text, m.parts) && MediaListed(m)
    && (exists p :: p in m.parts && p.id == m.primary) && (forall p | p in m.parts :: m.primary <= p.id)
  }

  lemma {:induction false} TextOfOrdered(ordered: seq<Part>)
    requires forall i, j | 0 <= i < j < |ordered| :: ordered[i].id < ordered[j].id
    ensures TextIsFirst(FirstText(ordered), ordered)
  {
    if ordered != [] {
      var first, rest := ordered[0], ordered[1..];
      assert first in ordered && forall p :: p in ordered <==> p == first || p in rest;
      forall p | p in rest ensures first.id < p.id {
        var i :| 0 <= i < |rest| && rest[i] == p;
        assert ordered[i + 1] == p;
      }
      if first.text.None? { TextOfOrdered(rest); }
    }
  }

  lemma Untied(ordered: seq<Part>)
    requires Ascending(ById, ordered) && forall i, j | 0 <= i < j < |ordered| :: ordered[i].id != ordered[j].id
    ensures forall i, j | 0 <= i < j < |ordered| :: ordered[i].id < ordered[j].id
  {
    forall i, j | 0 <= i < j < |ordered| ensures ordered[i].id < ordered[j].id {
      assert !ById(ordered[j], ordered[i]);
    }
  }

  lemma AssembleTells(channel: Id, group: Option<int>, ordered: seq<Part>)
    requires Assemble(channel, group, ordered).Ok? && Ascending(ById, ordered)
    ensures Tells(Assemble(channel, group, ordered).value)
  {
    Untied(ordered);
    TimesAreBounds(ordered);
    TextOfOrdered(ordered);
    var _ := MediaConcatenates(ordered);
    assert ordered[0] in ordered;
  }

  /** A normalized message tells of exactly the parts it was made of. */
  lemma NormalizeTells(channel: Id, group: Option<int>, parts: seq<Part>)
    requires Normalize(channel, group, parts).Ok?
    ensures var m := Normalize(channel, group, parts).value;
      Tells(m) && multiset(m.parts) == multiset(parts) && m.channel == channel && m.group == group
  {
    IdOrder();
    SortSorts(ById, parts);
    AssembleTells(channel, group, Sort(ById, parts));
  }

  /** Sound parts never have their last edit before their first publication. */
  lemma TimesInOrder(parts: seq<Part>)
    requires parts != [] && forall p | p in parts :: PartOk(p)
    ensures EditedAfter(LastEdited(parts), FirstPublished(parts))
  {
    TimesAreBounds(parts);
    var p :| p in parts && p.editedAt == LastEdited(parts);
    assert PartOk(p);
  }

  lemma AssembleSucceeds(channel: Id, group: Option<int>, ordered: seq<Part>)
    requires ordered != [] && StrictlyAscending(ById, ordered) && (forall p | p in ordered :: PartOk(p))
    requires group.None? ==> |ordered| == 1
    ensures Assemble(channel, group, ordered).Ok? <==> AssetsDistinct(MediaOf(ordered))
  {
    TimesInOrder(ordered);
    forall i, j | 0 <= i < j < |ordered| ensures ordered[i].id != ordered[j].id { assert ById(ordered[i], ordered[j]); }
  }

  /** Sound parts with different IDs, one of them unless grouped, make a message unless two assets share an ID. */
  lemma NormalizeSucceeds(channel: Id, group: Option<int>, parts: seq<Part>)
    requires parts != [] && DistinctKeys(ById, parts) && (forall p | p in parts :: PartOk(p))
    requires group.None? ==> |parts| == 1
    ensures Normalize(channel, group, parts).Ok? <==> AssetsDistinct(MediaOf(Sort(ById, parts)))
  {
    IdOrder();
    SortStrict(ById, parts);
    AssembleSucceeds(channel, group, Sort(ById, parts));
  }

  /** Parts with different IDs: only which parts there are matters, not their order. */
  lemma NormalizeSame(channel: Id, group: Option<int>, s: seq<Part>, t: seq<Part>)
    requires DistinctKeys(ById, s) && DistinctKeys(ById, t) && forall p :: p in s <==> p in t
    ensures Sort(ById, s) == Sort(ById, t) && Normalize(channel, group, s) == Normalize(channel, group, t)
  {
    IdOrder();
    SortStrict(ById, s);
    SortStrict(ById, t);
    StrictSameLength(ById, Sort(ById, s), Sort(ById, t));
    StrictArrangementUnique(ById, Sort(ById, s), Sort(ById, t));
  }

  /** Normalizing what a message is made of gives that message back. */
  lemma NormalizeIdempotent(channel: Id, group: Option<int>, parts: seq<Part>)
    requires Normalize(channel, group, parts).Ok? && DistinctKeys(ById, parts)
    ensures var m := Normalize(channel, group, parts).value; Normalize(channel, group, m.parts) == Ok(m)
  {
    IdOrder();
    SortStrict(ById, parts);
    NormalizeSame(channel, group, parts, Sort(ById, parts));
  }

  // ---------------------------------------------------------------- one batch of deliveries

  /** The stable identity of a logical message. */
  datatype Key = Regular(channel: Id, id: int) | Album(channel: Id, group_: int)
  {
    function Group(): Option<int> { if Album? then Some(group_) else None }
  }

  function KeyOf(d: Delivery): Key {
    match d.group
    case None => Regular(d.channel, d.part.id)
    case Some(g) => Album(d.channel, g)
  }

  function KeyOfLogical(m: Logical): Key {
    match m.group
    case None => Regular(m.channel, m.primary)
    case Some(g) => Album(m.channel, g)
  }

  predicate SameComponent(a: Delivery, b: Delivery) { a.channel == b.channel && a.part.id == b.part.id }

  predicate OncePerComponent(batch: seq<Delivery>) {
    forall i, j | 0 <= i < j < |batch| :: !SameComponent(batch[i], batch[j])
  }

  predicate Mentions(batch: seq<Delivery>, k: Key) { exists i :: 0 <= i < |batch| && KeyOf(batch[i]) == k }

  function PartsFor(batch: seq<Delivery>, k: Key): seq<Part> {
    if batch == [] then []
    else
      var last := batch[|batch| - 1];
      PartsFor(batch[..|batch| - 1], k) + if KeyOf(last) == k then [last.part] else []
  }

  function LogicalFor(batch: seq<Delivery>, k: Key): Result<Logical> {
    Normalize(k.channel, k.Group(), PartsFor(batch, k))
  }

  predicate Before(a: Logical, b: Logical) {
    || a.channel < b.channel
    || (a.channel == b.channel && a.primary < b.primary)
    || (a.channel == b.channel && a.primary == b.primary && a.group.None? && b.group.Some?)
  }

  /** The normal form of a batch: one message for each key, strictly sorted. */
  ghost predicate NormalForm(batch: seq<Delivery>, r: seq<Logical>) {
    && StrictlyAscending(Before, r)
    && forall m :: m in r <==> exists k :: Mentions(batch, k) && LogicalFor(batch, k) == Ok(m)
  }

  function AsDelivery(k: Key, p: Part): Delivery { Delivery(k.channel, k.Group(), p) }

  /** The part was delivered under this key. */
  predicate DeliveredAs(batch: seq<Delivery>, k: Key, p: Part) {
    AsDelivery(k, p) in batch && (k.Regular? ==> p.id == k.id)
  }

  lemma KeyOfDelivery(d: Delivery, k: Key)
    ensures KeyOf(d) == k <==> d == AsDelivery(k, d.part) && (k.Regular? ==> d.part.id == k.id)
  {
  }

  lemma {:induction false} PartsForElements(batch: seq<Delivery>, k: Key)
    ensures forall p :: p in PartsFor(batch, k) <==> DeliveredAs(batch, k, p)
  {
    if batch != [] {
      var n := |batch| - 1;
      PartsForElements(batch[..n], k);
      KeyOfDelivery(batch[n], k);
      assert batch == batch[..n] + [batch[n]];
    }
  }

  lemma OnceInPrefix(batch: seq<Delivery>, n: nat)
    requires OncePerComponent(batch) && n < |batch|
    ensures OncePerComponent(batch[..n]) && forall d | d in batch[..n] :: !SameComponent(d, batch[n])
  {
  }

  lemma {:induction false} PartsForDistinct(batch: seq<Delivery>, k: Key)
    requires OncePerComponent(batch)
    ensures DistinctKeys(ById, PartsFor(batch, k))
    ensures k.Regular? ==> |PartsFor(batch, k)| <= 1
  {
    if batch != [] {
      var n := |batch| - 1;
      OnceInPrefix(batch, n);
      PartsForDistinct(batch[..n], k);
      PartsForElements(batch[..n], k);
      KeyOfDelivery(batch[n], k);
      var before := PartsFor(batch[..n], k);
      if KeyOf(batch[n]) == k {
        forall p | p in before ensures p.id != batch[n].part.id && k.Album? {
          assert !SameComponent(AsDelivery(k, p), batch[n]);
        }
        if before != [] { assert before[0] in before; }
      }
    }
  }

  lemma {:induction false} MentionedHaveParts(batch: seq<Delivery>, k: Key)
    ensures PartsFor(batch, k) != [] <==> Mentions(batch, k)
  {
    if batch != [] {
      var n := |batch| - 1;
      MentionedHaveParts(batch[..n], k);
      MentionsMore(batch[..n], batch[n], k);
      assert batch == batch[..n] + [batch[n]];
    }
  }

  lemma LogicalOrder()
    ensures KeyOrder(Before)
  {
  }

  /** The message of a key takes its primary ID from one of the deliveries of that key. */
  lemma PrimaryIsDelivered(batch: seq<Delivery>, k: Key) returns (first: Part)
    requires OncePerComponent(batch) && LogicalFor(batch, k).Ok?
    ensures DeliveredAs(batch, k, first) && first.id == LogicalFor(batch, k).value.primary
    ensures var m := LogicalFor(batch, k).value; m.channel == k.channel && m.group == k.Group() && KeyOfLogical(m) == k
    ensures forall p :: p in LogicalFor(batch, k).value.parts <==> DeliveredAs(batch, k, p)
  {
    var parts := PartsFor(batch, k);
    PartsForElements(batch, k);
    PartsForDistinct(batch, k);
    IdOrder();
    SortStrict(ById, parts);
    first := Sort(ById, parts)[0];
    assert first in Sort(ById, parts);
  }

  lemma SameDelivery(batch: seq<Delivery>, a: Delivery, b: Delivery)
    requires OncePerComponent(batch) && a in batch && b in batch && SameComponent(a, b)
    ensures a == b
  {
  }

  lemma KeysGiveDifferentMessages(batch: seq<Delivery>, a: Key, b: Key)
    requires OncePerComponent(batch) && LogicalFor(batch, a).Ok? && LogicalFor(batch, b).Ok? && a != b
    ensures Before(LogicalFor(batch, a).value, LogicalFor(batch, b).value)
      || Before(LogicalFor(batch, b).value, LogicalFor(batch, a).value)
  {
    var p := PrimaryIsDelivered(batch, a);
    var q := PrimaryIsDelivered(batch, b);
    var d, e := AsDelivery(a, p), AsDelivery(b, q);
    KeyOfDelivery(d, a);
    KeyOfDelivery(e, b);
    if SameComponent(d, e) { SameDelivery(batch, d, e); }
  }

  /** The batches that `normalize_telegram_messages` refuses. */
  ghost predicate Refused(batch: seq<Delivery>) {
    !OncePerComponent(batch) || exists k :: Mentions(batch, k) && LogicalFor(batch, k).Err?
  }

  /** The batch sorted into regular deliveries and album parts, in order of arrival. */
  ghost predicate Sorted(batch: seq<Delivery>, regular: seq<Delivery>, groups: map<Key, seq<Part>>, order: seq<Key>) {
    && (forall k :: k in groups <==> k.Album? && Mentions(batch, k))
    && (forall k | k in groups :: groups[k] == PartsFor(batch, k))
    && (forall k :: k in order <==> k in groups)
    && (forall i, j | 0 <= i < j < |order| :: order[i] != order[j])
    && (forall d :: d in regular <==> d in batch && d.group.None?)
    && (forall i, j | 0 <= i < j < |regular| :: KeyOf(regular[i]) != KeyOf(regular[j]))
  }

  lemma MentionsMore(batch: seq<Delivery>, d: Delivery, k: Key)
    ensures Mentions(batch + [d], k) <==> Mentions(batch, k) || KeyOf(d) == k
    ensures PartsFor(batch + [d], k) == PartsFor(batch, k) + if KeyOf(d) == k then [d.part] else []
  {
    assert (batch + [d])[..|batch|] == batch;
    if Mentions(batch, k) {
      var i :| 0 <= i < |batch| && KeyOf(batch[i]) == k;
      assert KeyOf((batch + [d])[i]) == k;
    }
    if KeyOf(d) == k { assert KeyOf((batch + [d])[|batch|]) == k; }
  }

  function NextRegular(regular: seq<Delivery>, d: Delivery): seq<Delivery> {
    if d.group.None? then regular + [d] else regular
  }

  function NextGroups(groups: map<Key, seq<Part>>, d: Delivery): map<Key, seq<Part>> {
    var k := KeyOf(d);
    if d.group.None? then groups else groups[k := (if k in groups then groups[k] else []) + [d.part]]
  }

  function NextOrder(groups: map<Key, seq<Part>>, order: seq<Key>, d: Delivery): seq<Key> {
    if d.group.None? || KeyOf(d) in groups then order else order + [KeyOf(d)]
  }

  lemma SortedStep(batch: seq<Delivery>, d: Delivery, regular: seq<Delivery>, groups: map<Key, seq<Part>>,
      order: seq<Key>)
    requires Sorted(batch, regular, groups, order) && forall i | 0 <= i < |batch| :: !SameComponent(batch[i], d)
    ensures Sorted(batch + [d], NextRegular(regular, d), NextGroups(groups, d), NextOrder(groups, order, d))
  {
    forall k ensures Mentions(batch + [d], k) <==> Mentions(batch, k) || KeyOf(d) == k
             ensures PartsFor(batch + [d], k) == PartsFor(batch, k) + if KeyOf(d) == k then [d.part] else []
    {
      MentionsMore(batch, d, k);
    }
    if d.group.None? {
      forall x | x in regular ensures KeyOf(x) != KeyOf(d) {
        var i :| 0 <= i < |batch| && batch[i] == x;
        assert !SameComponent(batch[i], d);
      }
    } else if KeyOf(d) !in groups {
      MentionedHaveParts(batch, KeyOf(d));
    }
  }

  function KeysOf(regular: seq<Delivery>, order: seq<Key>): (keys: seq<Key>)
    ensures |keys| == |regular| + |order|
  {
    seq(|regular|, i requires 0 <= i < |regular| => KeyOf(regular[i])) + order
  }

  lemma KeyIsListed(batch: seq<Delivery>, regular: seq<Delivery>, groups: map<Key, seq<Part>>, order: seq<Key>, k: Key)
    requires Sorted(batch, regular, groups, order) && Mentions(batch, k)
    ensures k in KeysOf(regular, order)
  {
    var keys := KeysOf(regular, order);
    if k.Regular? {
      var i :| 0 <= i < |batch| && KeyOf(batch[i]) == k;
      assert batch[i] in batch && batch[i] in regular;
      var j :| 0 <= j < |regular| && regular[j] == batch[i];
      assert keys[j] == k;
    } else {
      assert k in order;
      var j :| 0 <= j < |order| && order[j] == k;
      assert keys[|regular| + j] == k;
    }
  }

  lemma ListedIsMentioned(batch: seq<Delivery>, regular: seq<Delivery>, groups: map<Key, seq<Part>>, order: seq<Key>,
      j: nat)
    requires Sorted(batch, regular, groups, order) && j < |KeysOf(regular, order)|
    ensures Mentions(batch, KeysOf(regular, order)[j])
    ensures KeysOf(regular, order)[j].Regular? <==> j < |regular|
  {
    if j < |regular| {
      assert regular[j] in regular;
      KeyIsMentioned(batch, regular[j]);
    } else {
      assert order[j - |regular|] in order;
    }
  }

  /** The keys of a sorted batch: each mentioned key once. */
  lemma KeysAreMentioned(batch: seq<Delivery>, regular: seq<Delivery>, groups: map<Key, seq<Part>>, order: seq<Key>)
    requires Sorted(batch, regular, groups, order)
    ensures forall k :: k in KeysOf(regular, order) <==> Mentions(batch, k)
    ensures forall i, j | 0 <= i < j < |KeysOf(regular, order)| ::
      KeysOf(regular, order)[i] != KeysOf(regular, order)[j]
  {
    var keys := KeysOf(regular, order);
    forall k | Mentions(batch, k) ensures k in keys { KeyIsListed(batch, regular, groups, order, k); }
    forall j | 0 <= j < |keys| ensures Mentions(batch, keys[j]) && (keys[j].Regular? <==> j < |regular|) {
      ListedIsMentioned(batch, regular, groups, order, j);
    }
    forall i, j | 0 <= i < j < |keys| ensures keys[i] != keys[j] {
      assert |regular| <= i ==> keys[i] == order[i - |regular|] && keys[j] == order[j - |regular|];
    }
  }

  lemma SortedIsNormal(batch: seq<Delivery>, keys: seq<Key>, all: seq<Logical>)
    requires OncePerComponent(batch) && |all| == |keys|
    requires forall k :: k in keys <==> Mentions(batch, k)
    requires forall i, j | 0 <= i < j < |keys| :: keys[i] != keys[j]
    requires forall i | 0 <= i < |keys| :: LogicalFor(batch, keys[i]) == Ok(all[i])
    ensures NormalForm(batch, Sort(Before, all))
  {
    forall i, j | 0 <= i < j < |all| ensures Before(all[i], all[j]) || Before(all[j], all[i]) {
      KeysGiveDifferentMessages(batch, keys[i], keys[j]);
    }
    LogicalOrder();
    SortStrict(Before, all);
    forall m ensures m in all <==> exists k :: Mentions(batch, k) && LogicalFor(batch, k) == Ok(m) {
      if m in all {
        var i :| 0 <= i < |all| && all[i] == m;
        assert keys[i] in keys && LogicalFor(batch, keys[i]) == Ok(m);
      }
      if k :| Mentions(batch, k) && LogicalFor(batch, k) == Ok(m) {
        assert k in keys;
        var i :| 0 <= i < |keys| && keys[i] == k;
        assert all[i] == m;
      }
    }
  }

  lemma SinglePart(batch: seq<Delivery>, d: Delivery)
    requires OncePerComponent(batch) && d in batch && d.group.None?
    ensures PartsFor(batch, KeyOf(d)) == [d.part]
  {
    PartsForElements(batch, KeyOf(d));
    PartsForDistinct(batch, KeyOf(d));
    assert d == AsDelivery(KeyOf(d), d.part);
    assert d.part in PartsFor(batch, KeyOf(d));
  }

  ghost predicate SeenAre(seen: set<(Id, int)>, prefix: seq<Delivery>) {
    forall c, i :: (c, i) in seen <==> exists d :: d in prefix && d.channel == c && d.part.id == i
  }

  lemma SeenStep(seen: set<(Id, int)>, prefix: seq<Delivery>, d: Delivery)
    requires SeenAre(seen, prefix)
    ensures SeenAre(seen + {(d.channel, d.part.id)}, prefix + [d])
  {
    var more := prefix + [d];
    assert d in more;
    forall c, i
      ensures (c, i) in seen + {(d.channel, d.part.id)} <==> exists x :: x in more && x.channel == c && x.part.id == i
    {
      if (c, i) in seen { var x :| x in prefix && x.channel == c && x.part.id == i; assert x in more; }
    }
  }

  /** A component seen before is a duplicate; otherwise the deliveries so far stay without one. */
  lemma SeenMeansDuplicate(seen: set<(Id, int)>, prefix: seq<Delivery>, d: Delivery)
    requires SeenAre(seen, prefix) && OncePerComponent(prefix)
    ensures (d.channel, d.part.id) in seen ==> !OncePerComponent(prefix + [d])
    ensures (d.channel, d.part.id) !in seen ==>
      OncePerComponent(prefix + [d]) && forall i | 0 <= i < |prefix| :: !SameComponent(prefix[i], d)
  {
    if (d.channel, d.part.id) in seen {
      var x :| x in prefix && x.channel == d.channel && x.part.id == d.part.id;
      var i :| 0 <= i < |prefix| && prefix[i] == x;
      assert SameComponent((prefix + [d])[i], (prefix + [d])[|prefix|]);
    } else {
      forall i | 0 <= i < |prefix| ensures !SameComponent(prefix[i], d) { assert prefix[i] in prefix; }
    }
  }

  method SortIntoGroups(batch: seq<Delivery>)
      returns (once: bool, regular: seq<Delivery>, groups: map<Key, seq<Part>>, order: seq<Key>)
    ensures once <==> OncePerComponent(batch)
    ensures once ==> Sorted(batch, regular, groups, order)
  {
    var seen: set<(Id, int)> := {};
    regular, groups, order := [], map[], [];
    for n := 0 to |batch|
      invariant SeenAre(seen, batch[..n]) && OncePerComponent(batch[..n])
      invariant Sorted(batch[..n], regular, groups, order)
    {
      var d := batch[n];
      SeenMeansDuplicate(seen, batch[..n], d);
      assert batch[..n + 1] == batch[..n] + [d];
      if (d.channel, d.part.id) in seen {
        DuplicateInPrefix(batch, n + 1);
        return false, [], map[], [];
      }
      SeenStep(seen, batch[..n], d);
      SortedStep(batch[..n], d, regular, groups, order);
      seen := seen + {(d.channel, d.part.id)};
      regular, groups, order := NextRegular(regular, d), NextGroups(groups, d), NextOrder(groups, order, d);
    }
    assert batch[..|batch|] == batch;
    once := true;
  }

  lemma DuplicateInPrefix(batch: seq<Delivery>, n: nat)
    requires n <= |batch| && !OncePerComponent(batch[..n])
    ensures !OncePerComponent(batch)
  {
    var i, j :| 0 <= i < j < n && SameComponent(batch[..n][i], batch[..n][j]);
    assert SameComponent(batch[i], batch[j]);
  }

  /** The messages of the first keys, in the keys' order. */
  ghost predicate Assembled(batch: seq<Delivery>, keys: seq<Key>, all: seq<Logical>) {
    |all| <= |keys| && forall i | 0 <= i < |all| :: LogicalFor(batch, keys[i]) == Ok(all[i])
  }

  /** One more message: the next key's, or the reason to refuse the batch. */
  lemma AssembledStep(batch: seq<Delivery>, keys: seq<Key>, all: seq<Logical>, m: Result<Logical>)
    requires Assembled(batch, keys, all) && |all| < |keys| && (forall k :: k in keys <==> Mentions(batch, k))
    requires m == LogicalFor(batch, keys[|all|])
    ensures m.Ok? ==> Assembled(batch, keys, all + [m.value])
    ensures m.Err? ==> Refused(batch)
  {
    var k := keys[|all|];
    assert k in keys && Mentions(batch, k);
  }

  /** By channel, then by primary ID; a regular message goes before an album with the same one. */
  predicate InSourceOrder(r: seq<Logical>) {
    forall i, j | 0 <= i < j < |r| :: r[i].channel <= r[j].channel && (r[i].channel == r[j].channel ==>
      r[i].primary <= r[j].primary && (r[i].primary == r[j].primary ==> r[i].group.None? && r[j].group.Some?))
  }

  lemma MessagesTell(batch: seq<Delivery>, r: seq<Logical>)
    requires NormalForm(batch, r)
    ensures InSourceOrder(r) && forall m | m in r :: Tells(m)
  {
    forall m | m in r ensures Tells(m) {
      var k :| Mentions(batch, k) && LogicalFor(batch, k) == Ok(m);
      NormalizeTells(k.channel, k.Group(), PartsFor(batch, k));
    }
    forall i, j | 0 <= i < j < |r| ensures Before(r[i], r[j]) {}
  }

  lemma AllAssembled(batch: seq<Delivery>, keys: seq<Key>, all: seq<Logical>)
    requires OncePerComponent(batch) && Assembled(batch, keys, all) && |all| == |keys|
    requires forall k :: k in keys <==> Mentions(batch, k)
    requires forall i, j | 0 <= i < j < |keys| :: keys[i] != keys[j]
    ensures !Refused(batch) && NormalForm(batch, Sort(Before, all))
    ensures InSourceOrder(Sort(Before, all)) && forall m | m in Sort(Before, all) :: Tells(m)
  {
    SortedIsNormal(batch, keys, all);
    MessagesTell(batch, Sort(Before, all));
    forall k | Mentions(batch, k) ensures LogicalFor(batch, k).Ok? {
      assert k in keys;
      var i :| 0 <= i < |keys| && keys[i] == k;
    }
  }

  method NormalizeTelegramMessages(batch: seq<Delivery>) returns (r: Result<seq<Logical>>)
    ensures r.Err? <==> Refused(batch)
    ensures r.Ok? ==> NormalForm(batch, r.value) && InSourceOrder(r.value) && forall m | m in r.value :: Tells(m)
  {
    var once, regular, groups, order := SortIntoGroups(batch);
    if !once { return Err("a Telegram component message may occur only once in one ingestion batch"); }
    ghost var keys := KeysOf(regular, order);
    KeysAreMentioned(batch, regular, groups, order);
    var all: seq<Logical> := [];
    for n := 0 to |regular|
      invariant |all| == n && Assembled(batch, keys, all)
    {
      var d := regular[n];
      assert d in regular;
      SinglePart(batch, d);
      var m := Normalize(d.channel, None, [d.part]);
      AssembledStep(batch, keys, all, m);
      if m.Err? { return Err(m.error); }
      all := all + [m.value];
    }
    for n := 0 to |order|
      invariant |all| == |regular| + n && Assembled(batch, keys, all)
    {
      var k := order[n];
      assert k in order;
      var m := Normalize(k.channel, k.Group(), groups[k]);
      AssembledStep(batch, keys, all, m);
      if m.Err? { return Err(m.error); }
      all := all + [m.value];
    }
    AllAssembled(batch, keys, all);
    r := Ok(Sort(Before, all));
  }

  // ---------------------------------------------------------------- what normalization promises

  /** Batches of the same deliveries in any order have the same normal form. */
  lemma ArrivalOrderIrrelevant(a: seq<Delivery>, b: seq<Delivery>, r: seq<Logical>, s: seq<Logical>)
    requires OncePerComponent(a) && OncePerComponent(b) && forall d :: d in a <==> d in b
    requires NormalForm(a, r) && NormalForm(b, s)
    ensures r == s
  {
    forall k ensures LogicalFor(a, k) == LogicalFor(b, k) && (Mentions(a, k) <==> Mentions(b, k)) {
      SameLogical(a, b, k);
    }
    LogicalOrder();
    StrictSameLength(Before, r, s);
    StrictArrangementUnique(Before, r, s);
  }

  lemma SameLogical(a: seq<Delivery>, b: seq<Delivery>, k: Key)
    requires OncePerComponent(a) && OncePerComponent(b) && forall d :: d in a <==> d in b
    ensures LogicalFor(a, k) == LogicalFor(b, k) && (Mentions(a, k) <==> Mentions(b, k))
  {
    PartsForElements(a, k);
    PartsForElements(b, k);
    PartsForDistinct(a, k);
    PartsForDistinct(b, k);
    MentionedHaveParts(a, k);
    MentionedHaveParts(b, k);
    var s, t := PartsFor(a, k), PartsFor(b, k);
    assert forall p :: p in s <==> p in t;
    NormalizeSame(k.channel, k.Group(), s, t);
    if s != [] { assert s[0] in t; }
    if t != [] { assert t[0] in s; }
  }

  lemma KeyIsMentioned(batch: seq<Delivery>, d: Delivery)
    requires d in batch
    ensures Mentions(batch, KeyOf(d)) && DeliveredAs(batch, KeyOf(d), d.part)
  {
    var i :| 0 <= i < |batch| && batch[i] == d;
    assert KeyOf(batch[i]) == KeyOf(d);
    assert d == AsDelivery(KeyOf(d), d.part);
  }

  lemma DeliveryHasMessage(batch: seq<Delivery>, r: seq<Logical>, d: Delivery)
    requires !Refused(batch) && NormalForm(batch, r) && d in batch
    ensures exists m :: m in r && KeyOfLogical(m) == KeyOf(d) && d.part in m.parts
  {
    KeyIsMentioned(batch, d);
    var _ := PrimaryIsDelivered(batch, KeyOf(d));
    assert LogicalFor(batch, KeyOf(d)).value in r;
  }

  lemma MessageIsOfItsKey(batch: seq<Delivery>, r: seq<Logical>, m: Logical)
    requires !Refused(batch) && NormalForm(batch, r) && m in r
    ensures LogicalFor(batch, KeyOfLogical(m)) == Ok(m)
    ensures forall p | p in m.parts :: Delivery(m.channel, m.group, p) in batch
  {
    var k :| Mentions(batch, k) && LogicalFor(batch, k) == Ok(m);
    var _ := PrimaryIsDelivered(batch, k);
    forall p | p in m.parts ensures Delivery(m.channel, m.group, p) in batch { assert AsDelivery(k, p) in batch; }
  }

  /**
   * Every delivery ends up as a part of the one message of its key, and
   * no message has a part that was not delivered.
   */
  lemma EveryDeliveryOnce(batch: seq<Delivery>, r: seq<Logical>)
    requires !Refused(batch) && NormalForm(batch, r)
    ensures forall d | d in batch :: exists m :: m in r && KeyOfLogical(m) == KeyOf(d) && d.part in m.parts
    ensures forall m, n | m in r && n in r && KeyOfLogical(m) == KeyOfLogical(n) :: m == n
    ensures forall m, p | m in r && p in m.parts :: Delivery(m.channel, m.group, p) in batch
  {
    forall d | d in batch ensures exists m :: m in r && KeyOfLogical(m) == KeyOf(d) && d.part in m.parts {
      DeliveryHasMessage(batch, r, d);
    }
    forall m | m in r
      ensures LogicalFor(batch, KeyOfLogical(m)) == Ok(m)
      ensures forall p | p in m.parts :: Delivery(m.channel, m.group, p) in batch
    {
      MessageIsOfItsKey(batch, r, m);
    }
  }
}
