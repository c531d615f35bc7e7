/** Choosing representative video frames: candidate times, perceptual-hash distance, greedy selection. */
module VideoFrames {
  import opened Json
  import opened Ordering

  // ---------------------------------------------------------------- perceptual hashes

  predicate IsHexDigit(c: char) { '0' <= c <= '9' || 'a' <= c <= 'f' }

  predicate IsPhash(s: string) { |s| == 16 && forall i | 0 <= i < |s| :: IsHexDigit(s[i]) }

  type Phash = s: string | IsPhash(s) witness "0000000000000000"

  function DigitValue(c: char): nat
    requires IsHexDigit(c)
  {
    if c <= '9' then c as int - '0' as int else c as int - 'a' as int + 10
  }

  /** `int(s, 16)` */
  function HexValue(s: string): nat
    requires forall i | 0 <= i < |s| :: IsHexDigit(s[i])
  {
    if s == "" then 0 else 16 * HexValue(s[..|s| - 1]) + DigitValue(s[|s| - 1])
  }

  /** `a ^ b` */
  function Xor(a: nat, b: nat): nat {
    if a == 0 && b == 0 then 0 else (a % 2 + b % 2) % 2 + 2 * Xor(a / 2, b / 2)
  }

  /** `n.bit_count()` */
  function BitCount(n: nat): nat { if n == 0 then 0 else n % 2 + BitCount(n / 2) }

  function PerceptualHashDistance(left: string, right: string): Result<nat> {
    if IsPhash(left) && IsPhash(right) then Ok(BitCount(Xor(HexValue(left), HexValue(right))))
    else Err("a 16-character lowercase hexadecimal pHash is required")
  }

  function PhashDistance(left: Phash, right: Phash): nat { PerceptualHashDistance(left, right).value }

  /** The four bits of a hexadecimal digit, most significant first. */
  function DigitBits(c: char): (bits: seq<bool>)
    requires IsHexDigit(c)
    ensures |bits| == 4
  {
    var d := DigitValue(c);
    [d / 8 % 2 == 1, d / 4 % 2 == 1, d / 2 % 2 == 1, d % 2 == 1]
  }

  function Bits(s: string): (bits: seq<bool>)
    requires forall i | 0 <= i < |s| :: IsHexDigit(s[i])
    ensures |bits| == 4 * |s|
  {
    if s == "" then [] else Bits(s[..|s| - 1]) + DigitBits(s[|s| - 1])
  }

  function BitsValue(bits: seq<bool>): nat {
    if bits == [] then 0 else 2 * BitsValue(bits[..|bits| - 1]) + if bits[|bits| - 1] then 1 else 0
  }

  lemma {:induction false} BitsValueAppend(bits: seq<bool>, b3: bool, b2: bool, b1: bool, b0: bool)
    ensures BitsValue(bits + [b3, b2, b1, b0]) ==
      16 * BitsValue(bits) + (if b3 then 8 else 0) + (if b2 then 4 else 0) + (if b1 then 2 else 0) + if b0 then 1 else 0
  {
    var s1, s2, s3, s4 := bits + [b3], bits + [b3, b2], bits + [b3, b2, b1], bits + [b3, b2, b1, b0];
    assert s4[..|s4| - 1] == s3 && s3[..|s3| - 1] == s2 && s2[..|s2| - 1] == s1 && s1[..|s1| - 1] == bits;
    assert BitsValue(s1) == 2 * BitsValue(bits) + if b3 then 1 else 0;
    assert BitsValue(s2) == 2 * BitsValue(s1) + if b2 then 1 else 0;
    assert BitsValue(s3) == 2 * BitsValue(s2) + if b1 then 1 else 0;
  }

  lemma DigitIsBits(c: char)
    requires IsHexDigit(c)
    ensures var b := DigitBits(c);
      DigitValue(c) == (if b[0] then 8 else 0) + (if b[1] then 4 else 0) + (if b[2] then 2 else 0) + if b[3] then 1
        else 0
  {
    var d := DigitValue(c);
    assert d < 16;
    assert d == 8 * (d / 8 % 2) + 4 * (d / 4 % 2) + 2 * (d / 2 % 2) + d % 2;
  }

  lemma {:induction false} HexIsBits(s: string)
    requires forall i | 0 <= i < |s| :: IsHexDigit(s[i])
    ensures HexValue(s) == BitsValue(Bits(s))
  {
    if s != "" {
      HexIsBits(s[..|s| - 1]);
      DigitIsBits(s[|s| - 1]);
      var b := DigitBits(s[|s| - 1]);
      assert b == [b[0], b[1], b[2], b[3]];
      BitsValueAppend(Bits(s[..|s| - 1]), b[0], b[1], b[2], b[3]);
    }
  }

  ghost function Differing(left: seq<bool>, right: seq<bool>): set<nat>
    requires |left| == |right|
  {
    set i: nat | i < |left| && left[i] != right[i]
  }

  lemma DifferingAtLast(left: seq<bool>, right: seq<bool>, n: nat)
    requires |left| == |right| == n + 1
    ensures |Differing(left, right)| == |Differing(left[..n], right[..n])| + if left[n] == right[n] then 0 else 1
  {
    var before := Differing(left[..n], right[..n]);
    assert Differing(left, right) == before + if left[n] != right[n] then {n} else {};
    assert n !in before;
  }

  lemma XorBit(a: nat, b: nat, c: nat, d: nat)
    requires c < 2 && d < 2
    ensures Xor(2 * a + c, 2 * b + d) == (if c == d then 0 else 1) + 2 * Xor(a, b)
  {
    assert (2 * a + c) / 2 == a && (2 * a + c) % 2 == c && (2 * b + d) / 2 == b && (2 * b + d) % 2 == d;
  }

  lemma CountBit(x: nat, c: nat)
    requires c < 2
    ensures BitCount(2 * x + c) == c + BitCount(x)
  {
    assert (2 * x + c) / 2 == x && (2 * x + c) % 2 == c;
  }

  lemma XorCountBit(a: nat, b: nat, c: nat, d: nat)
    requires c < 2 && d < 2
    ensures BitCount(Xor(2 * a + c, 2 * b + d)) == BitCount(Xor(a, b)) + if c == d then 0 else 1
  {
    var x := Xor(2 * a + c, 2 * b + d);
    XorBit(a, b, c, d);
    CountBit(Xor(a, b), if c == d then 0 else 1);
    assert x == 2 * Xor(a, b) + if c == d then 0 else 1;
  }

  function BitOf(b: bool): nat { if b then 1 else 0 }

  lemma BitsValueAtLast(bits: seq<bool>, n: nat)
    requires |bits| == n + 1
    ensures BitsValue(bits) == 2 * BitsValue(bits[..n]) + BitOf(bits[n])
  {
  }

  lemma {:induction false} XorCountsDifferences(left: seq<bool>, right: seq<bool>)
    requires |left| == |right|
    ensures BitCount(Xor(BitsValue(left), BitsValue(right))) == |Differing(left, right)| <= |left|
  {
    if left == [] {
      assert Differing(left, right) == {};
    } else {
      var n := |left| - 1;
      XorCountsDifferences(left[..n], right[..n]);
      BitsValueAtLast(left, n);
      BitsValueAtLast(right, n);
      XorCountBit(BitsValue(left[..n]), BitsValue(right[..n]), BitOf(left[n]), BitOf(right[n]));
      DifferingAtLast(left, right, n);
    }
  }

  /** The XOR of the parsed integers counts the positions, among 64 bits, where the hashes differ. */
  lemma DistanceIsHamming(left: Phash, right: Phash)
    ensures PhashDistance(left, right) == |Differing(Bits(left), Bits(right))|
    ensures PhashDistance(left, right) <= 64
  {
    HexIsBits(left);
    HexIsBits(right);
    XorCountsDifferences(Bits(left), Bits(right));
  }

  lemma DistanceIsMetric(a: Phash, b: Phash, c: Phash)
    ensures PhashDistance(a, b) == PhashDistance(b, a)
    ensures PhashDistance(a, c) <= PhashDistance(a, b) + PhashDistance(b, c)
  {
    DistanceIsHamming(a, b);
    DistanceIsHamming(b, a);
    DistanceIsHamming(b, c);
    DistanceIsHamming(a, c);
    var ab, bc, ac := Differing(Bits(a), Bits(b)), Differing(Bits(b), Bits(c)), Differing(Bits(a), Bits(c));
    assert Differing(Bits(b), Bits(a)) == ab;
    assert ac <= ab + bc;
    SubsetCount(ac, ab + bc);
    assert |ab + bc| + |ab * bc| == |ab| + |bc|;
  }

  // ---------------------------------------------------------------- sampling profile and candidates

  datatype Profile = Profile(
    minCandidates: int, maxCandidates: int, maxFrames: int, gap: real, threshold: int, keepCover: bool)
  {
    predicate Valid() {
      0 < minCandidates <= maxCandidates && 0 < maxFrames && gap > 0.0 && 0 <= threshold <= 64
    }
  }

  datatype Frame = Frame(timestamp: real, phash: Phash)

  function Ceil(x: real): int { -((-x).Floor) }

  function Min(a: int, b: int): int { if a < b then a else b }

  function Max(a: int, b: int): int { if a < b then b else a }

  function FrameCount(duration: real, p: Profile): int
    requires p.Valid()
    ensures 1 <= FrameCount(duration, p) <= p.maxCandidates
  {
    Min(p.maxCandidates, Max(p.minCandidates, Ceil(duration / p.gap) + 1))
  }

  function TimeAt(duration: real, index: nat, steps: nat): real
    requires steps > 0
  {
    duration * index as real / steps as real
  }

  lemma RealCancel(a: real, b: real)
    requires b != 0.0
    ensures a * b / b == a
  {
    var q := a * b / b;
    assert q * b == a * b;
    assert (q - a) * b == 0.0;
  }

  lemma TimeBounds(duration: real, index: nat, steps: nat)
    requires duration > 0.0 && index <= steps && steps > 0
    ensures 0.0 <= TimeAt(duration, index, steps) <= duration
    ensures TimeAt(duration, 0, steps) == 0.0 && TimeAt(duration, steps, steps) == duration
  {
    assert duration * index as real <= duration * steps as real;
    RealCancel(duration, steps as real);
  }

  lemma TimeIncreases(duration: real, i: nat, j: nat, steps: nat)
    requires duration > 0.0 && i < j && steps > 0
    ensures TimeAt(duration, i, steps) < TimeAt(duration, j, steps)
  {
    assert duration * i as real < duration * j as real;
  }

  function CandidateTimestamps(duration: real, p: Profile): (times: seq<real>)
    requires p.Valid() && duration > 0.0
    ensures |times| == FrameCount(duration, p)
  {
    var count := FrameCount(duration, p);
    if count == 1 then [0.0] else seq(count, i requires 0 <= i < count => TimeAt(duration, i, count - 1))
  }

  lemma CeilBounds(x: real)
    ensures Ceil(x) as real - 1.0 < x <= Ceil(x) as real
  {
  }

  lemma GapsNeeded(duration: real, gap: real, n: int)
    requires gap > 0.0
    ensures n >= Ceil(duration / gap) <==> n as real * gap >= duration
  {
    CeilBounds(duration / gap);
    var q := duration / gap;
    assert q * gap == duration;
    if n as real >= q {
      assert n as real * gap >= q * gap;
    } else {
      assert n as real * gap < q * gap;
    }
  }

  /**
   * As many candidates, evenly spread, as it takes for neighbours to be no more than a gap apart, but no fewer and no
   * more than the profile allows.
   */
  lemma CandidatesCoverGaps(duration: real, p: Profile)
    requires p.Valid() && duration > 0.0
    ensures var times := CandidateTimestamps(duration, p);
      && p.minCandidates <= |times| <= p.maxCandidates
      && (|times| < p.maxCandidates ==> (|times| - 1) as real * p.gap >= duration)
      && (|times| > p.minCandidates ==> (|times| - 2) as real * p.gap < duration)
      && forall i | 0 <= i < |times| && |times| > 1 :: times[i] * (|times| - 1) as real == duration * i as real
  {
    var n := |CandidateTimestamps(duration, p)|;
    GapsNeeded(duration, p.gap, n - 1);
    GapsNeeded(duration, p.gap, n - 2);
  }

  /** Candidates run strictly upwards from zero to the end of the video. */
  lemma CandidatesSpread(duration: real, p: Profile)
    requires p.Valid() && duration > 0.0
    ensures var times := CandidateTimestamps(duration, p);
      && |times| >= 1 && times[0] == 0.0 && (|times| > 1 ==> times[|times| - 1] == duration)
      && (forall i | 0 <= i < |times| :: 0.0 <= times[i] <= duration)
      && (forall i, j | 0 <= i < j < |times| :: times[i] < times[j])
  {
    var times := CandidateTimestamps(duration, p);
    var steps := |times| - 1;
    if steps > 0 {
      forall i | 0 <= i <= steps ensures 0.0 <= times[i] <= duration && times[0] == 0.0 && times[steps] == duration {
        TimeBounds(duration, i, steps);
      }
      assert times[0] == 0.0;
      forall i, j | 0 <= i < j <= steps ensures times[i] < times[j] {
        TimeIncreases(duration, i, j, steps);
      }
    }
  }

  // ---------------------------------------------------------------- greedy selection

  function Gap(a: Frame, b: Frame): real {
    if a.timestamp < b.timestamp then b.timestamp - a.timestamp else a.timestamp - b.timestamp
  }

  /** Distance between fingerprints; selection is correct for any of them, `PhashDistance` is the one used. */
  type Metric = (Phash, Phash) -> nat

  /** Separated in time and in content. */
  predicate Far(p: Profile, distance: Metric, a: Frame, b: Frame) {
    Gap(a, b) >= p.gap && distance(a.phash, b.phash) >= p.threshold
  }

  predicate Earlier(a: Frame, b: Frame) { a.timestamp < b.timestamp }

  predicate FarFromAll(p: Profile, distance: Metric, candidate: Frame, cover: Option<Frame>, selected: seq<Frame>) {
    && (cover.Some? ==> Far(p, distance, candidate, cover.value))
    && forall i | 0 <= i < |selected| :: Far(p, distance, candidate, selected[i])
  }

  /** The frames kept after the first `n` chronological candidates. */
  function Chosen(p: Profile, distance: Metric, ordered: seq<Frame>, cover: Option<Frame>, n: nat): seq<Frame>
    requires n <= |ordered|
  {
    if n == 0 then []
    else
      var kept := Chosen(p, distance, ordered, cover, n - 1);
      if |kept| != p.maxFrames && FarFromAll(p, distance, ordered[n - 1], cover, kept) then kept + [ordered[n - 1]]
        else kept
  }

  predicate AnyNear(p: Profile, candidate: Frame, existing: seq<Frame>) {
    exists i | 0 <= i < |existing| :: Gap(candidate, existing[i]) < p.gap
  }

  predicate AnySimilar(p: Profile, distance: Metric, candidate: Frame, existing: seq<Frame>) {
    exists i | 0 <= i < |existing| :: distance(candidate.phash, existing[i].phash) < p.threshold
  }

  function Existing(cover: Option<Frame>, selected: seq<Frame>): seq<Frame> {
    if cover.Some? then [cover.value] + selected else selected
  }

  /** The two scans, and the skipping of the cover's own time, together decide `FarFromAll`. */
  lemma ScansDecide(p: Profile, distance: Metric, candidate: Frame, cover: Option<Frame>, selected: seq<Frame>)
    requires p.Valid()
    ensures FarFromAll(p, distance, candidate, cover, selected) <==>
      !AnyNear(p, candidate, Existing(cover, selected))
        && !AnySimilar(p, distance, candidate, Existing(cover, selected))
    ensures FarFromAll(p, distance, candidate, cover, selected) && cover.Some? ==>
      candidate.timestamp != cover.value.timestamp
  {
    var existing := Existing(cover, selected);
    if cover.Some? {
      assert existing[0] == cover.value;
      assert forall i | 0 <= i < |selected| :: existing[i + 1] == selected[i];
    }
  }

  method SelectRepresentativeFrames(candidates: seq<Frame>, p: Profile, distance: Metric, cover: Option<Frame>)
      returns (selected: seq<Frame>)
    requires p.Valid()
    ensures selected == Chosen(p, distance, Sort(Earlier, candidates), cover, |candidates|)
  {
    var ordered := Sort(Earlier, candidates);
    selected := [];
    for n := 0 to |ordered|
      invariant selected == Chosen(p, distance, ordered, cover, n) && |selected| < p.maxFrames
    {
      var candidate := ordered[n];
      ScansDecide(p, distance, candidate, cover, selected);
      if cover.Some? && candidate.timestamp == cover.value.timestamp { continue; }
      var existing := Existing(cover, selected);
      if AnyNear(p, candidate, existing) { continue; }
      if AnySimilar(p, distance, candidate, existing) { continue; }
      selected := selected + [candidate];
      if |selected| == p.maxFrames {
        ChosenStopsAtCap(p, distance, ordered, cover, n + 1, |ordered|);
        return;
      }
    }
  }

  lemma {:induction false} ChosenStopsAtCap(p: Profile, distance: Metric, ordered: seq<Frame>, cover: Option<Frame>,
      n: nat, m: nat)
    requires n <= m <= |ordered| && |Chosen(p, distance, ordered, cover, n)| == p.maxFrames
    ensures Chosen(p, distance, ordered, cover, m) == Chosen(p, distance, ordered, cover, n)
    decreases m
  {
    if n < m { ChosenStopsAtCap(p, distance, ordered, cover, n, m - 1); }
  }

  /** Frames kept are candidates, in order, at most `maxFrames`, and pairwise far, also from the cover. */
  lemma {:induction false} ChosenSeparated(p: Profile, distance: Metric, ordered: seq<Frame>, cover: Option<Frame>,
      n: nat)
    requires p.Valid() && n <= |ordered| && Ascending(Earlier, ordered)
    ensures var kept := Chosen(p, distance, ordered, cover, n);
      && |kept| <= p.maxFrames
      && (forall i | 0 <= i < |kept| :: kept[i] in ordered[..n])
      && (forall i | 0 <= i < |kept| && cover.Some? :: Far(p, distance, kept[i], cover.value))
      && (forall i, j | 0 <= i < j < |kept| ::
        Far(p, distance, kept[j], kept[i]) && kept[i].timestamp + p.gap <= kept[j].timestamp)
  {
    if n > 0 {
      var before, kept := Chosen(p, distance, ordered, cover, n - 1), Chosen(p, distance, ordered, cover, n);
      ChosenSeparated(p, distance, ordered, cover, n - 1);
      assert ordered[..n] == ordered[..n - 1] + [ordered[n - 1]];
      forall i, j | 0 <= i < j < |kept|
        ensures Far(p, distance, kept[j], kept[i]) && kept[i].timestamp + p.gap <= kept[j].timestamp
      {
        if j == |before| {
          var k :| 0 <= k < n - 1 && ordered[k] == before[i];
          assert !Earlier(ordered[n - 1], ordered[k]);
        }
      }
    }
  }

  /** Unless the cap is reached, every candidate left out is too close to the cover or to a kept frame. */
  lemma {:induction false} ChosenMaximal(p: Profile, distance: Metric, ordered: seq<Frame>, cover: Option<Frame>,
      n: nat, i: nat)
    requires i < n <= |ordered|
    requires |Chosen(p, distance, ordered, cover, n)| < p.maxFrames
    ensures ordered[i] in Chosen(p, distance, ordered, cover, n)
      || !FarFromAll(p, distance, ordered[i], cover, Chosen(p, distance, ordered, cover, n))
  {
    var before, kept := Chosen(p, distance, ordered, cover, n - 1), Chosen(p, distance, ordered, cover, n);
    assert before <= kept;
    if i < n - 1 {
      ChosenMaximal(p, distance, ordered, cover, n - 1, i);
      assert forall k | 0 <= k < |before| :: before[k] == kept[k];
    }
  }

  // ---------------------------------------------------------------- first come, first kept

  /** At least a gap apart in time, and at least the threshold apart in content. */
  predicate Clear(p: Profile, distance: Metric, a: Frame, b: Frame) {
    && (a.timestamp - b.timestamp >= p.gap || b.timestamp - a.timestamp >= p.gap)
    && distance(a.phash, b.phash) >= p.threshold
  }

  lemma FarMeansClear(p: Profile, distance: Metric, a: Frame, b: Frame)
    requires p.Valid()
    ensures Far(p, distance, a, b) <==> Clear(p, distance, a, b)
  {
  }

  /** What is kept later comes later, and what was kept stays. */
  lemma {:induction false} ChosenGrows(p: Profile, distance: Metric, ordered: seq<Frame>, cover: Option<Frame>, n: nat,
      m: nat)
    requires n <= m <= |ordered|
    ensures var early, late := Chosen(p, distance, ordered, cover, n), Chosen(p, distance, ordered, cover, m);
      early <= late && forall i | |early| <= i < |late| :: exists k | n <= k < m :: ordered[k] == late[i]
    decreases m
  {
    if n < m { ChosenGrows(p, distance, ordered, cover, n, m - 1); }
  }

  /** `k` frames were kept before this one's time, the others not before it. */
  predicate KeptBefore(frames: seq<Frame>, f: Frame, k: nat) {
    && k <= |frames| && (forall i | 0 <= i < k :: frames[i].timestamp < f.timestamp)
    && (forall i | k <= i < |frames| :: frames[i].timestamp >= f.timestamp)
  }

  predicate HasRoom(p: Profile, distance: Metric, cover: Option<Frame>, kept: seq<Frame>, f: Frame) {
    && |kept| < p.maxFrames && (cover.Some? ==> Clear(p, distance, f, cover.value))
    && forall i | 0 <= i < |kept| :: Clear(p, distance, f, kept[i])
  }

  ghost predicate FirstComeAt(p: Profile, distance: Metric, cover: Option<Frame>, frames: seq<Frame>, f: Frame) {
    exists k: nat :: KeptBefore(frames, f, k) && (f in frames <==> HasRoom(p, distance, cover, frames[..k], f))
  }

  lemma RoomMeansFar(p: Profile, distance: Metric, cover: Option<Frame>, kept: seq<Frame>, f: Frame)
    requires p.Valid()
    ensures HasRoom(p, distance, cover, kept, f) <==> |kept| < p.maxFrames && FarFromAll(p, distance, f, cover, kept)
  {
    forall b ensures Far(p, distance, f, b) <==> Clear(p, distance, f, b) { FarMeansClear(p, distance, f, b); }
  }

  ghost predicate InTime(ordered: seq<Frame>) {
    forall i, j | 0 <= i < j < |ordered| :: ordered[i].timestamp < ordered[j].timestamp
  }

  lemma KeptEarlier(p: Profile, distance: Metric, ordered: seq<Frame>, cover: Option<Frame>, n: nat)
    requires p.Valid() && n < |ordered| && InTime(ordered)
    ensures var early, frames := Chosen(p, distance, ordered, cover, n), Chosen(p, distance, ordered, cover, |ordered|);
      early <= frames && |early| <= p.maxFrames && KeptBefore(frames, ordered[n], |early|)
  {
    ChosenSeparated(p, distance, ordered, cover, n);
    ChosenGrows(p, distance, ordered, cover, n, |ordered|);
  }

  /** A candidate that is kept is kept when its turn comes. */
  lemma KeptInTurn(p: Profile, distance: Metric, ordered: seq<Frame>, cover: Option<Frame>, n: nat)
    requires p.Valid() && n < |ordered| && InTime(ordered)
    ensures ordered[n] in Chosen(p, distance, ordered, cover, |ordered|) <==>
      |Chosen(p, distance, ordered, cover, n + 1)| > |Chosen(p, distance, ordered, cover, n)|
  {
    var early, next := Chosen(p, distance, ordered, cover, n), Chosen(p, distance, ordered, cover, n + 1);
    var frames := Chosen(p, distance, ordered, cover, |ordered|);
    KeptEarlier(p, distance, ordered, cover, n);
    ChosenGrows(p, distance, ordered, cover, n + 1, |ordered|);
    if |next| > |early| { assert frames[|early|] == next[|early|] == ordered[n]; }
  }

  /**
   * A candidate is kept exactly when there is room after the frames kept before it, and it is clear of the cover and
   * of all of these.
   */
  lemma FirstComeFirstKept(p: Profile, distance: Metric, ordered: seq<Frame>, cover: Option<Frame>, n: nat)
    requires p.Valid() && n < |ordered| && InTime(ordered)
    ensures FirstComeAt(p, distance, cover, Chosen(p, distance, ordered, cover, |ordered|), ordered[n])
  {
    var early, frames := Chosen(p, distance, ordered, cover, n), Chosen(p, distance, ordered, cover, |ordered|);
    KeptEarlier(p, distance, ordered, cover, n);
    KeptInTurn(p, distance, ordered, cover, n);
    RoomMeansFar(p, distance, cover, early, ordered[n]);
    assert frames[..|early|] == early;
  }

  // ---------------------------------------------------------------- sample

  datatype Sampling = Sampling(duration: real, cover: Option<Frame>, frames: seq<Frame>)
  {
    /** The checks of `VideoSamplingResult.__post_init__`. */
    predicate Valid() {
      && duration > 0.0
      && (cover.Some? ==> cover.value.timestamp <= duration)
      && (forall i, j | 0 <= i < j < |frames| :: frames[i].timestamp < frames[j].timestamp)
      && (forall i | 0 <= i < |frames| :: frames[i].timestamp <= duration)
      && (cover.Some? ==> forall i | 0 <= i < |frames| :: frames[i].timestamp != cover.value.timestamp)
    }
  }

  /** The frame is a candidate with its evidence. */
  ghost predicate IsCandidate(times: seq<real>, phashes: seq<Phash>, f: Frame)
    requires |times| == |phashes|
  {
    exists k | 0 <= k < |times| :: times[k] == f.timestamp && phashes[k] == f.phash
  }

  ghost predicate Apart(p: Profile, distance: Metric, cover: Option<Frame>, frames: seq<Frame>) {
    && (forall i, j | 0 <= i < j < |frames| :: Far(p, distance, frames[j], frames[i]))
    && (forall i | 0 <= i < |frames| && cover.Some? :: Far(p, distance, frames[i], cover.value))
  }

  ghost predicate Maximal(p: Profile, distance: Metric, cover: Option<Frame>, frames: seq<Frame>, times: seq<real>,
      phashes: seq<Phash>)
    requires |times| == |phashes|
  {
    |frames| < p.maxFrames ==> forall i | 0 <= i < |times| ::
      Frame(times[i], phashes[i]) in frames || !FarFromAll(p, distance, Frame(times[i], phashes[i]), cover, frames)
  }

  /**
   * What sampling promises: a valid result, the first frame as cover, at most `maxFrames` frames pairwise far from
   * each other and the cover, none of the candidates left out without reason unless the cap was reached, and no more
   * frames than gaps in the video when the cover is kept.
   */
  ghost predicate Sampled(duration: real, p: Profile, distance: Metric, phashes: seq<Phash>, r: Sampling)
    requires p.Valid() && duration > 0.0 && |phashes| == FrameCount(duration, p)
  {
    var times := CandidateTimestamps(duration, p);
    && r.Valid() && r.duration == duration
    && r.cover == (if p.keepCover then Some(Frame(0.0, phashes[0])) else None)
    && |r.frames| <= p.maxFrames
    && (forall i | 0 <= i < |r.frames| :: IsCandidate(times, phashes, r.frames[i]))
    && Apart(p, distance, r.cover, r.frames)
    && Maximal(p, distance, r.cover, r.frames, times, phashes)
    && (p.keepCover ==> |r.frames| <= (duration / p.gap).Floor)
  }

  method Sample(duration: real, p: Profile, distance: Metric, phashes: seq<Phash>) returns (result: Result<Sampling>)
    requires p.Valid()
    requires duration > 0.0 ==> |phashes| == FrameCount(duration, p)
    ensures result.Ok? <==> duration > 0.0
    ensures result.Ok? ==> Sampled(duration, p, distance, phashes, result.value)
    ensures result.Ok? ==>
      var times := CandidateTimestamps(duration, p);
      forall i | 0 <= i < |times| ::
        FirstComeAt(p, distance, result.value.cover, result.value.frames, Frame(times[i], phashes[i]))
  {
    if duration <= 0.0 { return Err("video duration_seconds must be a finite positive number"); }
    var times := CandidateTimestamps(duration, p);
    CandidatesSpread(duration, p);
    var evidence: seq<Frame> := [];
    for n := 0 to |times|
      invariant |evidence| == n
      invariant forall i | 0 <= i < n :: evidence[i] == Frame(times[i], phashes[i])
    {
      evidence := evidence + [Frame(times[n], phashes[n])];
    }
    var cover := if p.keepCover then Some(evidence[0]) else None;
    var frames := SelectRepresentativeFrames(evidence, p, distance, cover);
    SelectionIsSampled(duration, p, distance, phashes, evidence, frames);
    forall i | 0 <= i < |times| ensures FirstComeAt(p, distance, cover, frames, Frame(times[i], phashes[i])) {
      SelectionFirstCome(p, distance, cover, evidence, i);
    }
    result := Ok(Sampling(duration, cover, frames));
  }

  lemma SelectionFirstCome(p: Profile, distance: Metric, cover: Option<Frame>, evidence: seq<Frame>, i: nat)
    requires p.Valid() && i < |evidence|
    requires forall i, j | 0 <= i < j < |evidence| :: evidence[i].timestamp < evidence[j].timestamp
    ensures
      FirstComeAt(p, distance, cover, Chosen(p, distance, Sort(Earlier, evidence), cover, |evidence|), evidence[i])
  {
    var ordered := Sort(Earlier, evidence);
    SortStrict(Earlier, evidence);
    forall i, j | 0 <= i < j < |ordered| ensures ordered[i].timestamp < ordered[j].timestamp {
      assert Earlier(ordered[i], ordered[j]);
    }
    assert evidence[i] in ordered;
    var n :| 0 <= n < |ordered| && ordered[n] == evidence[i];
    FirstComeFirstKept(p, distance, ordered, cover, n);
  }

  /** The evidence of the candidates, frame by frame. */
  ghost predicate IsEvidence(evidence: seq<Frame>, times: seq<real>, phashes: seq<Phash>) {
    |evidence| == |times| == |phashes| && forall i | 0 <= i < |times| :: evidence[i] == Frame(times[i], phashes[i])
  }

  lemma SelectionApart(p: Profile, distance: Metric, evidence: seq<Frame>, cover: Option<Frame>, times: seq<real>,
      phashes: seq<Phash>)
    requires p.Valid() && IsEvidence(evidence, times, phashes)
    ensures var frames := Chosen(p, distance, Sort(Earlier, evidence), cover, |evidence|);
      && |frames| <= p.maxFrames
      && (forall i | 0 <= i < |frames| :: IsCandidate(times, phashes, frames[i]))
      && Apart(p, distance, cover, frames) && Maximal(p, distance, cover, frames, times, phashes)
      && (forall i, j | 0 <= i < j < |frames| :: frames[i].timestamp + p.gap <= frames[j].timestamp)
  {
    var frames := Chosen(p, distance, Sort(Earlier, evidence), cover, |evidence|);
    SelectionFromCandidates(p, distance, evidence, cover);
    forall i | 0 <= i < |frames| ensures IsCandidate(times, phashes, frames[i]) {
      var k :| 0 <= k < |evidence| && evidence[k] == frames[i];
      assert times[k] == frames[i].timestamp;
    }
    if |frames| < p.maxFrames {
      SelectionMaximal(p, distance, evidence, cover);
      forall i | 0 <= i < |times|
        ensures Frame(times[i], phashes[i]) in frames
          || !FarFromAll(p, distance, Frame(times[i], phashes[i]), cover, frames)
      {
        assert evidence[i] == Frame(times[i], phashes[i]);
      }
    }
  }

  lemma SelectionIsSampled(duration: real, p: Profile, distance: Metric, phashes: seq<Phash>, evidence: seq<Frame>,
      frames: seq<Frame>)
    requires p.Valid() && duration > 0.0 && |phashes| == FrameCount(duration, p)
    requires IsEvidence(evidence, CandidateTimestamps(duration, p), phashes) && evidence != []
    requires var cover := if p.keepCover then Some(evidence[0]) else None;
      frames == Chosen(p, distance, Sort(Earlier, evidence), cover, |evidence|)
    ensures Sampled(duration, p, distance, phashes,
      Sampling(duration, if p.keepCover then Some(evidence[0]) else None, frames))
  {
    var cover, times := if p.keepCover then Some(evidence[0]) else None, CandidateTimestamps(duration, p);
    CandidatesSpread(duration, p);
    SelectionApart(p, distance, evidence, cover, times, phashes);
    FramesAreValid(duration, p, distance, cover, frames, times, phashes);
  }

  /**
   * Frames a gap apart, each a candidate, make a valid result, and fit their
   * gaps into the video when a cover at zero is kept.
   */
  lemma FramesAreValid(duration: real, p: Profile, distance: Metric, cover: Option<Frame>, frames: seq<Frame>,
      times: seq<real>, phashes: seq<Phash>)
    requires p.Valid() && duration > 0.0 && |times| == |phashes|
    requires (forall i | 0 <= i < |times| :: 0.0 <= times[i] <= duration)
    requires (forall i | 0 <= i < |frames| :: IsCandidate(times, phashes, frames[i]))
    requires Apart(p, distance, cover, frames)
    requires forall i, j | 0 <= i < j < |frames| :: frames[i].timestamp + p.gap <= frames[j].timestamp
    requires cover.Some? ==> cover.value.timestamp == 0.0
    ensures Sampling(duration, cover, frames).Valid()
    ensures cover.Some? ==> |frames| <= (duration / p.gap).Floor
  {
    forall i | 0 <= i < |frames| ensures 0.0 <= frames[i].timestamp <= duration {
      assert IsCandidate(times, phashes, frames[i]);
    }
    if cover.Some? {
      forall i | 0 <= i < |frames| ensures p.gap <= frames[i].timestamp {
        assert Far(p, distance, frames[i], cover.value);
      }
      Packing(p, frames, duration);
    }
  }

  lemma SelectionFromCandidates(p: Profile, distance: Metric, evidence: seq<Frame>, cover: Option<Frame>)
    requires p.Valid()
    ensures var frames := Chosen(p, distance, Sort(Earlier, evidence), cover, |evidence|);
      && |frames| <= p.maxFrames
      && (forall i | 0 <= i < |frames| :: exists k | 0 <= k < |evidence| :: evidence[k] == frames[i])
      && (forall i | 0 <= i < |frames| && cover.Some? :: Far(p, distance, frames[i], cover.value))
      && (forall i, j | 0 <= i < j < |frames| ::
          Far(p, distance, frames[j], frames[i]) && frames[i].timestamp + p.gap <= frames[j].timestamp)
  {
    SortSorts(Earlier, evidence);
    var ordered := Sort(Earlier, evidence);
    SameElements(ordered, evidence);
    ChosenSeparated(p, distance, ordered, cover, |ordered|);
    assert ordered[..|ordered|] == ordered;
    var frames := Chosen(p, distance, ordered, cover, |evidence|);
    forall i | 0 <= i < |frames| ensures exists k | 0 <= k < |evidence| :: evidence[k] == frames[i] {
      assert frames[i] in evidence;
    }
  }

  lemma SelectionMaximal(p: Profile, distance: Metric, evidence: seq<Frame>, cover: Option<Frame>)
    requires p.Valid()
    requires |Chosen(p, distance, Sort(Earlier, evidence), cover, |evidence|)| < p.maxFrames
    ensures var frames := Chosen(p, distance, Sort(Earlier, evidence), cover, |evidence|);
      forall i | 0 <= i < |evidence| :: evidence[i] in frames || !FarFromAll(p, distance, evidence[i], cover, frames)
  {
    SortSorts(Earlier, evidence);
    var ordered := Sort(Earlier, evidence);
    SameElements(ordered, evidence);
    var frames := Chosen(p, distance, ordered, cover, |evidence|);
    forall i | 0 <= i < |evidence|
      ensures evidence[i] in frames || !FarFromAll(p, distance, evidence[i], cover, frames)
    {
      assert evidence[i] in ordered;
      var k :| 0 <= k < |ordered| && ordered[k] == evidence[i];
      ChosenMaximal(p, distance, ordered, cover, |ordered|, k);
    }
  }

  /** Frames spaced by `gap` from zero on fit at most `floor(duration / gap)` times. */
  lemma Packing(p: Profile, frames: seq<Frame>, duration: real)
    requires p.Valid() && duration > 0.0
    requires forall i | 0 <= i < |frames| :: p.gap <= frames[i].timestamp <= duration
    requires forall i, j | 0 <= i < j < |frames| :: frames[i].timestamp + p.gap <= frames[j].timestamp
    ensures |frames| <= (duration / p.gap).Floor
  {
    if |frames| > 0 {
      Ladder(p, frames, |frames| - 1);
      assert |frames| as real * p.gap <= duration;
      QuotientBound(|frames| as real, duration, p.gap);
    } else {
      QuotientBound(0.0, duration, p.gap);
    }
  }

  lemma QuotientBound(n: real, a: real, b: real)
    requires b > 0.0 && n * b <= a
    ensures n <= a / b
  {
    assert a == (a / b) * b;
  }

  lemma {:induction false} Ladder(p: Profile, frames: seq<Frame>, k: nat)
    requires p.gap > 0.0 && k < |frames| && frames[0].timestamp >= p.gap
    requires forall i, j | 0 <= i < j < |frames| :: frames[i].timestamp + p.gap <= frames[j].timestamp
    ensures frames[k].timestamp >= (k + 1) as real * p.gap
  {
    if k > 0 {
      Ladder(p, frames, k - 1);
      assert (k + 1) as real * p.gap == k as real * p.gap + p.gap;
    }
  }

  method SampleVideo(duration: real, p: Profile, phashes: seq<Phash>) returns (result: Result<Sampling>)
    requires p.Valid()
    requires duration > 0.0 ==> |phashes| == FrameCount(duration, p)
    ensures result.Ok? <==> duration > 0.0
    ensures result.Ok? ==> Sampled(duration, p, PhashDistance, phashes, result.value)
  {
    result := Sample(duration, p, PhashDistance, phashes);
  }
}
