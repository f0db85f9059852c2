// The allocation-free scheduler that orders C64 render writes by (sample, cycle)
// with four stable counting passes over 8-bit digits.
module WriteScheduler {
  import opened StableOrder

  type Int32 = x: int | -0x8000_0000 <= x < 0x8000_0000
  type UInt16 = x: int | 0 <= x < 0x1_0000

  datatype RenderWrite = RenderWrite(sample: Int32, cycle: UInt16, ordinal: nat, reg: nat, value: nat, chip: nat)

  const BUCKETS := 256

  /** The order the scheduler is for: by sample, then by cycle. */
  function FullKey(w: RenderWrite): int { w.sample * 0x1_0000 + w.cycle }

  /** The part of the key the four passes look at: two bytes of each field. */
  function RadixKey(w: RenderWrite): int { (w.sample % 0x1_0000) * 0x1_0000 + w.cycle }

  function Cycle(w: RenderWrite): int { w.cycle }

  function SampleByteThenCycle(w: RenderWrite): int { (w.sample % 0x100) * 0x1_0000 + w.cycle }

  /** Bits shift..shift+7 of the chosen field, read as an unsigned 32-bit word. */
  function DigitOf(w: RenderWrite, sampleKey: bool, shift: nat): (d: int)
    requires shift == 0 || shift == 8
    ensures 0 <= d < BUCKETS
  {
    var word := (if sampleKey then w.sample else w.cycle) % 0x1_0000_0000;
    (if shift == 0 then word else word / 0x100) % 0x100
  }

  function Digit(sampleKey: bool, shift: nat): RenderWrite -> int
    requires shift == 0 || shift == 8
  {
    (w: RenderWrite) => DigitOf(w, sampleKey, shift)
  }

  /** How many elements of s have a key below b. */
  function CountBelow(s: seq<RenderWrite>, key: RenderWrite -> int, b: int): nat {
    if s == [] then 0
    else CountBelow(s[..|s| - 1], key, b) + if key(s[|s| - 1]) < b then 1 else 0
  }

  lemma {:induction false} CountBelowStep(s: seq<RenderWrite>, key: RenderWrite -> int, b: int)
    ensures CountBelow(s, key, b + 1) == CountBelow(s, key, b) + |Select(s, key, b)|
  {
    if s != [] { CountBelowStep(s[..|s| - 1], key, b); }
  }

  lemma {:induction false} CountBelowExtremes(s: seq<RenderWrite>, key: RenderWrite -> int, top: int)
    requires forall w :: 0 <= key(w) < top
    ensures CountBelow(s, key, 0) == 0 && CountBelow(s, key, top) == |s|
  {
    if s != [] { CountBelowExtremes(s[..|s| - 1], key, top); }
  }

  lemma {:induction false} CountBelowMonotone(s: seq<RenderWrite>, key: RenderWrite -> int, b: int, c: int)
    requires b <= c
    ensures CountBelow(s, key, b) <= CountBelow(s, key, c)
  {
    if s != [] { CountBelowMonotone(s[..|s| - 1], key, b, c); }
  }

  /** What the scan of s[..i] has selected is a prefix of what the scan of s selects. */
  lemma {:induction false} SelectPrefix<T>(s: seq<T>, key: T -> int, k: int, i: nat)
    requires i <= |s|
    ensures |Select(s[..i], key, k)| <= |Select(s, key, k)|
  {
    assert s == s[..i] + s[i..];
    SelectAppend(s[..i], s[i..], key, k);
  }

  /** Taking in s[i] appends it to the selection of its digit and to no other. */
  lemma {:induction false} SelectNext<T>(s: seq<T>, key: T -> int, k: int, i: nat)
    requires i < |s|
    ensures Select(s[..i + 1], key, k) ==
            if key(s[i]) == k then Select(s[..i], key, k) + [s[i]] else Select(s[..i], key, k)
    ensures |Select(s[..i + 1], key, k)| <= |Select(s, key, k)|
  {
    assert s[..i + 1] == s[..i] + [s[i]];
    SelectSnoc(s[..i], s[i], key, k);
    SelectPrefix(s, key, k, i + 1);
  }

  /** One past the last filled place of bucket b after the scan of s[..i]. */
  function Fill(s: seq<RenderWrite>, key: RenderWrite -> int, i: nat, b: int): nat
    requires i <= |s|
  {
    CountBelow(s, key, b) + |Select(s[..i], key, b)|
  }

  /** Bucket b holds, from its start on, the selection of its digit in s[..i]. */
  ghost predicate BucketHolds(s: seq<RenderWrite>, output: seq<RenderWrite>, key: RenderWrite -> int, i: nat, b: int)
    requires i <= |s|
  {
    && Fill(s, key, i, b) <= |output|
    && output[CountBelow(s, key, b)..Fill(s, key, i, b)] == Select(s[..i], key, b)
  }

  ghost predicate Bucketed(s: seq<RenderWrite>, output: seq<RenderWrite>, key: RenderWrite -> int, i: nat)
    requires i <= |s|
  {
    |output| == |s| && forall b :: 0 <= b < BUCKETS ==> BucketHolds(s, output, key, i, b)
  }

  /** Every position of a bucketed sequence lies in the bucket of its own digit. */
  lemma {:induction false} FindBucket(input: seq<RenderWrite>, key: RenderWrite -> int, p: nat,
                                      top: nat) returns (b: nat)
    requires p < CountBelow(input, key, top)
    requires forall w :: 0 <= key(w) < BUCKETS
    ensures b < top && CountBelow(input, key, b) <= p < CountBelow(input, key, b) + |Select(input, key, b)|
  {
    CountBelowExtremes(input, key, BUCKETS);
    CountBelowStep(input, key, top - 1);
    if p < CountBelow(input, key, top - 1) {
      b := FindBucket(input, key, p, top - 1);
    } else {
      b := top - 1;
    }
  }

  lemma {:induction false} BucketedAt(input: seq<RenderWrite>, output: seq<RenderWrite>, key: RenderWrite -> int,
                                      p: nat) returns (b: nat)
    requires Bucketed(input, output, key, |input|) && p < |output|
    requires forall w :: 0 <= key(w) < BUCKETS
    ensures b < BUCKETS && key(output[p]) == b
    ensures CountBelow(input, key, b) <= p < CountBelow(input, key, b) + |Select(input, key, b)|
  {
    assert input[..|input|] == input;
    CountBelowExtremes(input, key, BUCKETS);
    b := FindBucket(input, key, p, BUCKETS);
    SelectMembers(input, key, b);
    assert BucketHolds(input, output, key, |input|, b);
    assert output[p] == Select(input, key, b)[p - CountBelow(input, key, b)];
  }

  lemma {:induction false} BucketedSorts(input: seq<RenderWrite>, output: seq<RenderWrite>, key: RenderWrite -> int)
    requires Bucketed(input, output, key, |input|)
    requires forall w :: 0 <= key(w) < BUCKETS
    ensures IsStableSort(input, output, key)
  {
    forall p, q | 0 <= p < q < |output| ensures key(output[p]) <= key(output[q]) {
      var b := BucketedAt(input, output, key, p);
      var c := BucketedAt(input, output, key, q);
      if c < b {
        CountBelowStep(input, key, c);
        CountBelowMonotone(input, key, c + 1, b);
      }
    }
    forall k ensures Select(output, key, k) == Select(input, key, k) {
      if 0 <= k < BUCKETS {
        BucketIsSelection(input, output, key, k);
      } else {
        SelectNone(output, key, k);
        SelectNone(input, key, k);
      }
    }
  }

  lemma {:induction false} SelectAll<T>(s: seq<T>, key: T -> int, k: int)
    requires forall p :: 0 <= p < |s| ==> key(s[p]) == k
    ensures Select(s, key, k) == s
  {
    if s != [] { SelectAll(s[..|s| - 1], key, k); }
  }

  lemma {:induction false} SelectNone<T>(s: seq<T>, key: T -> int, k: int)
    requires forall p :: 0 <= p < |s| ==> key(s[p]) != k
    ensures Select(s, key, k) == []
  {
    if s != [] { SelectNone(s[..|s| - 1], key, k); }
  }

  /** The places holding digit k are exactly bucket k. */
  lemma {:induction false} BucketPlaces(input: seq<RenderWrite>, output: seq<RenderWrite>, key: RenderWrite -> int,
                                        k: nat, p: nat)
    requires Bucketed(input, output, key, |input|) && k < BUCKETS && p < |output|
    requires forall w :: 0 <= key(w) < BUCKETS
    ensures key(output[p]) == k <==>
            CountBelow(input, key, k) <= p < CountBelow(input, key, k) + |Select(input, key, k)|
  {
    var b := BucketedAt(input, output, key, p);
    CountBelowStep(input, key, b);
    CountBelowStep(input, key, k);
    if b < k {
      CountBelowMonotone(input, key, b + 1, k);
    } else if k < b {
      CountBelowMonotone(input, key, k + 1, b);
    }
  }

  lemma {:induction false} BucketIsSelection(input: seq<RenderWrite>, output: seq<RenderWrite>,
                                             key: RenderWrite -> int, k: nat)
    requires Bucketed(input, output, key, |input|) && k < BUCKETS
    requires forall w :: 0 <= key(w) < BUCKETS
    ensures Select(output, key, k) == Select(input, key, k)
  {
    var lo := CountBelow(input, key, k);
    var hi := lo + |Select(input, key, k)|;
    assert input[..|input|] == input;
    assert BucketHolds(input, output, key, |input|, k);
    forall p | 0 <= p < |output| ensures key(output[p]) == k <==> lo <= p < hi {
      BucketPlaces(input, output, key, k, p);
    }
    assert output[lo..hi] == Select(input, key, k);
    SelectRange(output, key, k, lo, hi);
  }

  /** A selection whose elements are exactly those of one range is that range. */
  lemma {:induction false} SelectRange<T>(s: seq<T>, key: T -> int, k: int, lo: nat, hi: nat)
    requires lo <= hi <= |s|
    requires forall p :: 0 <= p < |s| ==> (key(s[p]) == k <==> lo <= p < hi)
    ensures Select(s, key, k) == s[lo..hi]
  {
    var before, range, after := s[..lo], s[lo..hi], s[hi..];
    assert s == before + range + after;
    SelectAppend(before + range, after, key, k);
    SelectAppend(before, range, key, k);
    SelectNone(before, key, k);
    SelectAll(range, key, k);
    SelectNone(after, key, k);
  }

  /** The bucket sizes of src[..count]. */
  method BucketSizes(src: array<RenderWrite>, count: nat, sampleKey: bool, shift: nat) returns (offsets: array<int>)
    requires count <= src.Length && (shift == 0 || shift == 8)
    ensures fresh(offsets) && offsets.Length == BUCKETS
    ensures forall b :: 0 <= b < BUCKETS ==> offsets[b] == |Select(src[..count], Digit(sampleKey, shift), b)|
  {
    ghost var s, key := src[..count], Digit(sampleKey, shift);
    offsets := new int[BUCKETS](_ => 0);
    for i := 0 to count
      invariant forall b :: 0 <= b < BUCKETS ==> offsets[b] == |Select(s[..i], key, b)|
    {
      var d := DigitOf(src[i], sampleKey, shift);
      forall b | 0 <= b < BUCKETS
        ensures |Select(s[..i + 1], key, b)| == offsets[b] + if b == d then 1 else 0
      {
        SelectNext(s, key, b, i);
      }
      offsets[d] := offsets[d] + 1;
    }
    assert s[..count] == s;
  }

  /** Bucket sizes replaced by their running sums: where each bucket starts. */
  method BucketStarts(src: array<RenderWrite>, count: nat, sampleKey: bool, shift: nat) returns (offsets: array<int>)
    requires count <= src.Length && (shift == 0 || shift == 8)
    ensures fresh(offsets) && offsets.Length == BUCKETS
    ensures forall b :: 0 <= b < BUCKETS ==> offsets[b] == CountBelow(src[..count], Digit(sampleKey, shift), b)
  {
    ghost var s, key := src[..count], Digit(sampleKey, shift);
    offsets := BucketSizes(src, count, sampleKey, shift);
    CountBelowExtremes(s, key, BUCKETS);
    var sum := 0;
    for b := 0 to BUCKETS
      invariant sum == CountBelow(s, key, b)
      invariant forall c :: 0 <= c < b ==> offsets[c] == CountBelow(s, key, c)
      invariant forall c :: b <= c < BUCKETS ==> offsets[c] == |Select(s, key, c)|
    {
      CountBelowStep(s, key, b);
      var n := offsets[b];
      offsets[b] := sum;
      sum := sum + n;
    }
  }

  lemma {:induction false} EmptyBuckets(s: seq<RenderWrite>, output: seq<RenderWrite>, key: RenderWrite -> int)
    requires |output| == |s| && forall w :: 0 <= key(w) < BUCKETS
    ensures forall b :: 0 <= b < BUCKETS ==> Fill(s, key, 0, b) == CountBelow(s, key, b)
    ensures Bucketed(s, output, key, 0)
  {
    CountBelowExtremes(s, key, BUCKETS);
    forall b | 0 <= b < BUCKETS ensures Fill(s, key, 0, b) == CountBelow(s, key, b) <= |s| {
      CountBelowMonotone(s, key, b, BUCKETS);
    }
  }

  /** Placing s[i] grows its own bucket by one place and disturbs no other bucket. */
  lemma {:induction false} FillStep(s: seq<RenderWrite>, key: RenderWrite -> int, i: nat, b: int)
    requires i < |s| && forall w :: 0 <= key(w) < BUCKETS
    requires 0 <= b < BUCKETS
    ensures Fill(s, key, i + 1, b) == Fill(s, key, i, b) + if b == key(s[i]) then 1 else 0
    ensures Fill(s, key, i + 1, b) <= |s|
    ensures b != key(s[i]) ==>
              !(CountBelow(s, key, b) <= Fill(s, key, i, key(s[i])) < Fill(s, key, i, b))
  {
    var d := key(s[i]);
    SelectNext(s, key, b, i);
    SelectNext(s, key, d, i);
    CountBelowStep(s, key, b);
    CountBelowStep(s, key, d);
    CountBelowExtremes(s, key, BUCKETS);
    CountBelowMonotone(s, key, b + 1, BUCKETS);
    if b < d {
      CountBelowMonotone(s, key, b + 1, d);
    } else if d < b {
      CountBelowMonotone(s, key, d + 1, b);
    }
  }

  /** Where the next element of the scan goes: inside its own bucket, and onto no
      place another bucket has already filled. */
  lemma {:induction false} Scatter(s: seq<RenderWrite>, output: seq<RenderWrite>, key: RenderWrite -> int, i: nat)
    requires i < |s| && forall w :: 0 <= key(w) < BUCKETS
    requires Bucketed(s, output, key, i)
    ensures Fill(s, key, i, key(s[i])) < |s|
    ensures forall b :: 0 <= b < BUCKETS ==>
              Fill(s, key, i + 1, b) == Fill(s, key, i, b) + if b == key(s[i]) then 1 else 0
    ensures Bucketed(s, output[Fill(s, key, i, key(s[i])) := s[i]], key, i + 1)
  {
    FillStep(s, key, i, key(s[i]));
    var next, output' := i + 1, output[Fill(s, key, i, key(s[i])) := s[i]];
    forall b | 0 <= b < BUCKETS
      ensures Fill(s, key, i + 1, b) == Fill(s, key, i, b) + if b == key(s[i]) then 1 else 0
    {
      FillStep(s, key, i, b);
    }
    forall b | 0 <= b < BUCKETS ensures BucketHolds(s, output', key, next, b) {
      FillStep(s, key, i, b);
      SelectNext(s, key, b, i);
      assert BucketHolds(s, output, key, i, b);
    }
  }

  /** The scatter loop: each element goes to the next free place of its bucket. */
  method Distribute(src: array<RenderWrite>, dst: array<RenderWrite>, offsets: array<int>, count: nat,
                    sampleKey: bool, shift: nat)
    requires src != dst && count <= src.Length && count <= dst.Length
    requires (shift == 0 || shift == 8) && offsets.Length == BUCKETS
    requires forall b :: 0 <= b < BUCKETS ==> offsets[b] == CountBelow(src[..count], Digit(sampleKey, shift), b)
    modifies dst, offsets
    ensures Bucketed(src[..count], dst[..count], Digit(sampleKey, shift), count)
    ensures dst[count..] == old(dst[count..])
  {
    ghost var s, key := src[..count], Digit(sampleKey, shift);
    EmptyBuckets(s, dst[..count], key);
    for i := 0 to count
      invariant src[..count] == s
      invariant forall b :: 0 <= b < BUCKETS ==> offsets[b] == Fill(s, key, i, b)
      invariant Bucketed(s, dst[..count], key, i)
      invariant dst[count..] == old(dst[count..])
    {
      var d := DigitOf(src[i], sampleKey, shift);
      Scatter(s, dst[..count], key, i);
      dst[offsets[d]] := src[i];
      offsets[d] := offsets[d] + 1;
    }
  }

  /** One stable counting pass from src to dst by one 8-bit digit. */
  method Pass(src: array<RenderWrite>, dst: array<RenderWrite>, count: nat, sampleKey: bool, shift: nat)
    requires src != dst && count <= src.Length && count <= dst.Length
    requires shift == 0 || shift == 8
    modifies dst
    ensures IsStableSort(src[..count], dst[..count], Digit(sampleKey, shift))
    ensures dst[count..] == old(dst[count..])
  {
    var offsets := BucketStarts(src, count, sampleKey, shift);
    Distribute(src, dst, offsets, count, sampleKey, shift);
    BucketedSorts(src[..count], dst[..count], Digit(sampleKey, shift));
  }

  lemma {:induction false} DigitArithmetic(w: RenderWrite)
    ensures w.cycle == DigitOf(w, false, 8) * 0x100 + DigitOf(w, false, 0)
    ensures w.sample % 0x100 == DigitOf(w, true, 0)
    ensures w.sample % 0x1_0000 == DigitOf(w, true, 8) * 0x100 + DigitOf(w, true, 0)
  {
    LowTwoBytes(w.sample);
    assert w.cycle % 0x1_0000_0000 == w.cycle;
  }

  lemma {:induction false} ByteSplit(q: int, r: int)
    requires 0 <= r < 0x100
    ensures (q * 0x100 + r) % 0x100 == r && (q * 0x100 + r) / 0x100 == q
  {}

  lemma {:induction false} WordSplit(q: int, r: int)
    requires 0 <= r < 0x1_0000
    ensures (q * 0x1_0000 + r) % 0x1_0000 == r
  {}

  /** The two low bytes of the unsigned word are those of the signed value. */
  lemma {:induction false} LowTwoBytes(v: int)
    ensures var word := v % 0x1_0000_0000;
            word % 0x100 == v % 0x100 && v % 0x1_0000 == word / 0x100 % 0x100 * 0x100 + word % 0x100
  {
    var high, word := v / 0x1_0000_0000, v % 0x1_0000_0000;
    var mid, low := word / 0x1_0000, word % 0x1_0000;
    var c, d := low / 0x100, low % 0x100;
    assert v == (high * 0x1_0000 + mid) * 0x1_0000 + low;
    WordSplit(high * 0x1_0000 + mid, low);
    assert word == (mid * 0x100 + c) * 0x100 + d;
    ByteSplit(mid * 0x100 + c, d);
    ByteSplit(mid, c);
    ByteSplit((high * 0x1_0000 + mid) * 0x100 + c, d);
  }

  /** The order the four passes produce is the one RadixKey defines. */
  lemma {:induction false} DigitsComposeRadixKey()
    ensures Lexicographic(Digit(false, 8), Digit(false, 0), Cycle)
    ensures Lexicographic(Digit(true, 0), Cycle, SampleByteThenCycle)
    ensures Lexicographic(Digit(true, 8), SampleByteThenCycle, RadixKey)
  {
    forall v: RenderWrite, w: RenderWrite
      ensures Cycle(v) <= Cycle(w) <==>
                DigitOf(v, false, 8) < DigitOf(w, false, 8) ||
                (DigitOf(v, false, 8) == DigitOf(w, false, 8) && DigitOf(v, false, 0) <= DigitOf(w, false, 0))
      ensures SampleByteThenCycle(v) <= SampleByteThenCycle(w) <==>
                DigitOf(v, true, 0) < DigitOf(w, true, 0) ||
                (DigitOf(v, true, 0) == DigitOf(w, true, 0) && Cycle(v) <= Cycle(w))
      ensures RadixKey(v) <= RadixKey(w) <==>
                DigitOf(v, true, 8) < DigitOf(w, true, 8) ||
                (DigitOf(v, true, 8) == DigitOf(w, true, 8) && SampleByteThenCycle(v) <= SampleByteThenCycle(w))
    {
      TwoDigitOrder(v, w);
    }
  }

  lemma {:induction false} TwoDigitOrder(v: RenderWrite, w: RenderWrite)
    ensures Cycle(v) <= Cycle(w) <==>
              DigitOf(v, false, 8) < DigitOf(w, false, 8) ||
              (DigitOf(v, false, 8) == DigitOf(w, false, 8) && DigitOf(v, false, 0) <= DigitOf(w, false, 0))
    ensures SampleByteThenCycle(v) <= SampleByteThenCycle(w) <==>
              DigitOf(v, true, 0) < DigitOf(w, true, 0) ||
              (DigitOf(v, true, 0) == DigitOf(w, true, 0) && Cycle(v) <= Cycle(w))
    ensures RadixKey(v) <= RadixKey(w) <==>
              DigitOf(v, true, 8) < DigitOf(w, true, 8) ||
              (DigitOf(v, true, 8) == DigitOf(w, true, 8) && SampleByteThenCycle(v) <= SampleByteThenCycle(w))
  {
    DigitArithmetic(v);
    DigitArithmetic(w);
  }

  /** What the scheduler leaves: an ordered input untouched, any other input stably
      sorted by the bytes the passes read. */
  ghost predicate Scheduled(input: seq<RenderWrite>, output: seq<RenderWrite>) {
    if SortedBy(input, FullKey) then output == input else IsStableSort(input, output, RadixKey)
  }

  /** Sort primary[..count] in place, with scratch as the second buffer. */
  method Schedule(primary: array<RenderWrite>, scratch: array<RenderWrite>, count: nat)
    requires primary != scratch && primary.Length == scratch.Length
    modifies primary, scratch
    ensures var n := if count > primary.Length then primary.Length else count;
            && primary[n..] == old(primary[n..])
            && scratch[n..] == old(scratch[n..])
            && Scheduled(old(primary[..n]), primary[..n])
  {
    if count < 2 { return; }
    var n := if count > primary.Length then primary.Length else count;
    var alreadySorted := true;
    var i := 1;
    while i < n
      invariant 1 <= i <= n || n < i == 1
      invariant alreadySorted
      invariant forall p, q :: 0 <= p < q < i && q < n ==> FullKey(primary[p]) <= FullKey(primary[q])
    {
      var prev, cur := primary[i - 1], primary[i];
      if prev.sample > cur.sample || (prev.sample == cur.sample && prev.cycle > cur.cycle) {
        alreadySorted := false;
        break;
      }
      i := i + 1;
    }
    ghost var input := primary[..n];
    if alreadySorted { return; }
    assert FullKey(input[i - 1]) > FullKey(input[i]);
    DigitsComposeRadixKey();
    Pass(primary, scratch, n, false, 0);
    ghost var byCycleByte := scratch[..n];
    Pass(scratch, primary, n, false, 8);
    ghost var byCycle := primary[..n];
    LsdStep(input, byCycleByte, byCycle, Digit(false, 8), Digit(false, 0), Cycle);
    Pass(primary, scratch, n, true, 0);
    ghost var bySampleByte := scratch[..n];
    LsdStep(input, byCycle, bySampleByte, Digit(true, 0), Cycle, SampleByteThenCycle);
    Pass(scratch, primary, n, true, 8);
    LsdStep(input, bySampleByte, primary[..n], Digit(true, 8), SampleByteThenCycle, RadixKey);
  }

  /** The scheduler orders by (sample, cycle), ties in arrival order, exactly when
      its input is already in that order or the two bytes of sample that the passes
      read reverse the same pairs as sample itself. */
  lemma {:induction false} ScheduleIsStableOrderIff(input: seq<RenderWrite>, output: seq<RenderWrite>)
    requires Scheduled(input, output)
    ensures IsStableSort(input, output, FullKey) <==>
            SortedBy(input, FullKey) || SameInversions(input, FullKey, RadixKey)
  {
    if !SortedBy(input, FullKey) {
      FullKeyDeterminesRadixKey();
      SortsByBothIff(input, output, FullKey, RadixKey);
    }
  }

  lemma {:induction false} FullKeyDeterminesRadixKey()
    ensures forall v, w :: FullKey(v) == FullKey(w) ==> RadixKey(v) == RadixKey(w)
  {
    forall v: RenderWrite, w: RenderWrite | FullKey(v) == FullKey(w) ensures RadixKey(v) == RadixKey(w) {
      assert v.sample == w.sample && v.cycle == w.cycle;
    }
  }

  lemma {:induction false} InRangeKeysAgree(w: RenderWrite)
    requires 0 <= w.sample < 0x1_0000
    ensures RadixKey(w) == FullKey(w)
  {}

  /** Samples that fit in two bytes are always ordered, and uniquely. */
  lemma {:induction false} InRangeScheduleIsTheStableOrder(input: seq<RenderWrite>, output: seq<RenderWrite>,
                                                           other: seq<RenderWrite>)
    requires forall i :: 0 <= i < |input| ==> 0 <= input[i].sample < 0x1_0000
    requires Scheduled(input, output)
    ensures IsStableSort(input, output, FullKey)
    ensures IsStableSort(input, other, FullKey) ==> other == output
  {
    assert SameInversions(input, FullKey, RadixKey) by {
      forall i | 0 <= i < |input| ensures RadixKey(input[i]) == FullKey(input[i]) {
        InRangeKeysAgree(input[i]);
      }
    }
    ScheduleIsStableOrderIff(input, output);
    if IsStableSort(input, other, FullKey) {
      StableSortIsUnique(input, output, other, FullKey);
    }
  }

  /** A sample at 2^16 wraps to the front: the order is not by sample any more. */
  lemma {:induction false} WideSamplesAreMisordered(input: seq<RenderWrite>, output: seq<RenderWrite>)
    requires |input| == 2 && input[0].sample == 0x1_0000 && input[1].sample == 1
    requires Scheduled(input, output)
    ensures !IsStableSort(input, output, FullKey)
  {
    assert FullKey(input[1]) < FullKey(input[0]);
    assert RadixKey(input[0]) < RadixKey(input[1]);
    ScheduleIsStableOrderIff(input, output);
  }
}
