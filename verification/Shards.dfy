/** Shard selection: by the weak hash of a hint, or by a wrapping counter. */
module Shards {
  import opened Basics
  import opened Messages

  /** Hashes as the caller holds them: any integers, each one optional. */
  datatype KeyHintData = KeyHintData(week: Option<int>, strong: Option<int>)

  const COUNTER_RANGE: nat := 0x8000_0000

  /** `& 0xFFFFFFFF` on a Python integer of either sign. */
  function Masked(n: int): uint32 {
    n % 0x1_0000_0000
  }

  function MaskedOption(n: Option<int>): Option<uint32> {
    if n.None? then None else Some(Masked(n.value))
  }

  /** Writing a hint into a message; no hint leaves the field unset. */
  function SetHint(hint: Option<KeyHintData>): Option<KeyHint> {
    if hint.None? then None else Some(KeyHint(MaskedOption(hint.value.week), MaskedOption(hint.value.strong)))
  }

  function DecodeHint(hint: Option<KeyHint>): Option<KeyHintData> {
    if hint.None? then None else Some(KeyHintData(hint.value.week, hint.value.strong))
  }

  function NextCounter(counter: nat): (n: nat)
    ensures n < COUNTER_RANGE
  {
    (counter + 1) % COUNTER_RANGE
  }

  /** The shard for a call, given the counter after the call. */
  function ShardFor(maxShards: nat, hint: Option<KeyHintData>, counter: nat): (shard: nat)
    requires maxShards > 0
    ensures shard < maxShards
  {
    if hint.None? || hint.value.week.None? then counter % maxShards
    else Masked(hint.value.week.value) % maxShards
  }

  predicate IsHinted(hint: Option<KeyHintData>) {
    hint.Some? && hint.value.week.Some?
  }

  /** A hint selects the same shard before and after it has been on the wire, whatever the counter. */
  lemma HintSurvivesWire(maxShards: nat, hint: Option<KeyHintData>, counter: nat, counter': nat)
    requires maxShards > 0
    ensures var back := DecodeHint(SetHint(hint));
            && IsHinted(back) == IsHinted(hint)
            && SetHint(back) == SetHint(hint)
            && (IsHinted(hint) ==> ShardFor(maxShards, back, counter) == ShardFor(maxShards, hint, counter'))
  {
    assert forall n: int :: Masked(Masked(n)) == Masked(n);
  }

  /** Hinted routing depends on the weak hash modulo 2^32 only. */
  lemma HashModuloWord(maxShards: nat, a: KeyHintData, b: KeyHintData, counter: nat)
    requires maxShards > 0 && a.week.Some? && b.week.Some?
    requires (a.week.value - b.week.value) % 0x1_0000_0000 == 0
    ensures ShardFor(maxShards, Some(a), counter) == ShardFor(maxShards, Some(b), counter)
  {
    assert Masked(a.week.value) == Masked(b.week.value);
  }

  // ---------- what a hash selects ----------

  /** The hash, a word of 32 bits and some multiple of 2^32, leaves this shard when the word is divided by the count. */
  ghost predicate Selects(week: int, maxShards: nat, shard: nat) {
    exists words: int, rounds: nat :: SelectsBy(week, maxShards, shard, words, rounds)
  }

  predicate SelectsBy(week: int, maxShards: nat, shard: nat, words: int, rounds: nat) {
    && shard < maxShards
    && week == words * 0x1_0000_0000 + (rounds * maxShards + shard)
    && 0 <= rounds * maxShards + shard < 0x1_0000_0000
  }

  /** Selection takes the remainder of the low word. */
  lemma HintSelects(week: int, maxShards: nat)
    requires maxShards > 0
    ensures Selects(week, maxShards, Masked(week) % maxShards)
  {
    var word: nat := Masked(week);
    ModSplit(word, maxShards);
    var words, rounds := week / 0x1_0000_0000, word / maxShards;
    assert rounds * maxShards + word % maxShards == word;
    assert SelectsBy(week, maxShards, word % maxShards, words, rounds);
  }

  lemma RemainderSelects(counter: nat, maxShards: nat)
    requires maxShards > 0
    ensures (counter - counter % maxShards) % maxShards == 0
  {
    ModSplit(counter, maxShards);
    ModIs(counter - counter % maxShards, maxShards, counter / maxShards, 0);
  }

  /** At most one shard is selected. */
  lemma SelectsOne(week: int, maxShards: nat, shard: nat, shard': nat)
    requires Selects(week, maxShards, shard) && Selects(week, maxShards, shard')
    ensures shard == shard'
  {
    var words: int, rounds: nat :| SelectsBy(week, maxShards, shard, words, rounds);
    var words': int, rounds': nat :| SelectsBy(week, maxShards, shard', words', rounds');
    assert words == words';
    ModIs(rounds * maxShards + shard, maxShards, rounds, shard);
    ModIs(rounds' * maxShards + shard', maxShards, rounds', shard');
  }

  /** A hash below the shard count is the shard; one more shard count, within the word, changes nothing. */
  lemma SmallHashes(week: nat, maxShards: nat, shard: nat)
    requires 0 < maxShards <= 0x1_0000_0000
    ensures week < maxShards ==> (Selects(week, maxShards, shard) <==> shard == week)
    ensures week + maxShards < 0x1_0000_0000 ==>
              (Selects(week, maxShards, shard) <==> Selects(week + maxShards, maxShards, shard))
  {
    if week < maxShards {
      assert SelectsBy(week, maxShards, week, 0, 0);
      if Selects(week, maxShards, shard) {
        SelectsOne(week, maxShards, shard, week);
      }
    }
    if week + maxShards < 0x1_0000_0000 {
      HintSelects(week, maxShards);
      var s := Masked(week) % maxShards;
      var words: int, rounds: nat :| SelectsBy(week, maxShards, s, words, rounds);
      assert words == 0;
      assert (rounds + 1) * maxShards == rounds * maxShards + maxShards;
      assert SelectsBy(week + maxShards, maxShards, s, 0, rounds + 1);
      if Selects(week, maxShards, shard) {
        SelectsOne(week, maxShards, shard, s);
      }
      if Selects(week + maxShards, maxShards, shard) {
        SelectsOne(week + maxShards, maxShards, shard, s);
      }
    }
  }

  /** Whole words added to the hash, or taken from it, change nothing. */
  lemma WholeWords(week: int, n: int, maxShards: nat, shard: nat)
    requires Selects(week, maxShards, shard)
    ensures Selects(week + n * 0x1_0000_0000, maxShards, shard)
  {
    var words: int, rounds: nat :| SelectsBy(week, maxShards, shard, words, rounds);
    assert SelectsBy(week + n * 0x1_0000_0000, maxShards, shard, words + n, rounds);
  }

  /** The written hint: each word in its own field, equal to the hash modulo 2^32, and absent when it is. */
  lemma HintWords(week: Option<int>, strong: Option<int>)
    ensures SetHint(None) == None
    ensures var written := SetHint(Some(KeyHintData(week, strong)));
            && written.Some?
            && (written.value.week.None? <==> week.None?) && (written.value.strong.None? <==> strong.None?)
            && (week.Some? ==> (week.value - written.value.week.value) % 0x1_0000_0000 == 0)
            && (strong.Some? ==> (strong.value - written.value.strong.value) % 0x1_0000_0000 == 0)
  {
  }

  // ---------- round robin ----------

  /** The shard of the i-th of a run of hintless calls, the first of which uses counter `first`. */
  function RoundRobin(maxShards: nat, first: nat, i: nat): nat
    requires maxShards > 0
  {
    ((first + i) % COUNTER_RANGE) % maxShards
  }

  /** Calls 0..maxShards of the run reach every shard, and none twice. */
  ghost predicate HitsEachOnce(maxShards: nat, first: nat)
    requires maxShards > 0
  {
    && (forall i, j :: 0 <= i < j < maxShards ==> RoundRobin(maxShards, first, i) != RoundRobin(maxShards, first, j))
    && (forall shard :: 0 <= shard < maxShards ==> Reached(maxShards, first, shard))
  }

  ghost predicate Reached(maxShards: nat, first: nat, shard: nat)
    requires maxShards > 0
  {
    exists i :: 0 <= i < maxShards && RoundRobin(maxShards, first, i) == shard
  }

  lemma MulBounds(d: int, m: int)
    requires m > 0
    ensures d >= 1 ==> d * m >= m
    ensures d <= -1 ==> d * m <= -m
  {
  }

  lemma ModIs(x: int, m: nat, k: int, r: nat)
    requires m > 0 && r < m && x == k * m + r
    ensures x % m == r
  {
    var d := x / m - k;
    assert d * m == x / m * m - k * m;
    assert d * m == r - x % m;
    MulBounds(d, m);
  }

  lemma ModSplit(x: int, m: nat)
    requires m > 0
    ensures x == x / m * m + x % m
  {
  }

  /** m consecutive numbers have m different residues. */
  lemma ResiduesDiffer(a: nat, m: nat, i: nat, j: nat)
    requires m > 0 && i < j < m
    ensures (a + i) % m != (a + j) % m
  {
    var r := (a + i) % m;
    ModSplit(a + i, m);
    var k := (a + i) / m;
    if r + (j - i) < m {
      ModIs(a + j, m, k, r + (j - i));
    } else {
      assert a + j == (k + 1) * m + (r + (j - i) - m);
      ModIs(a + j, m, k + 1, r + (j - i) - m);
    }
  }

  /** Every residue occurs among m consecutive numbers. */
  lemma ResidueReached(a: nat, m: nat, shard: nat) returns (i: nat)
    requires m > 0 && shard < m
    ensures i < m && (a + i) % m == shard
  {
    var r := a % m;
    ModSplit(a, m);
    var k := a / m;
    if r <= shard {
      i := shard - r;
      ModIs(a + i, m, k, shard);
    } else {
      i := shard + m - r;
      assert a + i == (k + 1) * m + shard;
      ModIs(a + i, m, k + 1, shard);
    }
  }

  /** If the counters of the run behave like consecutive numbers modulo m, each shard is hit once. */
  lemma ConsecutiveHits(m: nat, first: nat)
    requires m > 0
    requires forall i :: 0 <= i < m ==> RoundRobin(m, first, i) == (first + i) % m
    ensures HitsEachOnce(m, first)
  {
    forall i, j | 0 <= i < j < m
      ensures RoundRobin(m, first, i) != RoundRobin(m, first, j)
    {
      ResiduesDiffer(first, m, i, j);
    }
    forall shard | 0 <= shard < m
      ensures Reached(m, first, shard)
    {
      var i := ResidueReached(first, m, shard);
      assert RoundRobin(m, first, i) == shard;
    }
  }

  lemma ModOfMod(x: nat, p: nat, m: nat)
    requires m > 0 && p > 0 && p % m == 0
    ensures x % p % m == x % m
  {
    ModSplit(x, p);
    ModSplit(p, m);
    ModSplit(x % p, m);
    var c, q, r := x / p, p / m, x % p % m;
    var k := c * q + (x % p) / m;
    assert x == c * (q * m) + ((x % p) / m * m + r);
    assert c * (q * m) == (c * q) * m;
    assert k * m == (c * q) * m + (x % p) / m * m;
    ModIs(x, m, k, r);
  }

  /** Two calls of a run that wraps with a remainder reach the same shard. */
  lemma WrapCollides(m: nat, first: nat) returns (i: nat, j: nat)
    requires m > 0 && first < COUNTER_RANGE && first + m > COUNTER_RANGE && COUNTER_RANGE % m != 0
    ensures i < j < m && RoundRobin(m, first, i) == RoundRobin(m, first, j)
  {
    var p := COUNTER_RANGE;
    var a := p - first;   // calls before the wrap
    if m > p {
      i, j := 0, p;
      assert (first + p) % p == first;
      return;
    }
    var q := p % m;
    ModSplit(p, m);
    var k := p / m;
    if q <= a {
      i, j := a - q, a;
      assert first + i == p - q == k * m;
      assert (first + j) % p == 0;
      assert first + i < p;
      ModIs(p - q, m, k, 0);
      assert 0 % m == 0;
    } else {
      i, j := 0, q;
      assert first == p - a == k * m + (q - a);
      ModIs(first, m, k, q - a);
      assert first + j == p + (q - a) && (first + j) % p == q - a;
      ModIs(q - a, m, 0, q - a);
    }
  }

  /**
   With a fixed topology, max_shards consecutive hintless calls reach every shard exactly once
   if and only if the counter does not wrap during them or max_shards divides 2^31.
   */
  lemma RoundRobinExact(maxShards: nat, first: nat)
    requires maxShards > 0 && first < COUNTER_RANGE
    ensures HitsEachOnce(maxShards, first) <==> first + maxShards <= COUNTER_RANGE || COUNTER_RANGE % maxShards == 0
  {
    if first + maxShards <= COUNTER_RANGE {
      forall i | 0 <= i < maxShards
        ensures RoundRobin(maxShards, first, i) == (first + i) % maxShards
      {
        assert (first + i) % COUNTER_RANGE == first + i;
      }
      ConsecutiveHits(maxShards, first);
    } else if COUNTER_RANGE % maxShards == 0 {
      forall i | 0 <= i < maxShards
        ensures RoundRobin(maxShards, first, i) == (first + i) % maxShards
      {
        ModOfMod(first + i, COUNTER_RANGE, maxShards);
      }
      ConsecutiveHits(maxShards, first);
    } else {
      var i, j := WrapCollides(maxShards, first);
      assert !HitsEachOnce(maxShards, first);
    }
  }
}
