/** How large the next part of a multi-part upload is. Sizes are unbounded here. */
module ChunkPlanner {

  /** Limits of one upload: sizes in bytes; a zero `multiple`, `maxParts` or `maxChunk` sets no limit. */
  datatype Limits = Limits(minChunk: int, multiple: nat, maxParts: nat, maxChunk: nat)

  /** What was measured for the part before: its size and how many milliseconds it took. */
  datatype Timing = Timing(size: int, millis: int)

  /** Division as the language does it, toward zero. */
  function Quotient(a: int, b: int): int
    requires b != 0
  {
    if a >= 0 then a / b else -((-a) / b)
  }

  /** What the last part suggests, but no less than the minimum. */
  function Suggested(limits: Limits, last: Timing): (r: int)
    ensures r >= limits.minChunk
  {
    if last.millis != 0 && last.size != 0 then
      var size := Quotient(last.size * 30000, last.millis);
      if size > limits.minChunk then size else limits.minChunk
    else limits.minChunk
  }

  /** Large enough that the parts left suffice. */
  function Spread(limits: Limits, chunk: int, remaining: int, partCount: nat): int {
    var left := limits.maxParts - partCount;
    if limits.maxParts == 0 || chunk * left >= remaining then chunk
    else if left <= 1 then remaining
    else Quotient(remaining, left - 1)
  }

  function RoundUp(chunk: int, multiple: nat): int {
    if multiple == 0 || chunk % multiple == 0 then chunk else chunk + multiple - chunk % multiple
  }

  function Capped(chunk: int, limit: int): int {
    if chunk > limit then limit else chunk
  }

  function NextChunk(limits: Limits, remaining: int, last: Timing, partCount: nat): int {
    if remaining <= 0 then 0
    else
      var chunk := RoundUp(Spread(limits, Suggested(limits, last), remaining, partCount), limits.multiple);
      Capped(if limits.maxChunk == 0 then chunk else Capped(chunk, limits.maxChunk), remaining)
  }

  /** The successive reassignments compute the function above. */
  method CalculateNextChunkSize(remaining: int, last: Timing, partCount: nat, limits: Limits) returns (chunk: int)
    ensures chunk == NextChunk(limits, remaining, last, partCount)
    ensures remaining > 0 && limits.minChunk >= 1 ==> 0 < chunk <= remaining
    ensures limits.maxChunk != 0 ==> chunk <= limits.maxChunk
    ensures limits.multiple != 0 ==> chunk % limits.multiple == 0 || chunk == remaining || chunk == limits.maxChunk || remaining <= 0
  {
    if remaining <= 0 {
      return 0;
    }
    chunk := limits.minChunk;
    if last.millis != 0 && last.size != 0 {
      var size := Quotient(last.size * 30000, last.millis);
      if size > chunk {
        chunk := size;
      }
    }
    if limits.maxParts != 0 {
      if chunk * (limits.maxParts - partCount) < remaining {
        if limits.maxParts - partCount <= 1 {
          chunk := remaining;
        } else {
          chunk := Quotient(remaining, limits.maxParts - partCount - 1);
        }
      }
    }
    if limits.minChunk >= 1 {
      SpreadPositive(limits, Suggested(limits, last), remaining, partCount);
    }
    RoundUpIsMultiple(chunk, limits.multiple);
    if limits.multiple != 0 {
      var modulus := chunk % limits.multiple;
      if modulus != 0 {
        chunk := chunk + limits.multiple - modulus;
      }
    }
    if limits.maxChunk != 0 && chunk > limits.maxChunk {
      chunk := limits.maxChunk;
    }
    if chunk > remaining {
      chunk := remaining;
    }
  }

  lemma RoundUpIsMultiple(chunk: int, multiple: nat)
    ensures multiple != 0 ==> RoundUp(chunk, multiple) % multiple == 0
    ensures RoundUp(chunk, multiple) >= chunk
  {
    if multiple != 0 && chunk % multiple != 0 {
      var q := chunk / multiple;
      assert chunk == q * multiple + chunk % multiple;
      assert RoundUp(chunk, multiple) == (q + 1) * multiple;
      MultipleOf(q + 1, multiple);
    }
  }

  lemma MultipleOf(q: int, m: nat)
    requires m != 0
    ensures (q * m) % m == 0
  {
    var k, r := (q * m) / m, (q * m) % m;
    var d := q - k;
    assert d * m == r;
    assert d >= 1 ==> d * m >= m;
    assert d <= -1 ==> d * m + m <= 0;
  }

  /** With q = remaining / (left - 1): the chunk is at least one. */
  lemma SpreadPositive(limits: Limits, chunk: int, remaining: int, partCount: nat)
    requires chunk >= 1 && remaining > 0
    ensures Spread(limits, chunk, remaining, partCount) >= 1
  {
    var left := limits.maxParts - partCount;
    if limits.maxParts != 0 && chunk * left < remaining && left > 1 {
      assert left <= chunk * left;
      DivAtLeastOne(remaining, left - 1);
    }
  }

  lemma DivAtLeastOne(a: int, b: int)
    requires 0 < b <= a
    ensures a / b >= 1
  {}

  lemma NextChunkBounds(limits: Limits, remaining: int, last: Timing, partCount: nat)
    requires limits.minChunk >= 1 && remaining > 0
    ensures 0 < NextChunk(limits, remaining, last, partCount) <= remaining
    ensures limits.maxChunk != 0 ==> NextChunk(limits, remaining, last, partCount) <= limits.maxChunk
  {
    SpreadPositive(limits, Suggested(limits, last), remaining, partCount);
    RoundUpIsMultiple(Spread(limits, Suggested(limits, last), remaining, partCount), limits.multiple);
  }

  /** Without limits, the next part is what the last one's speed transfers in thirty seconds, rounded down. */
  lemma AimsAtThirtySeconds(limits: Limits, remaining: int, last: Timing, partCount: nat)
    requires limits.maxParts == 0 && limits.multiple == 0 && limits.maxChunk == 0 && limits.minChunk >= 1
    requires last.size > 0 && last.millis > 0
    ensures var chunk := NextChunk(limits, remaining, last, partCount);
            limits.minChunk < chunk < remaining ==> chunk * last.millis <= last.size * 30000 < (chunk + 1) * last.millis
  {
    var q := (last.size * 30000) / last.millis;
    assert last.size * 30000 == q * last.millis + (last.size * 30000) % last.millis;
    assert (q + 1) * last.millis == q * last.millis + last.millis;
  }

  // ---------------------------------------------------------------- a whole upload

  /** What remains after a part for each timing. */
  function Remaining(limits: Limits, remaining: int, partCount: nat, timings: seq<Timing>): int
    decreases |timings|
  {
    if timings == [] then remaining
    else Remaining(limits, remaining - NextChunk(limits, remaining, timings[0], partCount), partCount + 1, timings[1..])
  }

  /** The sizes of the parts. */
  function Chunks(limits: Limits, remaining: int, partCount: nat, timings: seq<Timing>): seq<int>
    decreases |timings|
  {
    if timings == [] then []
    else
      var chunk := NextChunk(limits, remaining, timings[0], partCount);
      [chunk] + Chunks(limits, remaining - chunk, partCount + 1, timings[1..])
  }

  /** The parts left, at their largest, cover what remains. */
  predicate Enough(limits: Limits, remaining: int, left: int) {
    limits.maxChunk == 0 || remaining <= left * limits.maxChunk
  }

  /** With a quotient q of the remainder by one part less than are left, the other parts still suffice. */
  lemma SpreadLeavesEnough(r: int, left: int, max: int, q: int)
    requires left >= 3 && r > 0 && q == r / (left - 1) && q <= max && r <= left * max
    ensures r - q <= (left - 1) * max
  {
    var rest := r % (left - 1);
    assert r == q * (left - 1) + rest;
    assert r - q == q * (left - 2) + rest;
    if q <= max - 1 {
      assert q * (left - 2) <= (max - 1) * (left - 2);
      assert (max - 1) * (left - 2) == max * (left - 2) - (left - 2);
    } else {
      assert q * (left - 2) == max * (left - 2);
      assert left * max == max * (left - 1) + max;
    }
    assert max * (left - 2) + max == (left - 1) * max;
  }

  lemma CapLeavesEnough(r: int, left: int, max: int)
    requires r <= left * max
    ensures r - max <= (left - 1) * max
  {}

  lemma WishLeavesEnough(r: int, left: int, max: int, wish: int)
    requires left >= 1 && r <= wish * left && wish <= max
    ensures r - wish <= (left - 1) * max
  {
    assert wish * left == wish * (left - 1) + wish;
    assert wish * (left - 1) <= max * (left - 1);
  }

  /** What the spread alone leaves. */
  lemma SpreadEnough(limits: Limits, wish: int, remaining: int, partCount: nat)
    requires wish >= 1 && remaining > 0 && partCount < limits.maxParts
    ensures var (left, spread) := (limits.maxParts - partCount, Spread(limits, wish, remaining, partCount));
            && (left == 1 ==> spread >= remaining)
            && (forall max :: spread <= max && remaining <= left * max ==> remaining - spread <= (left - 1) * max)
  {
    var (left, spread) := (limits.maxParts - partCount, Spread(limits, wish, remaining, partCount));
    forall max | spread <= max && remaining <= left * max ensures remaining - spread <= (left - 1) * max {
      if wish * left >= remaining {
        WishLeavesEnough(remaining, left, max, wish);
      } else if left <= 2 {
        assert spread == remaining;
        NonNegative(left - 1, max);
      } else {
        SpreadLeavesEnough(remaining, left, max, spread);
      }
    }
  }

  lemma NonNegative(a: int, b: int)
    requires a >= 0 && b >= 0
    ensures a * b >= 0
  {}

  /** After one part, one part less is enough. */
  lemma StillEnough(limits: Limits, remaining: int, last: Timing, partCount: nat)
    requires limits.minChunk >= 1 && remaining > 0 && partCount < limits.maxParts
    requires Enough(limits, remaining, limits.maxParts - partCount)
    ensures var rest := remaining - NextChunk(limits, remaining, last, partCount);
            && Enough(limits, rest, limits.maxParts - partCount - 1)
            && (limits.maxParts - partCount == 1 ==> rest == 0)
  {
    var (left, max) := (limits.maxParts - partCount, limits.maxChunk);
    var wish := Suggested(limits, last);
    var spread := Spread(limits, wish, remaining, partCount);
    SpreadPositive(limits, wish, remaining, partCount);
    SpreadEnough(limits, wish, remaining, partCount);
    RoundUpIsMultiple(spread, limits.multiple);
    NonNegative(left - 1, max);
    if max != 0 {
      CapLeavesEnough(remaining, left, max);
    }
  }

  lemma NeverEnough(limits: Limits, remaining: int, left: int, chunk: int)
    requires !Enough(limits, remaining, left) && chunk <= limits.maxChunk
    ensures !Enough(limits, remaining - chunk, left - 1)
  {
    assert left * limits.maxChunk == (left - 1) * limits.maxChunk + limits.maxChunk;
  }

  lemma EnoughForNothing(limits: Limits, left: nat)
    ensures Enough(limits, 0, left)
  {
    NonNegative(left, limits.maxChunk);
  }

  /** However long the parts take, the upload is complete after the allowed number of parts if and only if
      those parts, at their largest, cover it. */
  lemma {:induction false} FinishesExactly(limits: Limits, remaining: int, partCount: nat, timings: seq<Timing>)
    requires limits.minChunk >= 1 && remaining >= 0 && partCount < limits.maxParts && |timings| == limits.maxParts - partCount
    ensures Remaining(limits, remaining, partCount, timings) == 0 <==> Enough(limits, remaining, limits.maxParts - partCount)
    decreases |timings|, 0
  {
    var left := limits.maxParts - partCount;
    if remaining == 0 {
      StaysFinished(limits, 0, partCount, timings);
      EnoughForNothing(limits, left);
    } else {
      var chunk := NextChunk(limits, remaining, timings[0], partCount);
      NextChunkBounds(limits, remaining, timings[0], partCount);
      if Enough(limits, remaining, left) {
        StillEnough(limits, remaining, timings[0], partCount);
      } else {
        NeverEnough(limits, remaining, left, chunk);
      }
      FinishesFrom(limits, remaining - chunk, partCount + 1, timings[1..]);
    }
  }

  lemma FinishesFrom(limits: Limits, remaining: int, partCount: nat, timings: seq<Timing>)
    requires limits.minChunk >= 1 && remaining >= 0 && partCount <= limits.maxParts && |timings| == limits.maxParts - partCount
    ensures partCount < limits.maxParts ==>
              (Remaining(limits, remaining, partCount, timings) == 0 <==> Enough(limits, remaining, limits.maxParts - partCount))
    ensures partCount == limits.maxParts ==>
              Remaining(limits, remaining, partCount, timings) == remaining
              && (limits.maxChunk != 0 && !Enough(limits, remaining, 0) ==> remaining > 0)
    decreases |timings|, 1
  {
    if partCount < limits.maxParts {
      FinishesExactly(limits, remaining, partCount, timings);
    } else {
      EnoughForNothing(limits, 0);
    }
  }

  lemma {:induction false} StaysFinished(limits: Limits, remaining: int, partCount: nat, timings: seq<Timing>)
    requires remaining == 0
    ensures Remaining(limits, remaining, partCount, timings) == 0
    decreases |timings|
  {
    if timings != [] {
      StaysFinished(limits, remaining, partCount + 1, timings[1..]);
    }
  }

  function Sum(chunks: seq<int>): int {
    if chunks == [] then 0 else chunks[0] + Sum(chunks[1..])
  }

  /** The parts and what remains add up, and no part is negative. */
  lemma {:induction false} PartsAddUp(limits: Limits, remaining: int, partCount: nat, timings: seq<Timing>)
    requires limits.minChunk >= 1 && remaining >= 0
    ensures var chunks := Chunks(limits, remaining, partCount, timings);
            && Sum(chunks) + Remaining(limits, remaining, partCount, timings) == remaining
            && |chunks| == |timings| && forall i :: 0 <= i < |chunks| ==> chunks[i] >= 0
    decreases |timings|
  {
    if timings != [] {
      var chunk := NextChunk(limits, remaining, timings[0], partCount);
      if remaining > 0 { NextChunkBounds(limits, remaining, timings[0], partCount); }
      PartsAddUp(limits, remaining - chunk, partCount + 1, timings[1..]);
      assert Chunks(limits, remaining, partCount, timings)[1..] == Chunks(limits, remaining - chunk, partCount + 1, timings[1..]);
    }
  }

  lemma ChunkIsMultiple(limits: Limits, remaining: int, last: Timing, partCount: nat)
    requires limits.multiple != 0 && (limits.maxChunk == 0 || limits.maxChunk % limits.multiple == 0)
    ensures var chunk := NextChunk(limits, remaining, last, partCount);
            chunk == remaining || remaining <= 0 || chunk % limits.multiple == 0
  {
    RoundUpIsMultiple(Spread(limits, Suggested(limits, last), remaining, partCount), limits.multiple);
  }

  /** All parts but a last one are multiples of what is asked for, if the largest part is. */
  lemma {:induction false} PartsAreMultiples(limits: Limits, remaining: int, partCount: nat, timings: seq<Timing>, i: nat)
    requires limits.minChunk >= 1 && remaining >= 0
    requires limits.multiple != 0 && (limits.maxChunk == 0 || limits.maxChunk % limits.multiple == 0)
    requires var chunks := Chunks(limits, remaining, partCount, timings); i + 1 < |chunks| && chunks[i + 1] != 0
    ensures Chunks(limits, remaining, partCount, timings)[i] % limits.multiple == 0
    decreases |timings|
  {
    var chunk := NextChunk(limits, remaining, timings[0], partCount);
    if remaining > 0 { NextChunkBounds(limits, remaining, timings[0], partCount); }
    var rest := Chunks(limits, remaining - chunk, partCount + 1, timings[1..]);
    assert Chunks(limits, remaining, partCount, timings) == [chunk] + rest;
    if i > 0 {
      PartsAreMultiples(limits, remaining - chunk, partCount + 1, timings[1..], i - 1);
    } else {
      ChunkIsMultiple(limits, remaining, timings[0], partCount);
    }
  }
}
