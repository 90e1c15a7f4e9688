/** The run-length coding of code lengths: what send_tree of trees.c emits, and how the CODELENS state of inflate.c
    expands it. */
module RunLengths {
  import opened Wrappers

  /** One symbol of the code length alphabet with its repeat count. */
  datatype Run =
    | Length(value: nat)     // a length, symbols 0 to 15
    | Again(count: nat)      // repeat the previous length, symbol 16
    | Zeros(count: nat)      // a few zeros, symbol 17
    | ManyZeros(count: nat)  // many zeros, symbol 18

  const REP_3_6: nat := 16
  const REPZ_3_10: nat := 17
  const REPZ_11_138: nat := 18
  const GUARD: nat := 0xffff

  function Symbol(r: Run): nat {
    match r
    case Length(v) => v
    case Again(_) => REP_3_6
    case Zeros(_) => REPZ_3_10
    case ManyZeros(_) => REPZ_11_138
  }

  /** The extra bits that follow the symbol, and their value. */
  function ExtraBits(r: Run): nat {
    match r
    case Length(_) => 0
    case Again(_) => 2
    case Zeros(_) => 3
    case ManyZeros(_) => 7
  }

  function ExtraValue(r: Run): int {
    match r
    case Length(_) => 0
    case Again(n) => n - 3
    case Zeros(n) => n - 3
    case ManyZeros(n) => n - 11
  }

  /** Lengths are at most 15, and repeat counts fit their extra bits. */
  predicate Sendable(r: Run) {
    match r
    case Length(v) => v <= 15
    case Again(n) => 3 <= n <= 6
    case Zeros(n) => 3 <= n <= 10
    case ManyZeros(n) => 11 <= n <= 138
  }

  // -- Emitting -------------------------------------------------------------------------------------------------

  /** The longest run to collect and the shortest to repeat, the next length being `next` after `cur`. */
  function MaxCount(cur: int, next: nat): nat { if next == 0 then 138 else if cur == next then 6 else 7 }

  function MinCount(cur: int, next: nat): nat { if next == 0 then 3 else if cur == next then 3 else 4 }

  function Copies(v: nat, n: nat): (r: seq<Run>)
    ensures |r| == n && forall i | 0 <= i < n :: r[i] == Length(v)
  {
    seq(n, _ => Length(v))
  }

  /** What is sent for a run of `count` lengths `cur` after `prev`. */
  function Flush(cur: nat, prev: int, count: nat, min: nat): seq<Run> {
    if count < min then Copies(cur, count)
    else if cur != 0 then
      if cur != prev then [Length(cur), Again(if count > 0 then count - 1 else 0)] else [Again(count)]
    else if count <= 10 then [Zeros(count)]
    else [ManyZeros(count)]
  }

  /** The length after position n; the guard after the last. */
  function Next(lens: seq<nat>, n: nat): nat { if n + 1 < |lens| then lens[n + 1] else GUARD }

  /** The rest of send_tree from position n, `count` equal lengths having been collected. */
  function Runs(lens: seq<nat>, n: nat, prev: int, count: nat, max: nat, min: nat): seq<Run>
    requires n <= |lens|
    decreases |lens| - n
  {
    if n == |lens| then []
    else
      var cur, next := lens[n], Next(lens, n);
      if count + 1 < max && cur == next then Runs(lens, n + 1, prev, count + 1, max, min)
      else Flush(cur, prev, count + 1, min) + Runs(lens, n + 1, cur, 0, MaxCount(cur, next), MinCount(cur, next))
  }

  function FirstOf(lens: seq<nat>): nat { if lens == [] then GUARD else lens[0] }

  /** All that send_tree emits. */
  function RunsOf(lens: seq<nat>): seq<Run> {
    Runs(lens, 0, -1, 0, if FirstOf(lens) == 0 then 138 else 7, if FirstOf(lens) == 0 then 3 else 4)
  }

  // -- Expanding ------------------------------------------------------------------------------------------------

  function Repeat(v: nat, n: nat): (r: seq<nat>)
    ensures |r| == n && forall i | 0 <= i < n :: r[i] == v
  {
    seq(n, _ => v)
  }

  /** One symbol in CODELENS: no previous length to repeat, or more lengths than expected, is an error. */
  function ExpandOne(have: seq<nat>, r: Run, limit: nat): Option<seq<nat>> {
    if r.Again? && have == [] then None
    else
      var more := match r
        case Length(v) => [v]
        case Again(n) => Repeat(have[|have| - 1], n)
        case Zeros(n) => Repeat(0, n)
        case ManyZeros(n) => Repeat(0, n);
      if |have + more| > limit then None else Some(have + more)
  }

  /** What a symbol adds is within the bounds of the lengths and of their number. */
  lemma ExpandSane(have: seq<nat>, r: Run, limit: nat, max: nat)
    requires (forall x | 0 <= x < |have| :: have[x] <= max) && (r.Length? ==> r.value <= max)
    ensures match ExpandOne(have, r, limit)
            case None => true
            case Some(more) => |more| <= limit && forall x | 0 <= x < |more| :: more[x] <= max
  {
  }

  function Expand(have: seq<nat>, runs: seq<Run>, limit: nat): Option<seq<nat>>
    decreases |runs|
  {
    if runs == [] then Some(have)
    else
      match ExpandOne(have, runs[0], limit)
      case None => None
      case Some(more) => Expand(more, runs[1..], limit)
  }

  lemma {:induction false} ExpandConcat(have: seq<nat>, a: seq<Run>, b: seq<Run>, limit: nat)
    ensures Expand(have, a + b, limit)
      == match Expand(have, a, limit) case None => None case Some(more) => Expand(more, b, limit)
    decreases |a|
  {
    if a == [] {
      assert a + b == b;
    } else {
      assert (a + b)[0] == a[0] && (a + b)[1..] == a[1..] + b;
      var one := ExpandOne(have, a[0], limit);
      if one.Some? { ExpandConcat(one.value, a[1..], b, limit); }
    }
  }

  lemma {:induction false} ExpandCopies(have: seq<nat>, v: nat, n: nat, limit: nat)
    requires |have| + n <= limit
    ensures Expand(have, Copies(v, n), limit) == Some(have + Repeat(v, n))
    decreases n
  {
    if n == 0 {
      assert have + Repeat(v, 0) == have;
    } else {
      assert Copies(v, n)[1..] == Copies(v, n - 1);
      ExpandCopies(have + [v], v, n - 1, limit);
      assert have + [v] + Repeat(v, n - 1) == have + Repeat(v, n);
    }
  }

  /** A run that may be flushed: how its length, the previous one and the bounds hang together. */
  predicate Collecting(cur: nat, prev: int, max: nat, min: nat) {
    && (cur == 0 ==> max == 138 && min == 3)
    && (cur != 0 ==> if cur == prev then max == 6 && min == 3 else max == 7 && min == 4)
  }

  predicate Follows(have: seq<nat>, prev: int) { prev == -1 || (have != [] && prev == have[|have| - 1]) }

  /** What is sent for a run expands to the run. */
  lemma FlushExpands(have: seq<nat>, cur: nat, prev: int, count: nat, max: nat, min: nat, limit: nat)
    requires Collecting(cur, prev, max, min) && 1 <= count <= max && |have| + count <= limit && Follows(have, prev)
    ensures Expand(have, Flush(cur, prev, count, min), limit) == Some(have + Repeat(cur, count))
  {
    if count < min {
      ExpandCopies(have, cur, count, limit);
    } else {
      var runs := Flush(cur, prev, count, min);
      if cur != 0 && cur != prev {
        assert runs == [Length(cur)] + [Again(count - 1)];
        ExpandConcat(have, [Length(cur)], [Again(count - 1)], limit);
        assert [Length(cur)][1..] == [] && [Again(count - 1)][1..] == [];
        assert have + [cur] + Repeat(cur, count - 1) == have + Repeat(cur, count);
      } else {
        assert runs[1..] == [];
      }
    }
  }

  lemma FlushSendable(cur: nat, prev: int, count: nat, max: nat, min: nat)
    requires Collecting(cur, prev, max, min) && 1 <= count <= max && cur <= 15
    ensures forall r | r in Flush(cur, prev, count, min) :: Sendable(r)
  {
  }

  /** Where the loop stands: `count` equal lengths have been collected before position n. */
  ghost predicate RunAt(lens: seq<nat>, n: nat, prev: int, count: nat, max: nat, min: nat) {
    && count <= n <= |lens| && (forall i | 0 <= i < |lens| :: lens[i] <= 15)
    && (n < |lens| ==> Collecting(lens[n], prev, max, min) && count < max && forall i | n - count <= i < n ::
        lens[i] == lens[n])
    && (n == |lens| ==> count == 0)
    && prev == if n == count then -1 else lens[n - count - 1]
  }

  lemma RunNext(lens: seq<nat>, n: nat, prev: int, count: nat, max: nat, min: nat)
    requires RunAt(lens, n, prev, count, max, min) && n < |lens|
    ensures var cur, next := lens[n], Next(lens, n);
      if count + 1 < max && cur == next then RunAt(lens, n + 1, prev, count + 1, max, min)
      else RunAt(lens, n + 1, cur, 0, MaxCount(cur, next), MinCount(cur, next))
  {
    assert lens[n] <= 15;
  }

  /** Every run is sent so that it expands to itself. */
  lemma {:induction false} RunsExpand(before: seq<nat>, lens: seq<nat>, n: nat, prev: int, count: nat, max: nat,
                                      min: nat, limit: nat)
    requires RunAt(lens, n, prev, count, max, min) && |before| + |lens| <= limit
    ensures forall r | r in Runs(lens, n, prev, count, max, min) :: Sendable(r)
    ensures Expand(before + lens[..n - count], Runs(lens, n, prev, count, max, min), limit) == Some(before + lens)
    decreases |lens| - n
  {
    if n == |lens| {
      assert lens[..n] == lens;
    } else {
      var cur, next := lens[n], Next(lens, n);
      RunNext(lens, n, prev, count, max, min);
      if count + 1 < max && cur == next {
        RunsExpand(before, lens, n + 1, prev, count + 1, max, min, limit);
        assert lens[..n + 1 - (count + 1)] == lens[..n - count];
      } else {
        RunFlushes(before, lens, n, prev, count, max, min, limit);
        hide RunAt, Flush, Expand, ExpandOne, MaxCount, MinCount, Sendable;
        RunsExpand(before, lens, n + 1, cur, 0, MaxCount(cur, next), MinCount(cur, next), limit);
        ExpandConcat(before + lens[..n - count], Flush(cur, prev, count + 1, min),
                     Runs(lens, n + 1, cur, 0, MaxCount(cur, next), MinCount(cur, next)), limit);
      }
    }
  }

  lemma RunFlushes(before: seq<nat>, lens: seq<nat>, n: nat, prev: int, count: nat, max: nat, min: nat, limit: nat)
    requires RunAt(lens, n, prev, count, max, min) && n < |lens| && |before| + |lens| <= limit && 0 <= n - count
    ensures Expand(before + lens[..n - count], Flush(lens[n], prev, count + 1, min), limit)
            == Some(before + lens[..n + 1 - 0])
    ensures forall r | r in Flush(lens[n], prev, count + 1, min) :: Sendable(r)
  {
    var have, cur := before + lens[..n - count], lens[n];
    assert cur <= 15;
    FlushExpands(have, cur, prev, count + 1, max, min, limit);
    FlushSendable(cur, prev, count + 1, max, min);
    assert have + Repeat(cur, count + 1) == before + lens[..n + 1];
  }

  /** Expanding what send_tree emits, by the rules of CODELENS, gives back the lengths; every repeat count fits its
      extra bits. */
  lemma RunsRoundTrip(before: seq<nat>, lens: seq<nat>, limit: nat)
    requires |before| + |lens| <= limit && forall i | 0 <= i < |lens| :: lens[i] <= 15
    ensures forall r | r in RunsOf(lens) :: Sendable(r)
    ensures Expand(before, RunsOf(lens), limit) == Some(before + lens)
  {
    RunsExpand(before, lens, 0, -1, 0, if FirstOf(lens) == 0 then 138 else 7, if FirstOf(lens) == 0 then 3
               else 4, limit);
    assert before + lens[..0] == before;
  }

  // -- Counting -------------------------------------------------------------------------------------------------

  /** How often symbol v is sent. */
  function Occurrences(runs: seq<Run>, v: nat): nat {
    if runs == [] then 0 else (if Symbol(runs[0]) == v then 1 else 0) + Occurrences(runs[1..], v)
  }

  lemma {:induction false} OccurrencesConcat(a: seq<Run>, b: seq<Run>, v: nat)
    ensures Occurrences(a + b, v) == Occurrences(a, v) + Occurrences(b, v)
  {
    if a == [] {
      assert a + b == b;
    } else {
      assert (a + b)[1..] == a[1..] + b;
      OccurrencesConcat(a[1..], b, v);
    }
  }

  lemma {:induction false} OccurrencesCopies(x: nat, n: nat, v: nat)
    ensures Occurrences(Copies(x, n), v) == if x == v then n else 0
    decreases n
  {
    if n > 0 {
      assert Copies(x, n)[1..] == Copies(x, n - 1);
      OccurrencesCopies(x, n - 1, v);
    }
  }

  /** What scan_tree adds to the frequency of v for one run. */
  function Counted(cur: nat, prev: int, count: nat, min: nat, v: nat): nat {
    if count < min then (if v == cur then count else 0)
    else if cur != 0 then (if cur != prev && v == cur then 1 else 0) + (if v == REP_3_6 then 1 else 0)
    else if count <= 10 then (if v == REPZ_3_10 then 1 else 0)
    else if v == REPZ_11_138 then 1 else 0
  }

  /** scan_tree counts for a run what send_tree sends for it. */
  lemma CountsFlush(cur: nat, prev: int, count: nat, min: nat, v: nat)
    requires cur <= 15
    ensures Occurrences(Flush(cur, prev, count, min), v) == Counted(cur, prev, count, min, v)
  {
    if count < min {
      OccurrencesCopies(cur, count, v);
    } else if cur != 0 && cur != prev {
      var a := Again(if count > 0 then count - 1 else 0);
      assert [Length(cur), a] == [Length(cur)] + [a];
      OccurrencesConcat([Length(cur)], [a], v);
    } else {
      assert Flush(cur, prev, count, min)[1..] == [];
    }
  }
}
