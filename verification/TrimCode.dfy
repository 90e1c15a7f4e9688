/** Symbols without a code word at the end of a list of lengths do not matter. */
module TrimCode {
  import opened Kraft
  import opened CanonicalCode

  ghost predicate Padded(lens: seq<nat>, n: nat) { n <= |lens| && forall x | n <= x < |lens| :: lens[x] == 0 }

  lemma {:induction false} RankTrim(lens: seq<nat>, n: nat, k: nat, b: nat)
    requires k <= n <= |lens|
    ensures Rank(lens[..n], k, b) == Rank(lens, k, b)
  {
    if k > 0 { RankTrim(lens, n, k - 1, b); }
  }

  lemma {:induction false} RankPadded(lens: seq<nat>, n: nat, k: nat, b: nat)
    requires Padded(lens, n) && n <= k <= |lens| && b > 0
    ensures Rank(lens, k, b) == Rank(lens, n, b)
    decreases k
  {
    if n < k { RankPadded(lens, n, k - 1, b); }
  }

  lemma CountTrim(lens: seq<nat>, n: nat, b: nat)
    requires Padded(lens, n)
    ensures Count(lens[..n], b) == Count(lens, b)
  {
    if b > 0 {
      RankTrim(lens, n, n, b);
      RankPadded(lens, n, |lens|, b);
    }
  }

  lemma {:induction false} FirstTrim(lens: seq<nat>, n: nat, b: nat)
    requires Padded(lens, n)
    ensures FirstOf(lens[..n], b) == FirstOf(lens, b)
  {
    if b > 0 {
      FirstTrim(lens, n, b - 1);
      CountTrim(lens, n, b - 1);
    }
  }

  lemma {:induction false} TakenTrim(lens: seq<nat>, n: nat, b: nat, scale: nat)
    requires Padded(lens, n) && b <= scale + 1
    ensures Taken(lens[..n], b, scale) == Taken(lens, b, scale)
  {
    if b > 0 {
      TakenTrim(lens, n, b - 1, scale);
      CountTrim(lens, n, b - 1);
    }
  }

  lemma SubscribedTrim(lens: seq<nat>, n: nat)
    requires Padded(lens, n)
    ensures Subscribed(lens[..n]) <==> Subscribed(lens)
  {
    forall b: nat ensures FirstOf(lens[..n], b) == FirstOf(lens, b) && Count(lens[..n], b) == Count(lens, b) {
      FirstTrim(lens, n, b);
      CountTrim(lens, n, b);
    }
    hide FirstOf, Count, Pow2;
    assert forall x | 0 <= x < n :: lens[..n][x] == lens[x];
  }

  lemma WordTrim(lens: seq<nat>, n: nat, x: nat)
    requires Padded(lens, n) && x < n
    ensures CodeWord(lens[..n], x) == CodeWord(lens, x)
  {
    FirstTrim(lens, n, lens[x]);
    RankTrim(lens, n, x, lens[x]);
    hide FirstOf, Rank, Word;
  }

  /** Neither the room taken nor any code word changes. */
  lemma Trim(lens: seq<nat>, n: nat)
    requires Padded(lens, n)
    ensures Subscribed(lens[..n]) <==> Subscribed(lens)
    ensures Taken(lens[..n], MAX_BITS + 1, MAX_BITS) == Taken(lens, MAX_BITS + 1, MAX_BITS)
    ensures forall x: nat | x < n :: CodeWord(lens[..n], x) == CodeWord(lens, x)
  {
    hide Subscribed, Taken, CodeWord;
    SubscribedTrim(lens, n);
    TakenTrim(lens, n, MAX_BITS + 1, MAX_BITS);
    forall x: nat | x < n ensures CodeWord(lens[..n], x) == CodeWord(lens, x) { WordTrim(lens, n, x); }
  }
}
