/** longest_match of deflate.c: what it finds is a match, though the third byte is never compared. */
module MatchFinder {
  import opened HashKey
  import opened HashChains
  import A = Adler32

  type Octet = A.Octet

  const MIN_MATCH: nat := 3
  const MAX_MATCH: nat := 258
  const MIN_LOOKAHEAD: nat := MAX_MATCH + MIN_MATCH + 1

  /** The values for the level, or those set by deflateTune. */
  datatype Tuning = Tuning(good: nat, lazy: nat, nice: nat, chain: nat)

  /** The bytes from `at` on are those from `from` on. */
  predicate IsMatch(s: seq<Octet>, at: nat, from: nat, length: nat) {
    from < at && at + length <= |s| && s[at..at + length] == s[from..from + length]
  }

  lemma MatchMore(w: seq<Octet>, at: nat, from: nat, k: nat)
    requires IsMatch(w, at, from, k) && at + k < |w| && w[at + k] == w[from + k]
    ensures IsMatch(w, at, from, k + 1)
  {
    assert w[at..at + k + 1] == w[at..at + k] + [w[at + k]];
    assert w[from..from + k + 1] == w[from..from + k] + [w[from + k]];
  }

  /** The window holds the end of the input. */
  ghost predicate Shows(w: seq<Octet>, n: nat, seen: seq<Octet>, base: nat) {
    n <= |w| && base + n == |seen| && w[..n] == seen[base..]
  }

  lemma ShowsAt(w: seq<Octet>, n: nat, seen: seq<Octet>, base: nat, i: nat)
    requires Shows(w, n, seen, base) && i < n
    ensures w[i] == seen[base + i]
  {
    assert w[..n][i] == seen[base..][i];
  }

  lemma ShowsSize(w: seq<Octet>, n: nat, seen: seq<Octet>, base: nat)
    requires Shows(w, n, seen, base)
    ensures n <= |w| && base + n == |seen|
  {
  }

  lemma ShowsSlice(w: seq<Octet>, n: nat, seen: seq<Octet>, base: nat, i: nat, length: nat)
    requires Shows(w, n, seen, base) && i + length <= n
    ensures w[i..i + length] == seen[base + i..base + i + length]
  {
    assert w[i..i + length] == w[..n][i..i + length];
    assert seen[base + i..base + i + length] == seen[base..][i..i + length];
  }

  /** A match within the window is a match within the input, as far as that goes. */
  lemma InInput(w: seq<Octet>, n: nat, seen: seq<Octet>, base: nat, at: nat, from: nat, k: nat, length: nat)
    requires Shows(w, n, seen, base) && IsMatch(w, at, from, k) && length <= k && at + length <= n
    ensures IsMatch(seen, base + at, base + from, length)
  {
    ShowsSlice(w, n, seen, base, at, length);
    ShowsSlice(w, n, seen, base, from, length);
    assert w[at..at + length] == w[at..at + k][..length];
    assert w[from..from + length] == w[from..from + k][..length];
  }

  /** How many bytes, up to `most`, the strings at two places have in common from their start. */
  function Same(s: seq<Octet>, at: nat, from: nat, most: nat): (k: nat)
    requires from < at && at + most <= |s|
    ensures k <= most
  {
    if most == 0 then 0
    else
      var k := Same(s, at, from, most - 1);
      if k == most - 1 && s[at + k] == s[from + k] then most else k
  }

  lemma MatchAt(s: seq<Octet>, at: nat, from: nat, length: nat, k: nat)
    requires IsMatch(s, at, from, length) && k < length
    ensures s[at + k] == s[from + k]
  {
    assert s[at..at + length][k] == s[from..from + length][k];
  }

  lemma MatchLess(s: seq<Octet>, at: nat, from: nat, length: nat, k: nat)
    requires IsMatch(s, at, from, length) && k <= length
    ensures IsMatch(s, at, from, k)
  {
    assert s[at..at + k] == s[at..at + length][..k];
    assert s[from..from + k] == s[from..from + length][..k];
  }

  /** It is the length of a match, and the next byte differs. */
  lemma {:induction false} SameMatches(s: seq<Octet>, at: nat, from: nat, most: nat)
    requires from < at && at + most <= |s|
    ensures var k := Same(s, at, from, most); IsMatch(s, at, from, k) && (k < most ==> s[at + k] != s[from + k])
  {
    if most > 0 {
      SameMatches(s, at, from, most - 1);
      var k := Same(s, at, from, most - 1);
      if k == most - 1 && s[at + k] == s[from + k] { MatchMore(s, at, from, k); }
      hide IsMatch;
    }
  }

  /** No match is longer. */
  lemma SameIs(s: seq<Octet>, at: nat, from: nat, most: nat, k: nat)
    requires from < at && at + most <= |s| && k <= most
    ensures IsMatch(s, at, from, k) <==> k <= Same(s, at, from, most)
  {
    hide IsMatch, Same;
    SameMatches(s, at, from, most);
    var n := Same(s, at, from, most);
    if k <= n { MatchLess(s, at, from, n, k); } else if IsMatch(s, at, from, k) { MatchAt(s, at, from, k, n); }
  }

  /** Nothing in common from a byte on that differs. */
  lemma SameEnds(s: seq<Octet>, at: nat, from: nat, most: nat, k: nat)
    requires from < at && at + most <= |s| && k < most && s[at + k] != s[from + k]
    ensures Same(s, at, from, most) <= k
  {
    hide IsMatch, Same;
    SameMatches(s, at, from, most);
    if Same(s, at, from, most) > k { MatchAt(s, at, from, Same(s, at, from, most), k); }
  }

  /** Nor beyond a byte that differs in the window. */
  lemma SameInput(w: seq<Octet>, n: nat, seen: seq<Octet>, base: nat, at: nat, from: nat, most: nat, k: nat)
    requires Shows(w, n, seen, base) && from < at && at + most <= n && at + k < |w| && w[at + k] != w[from + k]
    ensures base + at + most <= |seen| && Same(seen, base + at, base + from, most) <= k
  {
    ShowsSize(w, n, seen, base);
    if k < most {
      ShowsAt(w, n, seen, base, at + k);
      ShowsAt(w, n, seen, base, from + k);
      SameEnds(seen, base + at, base + from, most, k);
    }
  }

  /** The comparison of eight bytes in a row, up to the first that differs. */
  method Eight(window: array<Octet>, scan: nat, match': nat, k: nat) returns (len: nat, equal: bool)
    requires 2 <= k && k + 8 <= MAX_MATCH && scan + MAX_MATCH < window.Length
             && IsMatch(window[..], scan, match', k + 1)
    ensures k < len <= k + 8 && IsMatch(window[..], scan, match', len)
    ensures if equal then len == k + 8 && IsMatch(window[..], scan, match', len + 1)
            else window[scan + len] != window[match' + len]
  {
    len, equal := k, true;
    var left := 8;
    while equal && left > 0
      invariant 0 <= left <= 8 && len == k + 8 - left && (left == 8 ==> equal)
      invariant IsMatch(window[..], scan, match', len)
      invariant if equal then IsMatch(window[..], scan, match', len + 1) else window[scan + len] != window[match' + len]
    {
      len, left := len + 1, left - 1;
      equal := window[scan + len] == window[match' + len];
      if equal { MatchMore(window[..], scan, match', len); }
    }
  }

  /** How far two strings are the same, the first three bytes being so. */
  method Compare(window: array<Octet>, scan: nat, match': nat) returns (len: nat)
    requires scan + MAX_MATCH < window.Length && IsMatch(window[..], scan, match', 3)
    ensures 3 <= len <= MAX_MATCH && IsMatch(window[..], scan, match', len)
    ensures len < MAX_MATCH ==> window[scan + len] != window[match' + len]
  {
    hide IsMatch;
    var equal;
    len, equal := Eight(window, scan, match', 2);
    while equal && len < MAX_MATCH
      invariant equal ==> (len - 2) % 8 == 0
      invariant 3 <= len <= MAX_MATCH && IsMatch(window[..], scan, match', len)
      invariant if equal then IsMatch(window[..], scan, match', len + 1) else window[scan + len] != window[match' + len]
      decreases MAX_MATCH - len
    {
      len, equal := Eight(window, scan, match', len);
    }
  }

  lemma CandidateRange(c: Chains, seen: seq<Octet>, base: nat, strstart: nat, cur: nat)
    requires Candidate(c, seen, base, strstart, cur)
    ensures 0 < cur < strstart && cur + MaxDist(c.wsize) >= strstart
  {
  }

  /** A string that the chains lead to: it has the key of the string at strstart, and lies within reach. */
  ghost predicate Candidate(c: Chains, seen: seq<Octet>, base: nat, strstart: nat, cur: nat)
    reads c`ins
  {
    && 0 < cur < strstart && base + cur in c.ins && base + strstart + 3 <= |seen|
    && strstart - cur + MIN_LOOKAHEAD <= c.wsize
    && KeyAt(c.key, seen, base + cur) == KeyAt(c.key, seen, base + strstart)
  }

  /** The third byte need not be compared. */
  lemma ThreeSame(c: Chains, w: seq<Octet>, n: nat, seen: seq<Octet>, base: nat, strstart: nat, cur: nat)
    requires Shows(w, n, seen, base) && Suits(c.key) && Candidate(c, seen, base, strstart, cur) && strstart + 3 <= n
    requires w[cur] == w[strstart] && w[cur + 1] == w[strstart + 1]
    ensures IsMatch(w, strstart, cur, 3)
  {
    hide Key;
    ShowsAt(w, n, seen, base, strstart);
    ShowsAt(w, n, seen, base, strstart + 1);
    ShowsAt(w, n, seen, base, strstart + 2);
    ShowsAt(w, n, seen, base, cur);
    ShowsAt(w, n, seen, base, cur + 1);
    ShowsAt(w, n, seen, base, cur + 2);
    KeyThird(c.key, w[strstart], w[strstart + 1], w[strstart + 2], w[cur + 2]);
  }

  /** The limit on distances. */
  function MaxDist(wsize: nat): int { wsize - MIN_LOOKAHEAD }

  function Min(a: nat, b: nat): nat { if a < b then a else b }

  /** One step of the search: the string at cur, if it is longer than the best so far. */
  method TryMatch(window: array<Octet>, c: Chains, strstart: nat, cur: nat, best: nat, ghost n: nat,
                  ghost seen: seq<Octet>, ghost base: nat)
    returns (len: nat)
    requires Shows(window[..], n, seen, base) && Suits(c.key) && Candidate(c, seen, base, strstart, cur)
             && strstart + 3 <= n
    requires 1 <= best <= MAX_MATCH && strstart + MAX_MATCH < window.Length
    ensures len == 0 || (3 <= len <= MAX_MATCH && IsMatch(window[..], strstart, cur, len))
    ensures strstart <= n && base + n == |seen|
    ensures Same(seen, base + strstart, base + cur, Min(n - strstart, MAX_MATCH)) <= if len == 0 then best else len
  {
    hide IsMatch, Shows, Key, KeyAt, Same;
    ShowsSize(window[..], n, seen, base);
    ghost var w, most := window[..], Min(n - strstart, MAX_MATCH);
    if w[cur + best] != w[strstart + best] { SameInput(w, n, seen, base, strstart, cur, most, best); }
    if w[cur + best - 1] != w[strstart + best - 1] { SameInput(w, n, seen, base, strstart, cur, most, best - 1); }
    if w[cur] != w[strstart] { SameInput(w, n, seen, base, strstart, cur, most, 0); }
    if w[cur + 1] != w[strstart + 1] { SameInput(w, n, seen, base, strstart, cur, most, 1); }
    if window[cur + best] != window[strstart + best] || window[cur + best - 1] != window[strstart + best - 1]
       || window[cur] != window[strstart] || window[cur + 1] != window[strstart + 1] {
      return 0;
    }
    ThreeSame(c, window[..], n, seen, base, strstart, cur);
    len := Compare(window, strstart, cur);
    if len < MAX_MATCH { SameInput(w, n, seen, base, strstart, cur, most, len); }
  }

  function Quarter(n: nat): nat { n / 4 }

  /** --chain_length, an unsigned word */
  function Less(n: nat): nat { if n == 0 then 0xffff_ffff else n - 1 }

  /** How long the chain may be. */
  function ChainOf(t: Tuning, prevLength: nat): nat { if prevLength >= t.good then Quarter(t.chain) else t.chain }

  /** The strings that the search would come by if none were long enough to stop: down a chain, not beyond the limit. */
  function Visited(prev: seq<Pos>, cur: nat, limit: nat, chain: nat): (r: seq<nat>)
    requires |prev| > 0
    ensures r != [] && r[0] == cur
    decreases cur
  {
    var next: nat := prev[cur % |prev|];
    if limit < next < cur && Less(chain) != 0 then [cur] + Visited(prev, next, limit, Less(chain)) else [cur]
  }

  function LimitOf(strstart: nat, wsize: nat): nat {
    if strstart > MaxDist(wsize) then strstart - MaxDist(wsize) else 0
  }

  /** No string of these has more in common with the one at strstart. */
  ghost predicate NoneLonger(seen: seq<Octet>, base: nat, strstart: nat, most: nat, strings: seq<nat>, best: nat) {
    forall x: nat | x in strings :: x < strstart && base + strstart + most <= |seen|
      && Same(seen, base + strstart, base + x, most) <= best
  }

  lemma NoneLongerMore(seen: seq<Octet>, base: nat, strstart: nat, most: nat, strings: seq<nat>, best: nat, x: nat,
                       best': nat)
    requires NoneLonger(seen, base, strstart, most, strings, best) && best <= best'
    requires x < strstart && base + strstart + most <= |seen| && Same(seen, base + strstart, base + x, most) <= best'
    ensures NoneLonger(seen, base, strstart, most, strings + [x], best')
  {
  }

  /** The search goes on down the chain, or ends. */
  lemma VisitedNext(prev: seq<Pos>, cur: nat, limit: nat, chain: nat, done: seq<nat>, strings: seq<nat>)
    requires |prev| > 0 && strings == done + Visited(prev, cur, limit, chain)
    ensures var next: nat := prev[cur % |prev|];
            if limit < next < cur && Less(chain) != 0
              then strings == done + [cur] + Visited(prev, next, limit, Less(chain))
            else strings == done + [cur]
  {
    hide Less;
  }

  /** The condition of the loop: the next string of the chain, if it is within the limit and the chain not too long. */
  method NextString(c: Chains, strstart: nat, cur: nat, limit: nat, chain: nat, ghost seen: seq<Octet>, ghost base: nat,
                    ghost done: seq<nat>, ghost strings: seq<nat>) returns (next: nat, left: nat, more: bool)
    requires c.Valid(seen, base) && Candidate(c, seen, base, strstart, cur) && c.top == base + strstart + 1
    requires limit == LimitOf(strstart, c.wsize) && strings == done + Visited(c.prev[..], cur, limit, chain)
    ensures next < cur && (more ==> Candidate(c, seen, base, strstart, next))
    ensures more ==> strings == done + [cur] + Visited(c.prev[..], next, limit, left)
    ensures !more ==> strings == done + [cur]
  {
    hide Key, KeyAt, Chained, Less, Visited;
    c.Follow(cur, seen, base);
    VisitedNext(c.prev[..], cur, limit, chain, done, strings);
    next, left := c.prev[cur % c.wsize], chain;
    more := next > limit;
    if more {
      left := Less(chain);
      more := left != 0;
    }
  }

  lemma InVisited(prev: seq<Pos>, cur: nat, limit: nat, chain: nat, done: seq<nat>, strings: seq<nat>)
    requires |prev| > 0 && strings == done + Visited(prev, cur, limit, chain)
    ensures cur in strings
  {
    hide Less;
  }

  lemma NoneYet(seen: seq<Octet>, base: nat, strstart: nat, most: nat, best: nat)
    ensures NoneLonger(seen, base, strstart, most, [], best)
  {
  }

  /** There is no more in common than is looked at. */
  lemma CutLonger(seen: seq<Octet>, base: nat, strstart: nat, most: nat, strings: seq<nat>, best: nat, length: nat)
    requires NoneLonger(seen, base, strstart, most, strings, best) && length >= Min(best, most)
    ensures NoneLonger(seen, base, strstart, most, strings, length)
  {
  }

  /** longest_match, from cur_match on: a length above prev_length is that of a match at match_start, within the input
      and within reach; and it is long enough to stop, or no string that the search comes by has a longer one. */
  method LongestMatch(window: array<Octet>, c: Chains, t: Tuning, strstart: nat, lookahead: nat, prevLength: nat,
                      matchStart: int, curMatch: nat,
                      ghost seen: seq<Octet>, ghost base: nat) returns (length: nat, start: int)
    requires c.Valid(seen, base) && Shows(window[..], strstart + lookahead, seen, base) && window.Length == 2 * c.wsize
    requires strstart + MIN_LOOKAHEAD <= window.Length && Candidate(c, seen, base, strstart, curMatch)
             && c.top == base + strstart + 1
    requires 3 <= lookahead && 1 <= prevLength <= MAX_MATCH
    ensures 1 <= length <= lookahead && length <= MAX_MATCH
    ensures length > prevLength
            ==> 0 < start < strstart && start + MaxDist(c.wsize) >= strstart
                && IsMatch(seen, base + strstart, base + start, length)
    ensures c.prev.Length > 0 && length >= Min(prevLength, lookahead)
    ensures var strings := Visited(c.prev[..], curMatch, LimitOf(strstart, c.wsize), ChainOf(t, prevLength));
            && (length > prevLength ==> start in strings)
            && (length >= Min(t.nice, lookahead)
                || NoneLonger(seen, base, strstart, Min(lookahead, MAX_MATCH), strings, length))
  {
    hide IsMatch, Shows, Key, KeyAt, Chained, Linked, Same, NoneLonger, Less, Visited, Candidate;
    var chain := t.chain;
    var best := prevLength;
    var limit := if strstart > MaxDist(c.wsize) then strstart - MaxDist(c.wsize) else 0;
    var nice := t.nice;
    if prevLength >= t.good { chain := Quarter(chain); }
    ghost var prev, most := c.prev[..], Min(lookahead, MAX_MATCH);
    ghost var strings, done := Visited(prev, curMatch, limit, chain), [];
    NoneYet(seen, base, strstart, most, best);
    if nice > lookahead { nice := lookahead; }
    start := matchStart;
    var cur: nat := curMatch;
    var more := true;
    while more
      invariant more ==> Candidate(c, seen, base, strstart, cur) && strings == done + Visited(prev, cur, limit, chain)
      invariant !more ==> strings == done
      invariant NoneLonger(seen, base, strstart, most, done, best) && (best > prevLength ==> start in strings)
      invariant prevLength <= best <= MAX_MATCH
      invariant best > prevLength
                ==> 0 < start < strstart && start + MaxDist(c.wsize) >= strstart
                    && IsMatch(window[..], strstart, start, best)
      decreases cur
    {
      CandidateRange(c, seen, base, strstart, cur);
      var len := TryMatch(window, c, strstart, cur, best, strstart + lookahead, seen, base);
      NoneLongerMore(seen, base, strstart, most, done, best, cur, if len > best then len else best);
      InVisited(prev, cur, limit, chain, done, strings);
      if len > best {
        start, best := cur, len;
        if len >= nice { break; }
      }
      ghost var at := cur;
      cur, chain, more := NextString(c, strstart, cur, limit, chain, seen, base, done, strings);
      done := done + [at];
    }
    length := if best <= lookahead then best else lookahead;
    if length < nice { CutLonger(seen, base, strstart, most, strings, best, length); }
    if length > prevLength {
      InInput(window[..], strstart + lookahead, seen, base, strstart, start, best, length);
    }
  }
}
