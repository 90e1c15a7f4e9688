/** A block with dynamic trees (sections 3.2.5 and 3.2.7 of RFC 1951): the bits that trees.c sends for it, and what the
    states TABLE to LIT of inflate.c make of a stream of bits. */
module BlockCode {
  import opened Wrappers
  import opened Kraft
  import opened CanonicalCode
  import opened GenCodes
  import opened BlockTables

  const END_BLOCK: nat := 256
  const LITERALS: nat := 256

  /** A literal byte or a match, as tallied. */
  datatype Token = Literal(byte: nat) | Match(length: nat, dist: nat)

  predicate Good(t: Token) {
    match t
    case Literal(b) => b < 256
    case Match(length, dist) => 3 <= length <= 258 && 1 <= dist <= 32768
  }

  /** The symbols of the literal/length and of the distance tree. */
  function LitSymbol(t: Token): nat {
    match t
    case Literal(b) => b
    case Match(length, _) => LITERALS + 1 + LengthCode(if length > 3 then length - 3 else 0)
  }

  function DistSymbol(t: Token): nat {
    match t
    case Literal(_) => 0
    case Match(_, dist) => DistCode(if dist > 0 then dist - 1 else 0)
  }

  // -- Sending --------------------------------------------------------------------------------------------------

  /** send_code */
  function Sent(lens: seq<nat>, x: nat): seq<bool> { if x < |lens| then CodeWord(lens, x) else [] }

  function LengthBits(length: nat): seq<bool> {
    var lc := if length > 3 then length - 3 else 0;
    Bits(LengthExtra(lc), LengthXBits(LengthCode(lc)))
  }

  function DistBits(dist: nat): seq<bool> {
    var d := if dist > 0 then dist - 1 else 0;
    Bits(DistExtra(d), DistXBits(DistCode(d)))
  }

  function TokenBits(t: Token, ll: seq<nat>, dl: seq<nat>): seq<bool> {
    match t
    case Literal(_) => Sent(ll, LitSymbol(t))
    case Match(length, dist) => Sent(ll, LitSymbol(t)) + LengthBits(length) + Sent(dl, DistSymbol(t)) + DistBits(dist)
  }

  /** compress_block up to the end-of-block code. */
  function TokensBits(tokens: seq<Token>, ll: seq<nat>, dl: seq<nat>): seq<bool> {
    if tokens == [] then [] else TokensBits(tokens[..|tokens| - 1], ll, dl) + TokenBits(tokens[|tokens| - 1], ll, dl)
  }

  function BodyBits(tokens: seq<Token>, ll: seq<nat>, dl: seq<nat>): seq<bool> {
    TokensBits(tokens, ll, dl) + Sent(ll, END_BLOCK)
  }

  /** The symbols of t have words in the trees. */
  predicate Known(t: Token, ll: seq<nat>, dl: seq<nat>) {
    Good(t) && Uses(ll, LitSymbol(t)) && (t.Match? ==> Uses(dl, DistSymbol(t)))
  }

  // -- Reading --------------------------------------------------------------------------------------------------

  /** The value of bits sent least significant first. */
  function FromBits(bits: seq<bool>): nat {
    if bits == [] then 0 else (if bits[0] then 1 else 0) + 2 * FromBits(bits[1..])
  }

  lemma {:induction false} FromToBits(v: nat, n: nat)
    requires v < Pow2(n)
    ensures FromBits(Bits(v, n)) == v
    decreases n
  {
    if n > 0 {
      FromToBits(v / 2, n - 1);
      assert Bits(v, n)[1..] == Bits(v / 2, n - 1);
    }
  }

  /** BITS(n) and DROPBITS(n). */
  function Take(bits: seq<bool>, n: nat): Option<(nat, seq<bool>)> {
    if n > |bits| then None else Some((FromBits(bits[..n]), bits[n..]))
  }

  lemma TakeSent(v: nat, n: nat, rest: seq<bool>)
    requires v < Pow2(n)
    ensures Take(Bits(v, n) + rest, n) == Some((v, rest))
  {
    FromToBits(v, n);
    assert (Bits(v, n) + rest)[..n] == Bits(v, n) && (Bits(v, n) + rest)[n..] == rest;
  }

  ghost predicate Starts(lens: seq<nat>, bits: seq<bool>, x: nat) { Uses(lens, x) && CodeWord(lens, x) <= bits }

  /** The symbol whose code word comes first in the stream. */
  ghost function Symbol(lens: seq<nat>, bits: seq<bool>): (r: Option<(nat, seq<bool>)>)
    ensures r.Some? ==> Uses(lens, r.value.0) && |r.value.1| < |bits|
  {
    if x: nat :| Starts(lens, bits, x) then Some((x, bits[lens[x]..])) else None
  }

  lemma SymbolSent(lens: seq<nat>, x: nat, rest: seq<bool>)
    requires Subscribed(lens) && Uses(lens, x)
    ensures Symbol(lens, Sent(lens, x) + rest) == Some((x, rest))
  {
    var bits := CodeWord(lens, x) + rest;
    assert Starts(lens, bits, x);
    forall y: nat | Starts(lens, bits, y) ensures y == x { DecodesOnce(lens, bits, x, y); }
    assert bits[lens[x]..] == rest;
  }

  /** LENEXT to DISTEXT, after the symbol of a length. */
  ghost function ReadMatch(x: nat, dl: seq<nat>, bits: seq<bool>): (r: Option<(Token, seq<bool>)>)
    requires x > LITERALS
    ensures r.Some? ==> |r.value.1| < |bits|
  {
    var c := x - (LITERALS + 1);
    if c >= L_CODES then None
    else
      match Take(bits, LengthXBits(c))
      case None => None
      case Some((extra, rest)) =>
        match Symbol(dl, rest)
        case None => None
        case Some((d, rest')) =>
          if d >= D_CODES then None
          else
            match Take(rest', DistXBits(d))
            case None => None
            case Some((more, rest'')) => Some((Match(LengthBase(c) + extra, DistBase(d) + more), rest''))
  }

  ghost function ReadToken(x: nat, dl: seq<nat>, bits: seq<bool>): (r: Option<(Token, seq<bool>)>)
    ensures r.Some? ==> |r.value.1| <= |bits|
  {
    if x < LITERALS then Some((Literal(x), bits)) else if x == END_BLOCK then None else ReadMatch(x, dl, bits)
  }

  /** LEN to LIT, until the end of the block: the tokens, and the bits not consumed. */
  ghost function ReadBody(ll: seq<nat>, dl: seq<nat>, bits: seq<bool>): Option<(seq<Token>, seq<bool>)>
    decreases |bits|
  {
    match Symbol(ll, bits)
    case None => None
    case Some((x, rest)) =>
      if x == END_BLOCK then Some(([], rest))
      else
        match ReadToken(x, dl, rest)
        case None => None
        case Some((t, rest')) =>
          match ReadBody(ll, dl, rest')
          case None => None
          case Some((tokens, rest'')) => Some(([t] + tokens, rest''))
  }

  // -- Reading what was sent ------------------------------------------------------------------------------------

  lemma ReadMatchSteps(x: nat, dl: seq<nat>, bits: seq<bool>, extra: nat, rest: seq<bool>, d: nat, rest': seq<bool>,
                       more: nat, rest'': seq<bool>)
    requires LITERALS < x < LITERALS + 1 + L_CODES && d < D_CODES
    requires Take(bits, LengthXBits(x - (LITERALS + 1))) == Some((extra, rest)) && Symbol(dl, rest) == Some((d, rest'))
    requires Take(rest', DistXBits(d)) == Some((more, rest''))
    ensures ReadMatch(x, dl, bits) == Some((Match(LengthBase(x - (LITERALS + 1)) + extra, DistBase(d) + more), rest''))
  {
    hide Take, Symbol, LengthXBits, DistXBits, LengthBase, DistBase;
  }

  lemma MatchRoundTrip(length: nat, dist: nat, dl: seq<nat>, rest: seq<bool>)
    requires Good(Match(length, dist)) && Subscribed(dl) && Uses(dl, DistSymbol(Match(length, dist)))
    ensures ReadMatch(LitSymbol(Match(length, dist)), dl,
                      LengthBits(length) + (Sent(dl, DistSymbol(Match(length, dist))) + (DistBits(dist) + rest)))
      == Some((Match(length, dist), rest))
  {
    hide LengthExtra, DistExtra, LengthCode, DistCode, Bits, Sent, Symbol, Take, Subscribed, LengthXBits, DistXBits,
         LengthBase, DistBase, Pow2, ReadMatch;
    var lc, d := length - 3, dist - 1;
    LengthDecodes(lc);
    DistDecodes(d);
    var r3 := DistBits(dist) + rest;
    var r2 := Sent(dl, DistCode(d)) + r3;
    TakeSent(LengthExtra(lc), LengthXBits(LengthCode(lc)), r2);
    SymbolSent(dl, DistCode(d), r3);
    TakeSent(DistExtra(d), DistXBits(DistCode(d)), rest);
    ReadMatchSteps(LITERALS + 1 + LengthCode(lc), dl, LengthBits(length) + r2, LengthExtra(lc), r2, DistCode(d), r3,
                   DistExtra(d), rest);
  }

  lemma MatchBitsAre(length: nat, dist: nat, ll: seq<nat>, dl: seq<nat>, rest: seq<bool>)
    ensures var t := Match(length, dist);
      TokenBits(t, ll, dl) + rest == Sent(ll, LitSymbol(t))
        + (LengthBits(length) + (Sent(dl, DistSymbol(t)) + (DistBits(dist) + rest)))
  {
    hide Sent, LitSymbol, DistSymbol, LengthBits, DistBits;
  }

  lemma MatchSymbol(t: Token)
    requires t.Match?
    ensures LitSymbol(t) > LITERALS
  {
    hide LengthCode;
  }

  lemma TokenRoundTrip(t: Token, ll: seq<nat>, dl: seq<nat>, rest: seq<bool>)
    requires Known(t, ll, dl) && Subscribed(ll) && Subscribed(dl)
    ensures var s := Symbol(ll, TokenBits(t, ll, dl) + rest);
      s.Some? && s.value.0 != END_BLOCK && ReadToken(s.value.0, dl, s.value.1) == Some((t, rest))
  {
    hide Symbol, Subscribed, Sent, LengthBits, DistBits, ReadMatch, DistSymbol, LengthCode;
    var x := LitSymbol(t);
    if t.Match? {
      var after := LengthBits(t.length) + (Sent(dl, DistSymbol(t)) + (DistBits(t.dist) + rest));
      MatchBitsAre(t.length, t.dist, ll, dl, rest);
      MatchSymbol(t);
      MatchRoundTrip(t.length, t.dist, dl, rest);
      SymbolSent(ll, x, after);
      hide TokenBits, LitSymbol;
    } else {
      SymbolSent(ll, x, rest);
    }
  }

  lemma {:induction false} TokensConcat(a: seq<Token>, b: seq<Token>, ll: seq<nat>, dl: seq<nat>)
    ensures TokensBits(a + b, ll, dl) == TokensBits(a, ll, dl) + TokensBits(b, ll, dl)
    decreases |b|
  {
    hide TokenBits;
    if b == [] {
      assert a + b == a;
    } else {
      var n := |b| - 1;
      assert (a + b)[..|a + b| - 1] == a + b[..n];
      TokensConcat(a, b[..n], ll, dl);
    }
  }

  lemma OneToken(t: Token, ll: seq<nat>, dl: seq<nat>)
    ensures TokensBits([t], ll, dl) == TokenBits(t, ll, dl)
  {
    hide TokenBits;
    assert [t][..0] == [];
  }

  lemma FirstToken(tokens: seq<Token>, ll: seq<nat>, dl: seq<nat>, rest: seq<bool>)
    requires tokens != []
    ensures BodyBits(tokens, ll, dl) + rest == TokenBits(tokens[0], ll, dl) + (BodyBits(tokens[1..], ll, dl) + rest)
  {
    hide TokenBits, TokensBits, Sent;
    TokensConcat([tokens[0]], tokens[1..], ll, dl);
    assert [tokens[0]] + tokens[1..] == tokens;
    OneToken(tokens[0], ll, dl);
  }

  lemma NoToken(ll: seq<nat>, dl: seq<nat>, rest: seq<bool>)
    ensures BodyBits([], ll, dl) + rest == Sent(ll, END_BLOCK) + rest
  {
    hide Sent, TokenBits;
  }

  /** Reading what compress_block sends gives the tokens and stops right after the end-of-block code. */
  lemma {:induction false} BodyRoundTrip(tokens: seq<Token>, ll: seq<nat>, dl: seq<nat>, rest: seq<bool>)
    requires (forall i | 0 <= i < |tokens| :: Known(tokens[i], ll, dl)) && Uses(ll, END_BLOCK) && Subscribed(ll)
             && Subscribed(dl)
    ensures ReadBody(ll, dl, BodyBits(tokens, ll, dl) + rest) == Some((tokens, rest))
    decreases |tokens|
  {
    hide Symbol, ReadToken, BodyBits, TokenBits, Known, Subscribed, Sent;
    if tokens == [] {
      SymbolSent(ll, END_BLOCK, rest);
      NoToken(ll, dl, rest);
    } else {
      var t, more := tokens[0], tokens[1..];
      BodyRoundTrip(more, ll, dl, rest);
      TokenRoundTrip(t, ll, dl, BodyBits(more, ll, dl) + rest);
      FirstToken(tokens, ll, dl, rest);
      assert [t] + more == tokens;
    }
  }
}
