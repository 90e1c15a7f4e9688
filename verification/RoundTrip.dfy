/** Input compressed by any sequence of calls of deflate, and inflated by any sequence of calls of inflate, comes out
    the same. */
module RoundTrip {
  import opened Kraft
  import opened Trailer
  import opened Resumable
  import opened DeflateWindow
  import opened DeflateSteps
  import D = Deflate
  import K = SymbolSink
  import T = TokenCoder
  import H = HashKey
  import M = MatchFinder
  import HC = HashChains
  import S = InflateStep
  import Z = Inflate
  import W = BitWriter
  import A = Adler32
  import B = BitReader

  type Octet = A.Octet

  // -- deflate ------------------------------------------------------------------------------------------------------

  lemma Sizes(wbits: nat, memLevel: nat)
    requires 9 <= wbits <= 15 && 1 <= memLevel <= 9
    ensures 512 <= Pow2(wbits) <= 32768 && 128 <= Pow2(memLevel + 6) <= 32768
  {
    Pow2Monotone(9, wbits);
    Pow2Monotone(wbits, 15);
    Pow2Monotone(7, memLevel + 6);
    Pow2Monotone(memLevel + 6, 15);
    assert Pow2(5) == 32 && Pow2(7) == 4 * Pow2(5) && Pow2(9) == 4 * Pow2(7) && Pow2(15) == 64 * Pow2(9);
  }

  /** deflateInit2_, for a stream that is read with the configuration cfg. */
  method DeflateInit(wbits: nat, memLevel: nat, settings: Settings, how: D.Strategy, ghost cfg: S.Config)
      returns (d: D.Deflater)
    requires 9 <= wbits <= 15 && 1 <= memLevel <= 9 && Pow2(wbits) <= cfg.wsize && cfg.wrap == settings.wrap
    ensures d.Valid() && !d.finished && d.Given() == [] && d.s.sink.output == [] && d.s.sink.cfg == cfg
    ensures d.s.sink.extra == 0 && d.s.settings == settings
    ensures fresh(d) && fresh(d.s) && fresh(d.s.window) && fresh(d.s.chains) && fresh(d.s.chains.head)
            && fresh(d.s.chains.prev)
    ensures fresh(d.s.sink) && fresh(d.s.sink.c.Parts())
  {
    hide K.Sink.Valid, T.Coder.Valid, T.Coder.Tokens, W.Writer.Stream, Pow2, D.Busy, T.Coder.Parts;
    Sizes(wbits, memLevel);
    var c := T.NewCoder(Pow2(memLevel + 6));
    var sink := new K.Sink(c, cfg);
    var s := new Matcher(sink, H.HashFor(memLevel), Pow2(wbits), settings);
    NothingYetBusy(s, how);
    d := new D.Deflater(s, how);
  }

  lemma NothingYetBusy(s: Matcher, how: D.Strategy)
    requires s.Sized() && s.InputOk() && s.ChainOk() && s.Hashed() && s.strstart == s.lookahead == s.insert == 0
             && s.blockStart == 0
    requires s.matchLength == s.prevLength == 2 && !s.matchAvailable && s.seen == [] && s.base == 0
    requires s.sink.Valid() && !s.sink.ended && s.sink.start == s.sink.plain == [] && s.sink.c.lastLit == 0
    ensures D.Busy(s, how)
  {
    hide K.Sink.Valid, Matcher.InputOk, Matcher.ChainOk;
  }

  /** The last call, and only that, is to finish, and has more space than any stream for so much input and so many calls
      takes. */
  ghost predicate Ample(parts: seq<Portion>, flushes: seq<FlushMode>, wrap: bool)
    requires |parts| == |flushes|
  {
    var n := |parts| - 1;
    && n >= 0 && flushes[n].FINISH? && (forall i | 0 <= i < n :: !flushes[i].FINISH?)
    && 1016 * parts[n].room > D.Most(|AllInput(parts)|, 69 * |parts|, wrap)
  }

  /** What there is space for is more than there can be. */
  lemma Enough(parts: seq<Portion>, flushes: seq<FlushMode>, wrap: bool, calls: nat, extra: nat, delivered: nat)
    requires |parts| == |flushes| && Ample(parts, flushes, wrap) && calls == |parts| && extra <= 69 * calls
    requires 1016 * delivered <= D.Most(|AllInput(parts)|, extra, wrap)
    ensures delivered < parts[|parts| - 1].room
  {
    hide AllInput;
  }

  /** A session: the calls up to the one that ends the stream, if one does; one does if there is space enough for the
      last. */
  method Squeeze(d: D.Deflater, parts: seq<Portion>, flushes: seq<FlushMode>)
      returns (ended: bool, calls: nat, bytes: seq<Octet>)
    requires d.Valid() && d.Given() == [] && d.s.sink.output == [] && |parts| == |flushes| && !d.finished
             && d.s.sink.extra == 0
    modifies d, d.s, d.s.window, d.s.chains, d.s.chains.head, d.s.chains.prev, d.s.sink, d.s.sink.c.Parts()
    ensures calls <= |parts| && (ended || calls == |parts|) && (Ample(parts, flushes, d.s.settings.wrap) ==> ended)
    ensures ended ==> Inflates(d.s.sink.cfg, bytes, AllInput(parts[..calls]))
  {
    hide D.Deflater.Valid, D.Deflater.Given, Inflates, AllInput, T.Coder.Parts, T.Coder.Statics, D.Most, Ample,
         D.Deflater.Pending;
    ended, calls, bytes := false, 0, [];
    NeverEmpty(parts, flushes, d.s.settings.wrap);
    NoInput();
    assert parts[..0] == [];
    while calls < |parts|
      invariant calls <= |parts| && d.Valid() && d.Given() == AllInput(parts[..calls]) && d.s.sink.output == bytes
      invariant d.s.sink.extra <= 69 * calls && ((forall i | 0 <= i < calls :: !flushes[i].FINISH?) ==> !d.finished)
      invariant Ample(parts, flushes, d.s.settings.wrap) ==> calls < |parts|
    {
      InputNext(parts, calls);
      var ret, out := d.Call(parts[calls].more, parts[calls].room, flushes[calls]);
      bytes := bytes + out;
      calls := calls + 1;
      if ret == D.STREAM_END { return true, calls, bytes; }
      if Ample(parts, flushes, d.s.settings.wrap) && calls == |parts| {
        assert parts[..calls] == parts;
        LastOne(parts, flushes, d.s.settings.wrap);
        Enough(parts, flushes, d.s.settings.wrap, calls, d.s.sink.extra, |bytes|);
        assert false;
      }
    }
  }

  lemma NeverEmpty(parts: seq<Portion>, flushes: seq<FlushMode>, wrap: bool)
    requires |parts| == |flushes|
    ensures Ample(parts, flushes, wrap) ==> |parts| > 0
  {
  }

  lemma LastOne(parts: seq<Portion>, flushes: seq<FlushMode>, wrap: bool)
    requires |parts| == |flushes| && Ample(parts, flushes, wrap)
    ensures var n := |parts| - 1;
            n >= 0 && flushes[n].FINISH? && (forall i | 0 <= i < n :: !flushes[i].FINISH?)
            && parts[n].room > 0
  {
  }

  // -- In a single pass -----------------------------------------------------------------------------------------

  /** deflateBound for all but the default settings, without the two bytes of the header. */
  function DeflateBound(n: nat, wrap: bool): nat { n + (n + 7) / 8 + (n + 63) / 64 + 5 + if wrap then 4 else 0 }

  lemma BoundEnough(n: nat, wrap: bool, space: nat, delivered: nat, extra: nat)
    requires space >= DeflateBound(n, wrap) && extra <= 27 && 1016 * delivered <= D.Most(n, extra, wrap)
    ensures delivered < space
  {
  }

  /** A first call that is given all input, that much space, and FINISH, ends the stream. */
  method SinglePass(wbits: nat, memLevel: nat, settings: Settings, how: D.Strategy, input: seq<Octet>, space: nat)
      returns (ret: D.Ret, bytes: seq<Octet>)
    requires 9 <= wbits <= 15 && 1 <= memLevel <= 9 && space >= DeflateBound(|input|, settings.wrap)
    ensures ret == D.STREAM_END && |bytes| <= space && Inflates(S.Config(Pow2(wbits), settings.wrap), bytes, input)
  {
    hide D.Deflater.Valid, D.Deflater.Given, Inflates, T.Coder.Parts, T.Coder.Statics, D.Most, Pow2, D.Deflater.Pending;
    var d := DeflateInit(wbits, memLevel, settings, how, S.Config(Pow2(wbits), settings.wrap));
    ret, bytes := d.Call(input, space, FINISH);
    assert [] + input == input && [] + bytes == bytes;
    BoundEnough(|input|, settings.wrap, space, |bytes|, d.s.sink.extra);
  }

  // -- And back -------------------------------------------------------------------------------------------------

  /** Whatever an inflater has come to on the way to the end of a stream is a part of what the stream stands for. */
  lemma OnTheWay(cfg: S.Config, total: seq<bool>, st: S.State, end: S.State)
    requires S.Tracks(cfg, S.First(total), st) && S.Reaches(cfg, S.First(total), end) && end.mode.Done?
    ensures st.out <= end.out && (S.Stuck(cfg, st) ==> st == end)
  {
    hide S.Iterate, S.Step;
    var a := S.First(total);
    var m: nat :| S.Iterate(cfg, a, m) == end;
    S.AtRest(cfg, end);
    if S.ReachesFar(cfg, a) {
      var k: nat :| S.Iterate(cfg, a, k).mode.Far?;
      FarStuck(cfg, S.Iterate(cfg, a, k));
      S.OneEnd(cfg, a, S.Iterate(cfg, a, k), end);
    }
    var n: nat :| S.Iterate(cfg, a, n) == st;
    if n <= m {
      S.IterateAdd(cfg, a, n, m - n);
      S.RunAppends(cfg, st, m - n);
    } else {
      S.IterateAdd(cfg, a, m, n - m);
      S.StuckStays(cfg, end, n - m);
    }
    if S.Stuck(cfg, st) { S.OneEnd(cfg, a, st, end); }
  }

  lemma FarStuck(cfg: S.Config, st: S.State)
    requires st.mode.Far?
    ensures S.Stuck(cfg, st)
  {
  }

  /** The end of a session on a stream that stands for `plain`, when all its bytes have been given. */
  lemma SessionEnd(z: Z.Inflate, bytes: seq<Octet>, plain: seq<Octet>)
    requires z.Valid() && z.Started() && z.Stops() && z.total == B.Stream(bytes) && z.left == []
    requires Inflates(z.Cfg(), bytes, plain)
    ensures z.o.Valid() && z.o.All() <= plain
    ensures Ended(z) ==> z.o.All() == plain && z.mode.Done? && z.r.Rest() == []
  {
    hide S.Stuck, S.Tracks, S.Reaches, S.First, Z.Inflate.Sound, Z.Inflate.Lean, A.Adler, Pow2, B.Stream;
    z.ValidParts();
    assert z.r.Rest() + [] == z.r.Rest();
    if Ended(z) { EndStuck(z); }
    OnTheWay(z.Cfg(), z.total, z.Abs([]), S.State(S.Done, true, [], plain));
  }

  /** The bytes cut at any places, each part with any space for output, and more than enough space for the last. */
  function Divide(bytes: seq<Octet>, cuts: seq<(nat, nat)>, space: nat): (plan: seq<Portion>)
    ensures plan != []
  {
    if cuts == [] then [Portion(bytes, space)]
    else
      var n := if cuts[0].0 <= |bytes| then cuts[0].0 else |bytes|;
      [Portion(bytes[..n], cuts[0].1)] + Divide(bytes[n..], cuts[1..], space)
  }

  lemma InputEnd(plan: seq<Portion>)
    requires plan != []
    ensures AllInput(plan) == AllInput(plan[..|plan| - 1]) + plan[|plan| - 1].more
  {
  }

  lemma {:induction false} AllFront(p: Portion, plan: seq<Portion>)
    ensures AllInput([p] + plan) == p.more + AllInput(plan)
    decreases |plan|
  {
    hide AllInput;
    InputEnd([p] + plan);
    NoInput();
    if plan == [] {
      assert ([p] + plan)[..0] == [];
    } else {
      InputEnd(plan);
      AllFront(p, plan[..|plan| - 1]);
      assert ([p] + plan)[..|plan|] == [p] + plan[..|plan| - 1];
    }
  }

  lemma {:induction false} DivideAll(bytes: seq<Octet>, cuts: seq<(nat, nat)>, space: nat)
    ensures AllInput(Divide(bytes, cuts, space)) == bytes
    ensures var plan := Divide(bytes, cuts, space); plan[|plan| - 1].room == space
    decreases |cuts|
  {
    hide AllInput;
    if cuts == [] {
      NoInput();
      AllFront(Portion(bytes, space), []);
      assert [Portion(bytes, space)] + [] == [Portion(bytes, space)];
    } else {
      var n := if cuts[0].0 <= |bytes| then cuts[0].0 else |bytes|;
      DivideAll(bytes[n..], cuts[1..], space);
      var tail := Divide(bytes[n..], cuts[1..], space);
      DivideMore(bytes, cuts, space);
      hide Divide;
      AllFront(Portion(bytes[..n], cuts[0].1), tail);
    }
  }

  lemma DivideMore(bytes: seq<Octet>, cuts: seq<(nat, nat)>, space: nat)
    requires cuts != []
    ensures var n := if cuts[0].0 <= |bytes| then cuts[0].0 else |bytes|;
            Divide(bytes, cuts, space) == [Portion(bytes[..n], cuts[0].1)] + Divide(bytes[n..], cuts[1..], space)
  {
  }

  lemma NoInput()
    ensures AllInput([]) == []
  {
  }

  /** Whatever the calls of deflate are given, if they come to the end of the stream, then inflate gives back all of the
      input, however the stream is cut up. */
  method RoundTrip(wbits: nat, memLevel: nat, settings: Settings, how: D.Strategy, parts: seq<Portion>,
                   flushes: seq<FlushMode>,
                   ibits: nat, cuts: seq<(nat, nat)>, divide: bool)
    returns (ended: bool, calls: nat, bytes: seq<Octet>, z: Z.Inflate?, out: seq<Octet>)
    requires 9 <= wbits <= 15 && wbits <= ibits && 1 <= memLevel <= 9 && |parts| == |flushes|
    ensures calls <= |parts| && (ended ==> z != null) && (Ample(parts, flushes, settings.wrap) ==> ended)
    ensures ended ==> z.total == B.Stream(bytes) && z.Cfg() == S.Config(Pow2(ibits), settings.wrap)
    ensures ended ==>
              out == AllInput(parts[..calls]) && z.mode.Done? && (settings.wrap ==> z.check == A.Adler(out))
  {
    hide Inflates, S.Reaches, S.First, S.Tracks, B.Stream, Z.Inflate.Sound, Z.Inflate.Lean, Pow2, A.Adler;
    hide D.Deflater.Valid, D.Deflater.Given, AllInput, T.Coder.Parts;
    Pow2Monotone(wbits, ibits);
    ghost var cfg := S.Config(Pow2(ibits), settings.wrap);
    var d := DeflateInit(wbits, memLevel, settings, how, cfg);
    ended, calls, bytes := Squeeze(d, parts, flushes);
    z, out := null, [];
    if ended {
      var plain := AllInput(parts[..calls]);
      z, out := There(bytes, settings.wrap, ibits, cuts, |plain| + 1, divide, plain);
    }
  }

  /** A stream inflated, cut up in any way, with more than enough space in the end. */
  method There(bytes: seq<Octet>, wrap: bool, ibits: nat, cuts: seq<(nat, nat)>, space: nat, divide: bool,
               ghost plain: seq<Octet>)
    returns (z: Z.Inflate, out: seq<Octet>)
    requires Inflates(S.Config(Pow2(ibits), wrap), bytes, plain) && space > |plain|
    ensures z.total == B.Stream(bytes) && z.Cfg() == S.Config(Pow2(ibits), wrap)
    ensures out == plain && z.mode.Done? && (wrap ==> z.check == A.Adler(out))
  {
    hide Inflates, S.Reaches, S.First, S.Tracks, B.Stream, Z.Inflate.Sound, Z.Inflate.Lean, Pow2, A.Adler;
    var plan := Divide(bytes, cuts, space);
    DivideAll(bytes, cuts, space);
    B.StreamSize(bytes);
    z, out := Session(ibits, wrap, plan, divide, B.Stream(bytes));
    SessionEnd(z, bytes, plain);
  }
}
