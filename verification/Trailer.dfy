/** The end of a stream: its check value, and what inflate makes of the whole. */
module Trailer {
  import opened Kraft
  import opened GenCodes
  import opened BlockCode
  import opened StreamRead
  import S = InflateStep
  import W = BitWriter
  import C = TableCode
  import A = Adler32
  import B = BitReader

  type Octet = A.Octet

  /** putShortMSB of both halves of the check value. */
  function TrailerOf(check: nat): seq<nat> {
    [check / 0x100_0000 % 256, check / 0x1_0000 % 256, check / 0x100 % 256, check % 256]
  }

  lemma TrailerReads(check: nat)
    requires check < A.VALUES
    ensures W.AllBytes(TrailerOf(check)) && |B.Stream(TrailerOf(check))| == 32
            && S.Trailer(B.Stream(TrailerOf(check))) == check
  {
    var t := TrailerOf(check);
    B.StreamSize(t);
    hide Bits, FromBits, B.Stream;
    FourBytes(t);
    Base256(check);
  }

  lemma Base256(v: nat)
    requires v < A.VALUES
    ensures ((v / 0x100_0000 % 256 * 256 + v / 0x1_0000 % 256) * 256 + v / 0x100 % 256) * 256 + v % 256 == v
  {
  }

  lemma FourBytes(t: seq<nat>)
    requires |t| == 4 && W.AllBytes(t)
    ensures |B.Stream(t)| == 32
    ensures var s := B.Stream(t);
            FromBits(s[..8]) == t[0] && FromBits(s[8..16]) == t[1] && FromBits(s[16..24]) == t[2]
            && FromBits(s[24..32]) == t[3]
  {
    hide Bits, FromBits, B.Stream, Pow2;
    assert t[0..] == t && B.Stream(t[4..]) == [] by { assert t[4..] == []; B.StreamSize(t[4..]); }
    B.StreamNext(t, 0);
    B.StreamNext(t, 1);
    B.StreamNext(t, 2);
    B.StreamNext(t, 3);
    B.Byte256();
    FromToBits(t[0], 8);
    FromToBits(t[1], 8);
    FromToBits(t[2], 8);
    FromToBits(t[3], 8);
    var s := Bits(t[0], 8) + (Bits(t[1], 8) + (Bits(t[2], 8) + Bits(t[3], 8)));
    assert B.Stream(t) == s;
    assert s[..8] == Bits(t[0], 8) && s[8..16] == Bits(t[1], 8) && s[16..24] == Bits(t[2], 8)
           && s[24..32] == Bits(t[3], 8);
  }

  /** inflate makes `plain` of the bytes, and uses them up. */
  ghost predicate Inflates(cfg: S.Config, bytes: seq<Octet>, plain: seq<Octet>) {
    S.Reaches(cfg, S.First(B.Stream(bytes)), S.State(S.Done, true, [], plain))
  }

  lemma StreamInflates(cfg: S.Config, bytes: seq<Octet>, bits: seq<bool>, pad: nat, trailer: seq<bool>,
                       plain: seq<Octet>)
    requires B.Stream(bytes) == bits + C.Zeros(pad) + trailer && pad < 8 && Means(cfg, bits, true, plain)
    requires if cfg.wrap then |trailer| == 32 && S.Trailer(trailer) == A.Adler(plain) else trailer == []
    ensures Inflates(cfg, bytes, plain)
  {
    hide S.Reaches, C.Zeros, A.Adler, B.Stream, S.Trailer;
    B.StreamSize(bytes);
    assert B.Stream(bytes) == bits + (C.Zeros(pad) + trailer);
    EndRuns(cfg, C.Zeros(pad), trailer, plain);
    S.ReachesTrans(cfg, S.First(B.Stream(bytes)), S.State(S.Type, true, C.Zeros(pad) + trailer, plain),
                   S.State(S.Done, true, [], plain));
  }
}
