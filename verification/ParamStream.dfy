/** Wire format of the model parameters: 64-bit words in little-endian bytes, lengths first. */
module ParamStream {
  type Byte = b: int | 0 <= b < 256

  const WORD := 0x1_0000_0000_0000_0000
  const MAX_LEVELS := 100

  /** One segment of a level; the four fields are the 64-bit patterns of three doubles and a block number. */
  datatype RawParam = RawParam(firstKey: nat, slope: nat, intercept: nat, blockNum: nat)

  /** Reading a stream: a value with the unread rest, an early end, or the size check's exception. */
  datatype Read<T> = Got(value: T, rest: seq<Byte>) | Short | Invalid

  // ----- words

  function Bytes(v: nat, n: nat): (b: seq<Byte>)
    ensures |b| == n
  {
    if n == 0 then [] else [v % 256] + Bytes(v / 256, n - 1)
  }

  function Value(b: seq<Byte>): nat {
    if b == [] then 0 else b[0] + 256 * Value(b[1..])
  }

  function Power(n: nat): nat {
    if n == 0 then 1 else 256 * Power(n - 1)
  }

  lemma {:induction false} BytesValue(v: nat, n: nat)
    requires v < Power(n)
    ensures Value(Bytes(v, n)) == v
  {
    if n > 0 {
      BytesValue(v / 256, n - 1);
      assert Bytes(v, n)[1..] == Bytes(v / 256, n - 1);
    }
  }

  lemma PowerEight()
    ensures Power(8) == WORD
  {
    assert Power(4) == 0x1_0000_0000;
  }

  function PutWord(v: nat): (b: seq<Byte>)
    ensures |b| == 8
  {
    Bytes(v, 8)
  }

  function TakeWord(s: seq<Byte>): (r: Read<nat>)
    ensures r.Got? ==> |r.rest| + 8 == |s|
    ensures !r.Invalid?
  {
    if |s| < 8 then Short else Got(Value(s[..8]), s[8..])
  }

  lemma WordRoundTrip(v: nat, rest: seq<Byte>)
    requires v < WORD
    ensures TakeWord(PutWord(v) + rest) == Got(v, rest)
  {
    PowerEight();
    BytesValue(v, 8);
    assert (PutWord(v) + rest)[..8] == PutWord(v);
    assert (PutWord(v) + rest)[8..] == rest;
  }

  // ----- parameters

  predicate Fits(p: RawParam) {
    p.firstKey < WORD && p.slope < WORD && p.intercept < WORD && p.blockNum < WORD
  }

  ghost predicate LevelFits(level: seq<RawParam>) {
    |level| < WORD && forall i :: 0 <= i < |level| ==> Fits(level[i])
  }

  function PutParam(p: RawParam): seq<Byte> {
    PutWord(p.firstKey) + PutWord(p.slope) + PutWord(p.intercept) + PutWord(p.blockNum)
  }

  function TakeParam(s: seq<Byte>): (r: Read<RawParam>)
    ensures r.Got? ==> |r.rest| < |s|
    ensures !r.Invalid?
  {
    match TakeWord(s)
    case Short => Short
    case Got(a, s1) =>
      match TakeWord(s1)
      case Short => Short
      case Got(b, s2) =>
        match TakeWord(s2)
        case Short => Short
        case Got(c, s3) =>
          match TakeWord(s3)
          case Short => Short
          case Got(d, s4) => Got(RawParam(a, b, c, d), s4)
  }

  lemma ParamRoundTrip(p: RawParam, rest: seq<Byte>)
    requires Fits(p)
    ensures TakeParam(PutParam(p) + rest) == Got(p, rest)
  {
    hide PutWord, TakeWord;
    var r3 := PutWord(p.blockNum) + rest;
    var r2 := PutWord(p.intercept) + r3;
    var r1 := PutWord(p.slope) + r2;
    WordRoundTrip(p.blockNum, rest);
    WordRoundTrip(p.intercept, r3);
    WordRoundTrip(p.slope, r2);
    WordRoundTrip(p.firstKey, r1);
    assert PutParam(p) + rest == PutWord(p.firstKey) + r1;
  }

  function PutParams(level: seq<RawParam>): seq<Byte> {
    if level == [] then [] else PutParam(level[0]) + PutParams(level[1..])
  }

  function TakeParams(n: nat, s: seq<Byte>): (r: Read<seq<RawParam>>)
    ensures r.Got? ==> |r.value| == n
    ensures !r.Invalid?
  {
    if n == 0 then Got([], s)
    else
      match TakeParam(s)
      case Short => Short
      case Got(p, s1) =>
        match TakeParams(n - 1, s1)
        case Short => Short
        case Got(ps, s2) => Got([p] + ps, s2)
  }

  lemma {:induction false} ParamsRoundTrip(level: seq<RawParam>, rest: seq<Byte>)
    requires LevelFits(level)
    ensures TakeParams(|level|, PutParams(level) + rest) == Got(level, rest)
  {
    hide PutParam, TakeParam;
    if level == [] {
      assert PutParams(level) + rest == rest;
    } else {
      ParamRoundTrip(level[0], PutParams(level[1..]) + rest);
      ParamsRoundTrip(level[1..], rest);
      assert PutParams(level) + rest == PutParam(level[0]) + (PutParams(level[1..]) + rest);
      assert [level[0]] + level[1..] == level;
    }
  }

  function PutLevel(level: seq<RawParam>): seq<Byte> {
    PutWord(|level|) + PutParams(level)
  }

  function TakeLevel(s: seq<Byte>): (r: Read<seq<RawParam>>)
    ensures !r.Invalid?
  {
    match TakeWord(s)
    case Short => Short
    case Got(n, s1) => TakeParams(n, s1)
  }

  function PutLevels(levels: seq<seq<RawParam>>): seq<Byte> {
    if levels == [] then [] else PutLevel(levels[0]) + PutLevels(levels[1..])
  }

  function TakeLevels(n: nat, s: seq<Byte>): (r: Read<seq<seq<RawParam>>>)
    ensures r.Got? ==> |r.value| == n
    ensures !r.Invalid?
  {
    if n == 0 then Got([], s)
    else
      match TakeLevel(s)
      case Short => Short
      case Got(l, s1) =>
        match TakeLevels(n - 1, s1)
        case Short => Short
        case Got(ls, s2) => Got([l] + ls, s2)
  }

  /** The bytes of a whole parameter table. */
  function Put(levels: seq<seq<RawParam>>): seq<Byte> {
    PutWord(|levels|) + PutLevels(levels)
  }

  /** Reading it back; more than 100 levels raise an exception. */
  function Take(s: seq<Byte>): Read<seq<seq<RawParam>>> {
    match TakeWord(s)
    case Short => Short
    case Got(n, s1) => if n > MAX_LEVELS then Invalid else TakeLevels(n, s1)
  }

  ghost predicate AllFit(levels: seq<seq<RawParam>>) {
    |levels| < WORD && forall i :: 0 <= i < |levels| ==> LevelFits(levels[i])
  }

  lemma LevelRoundTrip(level: seq<RawParam>, rest: seq<Byte>)
    requires LevelFits(level)
    ensures TakeLevel(PutLevel(level) + rest) == Got(level, rest)
  {
    hide PutWord, TakeWord, PutParams, TakeParams;
    WordRoundTrip(|level|, PutParams(level) + rest);
    ParamsRoundTrip(level, rest);
    assert PutLevel(level) + rest == PutWord(|level|) + (PutParams(level) + rest);
  }

  lemma {:induction false} LevelsRoundTrip(levels: seq<seq<RawParam>>, rest: seq<Byte>)
    requires AllFit(levels)
    ensures TakeLevels(|levels|, PutLevels(levels) + rest) == Got(levels, rest)
  {
    hide PutLevel, TakeLevel;
    if levels == [] {
      assert PutLevels(levels) + rest == rest;
    } else {
      LevelRoundTrip(levels[0], PutLevels(levels[1..]) + rest);
      LevelsRoundTrip(levels[1..], rest);
      assert PutLevels(levels) + rest == PutLevel(levels[0]) + (PutLevels(levels[1..]) + rest);
      assert [levels[0]] + levels[1..] == levels;
    }
  }

  /** A table survives the wire exactly when it has at most 100 levels; otherwise the reader throws. */
  lemma RoundTripIff(levels: seq<seq<RawParam>>, rest: seq<Byte>)
    requires AllFit(levels)
    ensures Take(Put(levels) + rest) == Got(levels, rest) <==> |levels| <= MAX_LEVELS
    ensures |levels| > MAX_LEVELS ==> Take(Put(levels) + rest) == Invalid
  {
    hide PutWord, TakeWord, PutLevels, TakeLevels;
    WordRoundTrip(|levels|, PutLevels(levels) + rest);
    LevelsRoundTrip(levels, rest);
    assert Put(levels) + rest == PutWord(|levels|) + (PutLevels(levels) + rest);
  }

  // ----- where each field is

  /** The 64-bit word at a byte position, least significant byte first. */
  function WordAt(b: seq<Byte>, at: nat): nat
    requires at + 8 <= |b|
  {
    var w := (i: nat) requires i < 8 => b[at + i] as int;
    w(0) + 0x100 * w(1) + 0x1_0000 * w(2) + 0x100_0000 * w(3) + 0x1_0000_0000 * w(4) + 0x100_0000_0000 * w(5) +
    0x1_0000_0000_0000 * w(6) + 0x100_0000_0000_0000 * w(7)
  }

  /** The byte position of a level: behind the number of levels and all levels before. */
  function LevelStart(levels: seq<seq<RawParam>>, l: nat): nat
    requires l <= |levels|
  {
    if l == 0 then 8 else LevelStart(levels, l - 1) + 8 + 32 * |levels[l - 1]|
  }

  lemma WordIs(v: nat, b: seq<Byte>, at: nat)
    requires v < WORD && at + 8 <= |b| && b[at..at + 8] == PutWord(v)
    ensures WordAt(b, at) == v
  {
    PowerEight();
    BytesValue(v, 8);
    EightBytes(b[at..at + 8]);
  }

  lemma EightBytes(b: seq<Byte>)
    requires |b| == 8
    ensures Value(b) == WordAt(b, 0)
  {
    hide WordAt;
    var b1, b2, b3, b4 := b[1..], b[2..], b[3..], b[4..];
    var b5, b6, b7, b8 := b[5..], b[6..], b[7..], b[8..];
    assert b1[1..] == b2 && b2[1..] == b3 && b3[1..] == b4 && b4[1..] == b5 && b5[1..] == b6 && b6[1..] == b7;
    assert b7[1..] == b8 == [];
    assert Value(b7) == b[7];
    assert Value(b6) == b[6] + 256 * Value(b7);
    assert Value(b5) == b[5] + 256 * Value(b6);
    assert Value(b4) == b[4] + 256 * Value(b5);
    assert Value(b3) == b[3] + 256 * Value(b4);
    assert Value(b2) == b[2] + 256 * Value(b3);
    assert Value(b1) == b[1] + 256 * Value(b2);
    WordUnfolds(b);
  }

  lemma WordUnfolds(b: seq<Byte>)
    requires |b| == 8
    ensures WordAt(b, 0) ==
            b[0] as int + 256 * (b[1] as int + 256 * (b[2] as int + 256 * (b[3] as int + 256 * (b[4] as int +
            256 * (b[5] as int + 256 * (b[6] as int + 256 * b[7] as int))))))
  {}

  /** Where a parameter begins within its level. */
  lemma {:induction false} ParamAt(level: seq<RawParam>, i: nat)
    requires i < |level|
    ensures |PutParams(level)| == 32 * |level| && PutParams(level)[32 * i..32 * i + 32] == PutParam(level[i])
  {
    hide PutWord;
    ParamsLength(level[1..]);
    var b := PutParams(level);
    assert b == PutParam(level[0]) + PutParams(level[1..]);
    if i > 0 {
      ParamAt(level[1..], i - 1);
      assert b[32 * i..32 * i + 32] == PutParams(level[1..])[32 * (i - 1)..32 * (i - 1) + 32];
    }
  }

  lemma {:induction false} ParamsLength(level: seq<RawParam>)
    ensures |PutParams(level)| == 32 * |level|
  {
    if level != [] {
      ParamsLength(level[1..]);
    }
  }

  /** Where a level is in the bytes of all levels. */
  lemma {:induction false} LevelAt(levels: seq<seq<RawParam>>, l: nat)
    requires l < |levels|
    ensures var from := LevelStart(levels, l) - 8;
            && |PutLevels(levels)| == LevelStart(levels, |levels|) - 8
            && from + 8 + 32 * |levels[l]| <= |PutLevels(levels)|
            && PutLevels(levels)[from..from + 8 + 32 * |levels[l]|] == PutLevel(levels[l])
  {
    hide PutLevel;
    LevelsUpTo(levels, l);
    LevelsUpTo(levels, l + 1);
    LevelsUpTo(levels, |levels|);
    PutLevelsLast(levels[..l], levels[l]);
    assert levels[..l + 1] == levels[..l] + [levels[l]] && levels[..|levels|] == levels;
    PutLevelsJoin(levels[..l + 1], levels[l + 1..]);
    assert levels[..l + 1] + levels[l + 1..] == levels;
    LevelLength(levels[l]);
  }

  lemma LevelLength(level: seq<RawParam>)
    ensures |PutLevel(level)| == 8 + 32 * |level|
  {
    ParamsLength(level);
  }

  lemma {:induction false} LevelsUpTo(levels: seq<seq<RawParam>>, l: nat)
    requires l <= |levels|
    ensures |PutLevels(levels[..l])| == LevelStart(levels, l) - 8
  {
    hide PutLevel;
    if l == 0 {
      assert levels[..0] == [];
    } else {
      LevelsUpTo(levels, l - 1);
      PutLevelsLast(levels[..l - 1], levels[l - 1]);
      assert levels[..l] == levels[..l - 1] + [levels[l - 1]];
      LevelLength(levels[l - 1]);
    }
  }

  lemma {:induction false} PutLevelsJoin(a: seq<seq<RawParam>>, b: seq<seq<RawParam>>)
    ensures PutLevels(a + b) == PutLevels(a) + PutLevels(b)
  {
    hide PutLevel;
    if a == [] {
      assert a + b == b;
    } else {
      PutLevelsJoin(a[1..], b);
      assert (a + b)[1..] == a[1..] + b;
    }
  }

  lemma SliceBehind(a: seq<Byte>, c: seq<Byte>, x: nat, n: nat)
    requires x + n <= |c|
    ensures (a + c)[|a| + x..|a| + x + n] == c[x..x + n]
  {}

  lemma SliceInside(b: seq<Byte>, from: nat, m: nat, x: nat, n: nat)
    requires from + m <= |b| && x + n <= m
    ensures b[from..from + m][x..x + n] == b[from + x..from + x + n]
  {
    var u, v := b[from..from + m][x..x + n], b[from + x..from + x + n];
    forall j | 0 <= j < n ensures u[j] == v[j] {
      assert u[j] == b[from..from + m][x + j];
    }
    assert u == v;
  }

  lemma LevelSlice(levels: seq<seq<RawParam>>, l: nat)
    requires l < |levels|
    ensures var b, from := Put(levels), LevelStart(levels, l);
            && |b| == LevelStart(levels, |levels|) && 8 <= from && from + 8 + 32 * |levels[l]| <= |b|
            && b[0..8] == PutWord(|levels|) && b[from..from + 8 + 32 * |levels[l]|] == PutLevel(levels[l])
  {
    hide PutWord, PutLevels, LevelStart, PutLevel;
    LevelAt(levels, l);
    LevelsUpTo(levels, l);
    var n := 8 + 32 * |levels[l]|;
    SliceBehind(PutWord(|levels|), PutLevels(levels), LevelStart(levels, l) - 8, n);
  }

  lemma ParamSlice(level: seq<RawParam>, i: nat)
    requires i < |level|
    ensures var b := PutLevel(level);
            && |b| == 8 + 32 * |level| && 8 + 32 * i + 32 <= |b|
            && b[0..8] == PutWord(|level|) && b[8 + 32 * i..8 + 32 * i + 32] == PutParam(level[i])
  {
    hide PutWord, PutParams, PutParam;
    ParamAt(level, i);
    SliceBehind(PutWord(|level|), PutParams(level), 32 * i, 32);
  }

  lemma FieldSlices(p: RawParam)
    ensures var b := PutParam(p);
            && |b| == 32 && b[0..8] == PutWord(p.firstKey) && b[8..16] == PutWord(p.slope)
            && b[16..24] == PutWord(p.intercept) && b[24..32] == PutWord(p.blockNum)
  {
    hide PutWord;
  }

  lemma FieldIs(b: seq<Byte>, at: nat, p: RawParam)
    requires Fits(p) && at + 32 <= |b| && b[at..at + 32] == PutParam(p)
    ensures WordAt(b, at) == p.firstKey && WordAt(b, at + 8) == p.slope
    ensures WordAt(b, at + 16) == p.intercept && WordAt(b, at + 24) == p.blockNum
  {
    hide PutWord, WordAt, PutParam;
    FieldSlices(p);
    SliceInside(b, at, 32, 0, 8);
    SliceInside(b, at, 32, 8, 8);
    SliceInside(b, at, 32, 16, 8);
    SliceInside(b, at, 32, 24, 8);
    WordIs(p.firstKey, b, at);
    WordIs(p.slope, b, at + 8);
    WordIs(p.intercept, b, at + 16);
    WordIs(p.blockNum, b, at + 24);
  }

  /** The layout on the wire: the number of levels, then for each level its length and for each of its parameters the
      first key, slope, intercept and block number, all as little-endian 64-bit words and with nothing in between. */
  lemma LayoutIs(levels: seq<seq<RawParam>>, l: nat, i: nat)
    requires AllFit(levels) && l < |levels| && i < |levels[l]|
    ensures var b, from, p := Put(levels), LevelStart(levels, l), levels[l][i];
            var at := from + 8 + 32 * i;
            && |b| == LevelStart(levels, |levels|) && at + 32 <= |b|
            && WordAt(b, 0) == |levels| && WordAt(b, from) == |levels[l]|
            && WordAt(b, at) == p.firstKey && WordAt(b, at + 8) == p.slope
            && WordAt(b, at + 16) == p.intercept && WordAt(b, at + 24) == p.blockNum
  {
    hide PutWord, WordAt, PutLevel, LevelStart, PutParam, Put;
    var b, from, p := Put(levels), LevelStart(levels, l), levels[l][i];
    var n := 8 + 32 * |levels[l]|;
    LevelSlice(levels, l);
    ParamSlice(levels[l], i);
    assert LevelFits(levels[l]);
    WordIs(|levels|, b, 0);
    SliceInside(b, from, n, 0, 8);
    WordIs(|levels[l]|, b, from);
    SliceInside(b, from, n, 8 + 32 * i, 32);
    FieldIs(b, from + 8 + 32 * i, p);
  }

  // ----- the loops over the stream

  lemma {:induction false} PutParamsLast(level: seq<RawParam>, p: RawParam)
    ensures PutParams(level + [p]) == PutParams(level) + PutParam(p)
  {
    hide PutParam;
    if level == [] {
      assert PutParams([p][1..]) == [];
      assert [] + [p] == [p];
    } else {
      PutParamsLast(level[1..], p);
      assert (level + [p])[1..] == level[1..] + [p];
    }
  }

  lemma {:induction false} PutLevelsLast(levels: seq<seq<RawParam>>, l: seq<RawParam>)
    ensures PutLevels(levels + [l]) == PutLevels(levels) + PutLevel(l)
  {
    hide PutLevel;
    if levels == [] {
      assert PutLevels([l][1..]) == [];
      assert [] + [l] == [l];
    } else {
      PutLevelsLast(levels[1..], l);
      assert (levels + [l])[1..] == levels[1..] + [l];
    }
  }

  method SerializeLevel(level: seq<RawParam>, os: seq<Byte>) returns (out: seq<Byte>)
    ensures out == os + PutLevel(level)
  {
    hide PutWord, PutParam;
    out := os + PutWord(|level|);
    ghost var start := out;
    for i := 0 to |level|
      invariant out == start + PutParams(level[..i])
    {
      PutParamsLast(level[..i], level[i]);
      assert level[..i + 1] == level[..i] + [level[i]];
      out := out + PutParam(level[i]);
    }
    assert level[..|level|] == level;
  }

  method SerializeParameter(levels: seq<seq<RawParam>>) returns (out: seq<Byte>)
    ensures out == Put(levels)
  {
    hide PutWord, PutLevel;
    out := PutWord(|levels|);
    ghost var start := out;
    for i := 0 to |levels|
      invariant out == start + PutLevels(levels[..i])
    {
      PutLevelsLast(levels[..i], levels[i]);
      assert levels[..i + 1] == levels[..i] + [levels[i]];
      out := SerializeLevel(levels[i], out);
    }
    assert levels[..|levels|] == levels;
  }

  /** Reads a level into a vector resized beforehand, element by element. */
  method DeserializeLevel(s: seq<Byte>) returns (r: Read<seq<RawParam>>)
    ensures r == TakeLevel(s)
  {
    hide TakeParam;
    var size := TakeWord(s);
    if size.Short? {
      return Short;
    }
    var n := size.value;
    var vec: seq<RawParam> := [];
    var stream := size.rest;
    ghost var all := TakeParams(n, stream);
    assert all.Got? ==> vec + all.value == all.value;
    for i := 0 to n
      invariant |vec| == i
      invariant TakeParams(n, size.rest) == Continue(vec, TakeParams(n - i, stream))
    {
      var p := TakeParam(stream);
      if p.Short? {
        return Short;
      }
      ghost var more := TakeParams(n - i - 1, p.rest);
      assert more.Got? ==> vec + ([p.value] + more.value) == vec + [p.value] + more.value;
      vec := vec + [p.value];
      stream := p.rest;
    }
    assert vec + [] == vec;
    r := Got(vec, stream);
  }

  /** The result of a read whose first items were already taken. */
  function Continue<T>(taken: seq<T>, more: Read<seq<T>>): Read<seq<T>> {
    if more.Got? then Got(taken + more.value, more.rest) else more
  }

  method DeserializeParameter(s: seq<Byte>) returns (r: Read<seq<seq<RawParam>>>)
    ensures r == Take(s)
  {
    hide TakeLevel;
    var size := TakeWord(s);
    if size.Short? {
      return Short;
    }
    var n := size.value;
    if n > MAX_LEVELS {
      return Invalid;
    }
    var levels: seq<seq<RawParam>> := [];
    var stream := size.rest;
    ghost var all := TakeLevels(n, stream);
    assert all.Got? ==> levels + all.value == all.value;
    for i := 0 to n
      invariant |levels| == i
      invariant TakeLevels(n, size.rest) == Continue(levels, TakeLevels(n - i, stream))
    {
      var l := DeserializeLevel(stream);
      if l.Short? {
        return Short;
      }
      ghost var more := TakeLevels(n - i - 1, l.rest);
      assert more.Got? ==> levels + ([l.value] + more.value) == levels + [l.value] + more.value;
      levels := levels + [l.value];
      stream := l.rest;
    }
    assert levels + [] == levels;
    r := Got(levels, stream);
  }
}
