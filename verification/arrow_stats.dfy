/**
 * Per-record-batch min/max statistics of Arrow fields
 * (next/arrow_fdw.c:547-849). A writer stores, in a field's custom
 * metadata, the keys "min_values" and "max_values", each a comma-separated
 * list of signed decimal integers with one entry per record batch. The
 * reader parses both lists in lockstep into little-endian images of the
 * field's unit size, walks the children of the field the same way, and
 * later copies one record batch's entry into that batch's field state.
 */
module ArrowStats {
  import opened Wrappers
  import opened ArrowTypes
  import StrTok
  import Align

  const TWO_127: int := 0x8000_0000_0000_0000_0000_0000_0000_0000
  const TWO_128: int := 0x1_0000_0000_0000_0000_0000_0000_0000_0000

  /** C `int128_t`. */
  type i128 = x: int | -TWO_127 <= x < TWO_127

  /**
   * Two's-complement reduction into `int128_t`. The source accumulates
   * digits in a signed 128-bit integer and negates it; the model takes the
   * wrap-around a two's-complement machine performs on overflow.
   */
  function Wrap128(x: int): (r: i128)
    ensures (r - x) % TWO_128 == 0
    ensures -TWO_127 <= x < TWO_127 ==> r == x
  {
    var m := x % TWO_128;
    if m < TWO_127 then m else m - TWO_128
  }

  // ---------------------------------------------------------------------
  // Decimal tokens
  // ---------------------------------------------------------------------

  predicate IsDigit(c: char)
  {
    '0' <= c <= '9'
  }

  predicate AllDigits(d: string)
  {
    forall i | 0 <= i < |d| :: IsDigit(d[i])
  }

  function DigitVal(c: char): (v: nat)
    requires IsDigit(c)
    ensures v < 10
  {
    (c as int) - ('0' as int)
  }

  /** The length of the run of digits `s` starts with. */
  function DigitRun(s: string): (n: nat)
    ensures n <= |s|
    ensures AllDigits(s[..n])
    ensures n < |s| ==> !IsDigit(s[n])
  {
    if |s| == 0 || !IsDigit(s[0]) then 0
    else
      var n := 1 + DigitRun(s[1..]);
      assert s[..n] == [s[0]] + s[1..][..n - 1];
      n
  }

  /** The value of a digit string read left to right, `ival = 10 * ival + digit`. */
  function DigitsValue(d: string): nat
    requires AllDigits(d)
  {
    if |d| == 0 then 0 else 10 * DigitsValue(d[..|d| - 1]) + DigitVal(d[|d| - 1])
  }

  /** What `__atoi128` accepts without complaint: an optional '-' and then digits only. */
  predicate Numeral(tok: string)
  {
    if |tok| > 0 && tok[0] == '-' then AllDigits(tok[1..]) else AllDigits(tok)
  }

  datatype Parsed = Parsed(value: i128, isnull: bool)

  /**
   * `__atoi128`. `isnull` is the caller's flag, which the function only
   * ever sets: when characters other than digits follow the optional sign,
   * or when a '-' is followed by a value that is zero as an `int128_t`.
   * The string is the C string up to its terminating NUL.
   */
  function Atoi128(tok: string, isnull: bool): (r: Parsed)
    ensures isnull ==> r.isnull
    ensures !r.isnull ==> Numeral(tok)
    ensures Numeral(tok) && !(|tok| > 0 && tok[0] == '-') ==> r.isnull == isnull
  {
    var minus := |tok| > 0 && tok[0] == '-';
    var body := if minus then tok[1..] else tok;
    var n := DigitRun(body);
    assert n == |body| ==> body[..n] == body;
    var ival := Wrap128(DigitsValue(body[..n]));
    var garbage := n < |body|;
    if minus then Parsed(Wrap128(0 - ival as int), isnull || garbage || ival == 0)
    else Parsed(ival, isnull || garbage)
  }

  function DigitChar(d: nat): (c: char)
    requires d < 10
    ensures IsDigit(c) && DigitVal(c) == d
  {
    ('0' as int + d) as char
  }

  /** The decimal digits of `n`, most significant first, with no leading zero. */
  function NatText(n: nat): (s: string)
    ensures |s| > 0 && AllDigits(s)
  {
    if n < 10 then [DigitChar(n)] else NatText(n / 10) + [DigitChar(n % 10)]
  }

  /** How a writer prints one statistic: `-` and the digits of the magnitude. */
  function DecimalText(v: int): (s: string)
    ensures |s| > 0 && ',' !in s
  {
    if v < 0 then "-" + NatText(-v) else NatText(v)
  }

  lemma {:induction false} ValueOfNatText(n: nat)
    ensures DigitsValue(NatText(n)) == n
  {
    if n >= 10 {
      var s := NatText(n);
      assert s[..|s| - 1] == NatText(n / 10);
      ValueOfNatText(n / 10);
    }
  }

  /** 2^127 does not fit and wraps to the most negative `int128_t`, its own negation. */
  lemma Wrap128Top()
    ensures Wrap128(TWO_127) == -TWO_127
    ensures Wrap128(0 - (-TWO_127)) == -TWO_127
  {
  }

  lemma AtoiDigits(d: string, isnull: bool)
    requires AllDigits(d)
    ensures Atoi128(d, isnull) == Parsed(Wrap128(DigitsValue(d)), isnull)
  {
    assert |d| > 0 ==> IsDigit(d[0]);
    assert d[..|d|] == d;
  }

  lemma AtoiMinusDigits(d: string, isnull: bool)
    requires AllDigits(d)
    ensures var ival := Wrap128(DigitsValue(d));
      Atoi128("-" + d, isnull) == Parsed(Wrap128(0 - ival as int), isnull || ival == 0)
  {
    var tok := "-" + d;
    assert tok[0] == '-' && tok[1..] == d;
    DigitRunAll(d);
    assert d[..|d|] == d;
  }

  /** A string of digits is one run of digits. */
  lemma DigitRunAll(d: string)
    requires AllDigits(d)
    ensures DigitRun(d) == |d|
  {
    var n := DigitRun(d);
    if n < |d| {
      assert false;
    }
  }

  /** Reading a printed `int128_t` back gives the value and leaves the flag clear. */
  lemma AtoiOfText(v: i128)
    ensures Atoi128(DecimalText(v), false) == Parsed(v, false)
  {
    if v < 0 {
      var m: nat := 0 - v as int;
      ValueOfNatText(m);
      AtoiMinusDigits(NatText(m), false);
      var ival := Wrap128(m);
      if m == TWO_127 {
        Wrap128Top();
        assert ival == v;
      } else {
        assert ival == m;
      }
      assert ival != 0;
      assert Wrap128(0 - ival as int) == v;
      assert DecimalText(v) == "-" + NatText(m);
    } else {
      ValueOfNatText(v);
      AtoiDigits(NatText(v), false);
    }
  }

  // ---------------------------------------------------------------------
  // Token trimming
  // ---------------------------------------------------------------------

  predicate IsBlank(c: char)
  {
    c == ' ' || c == '\t'
  }

  predicate NoBlank(s: string)
  {
    forall i | 0 <= i < |s| :: !IsBlank(s[i])
  }

  /**
   * `__trim`, a string helper defined outside the modelled files, taken to
   * drop the spaces and tabs at both ends of a token.
   */
  function TrimLeft(s: string): (r: string)
    ensures |r| <= |s|
    ensures |r| > 0 ==> !IsBlank(r[0])
    ensures NoBlank(s) ==> r == s
  {
    if |s| > 0 && IsBlank(s[0]) then TrimLeft(s[1..]) else s
  }

  function TrimRight(s: string): (r: string)
    ensures |r| <= |s|
    ensures |r| > 0 ==> !IsBlank(r[|r| - 1])
    ensures r == s[..|r|]
    ensures NoBlank(s) ==> r == s
  {
    if |s| > 0 && IsBlank(s[|s| - 1]) then TrimRight(s[..|s| - 1]) else s
  }

  function Trim(s: string): (r: string)
    ensures |r| > 0 ==> !IsBlank(r[0]) && !IsBlank(r[|r| - 1])
    ensures NoBlank(s) ==> r == s
  {
    TrimRight(TrimLeft(s))
  }

  // ---------------------------------------------------------------------
  // Parsing one field's statistics
  // ---------------------------------------------------------------------

  /**
   * The unit size the statistics of a type are stored with; None for the
   * types that carry no statistics.
   */
  function StatsUnitSz(t: ArrowType): (u: Option<nat>)
    ensures u.Some? <==>
      (t.Int? && t.bitWidth in {8, 16, 32, 64}) || t.FloatingPoint? || t.Decimal? || t.Date? || t.Time? || t.Timestamp?
    ensures u.Some? && !t.Decimal? ==> u == ArrowWidth(t)
    ensures t.Decimal? ==> u == Some(16)
  {
    match t
    case Int(bw, _) =>
      if bw == 8 then Some(1) else if bw == 16 then Some(2)
      else if bw == 32 then Some(4) else if bw == 64 then Some(8) else None
    case FloatingPoint(p) => Some(match p case Half => 2 case Single => 4 case Double => 8)
    case Decimal(_, _, _) => Some(16)
    case Date(u) => Some(match u case DateDay => 4 case DateMilliSecond => 8)
    case Time(u) => Some(match u case Second => 4 case MilliSecond => 4 case MicroSecond => 8 case NanoSecond => 8)
    case Timestamp(_, _) => Some(8)
    case _ => None
  }

  /** The low `u` bytes of an `int128_t`, as `memcpy` copies them on a little-endian host. */
  function Image(v: i128, u: nat): (b: seq<Align.byte>)
    ensures |b| == u
  {
    Align.LE(v % TWO_128, u)
  }

  /**
   * The arrays a successful parse installs: the unit size, a null flag per
   * record batch and the min and max images (all-zero when the flag is set).
   */
  datatype StatArrays = StatArrays(
    unitsz: nat,
    isnull: seq<bool>,
    mins: seq<seq<Align.byte>>,
    maxs: seq<seq<Align.byte>>)

  datatype Entry = Entry(isnull: bool, min: seq<Align.byte>, max: seq<Align.byte>)

  /** One loop step: both tokens share one null flag. */
  function PairEntry(u: nat, tok1: string, tok2: string): (e: Entry)
    ensures !e.isnull ==> Numeral(Trim(tok1)) && Numeral(Trim(tok2))
    ensures |e.min| == u && |e.max| == u
  {
    var a := Atoi128(Trim(tok1), false);
    var b := Atoi128(Trim(tok2), a.isnull);
    if b.isnull then Entry(true, Align.Zeros(u), Align.Zeros(u))
    else Entry(false, Image(a.value, u), Image(b.value, u))
  }

  function Push(acc: StatArrays, e: Entry): StatArrays
  {
    acc.(isnull := acc.isnull + [e.isnull], mins := acc.mins + [e.min], maxs := acc.maxs + [e.max])
  }

  /**
   * The `strtok_r` loop: it advances both token streams together while both
   * have a token and `index < nrooms`, and succeeds only if afterwards both
   * streams are exhausted and `index == nrooms`.
   */
  function ParseLoop(u: nat, t1: seq<string>, t2: seq<string>, index: nat, nrooms: nat, acc: StatArrays): (r: Option<StatArrays>)
    ensures r.Some? ==> r.value.unitsz == acc.unitsz
    decreases |t1|
  {
    if |t1| > 0 && |t2| > 0 && index < nrooms then
      ParseLoop(u, t1[1..], t2[1..], index + 1, nrooms, Push(acc, PairEntry(u, t1[0], t2[0])))
    else if |t1| == 0 && |t2| == 0 && index == nrooms then Some(acc)
    else None
  }

  /** The entries of a parse, one per pair of tokens. */
  function Entries(u: nat, t1: seq<string>, t2: seq<string>): (es: seq<Entry>)
    requires |t1| == |t2|
    ensures |es| == |t1|
  {
    seq(|t1|, i requires 0 <= i < |t1| => PairEntry(u, t1[i], t2[i]))
  }

  /** The three arrays that hold a sequence of entries. */
  function Columns(u: nat, es: seq<Entry>): (a: StatArrays)
    ensures a.unitsz == u && |a.isnull| == |es| && |a.mins| == |es| && |a.maxs| == |es|
  {
    StatArrays(u,
      seq(|es|, i requires 0 <= i < |es| => es[i].isnull),
      seq(|es|, i requires 0 <= i < |es| => es[i].min),
      seq(|es|, i requires 0 <= i < |es| => es[i].max))
  }

  /** The independent description of a parse: entry `i` comes from the `i`-th tokens. */
  function Expected(u: nat, t1: seq<string>, t2: seq<string>): (a: StatArrays)
    requires |t1| == |t2|
  {
    Columns(u, Entries(u, t1, t2))
  }

  function Concat(a: StatArrays, b: StatArrays): StatArrays
  {
    a.(isnull := a.isnull + b.isnull, mins := a.mins + b.mins, maxs := a.maxs + b.maxs)
  }

  lemma ColumnsCons(u: nat, e: Entry, es: seq<Entry>, acc: StatArrays)
    ensures Concat(Push(acc, e), Columns(u, es)) == Concat(acc, Columns(u, [e] + es))
  {
    var x, y := Columns(u, es), Columns(u, [e] + es);
    assert y.isnull == [e.isnull] + x.isnull;
    assert y.mins == [e.min] + x.mins;
    assert y.maxs == [e.max] + x.maxs;
  }

  lemma EntriesCons(u: nat, t1: seq<string>, t2: seq<string>)
    requires |t1| == |t2| > 0
    ensures Entries(u, t1, t2) == [PairEntry(u, t1[0], t2[0])] + Entries(u, t1[1..], t2[1..])
  {
  }

  lemma ExpectedCons(u: nat, t1: seq<string>, t2: seq<string>, acc: StatArrays)
    requires |t1| == |t2| > 0
    ensures Concat(Push(acc, PairEntry(u, t1[0], t2[0])), Expected(u, t1[1..], t2[1..]))
         == Concat(acc, Expected(u, t1, t2))
  {
    EntriesCons(u, t1, t2);
    ColumnsCons(u, PairEntry(u, t1[0], t2[0]), Entries(u, t1[1..], t2[1..]), acc);
  }

  /** The loop succeeds exactly when both streams hold the remaining `nrooms - index` tokens. */
  lemma {:induction false} ParseLoopExact(u: nat, t1: seq<string>, t2: seq<string>, index: nat, nrooms: nat, acc: StatArrays)
    ensures ParseLoop(u, t1, t2, index, nrooms, acc) ==
      (if |t1| == |t2| && index + |t1| == nrooms then Some(Concat(acc, Expected(u, t1, t2))) else None)
    decreases |t1|
  {
    if |t1| > 0 && |t2| > 0 && index < nrooms {
      ParseLoopExact(u, t1[1..], t2[1..], index + 1, nrooms, Push(acc, PairEntry(u, t1[0], t2[0])));
      ParseLoopStep(u, t1, t2, index, nrooms, acc);
    } else {
      ParseLoopEnd(u, t1, t2, index, nrooms, acc);
    }
  }

  /** ParseLoopExact once a stream runs out or `index` reaches `nrooms`. */
  lemma ParseLoopEnd(u: nat, t1: seq<string>, t2: seq<string>, index: nat, nrooms: nat, acc: StatArrays)
    requires !(|t1| > 0 && |t2| > 0 && index < nrooms)
    ensures ParseLoop(u, t1, t2, index, nrooms, acc) ==
      (if |t1| == |t2| && index + |t1| == nrooms then Some(Concat(acc, Expected(u, t1, t2))) else None)
  {
    if |t1| == 0 && |t2| == 0 && index == nrooms {
      var x := Expected(u, t1, t2);
      assert x.isnull == [] && x.mins == [] && x.maxs == [];
      assert Concat(acc, x) == acc;
    }
  }

  /** One token pair consumed: ParseLoopExact for the rest gives it for the whole. */
  lemma ParseLoopStep(u: nat, t1: seq<string>, t2: seq<string>, index: nat, nrooms: nat, acc: StatArrays)
    requires |t1| > 0 && |t2| > 0 && index < nrooms
    requires var acc' := Push(acc, PairEntry(u, t1[0], t2[0]));
      ParseLoop(u, t1[1..], t2[1..], index + 1, nrooms, acc') ==
      (if |t1| == |t2| && index + |t1| == nrooms then Some(Concat(acc', Expected(u, t1[1..], t2[1..]))) else None)
    ensures ParseLoop(u, t1, t2, index, nrooms, acc) ==
      (if |t1| == |t2| && index + |t1| == nrooms then Some(Concat(acc, Expected(u, t1, t2))) else None)
  {
    if |t1| == |t2| {
      ExpectedCons(u, t1, t2, acc);
    }
  }

  /** `__parseArrowFieldStatsBinary`. */
  function ParseStats(t: ArrowType, nrooms: nat, minTokens: string, maxTokens: string): (r: Option<StatArrays>)
    ensures r.Some? ==> StatsUnitSz(t) == Some(r.value.unitsz)
  {
    match StatsUnitSz(t)
    case None => None
    case Some(u) => ParseLoop(u, StrTok.Tokens(minTokens, ','), StrTok.Tokens(maxTokens, ','), 0, nrooms, StatArrays(u, [], [], []))
  }

  /**
   * A parse succeeds iff the type has a unit size and both lists hold
   * exactly `nrooms` tokens, and then entry `i` is made of the `i`-th
   * tokens of both lists.
   */
  lemma ParseStatsExact(t: ArrowType, nrooms: nat, minTokens: string, maxTokens: string)
    ensures var t1, t2 := StrTok.Tokens(minTokens, ','), StrTok.Tokens(maxTokens, ',');
      ParseStats(t, nrooms, minTokens, maxTokens) ==
        (if StatsUnitSz(t).Some? && |t1| == nrooms && |t2| == nrooms
         then Some(Expected(StatsUnitSz(t).value, t1, t2)) else None)
  {
    if StatsUnitSz(t).Some? {
      ParseTokensExact(StatsUnitSz(t).value, StrTok.Tokens(minTokens, ','), StrTok.Tokens(maxTokens, ','), nrooms);
    }
  }

  /** ParseStatsExact once the unit size `u` and the two token lists are known. */
  lemma ParseTokensExact(u: nat, t1: seq<string>, t2: seq<string>, nrooms: nat)
    ensures ParseLoop(u, t1, t2, 0, nrooms, StatArrays(u, [], [], [])) ==
      (if |t1| == nrooms && |t2| == nrooms then Some(Expected(u, t1, t2)) else None)
  {
    var acc := StatArrays(u, [], [], []);
    ParseLoopExact(u, t1, t2, 0, nrooms, acc);
    if |t1| == nrooms && |t2| == nrooms {
      assert Concat(acc, Expected(u, t1, t2)) == Expected(u, t1, t2);
    }
  }

  /** The metadata text a writer produces for a list of statistics. */
  function StatsText(vs: seq<i128>): (s: string)
  {
    StrTok.Join(seq(|vs|, i requires 0 <= i < |vs| => DecimalText(vs[i])), ',')
  }

  lemma TextsAreTokens(vs: seq<i128>)
    ensures StrTok.Tokens(StatsText(vs), ',') == seq(|vs|, i requires 0 <= i < |vs| => DecimalText(vs[i]))
  {
    var ts := seq(|vs|, i requires 0 <= i < |vs| => DecimalText(vs[i]));
    forall i | 0 <= i < |ts|
      ensures StrTok.IsToken(ts[i], ',')
    {
    }
    StrTok.TokensOfJoin(ts, ',');
  }

  lemma TextNoBlank(v: int)
    ensures NoBlank(DecimalText(v))
  {
    var s := DecimalText(v);
    if v < 0 {
      assert s == "-" + NatText(-v);
      forall i | 0 <= i < |s| ensures !IsBlank(s[i]) {
        if i > 0 {
          assert s[i] == NatText(-v)[i - 1];
        }
      }
    }
  }

  lemma PairEntryOfText(u: nat, lo: i128, hi: i128)
    ensures PairEntry(u, DecimalText(lo), DecimalText(hi)) == Entry(false, Image(lo, u), Image(hi, u))
  {
    TextNoBlank(lo);
    TextNoBlank(hi);
    AtoiOfText(lo);
    AtoiOfText(hi);
  }

  /**
   * Round trip: statistics printed one decimal per record batch and joined
   * by commas parse back to their images, with no batch marked null.
   */
  lemma ParseStatsOfText(t: ArrowType, mins: seq<i128>, maxs: seq<i128>)
    requires StatsUnitSz(t).Some? && |mins| == |maxs|
    ensures var u := StatsUnitSz(t).value;
      ParseStats(t, |mins|, StatsText(mins), StatsText(maxs)) == Some(Columns(u, OfText(u, mins, maxs)))
  {
    var u := StatsUnitSz(t).value;
    TextsAreTokens(mins);
    TextsAreTokens(maxs);
    ParseStatsExact(t, |mins|, StatsText(mins), StatsText(maxs));
    var t1, t2 := StrTok.Tokens(StatsText(mins), ','), StrTok.Tokens(StatsText(maxs), ',');
    forall i | 0 <= i < |mins|
      ensures Entries(u, t1, t2)[i] == OfText(u, mins, maxs)[i]
    {
      PairEntryOfText(u, mins[i], maxs[i]);
    }
    assert Entries(u, t1, t2) == OfText(u, mins, maxs);
  }

  /** The entries printed statistics should parse to: no null, the images of the values. */
  function OfText(u: nat, mins: seq<i128>, maxs: seq<i128>): (es: seq<Entry>)
    requires |mins| == |maxs|
    ensures |es| == |mins|
    ensures forall i | 0 <= i < |es| :: !es[i].isnull
  {
    seq(|mins|, i requires 0 <= i < |mins| => Entry(false, Image(mins[i], u), Image(maxs[i], u)))
  }

  // ---------------------------------------------------------------------
  // Building the statistics of a schema
  // ---------------------------------------------------------------------

  /** The value of the last metadata entry with this key: later entries overwrite earlier ones. */
  function LastValue(kvs: seq<KeyValue>, key: string): (r: Option<string>)
    ensures r.None? <==> forall i | 0 <= i < |kvs| :: kvs[i].key != key
  {
    if |kvs| == 0 then None
    else if kvs[|kvs| - 1].key == key then Some(kvs[|kvs| - 1].value)
    else
      var r := LastValue(kvs[..|kvs| - 1], key);
      assert forall i | 0 <= i < |kvs| - 1 :: kvs[..|kvs| - 1][i] == kvs[i];
      r
  }

  /** The value found is that of an entry with the key that no later entry with the key follows. */
  lemma {:induction false} LastValueIsLast(kvs: seq<KeyValue>, key: string)
    requires LastValue(kvs, key).Some?
    ensures exists i | 0 <= i < |kvs| :: kvs[i] == KeyValue(key, LastValue(kvs, key).value)
                          && forall j | i < j < |kvs| :: kvs[j].key != key
  {
    var n := |kvs| - 1;
    if kvs[n].key == key {
      assert kvs[n] == KeyValue(key, LastValue(kvs, key).value);
    } else {
      var p := kvs[..n];
      LastValueIsLast(p, key);
      var i :| 0 <= i < |p| && p[i] == KeyValue(key, LastValue(p, key).value)
                && forall j | i < j < |p| :: p[j].key != key;
      assert kvs[i] == p[i];
      assert forall j | i < j < |kvs| :: kvs[j].key != key by {
        forall j | i < j < |kvs| ensures kvs[j].key != key {
          if j < n { assert kvs[j] == p[j]; }
        }
      }
    }
  }

  /**
   * One field's statistics: the record batch count, the parsed arrays if
   * any (the source's `unitsz == -1` with NULL arrays otherwise) and the
   * children's statistics.
   */
  datatype FieldStats = FieldStats(nrooms: nat, arrays: Option<StatArrays>, subfields: seq<FieldStats>)

  /** Some field of the tree carries statistics. */
  predicate HasStats(s: FieldStats)
  {
    s.arrays.Some? || exists j | 0 <= j < |s.subfields| :: HasStats(s.subfields[j])
  }

  /** Every array holds one entry per record batch, at every level. */
  predicate WellFormed(s: FieldStats)
  {
    && (s.arrays.Some? ==>
          |s.arrays.value.isnull| == s.nrooms && |s.arrays.value.mins| == s.nrooms && |s.arrays.value.maxs| == s.nrooms)
    && forall j | 0 <= j < |s.subfields| :: s.subfields[j].nrooms == s.nrooms && WellFormed(s.subfields[j])
  }

  /** The arrays a field's own metadata yields: both keys must be present and parse. */
  function FieldArrays(f: Field, nrooms: nat): (r: Option<StatArrays>)
    ensures r.Some? ==> LastValue(f.metadata, "min_values").Some? && LastValue(f.metadata, "max_values").Some?
    ensures r.Some? ==> |r.value.isnull| == nrooms && |r.value.mins| == nrooms && |r.value.maxs| == nrooms
  {
    var mn := LastValue(f.metadata, "min_values");
    var mx := LastValue(f.metadata, "max_values");
    if mn.Some? && mx.Some? then
      ParseStatsExact(f.atype, nrooms, mn.value, mx.value);
      ParseStats(f.atype, nrooms, mn.value, mx.value)
    else None
  }

  /**
   * `__buildArrowFieldStatsBinary`: the statistics of a field and of its
   * children, and whether any of them has statistics.
   */
  function BuildField(f: Field, nrooms: nat): (r: (FieldStats, bool))
    ensures r.0.nrooms == nrooms && |r.0.subfields| == |f.children|
    ensures r.0.arrays == FieldArrays(f, nrooms)
    ensures WellFormed(r.0)
    ensures r.1 <==> HasStats(r.0)
    decreases f, 1
  {
    var arrays := FieldArrays(f, nrooms);
    var kids := BuildChildren(f.children, nrooms);
    (FieldStats(nrooms, arrays, kids.0), arrays.Some? || kids.1)
  }

  function BuildChildren(cs: seq<Field>, nrooms: nat): (r: (seq<FieldStats>, bool))
    ensures |r.0| == |cs|
    ensures forall j | 0 <= j < |cs| :: r.0[j] == BuildField(cs[j], nrooms).0
    ensures forall j | 0 <= j < |cs| :: r.0[j].nrooms == nrooms && WellFormed(r.0[j])
    ensures r.1 <==> exists j | 0 <= j < |r.0| :: HasStats(r.0[j])
    decreases cs, 0
  {
    if |cs| == 0 then ([], false)
    else
      var head := BuildField(cs[0], nrooms);
      var tail := BuildChildren(cs[1..], nrooms);
      var r := ([head.0] + tail.0, head.1 || tail.1);
      assert forall j | 1 <= j < |cs| :: r.0[j] == tail.0[j - 1];
      r
  }

  /**
   * `buildArrowStatsBinary`: the statistics of every top-level field, or
   * None when no field of the schema, at any depth, has statistics.
   */
  function BuildStats(fields: seq<Field>, numRecordBatches: nat): (r: Option<seq<FieldStats>>)
    ensures r.None? <==> forall j | 0 <= j < |fields| :: !HasStats(BuildField(fields[j], numRecordBatches).0)
    ensures r.Some? ==> |r.value| == |fields|
                        && forall j | 0 <= j < |fields| :: r.value[j] == BuildField(fields[j], numRecordBatches).0
  {
    var built := BuildChildren(fields, numRecordBatches);
    if built.1 then Some(built.0) else None
  }

  /** A field whose metadata holds printed statistics gets exactly those statistics. */
  lemma BuildFieldOfText(f: Field, mins: seq<i128>, maxs: seq<i128>)
    requires StatsUnitSz(f.atype).Some? && |mins| == |maxs|
    requires LastValue(f.metadata, "min_values") == Some(StatsText(mins))
    requires LastValue(f.metadata, "max_values") == Some(StatsText(maxs))
    ensures var u := StatsUnitSz(f.atype).value;
      && BuildField(f, |mins|).1
      && BuildField(f, |mins|).0.arrays == Some(Columns(u, OfText(u, mins, maxs)))
  {
    ParseStatsOfText(f.atype, mins, maxs);
  }

  // ---------------------------------------------------------------------
  // Applying the statistics to one record batch
  // ---------------------------------------------------------------------

  /** The statistics fields of a record batch's field state, and its children's. */
  datatype BatchStat = BatchStat(isnull: bool, min: seq<Align.byte>, max: seq<Align.byte>, children: seq<BatchStat>)

  /**
   * `__applyArrowFieldStatsBinary`. With `fixed` false this is the code as
   * written: a field that has arrays reports the batch's images as non-null
   * even when the parser marked that batch null (the images are then zero).
   * With `fixed` true such a batch is reported null.
   */
  function Apply(s: FieldStats, rb: nat, fixed: bool): (r: BatchStat)
    requires WellFormed(s) && rb < s.nrooms
    ensures |r.children| == |s.subfields|
    ensures forall j | 0 <= j < |s.subfields| :: r.children[j] == Apply(s.subfields[j], rb, fixed)
    ensures s.arrays.None? ==> r.isnull
    decreases s
  {
    var kids := seq(|s.subfields|, j requires 0 <= j < |s.subfields| => Apply(s.subfields[j], rb, fixed));
    match s.arrays
    case None => BatchStat(true, Align.Zeros(16), Align.Zeros(16), kids)
    case Some(a) =>
      if fixed && a.isnull[rb] then BatchStat(true, Align.Zeros(16), Align.Zeros(16), kids)
      else BatchStat(false, a.mins[rb], a.maxs[rb], kids)
  }

  /**
   * With the correction, a batch's statistics are non-null exactly when the
   * field has arrays and the batch's entry parsed, and they are that entry.
   */
  lemma ApplyFixedMeaning(s: FieldStats, rb: nat)
    requires WellFormed(s) && rb < s.nrooms
    ensures var r := Apply(s, rb, true);
      && (!r.isnull <==> s.arrays.Some? && !s.arrays.value.isnull[rb])
      && (!r.isnull ==> r.min == s.arrays.value.mins[rb] && r.max == s.arrays.value.maxs[rb])
  {
  }

  /** The correction changes nothing for a batch whose entry parsed. */
  lemma ApplyAgreesOnParsed(s: FieldStats, rb: nat)
    requires WellFormed(s) && rb < s.nrooms
    requires s.arrays.Some? && !s.arrays.value.isnull[rb]
    ensures Apply(s, rb, false).isnull == Apply(s, rb, true).isnull == false
    ensures Apply(s, rb, false).min == Apply(s, rb, true).min
  {
  }

  /** Built from printed statistics, each record batch sees its own min and max. */
  lemma BuildApplyOfText(f: Field, mins: seq<i128>, maxs: seq<i128>, rb: nat, fixed: bool)
    requires StatsUnitSz(f.atype).Some? && |mins| == |maxs| && rb < |mins|
    requires LastValue(f.metadata, "min_values") == Some(StatsText(mins))
    requires LastValue(f.metadata, "max_values") == Some(StatsText(maxs))
    ensures var u := StatsUnitSz(f.atype).value;
      var r := Apply(BuildField(f, |mins|).0, rb, fixed);
      !r.isnull && r.min == Image(mins[rb], u) && r.max == Image(maxs[rb], u)
  {
    BuildFieldOfText(f, mins, maxs);
  }

  /**
   * The code as written: one record batch whose min token does not parse
   * is reported with non-null all-zero statistics; the correction reports
   * it null.
   */
  lemma UnparsedBatchCounterexample()
    ensures var f := Field("c", Int(32, true), [], [KeyValue("min_values", "x"), KeyValue("max_values", "7")]);
      var s := BuildField(f, 1).0;
      && s.arrays.Some? && s.arrays.value.isnull == [true]
      && !Apply(s, 0, false).isnull && Apply(s, 0, false).min == Align.Zeros(4)
      && Apply(s, 0, true).isnull
  {
    var f := Field("c", Int(32, true), [], [KeyValue("min_values", "x"), KeyValue("max_values", "7")]);
    assert LastValue(f.metadata, "min_values") == Some("x");
    assert LastValue(f.metadata, "max_values") == Some("7");
    UnparsedStats();
  }

  lemma UnparsedStats()
    ensures ParseStats(Int(32, true), 1, "x", "7") == Some(StatArrays(4, [true], [Align.Zeros(4)], [Align.Zeros(4)]))
  {
    ParseStatsOne(Int(32, true), "x", "7");
    UnparsedEntry();
  }

  /** A single record batch and one token on each side. */
  lemma ParseStatsOne(t: ArrowType, a: string, b: string)
    requires StatsUnitSz(t).Some? && StrTok.IsToken(a, ',') && StrTok.IsToken(b, ',')
    ensures var u := StatsUnitSz(t).value;
      var e := PairEntry(u, a, b);
      ParseStats(t, 1, a, b) == Some(StatArrays(u, [e.isnull], [e.min], [e.max]))
  {
    StrTok.TokensOfJoin([a], ',');
    StrTok.TokensOfJoin([b], ',');
    ParseStatsExact(t, 1, a, b);
    var u := StatsUnitSz(t).value;
    var e := PairEntry(u, a, b);
    assert StrTok.Join([a], ',') == a && StrTok.Join([b], ',') == b;
    assert Entries(u, [a], [b]) == [e];
    var c := Columns(u, [e]);
    assert c.isnull == [e.isnull] && c.mins == [e.min] && c.maxs == [e.max];
  }

  lemma UnparsedEntry()
    ensures PairEntry(4, "x", "7") == Entry(true, Align.Zeros(4), Align.Zeros(4))
  {
    assert Trim("x") == "x" && Trim("7") == "7";
    assert Atoi128("x", false).isnull;
  }
}
