/**
 * The traffic levels of the map legend: each level has a severity and one or
 * more reference colours, packed into opaque 32-bit ARGB codes, and two lookup
 * tables built once: colour code to level, and severity to level.
 */
module Traffic {

  /** The possible traffic conditions, from unclassified to very heavy. */
  datatype Level = Unknown | None | Low | Medium | Heavy | VeryHeavy

  /** A colour component; java.awt.Color rejects anything outside one byte. */
  type Byte = x: int | 0 <= x < 0x100

  /** A Java `int`, the type of a packed colour code. */
  type Int32 = x: int | -0x8000_0000 <= x < 0x8000_0000

  /** An RGB triple. */
  datatype Rgb = Rgb(red: Byte, green: Byte, blue: Byte)

  /** The levels registered in both lookup tables, in registration order. */
  const KnownLevels: seq<Level> := [None, Low, Medium, Heavy, VeryHeavy]

  /** The integer severity of a level: -1 for Unknown, 0 to 4 otherwise. */
  function Severity(t: Level): (s: int)
    ensures -1 <= s <= 4
    ensures s == -1 <==> t == Unknown
    ensures s >= 0 <==> t in KnownLevels
  {
    match t
    case Unknown => -1
    case None => 0
    case Low => 1
    case Medium => 2
    case Heavy => 3
    case VeryHeavy => 4
  }

  /** Distinct levels have distinct severities. */
  lemma SeverityInjective(a: Level, b: Level)
    ensures Severity(a) == Severity(b) ==> a == b
  {
  }

  /** The reference colours each level was declared with. */
  function ReferenceColours(t: Level): (rgbs: seq<Rgb>)
    ensures |rgbs| >= 1
  {
    match t
    case Unknown => [Rgb(0, 0, 0)]
    case None => [Rgb(249, 249, 249), Rgb(255, 255, 255)]
    case Low => [Rgb(132, 202, 80)]
    case Medium => [Rgb(240, 125, 2)]
    case Heavy => [Rgb(230, 0, 0)]
    case VeryHeavy => [Rgb(158, 19, 19)]
  }

  // ---------------------------------------------------------------------------
  // ARGB packing
  // ---------------------------------------------------------------------------

  /** The 32-bit word `word` read as a two's-complement Java `int`. */
  function Signed(word: int): Int32
    requires 0 <= word < 0x1_0000_0000
  {
    if word < 0x8000_0000 then word else word - 0x1_0000_0000
  }

  /** The 32-bit word of a Java `int`, read as unsigned. */
  function Unsigned(code: Int32): (word: int)
    ensures 0 <= word < 0x1_0000_0000
    ensures Signed(word) == code
  {
    if code < 0 then code + 0x1_0000_0000 else code
  }

  /** The alpha byte of a packed colour code (bits 24 to 31). */
  function Alpha(code: Int32): Byte {
    Unsigned(code) / 0x100_0000
  }

  /** The RGB bytes of a packed colour code (bits 16 to 23, 8 to 15 and 0 to 7). */
  function Unpack(code: Int32): Rgb {
    var word := Unsigned(code);
    Rgb(word / 0x1_0000 % 0x100, word / 0x100 % 0x100, word % 0x100)
  }

  /** If `word` is `high` scaled up plus a smaller remainder, dividing by the scale gives `high`. */
  lemma DivideExactly(word: int, high: int, low: int, scale: int)
    requires scale > 0 && 0 <= low < scale && word == high * scale + low
    ensures word / scale == high
  {
    var q, r := word / scale, word % scale;
    assert (high - q) * scale == r - low;
    if high - q >= 1 {
      AtLeastOneScale(high - q, scale);
      assert false;
    } else if q - high >= 1 {
      AtLeastOneScale(q - high, scale);
      assert false;
    }
  }

  /** A positive multiple of a positive scale is at least the scale. */
  lemma AtLeastOneScale(k: int, scale: int)
    requires k >= 1 && scale > 0
    ensures k * scale >= scale
  {
  }

  /**
   * The code of a fully opaque colour, as Color(r, g, b, 255).getRGB() packs
   * it: alpha in the top byte, then red, green and blue. The bytes do not
   * overlap, so the bitwise or of the shifted bytes is their sum.
   */
  function Pack(c: Rgb): (code: Int32)
    ensures Alpha(code) == 0xFF
    ensures Unpack(code) == c
  {
    var word := 0xFF * 0x100_0000 + c.red * 0x1_0000 + c.green * 0x100 + c.blue;
    DivideExactly(word, 0xFF, c.red * 0x1_0000 + c.green * 0x100 + c.blue, 0x100_0000);
    DivideExactly(word, 0xFF00 + c.red, c.green * 0x100 + c.blue, 0x1_0000);
    DivideExactly(word, 0xFF_0000 + c.red * 0x100 + c.green, c.blue, 0x100);
    Signed(word)
  }

  /** Every opaque code is the packing of its own RGB bytes. */
  lemma UnpackPack(code: Int32)
    requires Alpha(code) == 0xFF
    ensures Pack(Unpack(code)) == code
  {
    var word := Unsigned(code);
    var high := word / 0x100;
    assert word == high * 0x100 + word % 0x100;
    assert high / 0x100 == word / 0x1_0000;
    assert high == (word / 0x1_0000) * 0x100 + high % 0x100;
    assert word / 0x1_0000 == 0xFF * 0x100 + word / 0x1_0000 % 0x100;
  }

  /** The packed codes of a list of colours, in the same order. */
  function Packed(rgbs: seq<Rgb>): (codes: seq<Int32>)
    ensures |codes| == |rgbs|
    ensures forall i :: 0 <= i < |codes| ==> Alpha(codes[i]) == 0xFF && Unpack(codes[i]) == rgbs[i]
  {
    seq(|rgbs|, i requires 0 <= i < |rgbs| => Pack(rgbs[i]))
  }

  /**
   * The level's constructor: packs each reference colour into a freshly
   * allocated array of codes, one slot per colour.
   */
  method PackColours(rgbs: seq<Rgb>) returns (rgbas: array<Int32>)
    ensures fresh(rgbas)
    ensures rgbas[..] == Packed(rgbs)
  {
    rgbas := new Int32[|rgbs|];
    for i := 0 to |rgbs|
      invariant forall k :: 0 <= k < i ==> rgbas[k] == Pack(rgbs[k])
    {
      rgbas[i] := Pack(rgbs[i]);
    }
  }

  /** The packed reference codes of a level (its `rgbas` field). */
  function Codes(t: Level): seq<Int32> {
    Packed(ReferenceColours(t))
  }

  /** The codes every level stores, written out in hexadecimal. */
  lemma CodesAsHex()
    ensures Codes(Unknown) == [Signed(0xFF00_0000)]
    ensures Codes(None) == [Signed(0xFFF9_F9F9), Signed(0xFFFF_FFFF)]
    ensures Codes(Low) == [Signed(0xFF84_CA50)]
    ensures Codes(Medium) == [Signed(0xFFF0_7D02)]
    ensures Codes(Heavy) == [Signed(0xFFE6_0000)]
    ensures Codes(VeryHeavy) == [Signed(0xFF9E_1313)]
  {
  }

  /** No two levels share a reference code. */
  lemma CodesDisjoint(s: Level, t: Level, code: Int32)
    requires s != t
    ensures !(code in Codes(s) && code in Codes(t))
  {
    CodesAsHex();
  }

  // ---------------------------------------------------------------------------
  // The colour table
  // ---------------------------------------------------------------------------

  /** The table after registering every code of `codes` for level `t`. */
  function Register(table: map<Int32, Level>, codes: seq<Int32>, t: Level): map<Int32, Level> {
    table + map c | c in codes :: t
  }

  /** After registering, a code is held if it was held or registered, and maps to `t` if registered. */
  lemma RegisterAt(table: map<Int32, Level>, codes: seq<Int32>, t: Level, c: Int32)
    ensures c in Register(table, codes, t) <==> c in table || c in codes
    ensures c in codes ==> Register(table, codes, t)[c] == t
    ensures c in table && c !in codes ==> Register(table, codes, t)[c] == table[c]
  {
  }

  /** The `cache` helper: puts each code of `rgbas` into the table, in order. */
  method CacheCodes(table: map<Int32, Level>, rgbas: seq<Int32>, t: Level) returns (updated: map<Int32, Level>)
    ensures updated == Register(table, rgbas, t)
  {
    updated := table;
    for i := 0 to |rgbas|
      invariant updated == Register(table, rgbas[..i], t)
    {
      RegisterAppend(table, rgbas[..i], rgbas[i], t);
      assert rgbas[..i + 1] == rgbas[..i] + [rgbas[i]];
      updated := updated[rgbas[i] := t];
    }
    assert rgbas[..|rgbas|] == rgbas;
  }

  /** Registering one more code is one more `put`. */
  lemma RegisterAppend(table: map<Int32, Level>, codes: seq<Int32>, c: Int32, t: Level)
    ensures Register(table, codes + [c], t) == Register(table, codes, t)[c := t]
  {
    var a, b := Register(table, codes + [c], t), Register(table, codes, t)[c := t];
    forall x
      ensures x in a <==> x in b
      ensures x in a ==> a[x] == b[x]
    {
      assert x in codes + [c] <==> x in codes || x == c;
      RegisterAt(table, codes + [c], t, x);
      RegisterAt(table, codes, t, x);
    }
  }

  /** One `cache(rgbas, traffic)` call of the static block. */
  datatype Registration = Registration(rgbas: seq<Int32>, traffic: Level)

  /** The table after the given registrations, in order, starting from an empty table. */
  function FillCache(regs: seq<Registration>): map<Int32, Level> {
    if |regs| == 0 then map[]
    else
      var last := regs[|regs| - 1];
      Register(FillCache(regs[..|regs| - 1]), last.rgbas, last.traffic)
  }

  /** A static block of `cache` calls: starts from an empty table and runs each registration in order. */
  method CacheAll(regs: seq<Registration>) returns (table: map<Int32, Level>)
    ensures table == FillCache(regs)
  {
    table := map[];
    for i := 0 to |regs|
      invariant table == FillCache(regs[..i])
    {
      assert regs[..i + 1][..i] == regs[..i];
      table := CacheCodes(table, regs[i].rgbas, regs[i].traffic);
    }
    assert regs[..|regs|] == regs;
  }

  /** One registration per level, of that level's own codes, in the order given. */
  function RegistrationsOf(levels: seq<Level>): seq<Registration> {
    seq(|levels|, j requires 0 <= j < |levels| => Registration(Codes(levels[j]), levels[j]))
  }

  /** The registrations of a list of levels register exactly the codes those levels own. */
  lemma RegisteredCodes(levels: seq<Level>, c: Int32)
    ensures (exists j :: 0 <= j < |RegistrationsOf(levels)| && c in RegistrationsOf(levels)[j].rgbas)
        <==> (exists t :: t in levels && c in Codes(t))
  {
    var regs := RegistrationsOf(levels);
    if j :| 0 <= j < |regs| && c in regs[j].rgbas {
      assert levels[j] in levels && c in Codes(levels[j]);
    }
    if t :| t in levels && c in Codes(t) {
      var j :| 0 <= j < |levels| && levels[j] == t;
      assert c in regs[j].rgbas;
    }
  }

  /**
   * The colour table, filled once by the static block: one `cache` call per
   * known level, in the order None, Low, Medium, Heavy, VeryHeavy.
   */
  const Cache: map<Int32, Level> := FillCache(RegistrationsOf(KnownLevels))

  /** A filled table maps each code it holds to the level of a registration that holds the code. */
  lemma {:induction false} FillCacheOwner(regs: seq<Registration>, c: Int32) returns (j: nat)
    requires c in FillCache(regs)
    ensures j < |regs| && c in regs[j].rgbas && regs[j].traffic == FillCache(regs)[c]
  {
    var prefix, last := regs[..|regs| - 1], regs[|regs| - 1];
    RegisterAt(FillCache(prefix), last.rgbas, last.traffic, c);
    if c in last.rgbas {
      j := |regs| - 1;
    } else {
      j := FillCacheOwner(prefix, c);
      assert regs[j] == prefix[j];
    }
  }

  /** A filled table holds every code of every registration. */
  lemma {:induction false} FillCacheHolds(regs: seq<Registration>, j: nat, c: Int32)
    requires j < |regs| && c in regs[j].rgbas
    ensures c in FillCache(regs)
  {
    var prefix, last := regs[..|regs| - 1], regs[|regs| - 1];
    RegisterAt(FillCache(prefix), last.rgbas, last.traffic, c);
    if j < |regs| - 1 {
      assert regs[j] == prefix[j];
      FillCacheHolds(prefix, j, c);
    }
  }

  /** A table filled from `levels` maps each code it holds to one of those levels that owns it. */
  lemma FilledOwner(levels: seq<Level>, c: Int32)
    requires c in FillCache(RegistrationsOf(levels))
    ensures FillCache(RegistrationsOf(levels))[c] in levels
    ensures c in Codes(FillCache(RegistrationsOf(levels))[c])
  {
    var j := FillCacheOwner(RegistrationsOf(levels), c);
  }

  /** A table filled from `levels` holds every code of each of those levels. */
  lemma FilledHolds(levels: seq<Level>, t: Level, c: Int32)
    requires t in levels && c in Codes(t)
    ensures c in FillCache(RegistrationsOf(levels))
  {
    var j :| 0 <= j < |levels| && levels[j] == t;
    FillCacheHolds(RegistrationsOf(levels), j, c);
  }

  /**
   * The registration order does not matter: registering the same levels in
   * any order, with repeats or not, fills the same table, because no two
   * levels share a code.
   */
  lemma FillOrderIrrelevant(xs: seq<Level>, ys: seq<Level>)
    requires forall t :: t in xs <==> t in ys
    ensures FillCache(RegistrationsOf(xs)) == FillCache(RegistrationsOf(ys))
  {
    var a, b := FillCache(RegistrationsOf(xs)), FillCache(RegistrationsOf(ys));
    forall c | c in a
      ensures c in b && a[c] == b[c]
    {
      SameEntry(xs, ys, c);
    }
    forall c | c in b
      ensures c in a
    {
      SameEntry(ys, xs, c);
    }
    SameEntries(a, b);
  }

  /** Two tables that hold the same codes with the same levels are equal. */
  lemma SameEntries(a: map<Int32, Level>, b: map<Int32, Level>)
    requires forall c :: c in a ==> c in b && a[c] == b[c]
    requires forall c :: c in b ==> c in a
    ensures a == b
  {
  }

  /** A code held by a table filled from `xs` is held, for the same level, by one filled from the same levels `ys`. */
  lemma SameEntry(xs: seq<Level>, ys: seq<Level>, c: Int32)
    requires forall t :: t in xs <==> t in ys
    requires c in FillCache(RegistrationsOf(xs))
    ensures c in FillCache(RegistrationsOf(ys))
    ensures FillCache(RegistrationsOf(ys))[c] == FillCache(RegistrationsOf(xs))[c]
  {
    FilledOwner(xs, c);
    var t := FillCache(RegistrationsOf(xs))[c];
    FilledHolds(ys, t, c);
    FilledOwner(ys, c);
    var u := FillCache(RegistrationsOf(ys))[c];
    if t != u {
      CodesDisjoint(t, u, c);
    }
  }

  /** In particular, filling the colour table in any order of the known levels gives the same table. */
  lemma CacheOrderIrrelevant(levels: seq<Level>)
    requires forall t :: t in levels <==> t in KnownLevels
    ensures FillCache(RegistrationsOf(levels)) == Cache
  {
    FillOrderIrrelevant(levels, KnownLevels);
  }

  /** The colour table holds a code exactly when some known level owns it, and maps it to that level. */
  lemma CacheContents(code: Int32)
    ensures code in Cache ==> Cache[code] in KnownLevels && code in Codes(Cache[code])
    ensures code !in Cache ==> forall t :: t in KnownLevels ==> code !in Codes(t)
  {
    if code in Cache {
      FilledOwner(KnownLevels, code);
    }
    forall t | t in KnownLevels && code in Codes(t)
      ensures code in Cache
    {
      FilledHolds(KnownLevels, t, code);
    }
  }

  /** Classifies a colour code: the level registered for it, or Unknown. */
  function FromRgba(code: Int32): Level {
    if code in Cache then Cache[code] else Unknown
  }

  /**
   * A code classifies as a known level only if that level owns the code, and
   * as Unknown only if no known level owns it.
   */
  lemma FromRgbaOwner(code: Int32)
    ensures FromRgba(code) != Unknown ==> FromRgba(code) in KnownLevels && code in Codes(FromRgba(code))
    ensures FromRgba(code) == Unknown ==> forall t :: t in KnownLevels ==> code !in Codes(t)
  {
    CacheContents(code);
  }

  /** Every reference code of a known level classifies as exactly that level. */
  lemma FromRgbaReference(t: Level, code: Int32)
    requires t != Unknown && code in Codes(t)
    ensures FromRgba(code) == t
  {
    var r := FromRgba(code);
    FromRgbaOwner(code);
    assert t in KnownLevels;
    if r != t {
      CodesDisjoint(r, t, code);
    }
  }

  /** Both shades of white mean no traffic. */
  lemma NoneShades()
    ensures FromRgba(Pack(Rgb(249, 249, 249))) == None
    ensures FromRgba(Pack(Rgb(255, 255, 255))) == None
  {
    assert Codes(None)[0] == Pack(Rgb(249, 249, 249));
    assert Codes(None)[1] == Pack(Rgb(255, 255, 255));
    FromRgbaReference(None, Pack(Rgb(249, 249, 249)));
    FromRgbaReference(None, Pack(Rgb(255, 255, 255)));
  }

  /** Unknown's own black is never registered, so it classifies as Unknown. */
  lemma UnknownBlackUnregistered()
    ensures FromRgba(Pack(Rgb(0, 0, 0))) == Unknown
  {
    var code := Pack(Rgb(0, 0, 0));
    assert Codes(Unknown)[0] == code;
    forall t | t in KnownLevels
      ensures code !in Codes(t)
    {
      CodesDisjoint(Unknown, t, code);
    }
    FromRgbaUnregistered(code);
  }

  /** A code registered by no known level classifies as Unknown. */
  lemma FromRgbaUnregistered(code: Int32)
    requires forall t :: t in KnownLevels ==> code !in Codes(t)
    ensures FromRgba(code) == Unknown
  {
    FromRgbaOwner(code);
  }

  // ---------------------------------------------------------------------------
  // The severity table
  // ---------------------------------------------------------------------------

  /** The severity table: one entry per known level, keyed by its severity. */
  const Severities: map<int, Level> :=
    map[Severity(None) := None, Severity(Low) := Low, Severity(Medium) := Medium,
        Severity(Heavy) := Heavy, Severity(VeryHeavy) := VeryHeavy]

  /** The static block that fills the severity table, one `put` per known level. */
  method BuildSeverities() returns (table: map<int, Level>)
    ensures forall n :: n in table <==> 0 <= n <= 4
    ensures forall n :: n in table ==> Severity(table[n]) == n
    ensures table == Severities
  {
    table := map[];
    table := table[Severity(None) := None];
    table := table[Severity(Low) := Low];
    table := table[Severity(Medium) := Medium];
    table := table[Severity(Heavy) := Heavy];
    table := table[Severity(VeryHeavy) := VeryHeavy];
  }

  /** The level with severity `n`, or Unknown when no level has it. */
  function FromSeverity(n: int): (r: Level)
    ensures r != Unknown <==> 0 <= n <= 4
    ensures r != Unknown ==> Severity(r) == n
  {
    if n in Severities then Severities[n] else Unknown
  }

  /** Looking up a level's own severity gives the level back, Unknown included. */
  lemma SeverityRoundTrip(t: Level)
    ensures FromSeverity(Severity(t)) == t
  {
  }
}
