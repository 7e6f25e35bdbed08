/**
  The logic of the boarding pass (app/components/BoardingPass.tsx): the barcode
  drawn from a 31-multiplier string hash and a linear congruential generator,
  the city-name lookup, the passenger's short name, and the one-shot tear.

  The hash and the generator work in exact 32-bit arithmetic: every intermediate
  value stays below 2^53, so the JavaScript doubles are exact and the model uses
  unbounded integers with the `| 0` and `>>> 0` conversions written out.
*/
module BoardingPass {

  const Two32: int := 0x1_0000_0000
  const Two31: int := 0x8000_0000

  /** BARCODE_LENGTH */
  const BarcodeLength: nat := 40

  /** A UTF-16 code unit, what `charCodeAt` returns. */
  type CodeUnit = x: int | 0 <= x < 0x1_0000

  /** The UTF-16 code units of one character: a surrogate pair above U+FFFF. */
  function CodeUnits(c: char): (r: seq<CodeUnit>)
    ensures |r| == 1 || |r| == 2
    ensures (c as int) < 0x1_0000 ==> r == [c as int]
    ensures (c as int) >= 0x1_0000 ==>
      && |r| == 2 && 0xD800 <= r[0] < 0xDC00 <= r[1] < 0xE000
      && ((r[0] as int) - 0xD800) * 0x400 + ((r[1] as int) - 0xDC00) + 0x1_0000 == c as int
  {
    var v := c as int;
    if v < 0x1_0000 then [v]
    else [0xD800 + (v - 0x1_0000) / 0x400, 0xDC00 + (v - 0x1_0000) % 0x400]
  }

  /** The UTF-16 form of a string, whose units `value.length` counts. */
  function Utf16(s: string): (r: seq<CodeUnit>)
    ensures |r| >= |s|
  {
    if s == [] then [] else CodeUnits(s[0]) + Utf16(s[1..])
  }

  /** The UTF-16 form of a concatenation is the concatenation of the forms. */
  lemma {:induction false} Utf16Append(s: string, t: string)
    ensures Utf16(s + t) == Utf16(s) + Utf16(t)
  {
    if s != [] {
      assert (s + t)[0] == s[0] && (s + t)[1..] == s[1..] + t;
      Utf16Append(s[1..], t);
    } else {
      assert s + t == t;
    }
  }

  /** `x | 0`: the signed 32-bit integer congruent to `x` modulo 2^32. */
  function ToInt32(x: int): (r: int)
    ensures -Two31 <= r < Two31
    ensures r % Two32 == x % Two32
  {
    var m := x % Two32;
    if m >= Two31 then m - Two32 else m
  }

  /** The base-31 polynomial of the code units, without any wrap-around. */
  function Polynomial(units: seq<CodeUnit>): (r: int)
    ensures r >= 0
  {
    if units == [] then 0 else Polynomial(units[..|units| - 1]) * 31 + units[|units| - 1]
  }

  /** What hashSeed computes: the polynomial reduced modulo 2^32. */
  function HashOf(value: string): (r: int)
    ensures 0 <= r < Two32
    ensures value == "" ==> r == 0
  {
    Polynomial(Utf16(value)) % Two32
  }

  lemma MulAddCongruent(a: int, b: int, u: int)
    requires a % Two32 == b % Two32
    ensures (a * 31 + u) % Two32 == (b * 31 + u) % Two32
  {
    var k := a / Two32 - b / Two32;
    assert a == b + k * Two32;
    assert a * 31 + u == (b * 31 + u) + (31 * k) * Two32;
    ShiftByMultiple(b * 31 + u, 31 * k);
  }

  lemma ShiftByMultiple(x: int, k: int)
    ensures (x + k * Two32) % Two32 == x % Two32
  {
    var q := x / Two32;
    var r := x % Two32;
    assert x + k * Two32 == (q + k) * Two32 + r;
  }

  /** The hash can be computed one character at a time: appending a character
      of the basic plane multiplies the hash by 31 and adds its code unit, all
      modulo 2^32. */
  lemma HashExtends(value: string, c: char)
    requires (c as int) < 0x1_0000
    ensures HashOf(value + [c]) == (HashOf(value) * 31 + c as int) % Two32
  {
    var units := Utf16(value);
    Utf16Snoc(value, c);
    PolynomialSnoc(units, c as int);
    var p := Polynomial(units);
    assert HashOf(value + [c]) == (p * 31 + c as int) % Two32;
    ModIdempotent(p);
    MulAddCongruent(p, HashOf(value), c as int);
  }

  lemma Utf16Snoc(value: string, c: char)
    requires (c as int) < 0x1_0000
    ensures Utf16(value + [c]) == Utf16(value) + [c as int]
  {
    Utf16Append(value, [c]);
    assert Utf16([c]) == CodeUnits(c) + Utf16([]);
  }

  lemma PolynomialSnoc(units: seq<CodeUnit>, u: CodeUnit)
    ensures Polynomial(units + [u]) == Polynomial(units) * 31 + u
  {
    assert (units + [u])[..|units|] == units;
  }

  lemma ModIdempotent(x: int)
    ensures (x % Two32) % Two32 == x % Two32
  {
  }

  /** hashSeed: `hash = (hash * 31 + code) | 0` per code unit, then `hash >>> 0`. */
  method HashSeed(value: string) returns (h: int)
    ensures h == HashOf(value)
    ensures 0 <= h < Two32
    ensures value == "" ==> h == 0
  {
    var units := Utf16(value);
    var hash := 0;
    var i := 0;
    while i < |units|
      invariant 0 <= i <= |units|
      invariant -Two31 <= hash < Two31
      invariant hash % Two32 == Polynomial(units[..i]) % Two32
    {
      assert units[..i + 1][..i] == units[..i];
      MulAddCongruent(hash, Polynomial(units[..i]), units[i]);
      hash := ToInt32(hash * 31 + units[i]);
      i := i + 1;
    }
    assert units[..i] == units;
    h := hash % Two32;
  }

  // ---------------------------------------------------------------------------
  // The barcode generator
  // ---------------------------------------------------------------------------

  /** One step of the generator: `(state * 1664525 + 1013904223) >>> 0`. */
  function LcgStep(state: int): (r: int)
    ensures 0 <= r < Two32
  {
    (state * 1664525 + 1013904223) % Two32
  }

  /** The generator state after `n` draws from `seed`. */
  function StateAfter(seed: int, n: nat): (r: int)
    ensures n >= 1 || 0 <= seed < Two32 ==> 0 <= r < Two32
  {
    if n == 0 then seed else LcgStep(StateAfter(seed, n - 1))
  }

  /** The value a draw returns: `state / 0x100000000`. */
  function DrawOf(state: int): real {
    state as real / Two32 as real
  }

  /** The closure `next` and the `state` it captures; `seed` and `draws` record
      where the state came from. */
  class Lcg {
    var state: int
    ghost const seed: int
    ghost var draws: nat

    ghost predicate Valid()
      reads this
    {
      state == StateAfter(seed, draws)
    }

    constructor (seed: int)
      ensures Valid() && this.seed == seed && draws == 0
      ensures state == seed
    {
      state := seed;
      this.seed := seed;
      draws := 0;
    }

    /** Advances the state and returns it scaled into [0, 1). */
    method Next() returns (draw: real)
      requires Valid()
      modifies this
      ensures Valid() && draws == old(draws) + 1
      ensures state == LcgStep(old(state))
      ensures draw == DrawOf(StateAfter(seed, draws))
    {
      state := (state * 1664525 + 1013904223) % Two32;
      draw := state as real / Two32 as real;
      draws := draws + 1;
    }
  }

  datatype BarcodeRow = BarcodeRow(key: string, width: string, opacity: real)

  function Digit(d: nat): char
    requires d < 10
  {
    "0123456789"[d]
  }

  /** The decimal form of `n`, as a template literal prints it. */
  function Decimal(n: nat): (r: string)
    ensures |r| >= 1 && forall k :: 0 <= k < |r| ==> '0' <= r[k] <= '9'
    ensures n < 10 <==> |r| == 1
    decreases n
  {
    if n < 10 then [Digit(n)] else Decimal(n / 10) + [Digit(n % 10)]
  }

  /** The number a string of decimal digits denotes, most significant first. */
  function DigitsValue(s: string): int {
    if s == [] then 0 else DigitsValue(s[..|s| - 1]) * 10 + (s[|s| - 1] as int - '0' as int)
  }

  lemma DigitValue(d: nat)
    requires d < 10
    ensures Digit(d) as int - '0' as int == d
  {
    if d == 0 {} else if d == 1 {} else if d == 2 {} else if d == 3 {} else if d == 4 {}
    else if d == 5 {} else if d == 6 {} else if d == 7 {} else if d == 8 {} else {}
  }

  /** The digits a template literal prints for `n` denote `n`. */
  lemma {:induction false} DecimalValue(n: nat)
    ensures DigitsValue(Decimal(n)) == n
    decreases n
  {
    var s := Decimal(n);
    if n < 10 {
      DigitValue(n);
      assert s[..0] == [];
    } else {
      DecimalValue(n / 10);
      DigitValue(n % 10);
      assert s[..|s| - 1] == Decimal(n / 10);
    }
  }

  /** Every row key is `barcode-` followed by the decimal digits of its index. */
  lemma BarcodeKeyDenotes(i: nat)
    ensures BarcodeKey(i)[..8] == "barcode-"
    ensures DigitsValue(BarcodeKey(i)[8..]) == i
  {
    assert BarcodeKey(i)[8..] == Decimal(i);
    DecimalValue(i);
  }

  /** `barcode-${i}` */
  function BarcodeKey(i: nat): (r: string)
    ensures |r| > 8 && r[..8] == "barcode-"
  {
    "barcode-" + Decimal(i)
  }

  function WidthFor(draw: real): string {
    if draw > 0.5 then "2px" else "1px"
  }

  function OpacityFor(draw: real): real {
    if draw > 0.2 then 1.0 else 0.3
  }

  /** Row `i` built from a generator seeded with `seed`: it takes draw 2i+1 for
      the width and draw 2i+2 for the opacity. */
  function RowAt(seed: int, i: nat): (r: BarcodeRow)
    ensures r.key == BarcodeKey(i)
    ensures r.width == "1px" || r.width == "2px"
    ensures r.opacity == 1.0 || r.opacity == 0.3
  {
    BarcodeRow(BarcodeKey(i),
               WidthFor(DrawOf(StateAfter(seed, 2 * i + 1))),
               OpacityFor(DrawOf(StateAfter(seed, 2 * i + 2))))
  }

  /** The body of createBarcodeRows after the hash: the generator starts at
      `seed` and row `i` takes draw 2i+1 for its width and 2i+2 for its opacity. */
  method RowsFromSeed(seed: int) returns (rows: seq<BarcodeRow>)
    ensures |rows| == BarcodeLength
    ensures forall i :: 0 <= i < |rows| ==> rows[i] == RowAt(seed, i)
  {
    var lcg := new Lcg(seed);
    rows := [];
    var i := 0;
    while i < BarcodeLength
      invariant 0 <= i <= BarcodeLength
      invariant lcg.Valid() && lcg.seed == seed && lcg.draws == 2 * i
      invariant |rows| == i
      invariant forall k :: 0 <= k < i ==> rows[k] == RowAt(seed, k)
    {
      var widthDraw := lcg.Next();
      assert widthDraw == DrawOf(StateAfter(seed, 2 * i + 1));
      var width := if widthDraw > 0.5 then "2px" else "1px";
      assert width == WidthFor(widthDraw);
      var opacityDraw := lcg.Next();
      assert opacityDraw == DrawOf(StateAfter(seed, 2 * i + 2));
      var opacity := if opacityDraw > 0.2 then 1.0 else 0.3;
      assert opacity == OpacityFor(opacityDraw);
      var row := BarcodeRow(BarcodeKey(i), width, opacity);
      assert row == RowAt(seed, i);
      rows := rows + [row];
      i := i + 1;
    }
  }

  /** createBarcodeRows: forty rows from a generator seeded with the string's
      hash. */
  method CreateBarcodeRows(seedValue: string) returns (rows: seq<BarcodeRow>)
    ensures |rows| == BarcodeLength
    ensures forall i :: 0 <= i < |rows| ==> rows[i] == RowAt(HashOf(seedValue), i)
  {
    var seed := HashSeed(seedValue);
    rows := RowsFromSeed(seed);
  }

  /** Every draw lies in [0, 1). */
  lemma DrawInUnitInterval(seed: int, n: nat)
    requires n >= 1
    ensures 0.0 <= DrawOf(StateAfter(seed, n)) < 1.0
  {
    var s := StateAfter(seed, n);
    assert 0 <= s < Two32;
    assert (s as real) < Two32 as real;
  }

  /** The double nearest to 0.2, which is what the literal in the source denotes. */
  const DoublePointTwo: real := 0.200000000000000011102230246251565404236316680908203125

  /** The two comparisons are thresholds on the raw state: `> 0.5` means the state
      exceeds 2^31, and `> 0.2` (read either as exactly 1/5 or as the double the
      literal denotes) means the state is at least 858993460. */
  lemma DrawThresholds(state: int)
    requires 0 <= state < Two32
    ensures DrawOf(state) > 0.5 <==> state > Two31
    ensures DrawOf(state) > 0.2 <==> state >= 858993460
    ensures DrawOf(state) > DoublePointTwo <==> state >= 858993460
  {
    var d := DrawOf(state);
    assert d * Two32 as real == state as real;
  }

  /** Each row has a width of 1px or 2px and an opacity of 1 or 0.3, decided by
      the generator state of its two draws. */
  lemma RowFields(seed: int, i: nat)
    ensures RowAt(seed, i).key == BarcodeKey(i)
    ensures RowAt(seed, i).width in {"1px", "2px"}
    ensures RowAt(seed, i).opacity in {1.0, 0.3}
    ensures RowAt(seed, i).width == "2px" <==> StateAfter(seed, 2 * i + 1) > Two31
    ensures RowAt(seed, i).opacity == 1.0 <==> StateAfter(seed, 2 * i + 2) >= 858993460
  {
    DrawThresholds(StateAfter(seed, 2 * i + 1));
    DrawThresholds(StateAfter(seed, 2 * i + 2));
  }

  lemma {:induction false} DecimalInjective(m: nat, n: nat)
    requires Decimal(m) == Decimal(n)
    ensures m == n
    decreases m + n
  {
    if m < 10 && n < 10 {
      assert Digit(m) == Decimal(m)[0] == Decimal(n)[0] == Digit(n);
    } else if m >= 10 && n >= 10 {
      var dm := Decimal(m);
      assert dm[..|dm| - 1] == Decimal(m / 10) && dm[|dm| - 1] == Digit(m % 10);
      assert dm[..|dm| - 1] == Decimal(n / 10) && dm[|dm| - 1] == Digit(n % 10);
      DecimalInjective(m / 10, n / 10);
    }
  }

  /** The forty rows carry distinct React keys, `barcode-0` to `barcode-39`. */
  lemma BarcodeKeysDistinct(i: nat, j: nat)
    requires i != j
    ensures BarcodeKey(i) != BarcodeKey(j)
  {
    if BarcodeKey(i) == BarcodeKey(j) {
      assert Decimal(i) == BarcodeKey(i)[8..] == BarcodeKey(j)[8..] == Decimal(j);
      DecimalInjective(i, j);
    }
  }

  lemma BarcodeKeyExamples()
    ensures BarcodeKey(0) == "barcode-0" && BarcodeKey(7) == "barcode-7"
    ensures BarcodeKey(39) == "barcode-39"
  {
  }

  // ---------------------------------------------------------------------------
  // Names
  // ---------------------------------------------------------------------------

  /** CITY_NAMES */
  const CityNames: map<string, string> := map[
    "TPE" := "Taipei",
    "HND" := "Tokyo",
    "ICN" := "Seoul",
    "HKG" := "Hong Kong",
    "SFO" := "San Francisco",
    "LAX" := "Los Angeles"
  ]

  /** `CITY_NAMES[code] ?? fallback` */
  function CityName(code: string, fallback: string): (r: string)
    ensures code in CityNames ==> r == CityNames[code]
    ensures code !in CityNames ==> r == fallback
  {
    if code in CityNames then CityNames[code] else fallback
  }

  /** The origin city: a known city's name, or "Origin". */
  function FromCity(origin: string): (r: string)
    ensures r in CityNames.Values || r == "Origin"
  {
    CityName(origin, "Origin")
  }

  /** The destination city: a known city's name, or "Destination". */
  function ToCity(destination: string): (r: string)
    ensures r in CityNames.Values || r == "Destination"
  {
    CityName(destination, "Destination")
  }

  /** The known codes name their cities; any other code falls back. */
  lemma CityLookup(code: string)
    ensures FromCity("TPE") == "Taipei" && ToCity("HND") == "Tokyo"
    ensures FromCity("ICN") == "Seoul" && ToCity("HKG") == "Hong Kong"
    ensures FromCity("SFO") == "San Francisco" && ToCity("LAX") == "Los Angeles"
    ensures FromCity("HND") == "Tokyo" && ToCity("TPE") == "Taipei"
    ensures FromCity("HKG") == "Hong Kong" && ToCity("ICN") == "Seoul"
    ensures FromCity("LAX") == "Los Angeles" && ToCity("SFO") == "San Francisco"
    ensures code !in {"TPE", "HND", "ICN", "HKG", "SFO", "LAX"} ==>
      FromCity(code) == "Origin" && ToCity(code) == "Destination"
  {
    assert CityNames.Keys == {"TPE", "HND", "ICN", "HKG", "SFO", "LAX"};
  }

  /** `s.split(" ")[0]`: the text before the first space. */
  function BeforeFirstSpace(s: string): (r: string)
    ensures ' ' !in r
    ensures |r| <= |s| && r == s[..|r|]
    ensures |r| < |s| ==> s[|r|] == ' '
  {
    if s == [] || s[0] == ' ' then [] else [s[0]] + BeforeFirstSpace(s[1..])
  }

  /** `passengerName.split(" ")[0] || passengerName` */
  function PassengerShort(name: string): (r: string)
    ensures ' ' !in name ==> r == name
    ensures (name == [] || name[0] == ' ') ==> r == name
    ensures name != [] && name[0] != ' ' ==>
      && r != [] && ' ' !in r
      && |r| <= |name| && r == name[..|r|]
      && (|r| == |name| || name[|r|] == ' ')
  {
    var first := BeforeFirstSpace(name);
    if first == [] then name else first
  }

  lemma {:induction false} BeforeFirstSpaceOfWord(word: string, rest: string)
    requires ' ' !in word
    ensures BeforeFirstSpace(word + " " + rest) == word
  {
    var s := word + " " + rest;
    if word == [] {
      assert s[0] == ' ';
    } else {
      assert s[0] == word[0] && s[0] != ' ';
      assert s[1..] == word[1..] + " " + rest;
      BeforeFirstSpaceOfWord(word[1..], rest);
      assert [word[0]] + word[1..] == word;
    }
  }

  /** A name of several words shortens to its first word. */
  lemma PassengerShortFirstWord(word: string, rest: string)
    requires word != [] && ' ' !in word
    ensures PassengerShort(word + " " + rest) == word
  {
    BeforeFirstSpaceOfWord(word, rest);
  }

  /** "Focus Pilot" shortens to "Focus". */
  lemma PassengerShortExample()
    ensures PassengerShort("Focus Pilot") == "Focus"
  {
    PassengerShortFirstWord("Focus", "Pilot");
    assert "Focus" + " " + "Pilot" == "Focus Pilot";
  }

  // ---------------------------------------------------------------------------
  // Tearing the pass
  // ---------------------------------------------------------------------------

  /** The `isTorn` state of the component and the `onTear` callbacks its tear
      handler has scheduled. */
  class PassState {
    var isTorn: bool
    var scheduledTears: nat

    ghost predicate Valid()
      reads this
    {
      scheduledTears == if isTorn then 1 else 0
    }

    constructor ()
      ensures Valid() && !isTorn && scheduledTears == 0
    {
      isTorn := false;
      scheduledTears := 0;
    }

    /** handleTear: the first call tears the pass and schedules `onTear`; later
        calls return at once. */
    method HandleTear() returns (scheduled: bool)
      requires Valid()
      modifies this
      ensures Valid() && isTorn
      ensures scheduled == !old(isTorn)
      ensures scheduledTears == old(scheduledTears) + (if scheduled then 1 else 0)
      ensures scheduledTears <= 1
    {
      if isTorn {
        return false;
      }
      isTorn := true;
      scheduledTears := scheduledTears + 1;
      scheduled := true;
    }
  }

  /** However often the pass is torn, `onTear` is scheduled once. */
  method TearTwice()
  {
    var pass := new PassState();
    var first := pass.HandleTear();
    var second := pass.HandleTear();
    assert first && !second && pass.scheduledTears == 1;
  }
}
