/** The model cost report: a stored total split into four columns in the proportions of the current
    rate, reconciling to the micro-USD, and rows ordered by spend. */
module CostReport {
  import opened Arithmetic
  import opened Order
  import opened Pricing
  import opened Wrappers

  datatype Columns = Columns(input: nat, output: nat, cacheRead: nat, cacheWrite: nat)
  {
    function Sum(): nat {
      input + output + cacheRead + cacheWrite
    }
  }

  const NO_COLUMNS := Columns(0, 0, 0, 0)

  /** The floor of a component's proportional share of the total. */
  function Share(value: int, total: nat, basis: int): nat
    requires basis > 0
  {
    Max0(value) * total / basis
  }

  predicate NonNegative(c: CostComponents) {
    c.input >= 0 && c.output >= 0 && c.cacheRead >= 0 && c.cacheWrite >= 0 && c.reasoning >= 0
  }

  const U64_LIMIT: int := 0x1_0000_0000_0000_0000

  /** What 64 bits keep of a number, read as a signed one. */
  function AsI64(n: int): int {
    if n % U64_LIMIT < I64_LIMIT then n % U64_LIMIT else n % U64_LIMIT - U64_LIMIT
  }

  /** The sum of five i64 components, as an optimized build computes it: it wraps around. */
  function WrappedTotal(c: CostComponents): int {
    AsI64(c.Total())
  }

  predicate Fits(c: CostComponents) {
    c.Total() < I64_LIMIT
  }

  lemma {:induction false} FittingTotal(c: CostComponents)
    requires NonNegative(c) && Fits(c)
    ensures WrappedTotal(c) == c.Total()
  {
  }

  function Basis(c: CostComponents): int {
    if WrappedTotal(c) > 1 then WrappedTotal(c) else 1
  }

  function Floors(c: CostComponents, total: nat): Columns {
    var basis := Basis(c);
    Columns(Share(c.input, total, basis), Share(c.output, total, basis), Share(c.cacheRead, total, basis),
            Share(c.cacheWrite, total, basis))
  }

  /** What the remainder does to the four shares, when none of the arithmetic overflows. */
  function Scale(c: CostComponents, total: nat): Columns {
    var floors := Floors(c, total);
    if floors.Sum() <= total then floors.(cacheWrite := floors.cacheWrite + (total - floors.Sum())) else floors
  }

  type u64 = n: nat | n < U64_LIMIT

  /** `as u64`, and what an optimized build keeps of a sum. */
  function AsU64(n: nat): u64 {
    n % U64_LIMIT
  }

  function CastFloors(c: CostComponents, total: u64): Columns {
    var floors := Floors(c, total);
    Columns(AsU64(floors.input), AsU64(floors.output), AsU64(floors.cacheRead), AsU64(floors.cacheWrite))
  }

  function WithRemainder(floors: Columns, total: u64): Columns {
    var shared := AsU64(floors.Sum());
    if shared <= total then floors.(cacheWrite := AsU64(floors.cacheWrite + (total - shared))) else floors
  }

  /** The scaling of the source, every cast and sum within 64 bits; the subtraction for the
      remainder is checked. */
  method ScaleToTotal(c: CostComponents, total: u64) returns (r: Columns)
    ensures r == WithRemainder(CastFloors(c, total), total)
  {
    var basis := Basis(c);
    var input := AsU64(Share(c.input, total, basis));
    var output := AsU64(Share(c.output, total, basis));
    var cacheRead := AsU64(Share(c.cacheRead, total, basis));
    var cacheWrite := AsU64(Share(c.cacheWrite, total, basis));
    var shared := AsU64(input + output + cacheRead + cacheWrite);
    if shared <= total {
      cacheWrite := AsU64(cacheWrite + (total - shared));
    }
    r := Columns(input, output, cacheRead, cacheWrite);
  }

  /** The shares and their sum keep within 64 bits. */
  predicate InRange(c: CostComponents, total: u64) {
    Floors(c, total).Sum() < U64_LIMIT
  }

  lemma {:induction false} InRangeIsExact(c: CostComponents, total: u64)
    requires InRange(c, total)
    ensures WithRemainder(CastFloors(c, total), total) == Scale(c, total)
  {
    var floors := Floors(c, total);
    KeptWhole(floors.input);
    KeptWhole(floors.output);
    KeptWhole(floors.cacheRead);
    KeptWhole(floors.cacheWrite);
    KeptWhole(floors.Sum());
    if floors.Sum() <= total {
      KeptWhole(floors.cacheWrite + (total - floors.Sum()));
    }
  }

  lemma {:induction false} KeptWhole(n: nat)
    requires n < U64_LIMIT
    ensures AsU64(n) == n
  {
  }

  lemma {:induction false} KeptPart(n: nat, k: nat)
    requires k * U64_LIMIT <= n < (k + 1) * U64_LIMIT
    ensures AsU64(n) == n - k * U64_LIMIT
  {
  }

  lemma {:induction false} KeptOfFour(n: nat) returns (k: nat)
    requires n < 4 * U64_LIMIT
    ensures k < 4 && k * U64_LIMIT <= n && AsU64(n) == n - k * U64_LIMIT < U64_LIMIT
    ensures k == 0 <==> n < U64_LIMIT
  {
    k := if n < U64_LIMIT then 0 else if n < 2 * U64_LIMIT then 1 else if n < 3 * U64_LIMIT then 2 else 3;
    KeptPart(n, k);
  }

  /** Exactly when four 64-bit amounts and the remainder show the total: they do not exceed it, or
      their sum wraps around while the first three do not exceed it. */
  lemma {:induction false} RemainderReconcilesExactly(floors: Columns, total: u64)
    requires floors.input < U64_LIMIT && floors.output < U64_LIMIT && floors.cacheRead < U64_LIMIT
    requires floors.cacheWrite < U64_LIMIT
    ensures WithRemainder(floors, total).Sum() == total <==>
            || floors.Sum() <= total
            || (floors.Sum() >= U64_LIMIT && floors.input + floors.output + floors.cacheRead <= total)
  {
    var sum, three := floors.Sum(), floors.input + floors.output + floors.cacheRead;
    var k := KeptOfFour(sum);
    if AsU64(sum) <= total {
      var last := KeptOfFour(floors.cacheWrite + (total - AsU64(sum)));
      assert WithRemainder(floors, total).Sum() == total + k * U64_LIMIT - last * U64_LIMIT;
    }
  }

  lemma {:induction false} ShareBounds(value: int, total: nat, basis: int)
    requires basis > 0 && value >= 0
    ensures Share(value, total, basis) * basis <= value * total < (Share(value, total, basis) + 1) * basis
  {
    FloorBounds(value * total, basis);
  }

  /** The five floors of non-negative shares miss the total by less than five. */
  lemma {:induction false} FiveFloors(c: CostComponents, total: nat)
    requires NonNegative(c) && Fits(c) && c.Total() > 0
    ensures var (b, s) := (Basis(c), Scale(c, total));
            var floors := Share(c.input, total, b) + Share(c.output, total, b) + Share(c.cacheRead, total, b)
                          + Share(c.cacheWrite, total, b) + Share(c.reasoning, total, b);
            floors <= total < floors + 5
  {
    var b := Basis(c);
    ShareBounds(c.input, total, b);
    ShareBounds(c.output, total, b);
    ShareBounds(c.cacheRead, total, b);
    ShareBounds(c.cacheWrite, total, b);
    ShareBounds(c.reasoning, total, b);
    SharesOfTotal(c, total);
    SumOfFloors(b, total, c.input * total, c.output * total, c.cacheRead * total, c.cacheWrite * total,
                c.reasoning * total,
                Share(c.input, total, b), Share(c.output, total, b), Share(c.cacheRead, total, b),
                Share(c.cacheWrite, total, b), Share(c.reasoning, total, b));
  }

  predicate IsFloor(f: int, v: int, b: int) {
    f * b <= v < (f + 1) * b
  }

  lemma {:induction false} SumOfFloors(b: int, total: int, v0: int, v1: int, v2: int, v3: int, v4: int, f0: int,
                                       f1: int, f2: int, f3: int, f4: int)
    requires b > 0 && v0 + v1 + v2 + v3 + v4 == total * b
    requires IsFloor(f0, v0, b) && IsFloor(f1, v1, b) && IsFloor(f2, v2, b) && IsFloor(f3, v3, b) && IsFloor(f4, v4, b)
    ensures f0 + f1 + f2 + f3 + f4 <= total < f0 + f1 + f2 + f3 + f4 + 5
  {
    var f := f0 + f1 + f2 + f3 + f4;
    assert f * b == f0 * b + f1 * b + f2 * b + f3 * b + f4 * b;
    assert (f + 5) * b == (f0 + 1) * b + (f1 + 1) * b + (f2 + 1) * b + (f3 + 1) * b + (f4 + 1) * b;
    AtMostByFactor(f, total, b);
    LessByFactor(total, f + 5, b);
  }

  lemma {:induction false} SharesOfTotal(c: CostComponents, total: nat)
    requires NonNegative(c) && Fits(c) && c.Total() > 0
    ensures c.input * total + c.output * total + c.cacheRead * total + c.cacheWrite * total + c.reasoning * total
            == total * Basis(c)
  {
  }

  /** When a split happens the four columns add up to the stored total exactly; the first three are
      the floors of their shares; and the cache-write column exceeds its own floor by the whole
      reasoning share plus fewer than five micro-USD of truncation. */
  lemma {:induction false} SplitReconciles(c: CostComponents, total: nat)
    requires NonNegative(c) && Fits(c) && c.Total() > 0
    ensures var (b, s) := (Basis(c), Scale(c, total));
            && s.Sum() == total
            && s.input == Share(c.input, total, b) && s.output == Share(c.output, total, b)
            && s.cacheRead == Share(c.cacheRead, total, b)
            && 0 <= s.cacheWrite - Share(c.cacheWrite, total, b) - Share(c.reasoning, total, b) < 5
  {
    FiveFloors(c, total);
  }

  /** Without reasoning the cache-write column exceeds its floor by at most 3 micro-USD. */
  lemma {:induction false} SplitWithoutReasoning(c: CostComponents, total: nat)
    requires NonNegative(c) && Fits(c) && c.Total() > 0 && c.reasoning == 0
    ensures 0 <= Scale(c, total).cacheWrite - Share(c.cacheWrite, total, Basis(c)) <= 3
  {
    var b := Basis(c);
    FiveFloors(c, total);
    ShareBounds(c.input, total, b);
    ShareBounds(c.output, total, b);
    ShareBounds(c.cacheRead, total, b);
    ShareBounds(c.cacheWrite, total, b);
    SharesOfTotal(c, total);
    var i, o, r, w := Share(c.input, total, b), Share(c.output, total, b), Share(c.cacheRead, total, b),
                      Share(c.cacheWrite, total, b);
    ZeroShare(total, b);
    assert (i + o + r + w + 4) * b == (i + 1) * b + (o + 1) * b + (r + 1) * b + (w + 1) * b;
    LessByFactor(total, i + o + r + w + 4, b);
  }

  /** The columns keep their proportions only without reasoning: a model billed for reasoning alone
      shows its whole cost as cache writes. */
  lemma {:induction false} ReasoningShowsAsCacheWrites(c: CostComponents, total: nat)
    requires c.input == 0 && c.output == 0 && c.cacheRead == 0 && c.cacheWrite == 0 && 0 < c.reasoning <= I64_MAX
    ensures Scale(c, total) == Columns(0, 0, 0, total)
  {
    OnlyReasoning(c, total, Basis(c), Scale(c, total));
  }

  lemma {:induction false} OnlyReasoning(c: CostComponents, total: nat, b: int, s: Columns)
    requires c.input == 0 && c.output == 0 && c.cacheRead == 0 && c.cacheWrite == 0 && 0 < c.reasoning <= I64_MAX
    requires b == Basis(c) && s == Scale(c, total)
    ensures s == Columns(0, 0, 0, total)
  {
    SplitReconciles(c, total);
    ZeroShare(total, b);
    assert s.input == 0 && s.output == 0 && s.cacheRead == 0;
  }

  /** Exactly when the columns keep their proportions for every total, to within the 3 micro-USD that
      truncation can cost: when nothing is billed for reasoning. */
  lemma {:induction false} ProportionsKeptExactly(c: CostComponents)
    requires NonNegative(c) && Fits(c) && c.Total() > 0
    ensures c.reasoning == 0 <==> forall total: nat ::
              Scale(c, total).cacheWrite <= Share(c.cacheWrite, total, Basis(c)) + 3
  {
    if c.reasoning == 0 {
      forall total: nat
        ensures Scale(c, total).cacheWrite <= Share(c.cacheWrite, total, Basis(c)) + 3
      {
        SplitWithoutReasoning(c, total);
      }
    } else {
      var b := Basis(c);
      FourTimes(c.reasoning, b);
      SplitReconciles(c, 4 * b);
      assert !(Scale(c, 4 * b).cacheWrite <= Share(c.cacheWrite, 4 * b, b) + 3);
    }
  }

  lemma {:induction false} FourTimes(value: int, basis: int)
    requires value > 0 && basis > 0
    ensures Share(value, 4 * basis, basis) >= 4
  {
    ShareBounds(value, 4 * basis, basis);
    assert value * (4 * basis) == (4 * value) * basis;
    LessByFactor(4 * value, Share(value, 4 * basis, basis) + 1, basis);
  }

  lemma {:induction false} ZeroShare(total: nat, basis: int)
    requires basis > 0
    ensures Share(0, total, basis) == 0
  {
    ShareBounds(0, total, basis);
  }

  // ---- Rows -----------------------------------------------------------------------------

  datatype RawRow = RawRow(model: string, tokensIn: u64, tokensOut: u64, cacheRead: u64, cacheWrite: u64,
                           reasoning: u64, totalCost: u64)

  datatype ReportRow = ReportRow(raw: RawRow, columns: Columns, totalTokens: nat, average: nat)

  function SaturatingAdd(a: nat, b: nat): nat {
    if a + b < U64_LIMIT then a + b else U64_LIMIT - 1
  }

  function UsageOf(row: RawRow): TokenUsage {
    TokenUsage(AsI64(row.tokensIn), AsI64(row.tokensOut), AsI64(row.cacheRead), AsI64(row.cacheWrite),
               AsI64(row.reasoning))
  }

  function ComponentsOf(row: RawRow, rate: Option<ModelRates>): Option<CostComponents> {
    if rate.Some? then PriceComponents(UsageOf(row), rate.value) else None
  }

  predicate Attributed(row: RawRow, components: Option<CostComponents>) {
    components.Some? && WrappedTotal(components.value) > 0 && row.totalCost > 0
  }

  function ColumnsFrom(row: RawRow, components: Option<CostComponents>): Columns {
    if Attributed(row, components) then WithRemainder(CastFloors(components.value, row.totalCost), row.totalCost)
    else NO_COLUMNS
  }

  function SplitComponents(row: RawRow, rate: Option<ModelRates>): ReportRow {
    var tokens := SaturatingAdd(SaturatingAdd(row.tokensIn, row.tokensOut), row.reasoning);
    ReportRow(row, ColumnsFrom(row, ComponentsOf(row, rate)), tokens,
              if tokens == 0 then 0 else row.totalCost * 1_000_000 / tokens % U64_LIMIT)
  }

  /** Components as rounding leaves them. */
  predicate Rounded(c: CostComponents) {
    NonNegative(c) && c.input <= I64_MAX && c.output <= I64_MAX && c.cacheRead <= I64_MAX && c.cacheWrite <= I64_MAX
    && c.reasoning <= I64_MAX
  }

  lemma {:induction false} ComponentsAreRounded(u: TokenUsage, r: ModelRates)
    requires PriceComponents(u, r).Some?
    ensures Rounded(PriceComponents(u, r).value)
  {
    var s := Components(u, r);
    RoundingIsNearest(s.input);
    RoundingIsNearest(s.output);
    RoundingIsNearest(s.cacheRead);
    RoundingIsNearest(s.cacheWrite);
    RoundingIsNearest(s.reasoning);
  }

  lemma {:induction false} FittingIsInRange(c: CostComponents, total: u64)
    requires NonNegative(c) && Fits(c) && c.Total() > 0
    ensures InRange(c, total)
  {
    FiveFloors(c, total);
  }

  /** Every row of the report either reconciles with its stored total exactly or attributes none of
      it, as long as the components of its tokens add up within an i64; and it attributes none
      exactly when the total or the price of its tokens is zero. */
  lemma {:induction false} RowReconcilesOrIsUnattributed(row: RawRow, rate: Option<ModelRates>)
    requires ComponentsOf(row, rate).Some? ==> Fits(ComponentsOf(row, rate).value)
    ensures var (columns, components) := (SplitComponents(row, rate).columns, ComponentsOf(row, rate));
            && (columns.Sum() == row.totalCost || columns == NO_COLUMNS)
            && (columns == NO_COLUMNS <==> row.totalCost == 0 || components.None? || components.value.Total() == 0)
  {
    if ComponentsOf(row, rate).Some? {
      var c := ComponentsOf(row, rate).value;
      ComponentsAreRounded(UsageOf(row), rate.value);
      FittingTotal(c);
      if c.Total() > 0 {
        SplitReconciles(c, row.totalCost);
        FittingIsInRange(c, row.totalCost);
        InRangeIsExact(c, row.totalCost);
      }
    }
  }

  /** What a row shows, for counts that fit an i64: the columns are the floors of their components' shares of the
      stored total, and the fourth takes what is left of it. */
  lemma {:induction false} ColumnsMeaning(row: RawRow, r: ModelRates, u: TokenUsage)
    requires row.tokensIn <= 0x7FFF_FFFF_FFFF_FFFF && row.tokensOut <= 0x7FFF_FFFF_FFFF_FFFF
    requires row.cacheRead <= 0x7FFF_FFFF_FFFF_FFFF && row.cacheWrite <= 0x7FFF_FFFF_FFFF_FFFF
    requires row.reasoning <= 0x7FFF_FFFF_FFFF_FFFF
    requires u == TokenUsage(row.tokensIn, row.tokensOut, row.cacheRead, row.cacheWrite, row.reasoning)
    ensures var (columns, components) := (SplitComponents(row, Some(r)).columns, PriceComponents(u, r));
            components.Some? && 0 < components.value.Total() <= 0x7FFF_FFFF_FFFF_FFFF && row.totalCost > 0 ==>
              var c := components.value;
              && columns.Sum() == row.totalCost
              && IsFloor(columns.input, c.input * row.totalCost, c.Total())
              && IsFloor(columns.output, c.output * row.totalCost, c.Total())
              && IsFloor(columns.cacheRead, c.cacheRead * row.totalCost, c.Total())
  {
    assert UsageOf(row) == u;
    var components := PriceComponents(u, r);
    if components.Some? && Fits(components.value) && components.value.Total() > 0 && row.totalCost > 0 {
      ComponentsAreRounded(u, r);
      FlooredColumns(row, components.value);
    }
  }

  /** The tokens are prompt, output and reasoning, and the average is per million of them. */
  lemma {:induction false} TokensMeaning(row: RawRow, rate: Option<ModelRates>)
    ensures var (shown, tokens) := (SplitComponents(row, rate), row.tokensIn + row.tokensOut + row.reasoning);
            && shown.raw == row
            && shown.totalTokens == (if tokens < 0xFFFF_FFFF_FFFF_FFFF then tokens else 0xFFFF_FFFF_FFFF_FFFF)
            && (tokens == 0 ==> shown.average == 0)
            && (rate.None? || row.totalCost == 0 ==> shown.columns == Columns(0, 0, 0, 0))
            && (tokens > 0 && row.totalCost * 1_000_000 <= 0xFFFF_FFFF_FFFF_FFFF ==>
                  IsFloor(shown.average, row.totalCost * 1_000_000, shown.totalTokens))
  {
    var tokens := SaturatingAdd(SaturatingAdd(row.tokensIn, row.tokensOut), row.reasoning);
    if tokens > 0 && row.totalCost * 1_000_000 < U64_LIMIT {
      FloorBounds(row.totalCost * 1_000_000, tokens);
      AverageFits(row.totalCost * 1_000_000, tokens);
    }
  }

  lemma {:induction false} AverageFits(cost: nat, tokens: nat)
    requires tokens > 0 && cost < U64_LIMIT
    ensures cost / tokens % U64_LIMIT == cost / tokens
  {
  }

  lemma {:induction false} FlooredColumns(row: RawRow, c: CostComponents)
    requires Rounded(c) && Fits(c) && c.Total() > 0 && row.totalCost > 0
    ensures var columns := ColumnsFrom(row, Some(c));
            && columns.Sum() == row.totalCost
            && IsFloor(columns.input, c.input * row.totalCost, c.Total())
            && IsFloor(columns.output, c.output * row.totalCost, c.Total())
            && IsFloor(columns.cacheRead, c.cacheRead * row.totalCost, c.Total())
  {
    FittingTotal(c);
    SplitReconciles(c, row.totalCost);
    FittingIsInRange(c, row.totalCost);
    InRangeIsExact(c, row.totalCost);
    ShareBounds(c.input, row.totalCost, c.Total());
    ShareBounds(c.output, row.totalCost, c.Total());
    ShareBounds(c.cacheRead, row.totalCost, c.Total());
  }

  // ---- Components beyond an i64 ---------------------------------------------------------

  /** For every row, overflow and casts included: a row that is split shows its stored total exactly
      when its four shares do not exceed it, or wrap around while the first three do not. */
  lemma {:induction false} SplitRowReconcilesExactly(row: RawRow, rate: Option<ModelRates>)
    ensures var (columns, components) := (SplitComponents(row, rate).columns, ComponentsOf(row, rate));
            if !Attributed(row, components) then columns == NO_COLUMNS
            else
              var floors := CastFloors(components.value, row.totalCost);
              columns.Sum() == row.totalCost <==>
                || floors.Sum() <= row.totalCost
                || (floors.Sum() >= U64_LIMIT && floors.input + floors.output + floors.cacheRead <= row.totalCost)
  {
    if Attributed(row, ComponentsOf(row, rate)) {
      RemainderReconcilesExactly(CastFloors(ComponentsOf(row, rate).value, row.totalCost), row.totalCost);
    }
  }

  /** A sum that does not fit and still wraps to a positive number is at most half of the first four
      components. */
  lemma {:induction false} WrappedIsSmall(c: CostComponents)
    requires Rounded(c) && !Fits(c) && WrappedTotal(c) > 0
    ensures c.input + c.output + c.cacheRead + c.cacheWrite >= 2 * WrappedTotal(c)
  {
  }

  lemma {:induction false} FourFloors(c: CostComponents, total: nat, basis: int)
    requires NonNegative(c) && basis > 0 && basis == Basis(c)
    ensures (c.input + c.output + c.cacheRead + c.cacheWrite) * total < (Floors(c, total).Sum() + 4) * basis
  {
    var (i, o, r, w) := (Share(c.input, total, basis), Share(c.output, total, basis), Share(c.cacheRead, total, basis),
                         Share(c.cacheWrite, total, basis));
    ShareBounds(c.input, total, basis);
    ShareBounds(c.output, total, basis);
    ShareBounds(c.cacheRead, total, basis);
    ShareBounds(c.cacheWrite, total, basis);
    FourProducts(c.input, c.output, c.cacheRead, c.cacheWrite, total);
    FourProducts(i + 1, o + 1, r + 1, w + 1, basis);
  }

  lemma {:induction false} FourProducts(a: int, b: int, c: int, d: int, factor: int)
    ensures (a + b + c + d) * factor == a * factor + b * factor + c * factor + d * factor
  {
  }

  /** So the shares exceed any total of at least four micro-USD. */
  lemma {:induction false} OverflowExceeds(c: CostComponents, total: nat)
    requires Rounded(c) && !Fits(c) && WrappedTotal(c) > 0 && total >= 4
    ensures Floors(c, total).Sum() > total
  {
    var basis, four := Basis(c), c.input + c.output + c.cacheRead + c.cacheWrite;
    WrappedIsSmall(c);
    FourFloors(c, total, basis);
    ExceedsByFloors(four, Floors(c, total).Sum(), basis, total);
  }

  lemma {:induction false} ExceedsByFloors(four: int, floors: int, basis: int, total: nat)
    requires basis > 0 && four >= 2 * basis && four * total < (floors + 4) * basis && total >= 4
    ensures floors > total
  {
    TimesTotal(2 * basis, four, total);
    assert 2 * basis * total == (2 * total) * basis;
    LessByFactor(2 * total, floors + 4, basis);
  }

  lemma {:induction false} TimesTotal(a: int, b: int, total: nat)
    requires a <= b
    ensures a * total <= b * total
  {
  }

  /** Exactly when a row keeps its promise to show its stored total or nothing, for totals of at least
      four micro-USD and shares within 64 bits: its components add up within an i64, or wrap around to
      something that is not positive. */
  lemma {:induction false} RowReconcilesExactly(row: RawRow, rate: Option<ModelRates>)
    requires row.totalCost >= 4
    requires Attributed(row, ComponentsOf(row, rate)) ==> InRange(ComponentsOf(row, rate).value, row.totalCost)
    ensures var (columns, components) := (SplitComponents(row, rate).columns, ComponentsOf(row, rate));
            (columns.Sum() == row.totalCost || columns == NO_COLUMNS) <==>
            components.None? || Fits(components.value) || WrappedTotal(components.value) <= 0
  {
    var components := ComponentsOf(row, rate);
    if Attributed(row, components) {
      var c := components.value;
      ComponentsAreRounded(UsageOf(row), rate.value);
      InRangeIsExact(c, row.totalCost);
      if Fits(c) {
        FittingTotal(c);
        SplitReconciles(c, row.totalCost);
      } else {
        OverflowExceeds(c, row.totalCost);
      }
    }
  }

  /** Prompt, output and cache reads of `n` tokens each, all at one rate. */
  lemma {:induction false} ThreeEqualParts(n: int, m: int, u: TokenUsage, r: ModelRates)
    requires n > 0 && u == TokenUsage(n + n, n, n, 0, 0) && r == ModelRates(Some(m), Some(m), Some(m), None, None)
    ensures Components(u, r) == Scaled(n * m, n * m, n * m, 0, 0, true)
  {
    assert InputSlack(u, r) == n && OutputSlack(u, r) == n;
    assert Charge(Some(m), n) == n * m && Charge(None, 0) == 0;
  }

  lemma {:induction false} RoundsToRate(n: int, m: int)
    requires n == RATE_UNIT && 0 <= m <= I64_MAX
    ensures RoundScaled(n * m) == m && RoundScaled(0) == 0
  {
    assert n * m + HALF_UNIT == m * RATE_UNIT + HALF_UNIT;
    assert Truncate(m * RATE_UNIT + HALF_UNIT, RATE_UNIT) == m;
  }

  /** Such components exist: a million tokens of each at a rate `m` cost `m`. */
  lemma {:induction false} EqualComponents(n: int, m: int, u: TokenUsage, r: ModelRates)
    requires n == RATE_UNIT && 0 <= m <= I64_MAX
    requires u == TokenUsage(n + n, n, n, 0, 0) && r == ModelRates(Some(m), Some(m), Some(m), None, None)
    ensures PriceComponents(u, r) == Some(CostComponents(m, m, m, 0, 0))
  {
    ThreeEqualParts(n, m, u, r);
    RoundsToRate(n, m);
  }

  lemma {:induction false} WrappedSum(m: int, c: CostComponents)
    requires m == I64_MAX && c == CostComponents(m, m, m, 0, 0)
    ensures WrappedTotal(c) == m - 2
  {
  }

  lemma {:induction false} WrappedScale(m: int, c: CostComponents)
    requires m > 4 && c == CostComponents(m, m, m, 0, 0) && WrappedTotal(c) == m - 2
    ensures Scale(c, 1) == Columns(1, 1, 1, 0)
  {
    var b := m - 2;
    ShareBounds(m, 1, b);
    OneShare(m, b, Share(m, 1, b));
    ZeroShare(1, b);
  }

  lemma {:induction false} OneShare(m: int, b: int, share: int)
    requires b == m - 2 && m > 4 && share * b <= m < (share + 1) * b
    ensures share == 1
  {
    LessByFactor(share, 2, b);
    LessByFactor(1, share + 1, b);
  }

  lemma {:induction false} WrappedColumns(row: RawRow, m: int, c: CostComponents)
    requires row.totalCost == 1 && m == I64_MAX && c == CostComponents(m, m, m, 0, 0)
    ensures ColumnsFrom(row, Some(c)) == Columns(1, 1, 1, 0)
  {
    WrappedSum(m, c);
    WrappedScale(m, c);
    InRangeIsExact(c, 1);
  }

  /** A row that does not: a million tokens each of prompt, output and cache reads at the largest rate
      cost the i64 maximum three times, which wraps around to less than any of them. Each column gets
      the whole total of one micro-USD, and the row shows three. */
  lemma {:induction false} OverflowingRowDoesNotReconcile(model: string, n: u64, m: int)
    requires n == RATE_UNIT && m == I64_MAX
    ensures var row := RawRow(model, n + n, n, n, 0, 0, 1);
            var rates := ModelRates(Some(m), Some(m), Some(m), None, None);
            SplitComponents(row, Some(rates)).columns == Columns(1, 1, 1, 0)
  {
    var row := RawRow(model, n + n, n, n, 0, 0, 1);
    var rates := ModelRates(Some(m), Some(m), Some(m), None, None);
    assert UsageOf(row) == TokenUsage(n + n, n, n, 0, 0);
    EqualComponents(n, m, UsageOf(row), rates);
    WrappedColumns(row, m, CostComponents(m, m, m, 0, 0));
  }

  predicate CostsMore(a: ReportRow, b: ReportRow) {
    a.raw.totalCost >= b.raw.totalCost
  }

  function SortByCostDesc(rows: seq<ReportRow>): seq<ReportRow> {
    Sort(CostsMore, rows)
  }

  /** Highest spend first, the same rows, ties in their old order. */
  lemma {:induction false} SortingRows(rows: seq<ReportRow>, k: ReportRow)
    ensures var sorted := SortByCostDesc(rows);
            && (forall i, j | 0 <= i < j < |sorted| :: sorted[i].raw.totalCost >= sorted[j].raw.totalCost)
            && multiset(sorted) == multiset(rows)
            && Class(CostsMore, sorted, k) == Class(CostsMore, rows, k)
  {
    SortFacts(CostsMore, rows);
    SortIsStable(CostsMore, rows, k);
  }

  function SplitAll(raw: seq<RawRow>, rates: RawRow -> Option<ModelRates>): (rows: seq<ReportRow>)
    ensures |rows| == |raw| && forall i | 0 <= i < |raw| :: rows[i] == SplitComponents(raw[i], rates(raw[i]))
  {
    seq(|raw|, i requires 0 <= i < |raw| => SplitComponents(raw[i], rates(raw[i])))
  }

  lemma {:induction false} SortOfSorted<T(!new)>(leq: (T, T) -> bool, s: seq<T>)
    requires TotalPreorder(leq) && SortedBy(leq, s)
    ensures Sort(leq, s) == s
  {
    SortFacts(leq, s);
    forall k
      ensures Class(leq, Sort(leq, s), k) == Class(leq, s, k)
    {
      SortIsStable(leq, s, k);
    }
    SortedIsItsClasses(leq, Sort(leq, s), s);
  }

  /** Splitting never reorders: rows that storage hands over by descending cost come out in
      exactly that order. */
  lemma {:induction false} SplittingKeepsOrder(raw: seq<RawRow>, rates: RawRow -> Option<ModelRates>)
    requires forall i, j | 0 <= i < j < |raw| :: raw[i].totalCost >= raw[j].totalCost
    ensures SortByCostDesc(SplitAll(raw, rates)) == SplitAll(raw, rates)
  {
    SortOfSorted(CostsMore, SplitAll(raw, rates));
  }
}
