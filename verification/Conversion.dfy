/** Converting between assets at a rate the transaction states, in exact rational arithmetic with the
    fraction truncated, and the check that a transaction moved what its stated rate says. */
module Conversion {
  import opened Ledger

  // a plain decimal, parsed: always positive. Text that is not one is `None` wherever a rate is stated
  datatype Rate = Rate(num: int, den: int) {
    predicate Positive() { num > 0 && den > 0 }
  }

  // the decimal places an asset's name carries; a name that is not well formed carries none
  type Scales = map<Asset, nat>

  datatype Failure =
    | InvalidRate | InvalidAsset(asset: Asset) | InvalidAmount | SameAsset
    | AssetsUnnamed | MovesNeither | Rounding(want: int, moved: int)

  datatype Result<+T> = Ok(value: T) | Err(error: Failure)

  datatype Conversion = Conversion(from: Asset, seller: Address, soldTo: Address,
                                   to: Asset, boughtFrom: Address, buyer: Address,
                                   amount: Option<int>, rate: Option<Rate>)

  datatype Received = Received(out: int, exact: bool)

  // ---------------------------------------------------------------- what an amount is worth

  ghost function TenTo(n: int): real
    decreases if n < 0 then -n else n
  {
    if n == 0 then 1.0 else if n > 0 then 10.0 * TenTo(n - 1) else TenTo(n + 1) / 10.0
  }

  // in * rate * 10^(toScale - fromScale)
  ghost function Worth(amount: int, rate: Rate, shift: int): real
    requires rate.den > 0
  {
    amount as real * (rate.num as real / rate.den as real) * TenTo(shift)
  }

  ghost function Quotient(n: int, d: int): real
    requires d > 0
  {
    n as real / d as real
  }

  lemma {:induction false} QuotientUnique(n: int, d: int, x: real)
    requires d > 0 && x * d as real == n as real
    ensures x == Quotient(n, d)
  {
  }

  lemma {:induction false} QuotientUp(n: int, d: int)
    requires d > 0
    ensures Quotient(n * 10, d) == 10.0 * Quotient(n, d)
  {
    var x := Quotient(n, d);
    assert x * d as real == n as real;
    assert (10.0 * x) * d as real == (n * 10) as real;
    QuotientUnique(n * 10, d, 10.0 * x);
  }

  lemma {:induction false} QuotientDown(n: int, d: int)
    requires d > 0
    ensures Quotient(n, d * 10) == Quotient(n, d) / 10.0
  {
    var x := Quotient(n, d);
    assert x * d as real == n as real;
    assert (d * 10) as real == 10.0 * d as real;
    assert (x / 10.0) * (d * 10) as real == n as real;
    QuotientUnique(n, d * 10, x / 10.0);
  }

  lemma {:induction false} QuotientTimes(a: int, n: int, d: int)
    requires d > 0
    ensures Quotient(a * n, d) == a as real * Quotient(n, d)
  {
    var x := Quotient(n, d);
    assert x * d as real == n as real;
    assert (a as real * x) * d as real == a as real * (x * d as real) == a as real * n as real;
    assert a as real * n as real == (a * n) as real;
    QuotientUnique(a * n, d, a as real * x);
  }

  // truncating a quotient of integers that are not negative is taking its floor
  lemma {:induction false} QuotientFloor(n: int, d: int)
    requires n >= 0 && d > 0
    ensures Quotient(n, d).Floor == n / d
    ensures n % d == 0 <==> Quotient(n, d) == (n / d) as real
  {
    var q, r, x := n / d, n % d, Quotient(n, d);
    assert n == q * d + r;
    assert x * d as real == q as real * d as real + r as real;
    assert (x - q as real) * d as real == r as real;
    Fraction(x - q as real, d, r);
  }

  lemma {:induction false} Fraction(f: real, d: int, r: int)
    requires d > 0 && 0 <= r < d && f * d as real == r as real
    ensures 0.0 <= f < 1.0 && (f == 0.0 <==> r == 0)
  {
    assert f < 0.0 ==> f * d as real < 0.0;
    assert f >= 1.0 ==> f * d as real >= d as real;
    assert f != 0.0 ==> f * d as real != 0.0;
  }

  // ---------------------------------------------------------------- the amount received

  function Shift(scales: Scales, from: Asset, to: Asset): int
    requires from in scales && to in scales
  {
    (scales[to] as int) - (scales[from] as int)
  }

  // what arrives is the floor of what the amount is worth, and exact when that loses nothing
  ghost function Receipt(c: Conversion, scales: Scales): Result<Received> {
    if c.rate.None? || !c.rate.value.Positive() then Err(InvalidRate)
    else if c.from !in scales then Err(InvalidAsset(c.from))
    else if c.to !in scales then Err(InvalidAsset(c.to))
    else if c.amount.None? || c.amount.value <= 0 then Err(InvalidAmount)
    else
      var worth := Worth(c.amount.value, c.rate.value, Shift(scales, c.from, c.to));
      Ok(Received(worth.Floor, worth == worth.Floor as real))
  }

  lemma {:induction false} ShiftOnce(amount: int, rate: Rate, i: int, up: bool)
    requires rate.den > 0 && i >= 0
    ensures if up then Worth(amount, rate, i + 1) == 10.0 * Worth(amount, rate, i)
            else Worth(amount, rate, -(i + 1)) == Worth(amount, rate, -i) / 10.0
  {
    var base := amount as real * (rate.num as real / rate.den as real);
    if up {
      assert TenTo(i + 1) == 10.0 * TenTo(i);
      assert base * (10.0 * TenTo(i)) == 10.0 * (base * TenTo(i));
    } else {
      assert TenTo(-(i + 1)) == TenTo(-i) / 10.0;
      assert base * (TenTo(-i) / 10.0) == (base * TenTo(-i)) / 10.0;
    }
  }

  /** Numerator and denominator are scaled by ten once per decimal place between the assets, then
      divided, dropping the remainder: the floor of the exact product, never a unit more. */
  method Receives(c: Conversion, scales: Scales) returns (r: Result<Received>)
    ensures r == Receipt(c, scales)
  {
    if c.rate.None? || !c.rate.value.Positive() { return Err(InvalidRate); }
    if c.from !in scales { return Err(InvalidAsset(c.from)); }
    if c.to !in scales { return Err(InvalidAsset(c.to)); }
    if c.amount.None? || c.amount.value <= 0 { return Err(InvalidAmount); }
    var rate, amount := c.rate.value, c.amount.value;
    var shift := Shift(scales, c.from, c.to);
    var places := if shift < 0 then -shift else shift;
    var n, d := amount * rate.num, rate.den;
    QuotientTimes(amount, rate.num, rate.den);
    for i := 0 to places
      invariant n > 0 && d > 0
      invariant Quotient(n, d) == Worth(amount, rate, if shift > 0 then i else -i)
    {
      ShiftOnce(amount, rate, i, shift > 0);
      if shift > 0 {
        QuotientUp(n, d);
        n := n * 10;
      } else {
        QuotientDown(n, d);
        d := d * 10;
      }
    }
    QuotientFloor(n, d);
    r := Ok(Received(n / d, n % d == 0));
  }

  // ---------------------------------------------------------------- the same in whole numbers

  function PowTen(n: nat): (p: int)
    ensures p > n
  {
    if n == 0 then 1 else 10 * PowTen(n - 1)
  }

  lemma {:induction false} WorthUp(amount: int, rate: Rate, places: nat)
    requires rate.den > 0
    ensures Quotient(amount * rate.num * PowTen(places), rate.den) == Worth(amount, rate, places)
  {
    if places == 0 {
      QuotientTimes(amount, rate.num, rate.den);
    } else {
      WorthUp(amount, rate, places - 1);
      ShiftOnce(amount, rate, places - 1, true);
      QuotientUp(amount * rate.num * PowTen(places - 1), rate.den);
      assert amount * rate.num * (10 * PowTen(places - 1)) == amount * rate.num * PowTen(places - 1) * 10;
    }
  }

  lemma {:induction false} WorthDown(amount: int, rate: Rate, places: nat)
    requires rate.den > 0
    ensures rate.den * PowTen(places) > 0
    ensures Quotient(amount * rate.num, rate.den * PowTen(places)) == Worth(amount, rate, 0 - places)
  {
    if places == 0 {
      QuotientTimes(amount, rate.num, rate.den);
    } else {
      WorthDown(amount, rate, places - 1);
      ShiftOnce(amount, rate, places - 1, false);
      QuotientDown(amount * rate.num, rate.den * PowTen(places - 1));
      assert rate.den * (10 * PowTen(places - 1)) == rate.den * PowTen(places - 1) * 10;
    }
  }

  // out is as many times as d goes into n, and exact says that nothing is left
  predicate GoesInto(n: int, d: int, r: Received) {
    r.out * d <= n < (r.out + 1) * d && (r.exact <==> r.out * d == n)
  }

  lemma {:induction false} GoesOnly(n: int, d: int, r: Received, q: int, left: int)
    requires 0 <= left < d && n == q * d + left
    ensures GoesInto(n, d, r) <==> r == Received(q, left == 0)
  {
    if r.out < q {
      Steps(r.out + 1, q, d);
    } else if r.out > q {
      Steps(q + 1, r.out, d);
    }
    assert (q + 1) * d == q * d + d;
  }

  lemma {:induction false} Steps(x: int, y: int, d: int)
    requires x <= y && d > 0
    ensures x * d <= y * d
  {
  }

  lemma {:induction false} GoesOnce(n: int, d: int, r: Received)
    requires n >= 0 && d > 0
    ensures GoesInto(n, d, r) <==> r == Received(Quotient(n, d).Floor, Quotient(n, d) == Quotient(n, d).Floor as real)
  {
    QuotientFloor(n, d);
    GoesOnly(n, d, r, n / d, n % d);
  }

  // amount * num / den, with ten to the places the asset bought has more of above the line or fewer of below it
  predicate Pays(amount: int, rate: Rate, from: nat, to: nat, r: Received) {
    if to >= from then GoesInto(amount * rate.num * PowTen(to - from), rate.den, r)
    else GoesInto(amount * rate.num, rate.den * PowTen(from - to), r)
  }

  lemma {:induction false} PaysOnce(amount: int, rate: Rate, from: nat, to: nat, r: Received, shift: int)
    requires amount > 0 && rate.Positive() && shift == to - from
    ensures var worth := Worth(amount, rate, shift);
            Pays(amount, rate, from, to, r) <==> r == Received(worth.Floor, worth == worth.Floor as real)
  {
    assert amount * rate.num > 0;
    if shift >= 0 {
      WorthUp(amount, rate, shift);
      assert amount * rate.num * PowTen(shift) > 0;
      GoesOnce(amount * rate.num * PowTen(shift), rate.den, r);
    } else {
      WorthDown(amount, rate, 0 - shift);
      GoesOnce(amount * rate.num, rate.den * PowTen(0 - shift), r);
    }
  }

  // what an amount of one asset receives of another at a rate
  predicate Receiving(amount: Option<int>, rate: Option<Rate>, from: Asset, to: Asset, scales: Scales,
                      r: Result<Received>)
  {
    if rate.None? || rate.value.num <= 0 || rate.value.den <= 0 then r == Err(InvalidRate)
    else if from !in scales then r == Err(InvalidAsset(from))
    else if to !in scales then r == Err(InvalidAsset(to))
    else if amount.None? || amount.value <= 0 then r == Err(InvalidAmount)
    else r.Ok? && Pays(amount.value, rate.value, scales[from], scales[to], r.value)
  }

  /** What a conversion receives, in whole numbers: a rate that is missing or not positive, an asset without a
      scale, the one sold first, and an amount that is missing or not positive are refused in that order; else
      as many units as the product holds, and exact when none of it is left over. */
  lemma {:induction false} ReceiptExactly(c: Conversion, scales: Scales, r: Result<Received>)
    ensures Receipt(c, scales) == r <==> Receiving(c.amount, c.rate, c.from, c.to, scales, r)
  {
    if r.Ok? && Receipt(c, scales).Ok? {
      PaysOnce(c.amount.value, c.rate.value, scales[c.from], scales[c.to], r.value, Shift(scales, c.from, c.to));
    }
  }

  // ---------------------------------------------------------------- splitting

  ghost function Sum(amounts: seq<int>): int {
    if amounts == [] then 0 else Sum(amounts[..|amounts| - 1]) + amounts[|amounts| - 1]
  }

  // what the pieces receive, each truncated on its own
  ghost function SumReceived(amounts: seq<int>, rate: Rate, shift: int): int
    requires rate.den > 0
  {
    if amounts == [] then 0
    else SumReceived(amounts[..|amounts| - 1], rate, shift) + Worth(amounts[|amounts| - 1], rate, shift).Floor
  }

  lemma {:induction false} WorthAdds(a: int, b: int, rate: Rate, shift: int)
    requires rate.den > 0
    ensures Worth(a + b, rate, shift) == Worth(a, rate, shift) + Worth(b, rate, shift)
  {
    var x, t := rate.num as real / rate.den as real, TenTo(shift);
    assert (a + b) as real == a as real + b as real;
    assert ((a as real + b as real) * x) * t == (a as real * x) * t + (b as real * x) * t;
  }

  /** Splitting an amount never yields more than converting it whole, and loses at most one unit a cut. */
  lemma {:induction false} SplittingLoses(amounts: seq<int>, rate: Rate, shift: int)
    requires rate.den > 0 && amounts != []
    ensures var whole := Worth(Sum(amounts), rate, shift).Floor;
            whole - (|amounts| - 1) <= SumReceived(amounts, rate, shift) <= whole
  {
    var l := |amounts| - 1;
    if l == 0 {
      assert amounts[..0] == [];
    } else {
      SplittingLoses(amounts[..l], rate, shift);
      WorthAdds(Sum(amounts[..l]), amounts[l], rate, shift);
    }
  }

  // the fractions the pieces leave behind
  ghost function Dust(amounts: seq<int>, rate: Rate, shift: int): real
    requires rate.den > 0
  {
    if amounts == [] then 0.0
    else
      var worth := Worth(amounts[|amounts| - 1], rate, shift);
      Dust(amounts[..|amounts| - 1], rate, shift) + (worth - worth.Floor as real)
  }

  // the whole is what the pieces receive and what they leave behind
  lemma {:induction false} DustAdds(amounts: seq<int>, rate: Rate, shift: int)
    requires rate.den > 0
    ensures Worth(Sum(amounts), rate, shift) == SumReceived(amounts, rate, shift) as real + Dust(amounts, rate, shift)
    ensures Dust(amounts, rate, shift) >= 0.0 && (amounts != [] ==> Dust(amounts, rate, shift) < |amounts| as real)
  {
    if amounts == [] {
      assert Worth(0, rate, shift) == 0.0;
    } else {
      var l := |amounts| - 1;
      DustAdds(amounts[..l], rate, shift);
      WorthAdds(Sum(amounts[..l]), amounts[l], rate, shift);
    }
  }

  /** What splitting loses is exactly the whole units its dust adds up to. */
  lemma {:induction false} SplittingLosesDust(amounts: seq<int>, rate: Rate, shift: int)
    requires rate.den > 0
    ensures Worth(Sum(amounts), rate, shift).Floor - SumReceived(amounts, rate, shift) ==
              Dust(amounts, rate, shift).Floor
  {
    DustAdds(amounts, rate, shift);
    FloorBeside(SumReceived(amounts, rate, shift), Dust(amounts, rate, shift));
  }

  lemma {:induction false} FloorBeside(n: int, x: real)
    ensures (n as real + x).Floor == n + x.Floor
  {
    var f := x.Floor;
    assert f as real <= x < f as real + 1.0;
    assert (n + f) as real == n as real + f as real;
  }

  // ---------------------------------------------------------------- postings and metadata

  datatype Field = Decimal(rate: Rate) | Named(asset: Asset) | Text(text: string)
  type Metadata = map<string, Field>

  const RATE_KEY := "giro/conversion.rate"
  const FROM_KEY := "giro/conversion.from"
  const TO_KEY := "giro/conversion.to"

  ghost function Sides(c: Conversion, received: int): Postings {
    [Posting(c.seller, c.soldTo, c.from, c.amount, false), Posting(c.boughtFrom, c.buyer, c.to, Some(received), false)]
  }

  ghost function Built(c: Conversion, scales: Scales): Result<Postings> {
    if c.from == c.to then Err(SameAsset)
    else
      var r := Receipt(c, scales);
      if r.Err? then Err(r.error)
      else if r.value.out <= 0 then Err(InvalidAmount)
      else Ok(Sides(c, r.value.out))
  }

  // the seller pays the amount out of the asset sold, and the buyer gets what is received of the other
  predicate TwoSides(c: Conversion, p: Postings, received: int) {
    && |p| == 2
    && p[0].source == c.seller && p[0].destination == c.soldTo && p[0].asset == c.from && p[0].amount == c.amount
    && p[1].source == c.boughtFrom && p[1].destination == c.buyer && p[1].asset == c.to
    && p[1].amount == Some(received) && !p[0].upTo && !p[1].upTo
  }

  /** Two postings, of what is sold and of what is received for it; refused for one asset on both sides, for
      what the receipt is refused for, and when nothing whole is received. */
  lemma {:induction false} BuiltExactly(c: Conversion, scales: Scales, r: Result<Postings>)
    ensures Built(c, scales) == r <==>
              if c.from == c.to then r == Err(SameAsset)
              else match Receipt(c, scales)
                case Err(e) => r == Err(e)
                case Ok(got) => if got.out <= 0 then r == Err(InvalidAmount) else r.Ok? && TwoSides(c, r.value, got.out)
  {
    if Receipt(c, scales).Ok? && r.Ok? && TwoSides(c, r.value, Receipt(c, scales).value.out) {
      assert r.value == [r.value[0], r.value[1]];
    }
  }

  method BuildPostings(c: Conversion, scales: Scales) returns (r: Result<Postings>)
    ensures r == Built(c, scales)
  {
    if c.from == c.to { return Err(SameAsset); }
    var received := Receives(c, scales);
    if received.Err? { return Err(received.error); }
    if received.value.out <= 0 { return Err(InvalidAmount); }
    r := Ok([Posting(c.seller, c.soldTo, c.from, c.amount, false),
             Posting(c.boughtFrom, c.buyer, c.to, Some(received.value.out), false)]);
  }

  // what the keys of a conversion say, over whatever else is recorded
  function Stated(into: Metadata, rate: Rate, from: Asset, to: Asset): Metadata {
    into[RATE_KEY := Decimal(rate)][FROM_KEY := Named(from)][TO_KEY := Named(to)]
  }

  /** The rate and the two assets stand under the keys of a conversion, and everything else is kept. */
  lemma {:induction false} StatedReads(into: Metadata, rate: Rate, from: Asset, to: Asset)
    ensures var m := Stated(into, rate, from, to);
            && "giro/conversion.rate" in m && m["giro/conversion.rate"] == Decimal(rate)
            && "giro/conversion.from" in m && m["giro/conversion.from"] == Named(from)
            && "giro/conversion.to" in m && m["giro/conversion.to"] == Named(to)
            && forall k | k in into && k !in {"giro/conversion.rate", "giro/conversion.from", "giro/conversion.to"} ::
                 k in m && m[k] == into[k]
  {
    assert FROM_KEY != TO_KEY && RATE_KEY != FROM_KEY && RATE_KEY != TO_KEY by {
      assert RATE_KEY[16] == 'r' && FROM_KEY[16] == 'f' && TO_KEY[16] == 't';
    }
  }

  // ---------------------------------------------------------------- the check

  // what moved in one asset
  function MovedIn(p: Postings, a: Asset): int {
    if p == [] then 0 else MovedIn(p[..|p| - 1], a) + if p[|p| - 1].asset == a then p[|p| - 1].Moved() else 0
  }

  function AssetUnder(m: Metadata, key: string): Asset { if key in m && m[key].Named? then m[key].asset else Asset("") }

  function RateUnder(m: Metadata, key: string): Option<Rate> {
    if key in m && m[key].Decimal? then Some(m[key].rate) else None
  }

  function Abs(n: int): int { if n < 0 then -n else n }

  // a conversion of what the transaction sold, at the rate it states
  function Claimed(m: Metadata, p: Postings): Conversion {
    var from, to := AssetUnder(m, FROM_KEY), AssetUnder(m, TO_KEY);
    var nobody, sold := Address(""), Some(MovedIn(p, from));
    Conversion(from, nobody, nobody, to, nobody, nobody, sold, RateUnder(m, RATE_KEY))
  }

  // an asset named on both sides counts as sold only
  function BoughtIn(m: Metadata, p: Postings): int {
    if AssetUnder(m, TO_KEY) == AssetUnder(m, FROM_KEY) then 0 else MovedIn(p, AssetUnder(m, TO_KEY))
  }

  // whether what was recorded is what the stated rate says, to within the tolerance
  ghost predicate Agrees(m: Metadata, p: Postings, tolerance: int, scales: Scales) {
    RATE_KEY in m ==>
      && AssetUnder(m, FROM_KEY) != Asset("") && AssetUnder(m, TO_KEY) != Asset("")
      && MovedIn(p, AssetUnder(m, FROM_KEY)) != 0 && BoughtIn(m, p) != 0
      && Receipt(Claimed(m, p), scales).Ok?
      && Abs(BoughtIn(m, p) - Receipt(Claimed(m, p), scales).value.out) <= Abs(tolerance)
  }

  // what is said of an amount bought, by what should have been received
  function Judged(r: Result<Received>, bought: int, tolerance: int): Option<Failure> {
    match r
    case Err(e) => Some(e)
    case Ok(got) =>
      var t := if tolerance < 0 then 0 - tolerance else tolerance;
      if got.out - t <= bought <= got.out + t then None else Some(Rounding(got.out, bought))
  }

  // the rate and both assets read from their keys, both sums taken, and the one compared with what the other receives
  ghost predicate CheckedAs(m: Metadata, p: Postings, tolerance: int, scales: Scales, failure: Option<Failure>) {
    if "giro/conversion.rate" !in m then failure == None
    else
      var from, to := AssetUnder(m, "giro/conversion.from"), AssetUnder(m, "giro/conversion.to");
      if from == Asset("") || to == Asset("") then failure == Some(AssetsUnnamed)
      else if MovedIn(p, from) == 0 || from == to || MovedIn(p, to) == 0 then failure == Some(MovesNeither)
      else exists r :: Weighs(RateUnder(m, "giro/conversion.rate"), from, to, p, tolerance, scales, r, failure)
  }

  ghost predicate Weighs(rate: Option<Rate>, from: Asset, to: Asset, p: Postings, tolerance: int, scales: Scales,
                         r: Result<Received>, failure: Option<Failure>)
  {
    Receiving(Some(MovedIn(p, from)), rate, from, to, scales, r) && failure == Judged(r, MovedIn(p, to), tolerance)
  }

  /** What moved in an asset: the amounts of its postings, added up. */
  lemma {:induction false} MovedInAdds(p: Postings, q: Posting, a: Asset)
    ensures MovedIn([], a) == 0
    ensures MovedIn(p + [q], a) ==
            MovedIn(p, a) + if q.asset == a && q.amount.Some? then q.amount.value else 0
  {
    assert (p + [q])[..|p|] == p;
  }

  /** Accepts exactly the transactions that state no rate, or moved what the rate they state says. */
  method Check(m: Metadata, p: Postings, tolerance: int, scales: Scales) returns (failure: Option<Failure>)
    ensures failure.None? <==> Agrees(m, p, tolerance, scales)
    ensures CheckedAs(m, p, tolerance, scales, failure)
  {
    if RATE_KEY !in m { return None; }
    var from, to := AssetUnder(m, FROM_KEY), AssetUnder(m, TO_KEY);
    if from == Asset("") || to == Asset("") { return Some(AssetsUnnamed); }
    var sold, bought := SumSides(p, from, to);
    if sold == 0 || bought == 0 { return Some(MovesNeither); }
    var want := Receives(Claimed(m, p), scales);
    ReceiptExactly(Claimed(m, p), scales, want);
    if want.Err? {
      failure := Some(want.error);
    } else if Abs(bought - want.value.out) > Abs(tolerance) {
      failure := Some(Rounding(want.value.out, bought));
    } else {
      failure := None;
    }
    assert Weighs(RateUnder(m, RATE_KEY), from, to, p, tolerance, scales, want, failure);
  }

  // an asset on both sides counts as sold
  method SumSides(p: Postings, from: Asset, to: Asset) returns (sold: int, bought: int)
    ensures sold == MovedIn(p, from) && bought == if to == from then 0 else MovedIn(p, to)
  {
    sold, bought := 0, 0;
    for i := 0 to |p|
      invariant sold == MovedIn(p[..i], from)
      invariant bought == if to == from then 0 else MovedIn(p[..i], to)
    {
      assert p[..i + 1][..i] == p[..i];
      if p[i].asset == from {
        sold := sold + p[i].Moved();
      } else if p[i].asset == to {
        bought := bought + p[i].Moved();
      }
    }
    assert p[..|p|] == p;
  }

  // ---------------------------------------------------------------- what the check accepts

  // conversions between the same two assets at the same rate
  ghost predicate Bundle(cs: seq<Conversion>, rate: Rate, from: Asset, to: Asset, scales: Scales) {
    forall i | 0 <= i < |cs| ::
      cs[i].rate == Some(rate) && cs[i].from == from && cs[i].to == to && Built(cs[i], scales).Ok?
  }

  ghost function Together(cs: seq<Conversion>, scales: Scales): Postings {
    if cs == [] then []
    else
      var b := Built(cs[|cs| - 1], scales);
      Together(cs[..|cs| - 1], scales) + if b.Ok? then b.value else []
  }

  ghost function Amounts(cs: seq<Conversion>): (r: seq<int>)
    ensures |r| == |cs|
  {
    seq(|cs|, i requires 0 <= i < |cs| => if cs[i].amount.Some? then cs[i].amount.value else 0)
  }

  lemma {:induction false} MovedInPair(p: Postings, q: Posting, r: Posting, a: Asset)
    ensures MovedIn(p + [q, r], a) ==
            MovedIn(p, a) + (if q.asset == a then q.Moved() else 0) + (if r.asset == a then r.Moved() else 0)
  {
    var all := p + [q, r];
    assert all[..|all| - 1] == p + [q] && (p + [q])[..|p|] == p;
  }

  lemma {:induction false} TogetherMoves(cs: seq<Conversion>, rate: Rate, from: Asset, to: Asset, scales: Scales)
    requires Bundle(cs, rate, from, to, scales) && rate.den > 0 && from in scales && to in scales && from != to
    ensures MovedIn(Together(cs, scales), from) == Sum(Amounts(cs))
    ensures MovedIn(Together(cs, scales), to) == SumReceived(Amounts(cs), rate, Shift(scales, from, to))
  {
    if cs != [] {
      var l := |cs| - 1;
      TogetherMoves(cs[..l], rate, from, to, scales);
      var b := Built(cs[l], scales).value;
      assert Amounts(cs)[..l] == Amounts(cs[..l]);
      MovedInPair(Together(cs[..l], scales), b[0], b[1], from);
      MovedInPair(Together(cs[..l], scales), b[0], b[1], to);
      assert b == [b[0], b[1]];
    }
  }

  lemma {:induction false} BundlePositive(cs: seq<Conversion>, rate: Rate, from: Asset, to: Asset, scales: Scales)
    requires Bundle(cs, rate, from, to, scales) && cs != []
    ensures rate.Positive() && from in scales && to in scales && from != to
    ensures Sum(Amounts(cs)) > 0 && SumReceived(Amounts(cs), rate, Shift(scales, from, to)) > 0
  {
    var l := |cs| - 1;
    assert cs[l].rate == Some(rate);
    assert Amounts(cs)[..l] == Amounts(cs[..l]);
    if l > 0 { BundlePositive(cs[..l], rate, from, to, scales); } else { assert Amounts(cs)[..0] == []; }
  }

  /** A bundle of conversions at one rate agrees with that rate exactly when the whole units their dust
      adds up to are within the tolerance. */
  lemma {:induction false} BundleAgreesExactly(cs: seq<Conversion>, rate: Rate, from: Asset, to: Asset, scales: Scales,
                                               into: Metadata, tolerance: int)
    requires Bundle(cs, rate, from, to, scales) && cs != [] && from != Asset("") && to != Asset("")
    ensures rate.den > 0 && from in scales && to in scales
    ensures Agrees(Stated(into, rate, from, to), Together(cs, scales), tolerance, scales) <==>
              Dust(Amounts(cs), rate, Shift(scales, from, to)).Floor <= Abs(tolerance)
  {
    BundlePositive(cs, rate, from, to, scales);
    TogetherMoves(cs, rate, from, to, scales);
    DustAdds(Amounts(cs), rate, Shift(scales, from, to));
    SplittingLosesDust(Amounts(cs), rate, Shift(scales, from, to));
  }

  /** So any k of them agree to within k - 1 units. */
  lemma {:induction false} BundleAgrees(cs: seq<Conversion>, rate: Rate, from: Asset, to: Asset, scales: Scales,
                                        into: Metadata)
    requires Bundle(cs, rate, from, to, scales) && cs != [] && from != Asset("") && to != Asset("")
    ensures Agrees(Stated(into, rate, from, to), Together(cs, scales), |cs| - 1, scales)
  {
    BundleAgreesExactly(cs, rate, from, to, scales, into, |cs| - 1);
    DustAdds(Amounts(cs), rate, Shift(scales, from, to));
  }

  /** A conversion on its own agrees with the rate it states exactly. */
  lemma {:induction false} OwnAgrees(c: Conversion, scales: Scales, into: Metadata)
    requires Built(c, scales).Ok? && c.from != Asset("") && c.to != Asset("")
    ensures Agrees(Stated(into, c.rate.value, c.from, c.to), Built(c, scales).value, 0, scales)
  {
    assert [c][..0] == [];
    assert Together([c], scales) == [] + Built(c, scales).value == Built(c, scales).value;
    BundleAgrees([c], c.rate.value, c.from, c.to, scales, into);
  }

  // ---------------------------------------------------------------- the bound is reached

  lemma {:induction false} TenToDown(n: nat)
    ensures TenTo(0 - n) * PowTen(n) as real == 1.0
  {
    if n > 0 {
      TenToDown(n - 1);
      var t, p := TenTo(0 - (n - 1)), PowTen(n - 1);
      assert TenTo(0 - n) == t / 10.0 && PowTen(n) as real == 10.0 * p as real;
      assert (t / 10.0) * (10.0 * p as real) == t * p as real;
    }
  }

  // two units but for the smallest fraction there is, at par
  lemma {:induction false} AlmostTwo(n: nat)
    ensures var w, x := Worth(2 * PowTen(n) - 1, Rate(1, 1), 0 - n), TenTo(0 - n);
            w == 2.0 - x && x * PowTen(n) as real == 1.0 && x > 0.0 && (n > 0 ==> w.Floor == 1)
  {
    var p, x := PowTen(n), TenTo(0 - n);
    TenToDown(n);
    assert x <= 0.0 ==> x * p as real <= 0.0;
    assert (2 * p - 1) as real == 2.0 * p as real - 1.0;
    assert (2.0 * p as real - 1.0) * x == 2.0 * (x * p as real) - x;
    assert n > 0 && x > 1.0 ==> x * p as real > p as real;
  }

  ghost function Copies(a: int, k: nat): (r: seq<int>)
    ensures |r| == k && forall i | 0 <= i < k :: r[i] == a
  {
    seq(k, i requires 0 <= i < k => a)
  }

  lemma {:induction false} DustOfCopies(a: int, k: nat, rate: Rate, shift: int)
    requires rate.den > 0
    ensures var w := Worth(a, rate, shift); Dust(Copies(a, k), rate, shift) == k as real * (w - w.Floor as real)
  {
    var f := Worth(a, rate, shift) - Worth(a, rate, shift).Floor as real;
    if k > 0 {
      DustOfCopies(a, k - 1, rate, shift);
      assert Copies(a, k)[..k - 1] == Copies(a, k - 1);
      assert k as real * f == (k - 1) as real * f + f;
    }
  }

  // k fractions that each fall short of a unit by one part in more than k leave k - 1 units
  lemma {:induction false} ShortOfUnits(k: nat, x: real, p: int)
    requires 0 < k <= p && x > 0.0 && x * p as real == 1.0
    ensures (k as real * (1.0 - x)).Floor == k - 1
  {
    assert k as real * (1.0 - x) == k as real - k as real * x;
    assert k as real * x > 0.0;
    assert k as real * x <= p as real * x;
  }

  lemma {:induction false} CopiesLeave(k: nat)
    requires k > 0
    ensures Dust(Copies(2 * PowTen(k) - 1, k), Rate(1, 1), 0 - k).Floor == k - 1
  {
    AlmostTwo(k);
    DustOfCopies(2 * PowTen(k) - 1, k, Rate(1, 1), 0 - k);
    ShortOfUnits(k, TenTo(0 - k), PowTen(k));
  }

  const FINE := Asset("A")
  const UNITS := Asset("BB")

  // selling just short of two units of an asset k places finer, at par
  function AlmostTwoUnits(k: nat): Conversion {
    Conversion(FINE, WORLD, WORLD, UNITS, WORLD, WORLD, Some(2 * PowTen(k) - 1), Some(Rate(1, 1)))
  }

  lemma {:induction false} AlmostTwoBuilds(k: nat)
    requires k > 0
    ensures FINE != UNITS && Built(AlmostTwoUnits(k), map[FINE := k, UNITS := 0]).Ok?
  {
    AlmostTwo(k);
    assert |"A"| != |"BB"|;
  }

  /** For every k there is a bundle of k honest conversions that agrees with its rate exactly at the
      tolerances of k - 1 and more. */
  lemma {:induction false} BoundIsReached(k: nat) returns (cs: seq<Conversion>, scales: Scales)
    requires k > 0
    ensures |cs| == k && Bundle(cs, Rate(1, 1), FINE, UNITS, scales)
    ensures forall tolerance: int ::
              Agrees(Stated(map[], Rate(1, 1), FINE, UNITS), Together(cs, scales), tolerance, scales) <==>
                k - 1 <= Abs(tolerance)
  {
    scales := map[FINE := k, UNITS := 0];
    cs := seq(k, i => AlmostTwoUnits(k));
    AlmostTwoBuilds(k);
    CopiesLeave(k);
    assert Amounts(cs) == Copies(2 * PowTen(k) - 1, k);
    forall tolerance: int
      ensures Agrees(Stated(map[], Rate(1, 1), FINE, UNITS), Together(cs, scales), tolerance, scales) <==>
                k - 1 <= Abs(tolerance)
    {
      BundleAgreesExactly(cs, Rate(1, 1), FINE, UNITS, scales, map[], tolerance);
    }
  }

  const DEFAULT_TOLERANCE := 1

  /** The default tolerance of one unit accepts every bundle of two, and a bundle of any number exactly
      when its dust stays below two units; three honest conversions can exceed that. */
  lemma {:induction false} DefaultToleranceCoversTwo(cs: seq<Conversion>, rate: Rate, from: Asset, to: Asset,
                                                     scales: Scales, into: Metadata)
    requires Bundle(cs, rate, from, to, scales) && cs != [] && from != Asset("") && to != Asset("")
    ensures rate.den > 0 && from in scales && to in scales
    ensures Agrees(Stated(into, rate, from, to), Together(cs, scales), DEFAULT_TOLERANCE, scales) <==>
              Dust(Amounts(cs), rate, Shift(scales, from, to)) < 2.0
    ensures |cs| <= 2 ==> Agrees(Stated(into, rate, from, to), Together(cs, scales), DEFAULT_TOLERANCE, scales)
  {
    BundleAgreesExactly(cs, rate, from, to, scales, into, DEFAULT_TOLERANCE);
    DustAdds(Amounts(cs), rate, Shift(scales, from, to));
  }

  lemma {:induction false} ThreeCanExceedIt() returns (cs: seq<Conversion>, scales: Scales)
    ensures |cs| == 3 && Bundle(cs, Rate(1, 1), FINE, UNITS, scales)
    ensures !Agrees(Stated(map[], Rate(1, 1), FINE, UNITS), Together(cs, scales), DEFAULT_TOLERANCE, scales)
  {
    cs, scales := BoundIsReached(3);
  }
}
