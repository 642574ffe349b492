/** The position list of the application root: code normalisation for quote
    lookups, add-or-merge, delete by id, and the two aggregates recomputed
    from the list after every change. */
module Ledger {
  import opened Wrappers
  import opened Seqs
  import opened JsString
  import opened Types

  // ---------------------------------------------------------------------------
  // Code normalisation for quote lookups

  /** The lookup form of a stock code: when the code holds exactly six ASCII
      digits, those digits behind "sh" (first digit 6, 9 or 5) or "sz"
      (any other first digit), whatever letters surrounded them; otherwise the
      lower-cased code. */
  function FormatSinaCode(code: string): (r: string)
    ensures |AsciiDigits(code)| == 6 ==>
      |r| == 8 && r[2..] == AsciiDigits(code) && (r[..2] == "sh" || r[..2] == "sz") &&
      (r[..2] == "sh" <==> AsciiDigits(code)[0] in "695")
    ensures |AsciiDigits(code)| != 6 ==> r == ToLower(code)
  {
    var c := AsciiDigits(code);
    if |c| != 6 then ToLower(code)
    else if c[0] == '6' || c[0] == '9' || c[0] == '5' then "sh" + c
    else "sz" + c
  }

  /** A string made only of ASCII digits is its own digit strip. */
  lemma AsciiDigitsOfDigits(s: string)
    requires AllAsciiDigits(s)
    ensures AsciiDigits(s) == s
  {
    FilterKeepsAll(s, IsAsciiDigit);
  }

  /** The digits of an exchange-prefixed digit string are the digits. */
  lemma AsciiDigitsOfPrefixed(p: string, c: string)
    requires p == "sh" || p == "sz"
    requires AllAsciiDigits(c)
    ensures AsciiDigits(p + c) == c
  {
    FilterConcat(p, c, IsAsciiDigit);
    AsciiDigitsOfDigits(c);
    assert Filter(p, IsAsciiDigit) == [];
  }

  /** Normalising a normalised code changes nothing. */
  lemma FormatSinaCodeIdempotent(code: string)
    ensures FormatSinaCode(FormatSinaCode(code)) == FormatSinaCode(code)
  {
    var c := AsciiDigits(code);
    var r := FormatSinaCode(code);
    if |c| == 6 {
      assert r == r[..2] + c;
      AsciiDigitsOfPrefixed(r[..2], c);
    } else {
      AsciiDigitsOfLower(code);
      ToLowerIdempotent(code);
    }
  }

  /** Six digits starting with 6, 9 or 5 are a Shanghai code, any other six
      digits a Shenzhen code ("600519" gives "sh600519", "000001" gives "sz000001"). */
  lemma FormatSinaCodeOfDigits(d: string)
    requires |d| == 6 && AllAsciiDigits(d)
    ensures FormatSinaCode(d) == (if d[0] in "695" then "sh" else "sz") + d
  {
    AsciiDigitsOfDigits(d);
  }

  /** A code already carrying the exchange prefix its digits call for is kept
      ("sh600519" stays "sh600519"). */
  lemma FormatSinaCodeKeepsMatchingPrefix(d: string)
    requires |d| == 6 && AllAsciiDigits(d)
    ensures var p := if d[0] in "695" then "sh" else "sz"; FormatSinaCode(p + d) == p + d
  {
    var p := if d[0] in "695" then "sh" else "sz";
    AsciiDigitsOfPrefixed(p, d);
  }

  /** The source's own comment says a code that already carries an exchange
      prefix is left alone; the code re-derives the prefix from the digits, so
      a Shanghai code whose digits do not start with 6, 9 or 5 (the index
      "sh000001") is looked up under the Shenzhen prefix ("sz000001"). */
  lemma FormatSinaCodeReprefixes(d: string)
    requires |d| == 6 && AllAsciiDigits(d) && d[0] !in "695"
    ensures FormatSinaCode("sh" + d) == "sz" + d
  {
    AsciiDigitsOfPrefixed("sh", d);
  }

  /** The code starts with an exchange prefix. */
  predicate HasExchangePrefix(s: string) {
    |s| >= 2 && (s[..2] == "sh" || s[..2] == "sz")
  }

  /** The normaliser as its comment describes it: a code that already carries
      an exchange prefix (in either case) is only lower-cased. */
  function FormatSinaCodeIntended(code: string): (r: string)
    ensures HasExchangePrefix(ToLower(code)) ==> r == ToLower(code)
  {
    if HasExchangePrefix(ToLower(code)) then ToLower(code) else FormatSinaCode(code)
  }

  /** The corrected normaliser keeps the prefix it is given ("sh000001" stays
      "sh000001"). */
  lemma FormatSinaCodeIntendedKeepsPrefix(p: string, d: string)
    requires p == "sh" || p == "sz"
    requires AllAsciiDigits(d)
    ensures FormatSinaCodeIntended(p + d) == p + d
  {
    var s := p + d;
    forall i | 0 <= i < |s| ensures ToLowerChar(s[i]) == s[i] {
      if i >= 2 { assert s[i] == d[i - 2]; }
    }
    assert ToLower(s) == s;
    assert s[..2] == p;
  }

  /** On codes without a prefix the corrected normaliser agrees with the
      original one, and it is idempotent too. */
  lemma FormatSinaCodeIntendedIdempotent(code: string)
    ensures FormatSinaCodeIntended(FormatSinaCodeIntended(code)) == FormatSinaCodeIntended(code)
  {
    var l := ToLower(code);
    ToLowerIdempotent(code);
    if !HasExchangePrefix(l) {
      var r := FormatSinaCode(code);
      FormatSinaCodeIdempotent(code);
      if |AsciiDigits(code)| == 6 {
        assert ToLower(r) == r by {
          assert r == r[..2] + r[2..];
          forall i | 0 <= i < |r| ensures ToLowerChar(r[i]) == r[i] {
            if i >= 2 { assert IsAsciiDigit(r[2..][i - 2]); }
          }
        }
      }
    }
  }

  // ---------------------------------------------------------------------------
  // Add or merge

  /** `findIndex` on the code: the first position holding `code`, if any. */
  function FindIndex(s: seq<Asset>, code: string): (r: Option<nat>)
    ensures r.Some? ==> r.value < |s| && s[r.value].code == code
    ensures r.Some? ==> forall j :: 0 <= j < r.value ==> s[j].code != code
    ensures r.None? ==> forall j :: 0 <= j < |s| ==> s[j].code != code
  {
    if s == [] then None
    else if s[0].code == code then Some(0)
    else match FindIndex(s[1..], code)
      case None => None
      case Some(i) => Some(i + 1)
  }

  /** The merge of `data` into an existing position does not divide by a zero
      total quantity. */
  predicate MergeDefined(prev: seq<Asset>, data: NewAsset) {
    var k := FindIndex(prev, data.code);
    k.Some? ==> prev[k.value].quantity + data.quantity != 0.0
  }

  /** A repeat buy merged into position `e`: quantities add, the cost becomes
      the quantity-weighted mean, price and name are overwritten. */
  function Merge(e: Asset, d: NewAsset): (r: Asset)
    requires e.quantity + d.quantity != 0.0
    ensures r.quantity == e.quantity + d.quantity
    ensures r.currentPrice == d.currentPrice && r.name == d.name
    ensures r.id == e.id && r.code == e.code && r.change == e.change
    ensures r.kind == e.kind && r.icon == e.icon
  {
    var totalQuantity := e.quantity + d.quantity;
    var totalCostVal := e.quantity * e.cost + d.quantity * d.cost;
    e.(quantity := totalQuantity,
       cost := totalCostVal / totalQuantity,
       currentPrice := d.currentPrice,
       value := totalQuantity * d.currentPrice,
       name := d.name)
  }

  /** The merged position carries the combined cost basis and is valued at
      the new price. */
  lemma MergeCostBasis(e: Asset, d: NewAsset)
    requires e.quantity + d.quantity != 0.0
    ensures var r := Merge(e, d);
      r.cost * r.quantity == e.quantity * e.cost + d.quantity * d.cost &&
      r.value == r.quantity * r.currentPrice
  {
    var q := e.quantity + d.quantity;
    var t := e.quantity * e.cost + d.quantity * d.cost;
    assert (t / q) * q == t;
  }

  /** With two positive lots, the merged cost lies between the two costs. */
  lemma MergedCostBetween(e: Asset, d: NewAsset)
    requires e.quantity > 0.0 && d.quantity > 0.0
    ensures var c := Merge(e, d).cost;
      (c >= e.cost || c >= d.cost) && (c <= e.cost || c <= d.cost)
  {
    var q := e.quantity + d.quantity;
    var c := Merge(e, d).cost;
    MergeCostBasis(e, d);
    assert c * q == e.quantity * e.cost + d.quantity * d.cost;
    var x1, x2 := (c - e.cost) * e.quantity, (c - d.cost) * d.quantity;
    assert x1 + x2 == 0.0;
    MulSign(c - e.cost, e.quantity);
    MulSign(c - d.cost, d.quantity);
    assert c < e.cost ==> x1 < 0.0;
    assert c > e.cost ==> x1 > 0.0;
    assert c < d.cost ==> x2 < 0.0;
    assert c > d.cost ==> x2 > 0.0;
  }

  lemma MulSign(x: real, y: real)
    requires y > 0.0
    ensures x < 0.0 ==> x * y < 0.0
    ensures x > 0.0 ==> x * y > 0.0
  {
  }

  /** A first buy of a code: a fresh stock position with no change yet. */
  function NewPosition(d: NewAsset, newId: string): Asset {
    Asset(newId, d.name, d.code, d.quantity, d.cost, d.currentPrice,
          d.quantity * d.currentPrice, 0.0, "stock", "analytics")
  }

  /** `addAsset`'s update of the list: merge into the first position with the
      same code, or put a new position in front. */
  function AddAsset(prev: seq<Asset>, data: NewAsset, newId: string): (r: seq<Asset>)
    requires MergeDefined(prev, data)
    ensures FindIndex(prev, data.code).Some? ==>
      var i := FindIndex(prev, data.code).value;
      |r| == |prev| && r[i] == Merge(prev[i], data) &&
      forall j :: 0 <= j < |prev| && j != i ==> r[j] == prev[j]
    ensures FindIndex(prev, data.code).None? ==>
      |r| == |prev| + 1 && r[1..] == prev &&
      r[0].id == newId && r[0].name == data.name && r[0].code == data.code &&
      r[0].quantity == data.quantity && r[0].cost == data.cost &&
      r[0].currentPrice == data.currentPrice && r[0].value == data.quantity * data.currentPrice &&
      r[0].change == 0.0 && r[0].kind == "stock" && r[0].icon == "analytics"
  {
    match FindIndex(prev, data.code)
    case Some(i) => prev[i := Merge(prev[i], data)]
    case None => [NewPosition(data, newId)] + prev
  }

  /** No two positions share a code. */
  predicate CodesDistinct(s: seq<Asset>) {
    forall i, j :: 0 <= i < j < |s| ==> s[i].code != s[j].code
  }

  /** Adding keeps the codes pairwise distinct. */
  lemma AddAssetKeepsCodesDistinct(prev: seq<Asset>, data: NewAsset, newId: string)
    requires MergeDefined(prev, data) && CodesDistinct(prev)
    ensures CodesDistinct(AddAsset(prev, data, newId))
  {
    var r := AddAsset(prev, data, newId);
    if FindIndex(prev, data.code).Some? {
      assert forall j :: 0 <= j < |r| ==> r[j].code == prev[j].code;
    } else {
      forall i, j | 0 <= i < j < |r| ensures r[i].code != r[j].code {
        assert r[j] == prev[j - 1];
        if i > 0 { assert r[i] == prev[i - 1]; }
      }
    }
  }

  /** After an add the code is held, so a second add of it merges. */
  lemma AddAssetHoldsCode(prev: seq<Asset>, data: NewAsset, newId: string)
    requires MergeDefined(prev, data)
    ensures FindIndex(AddAsset(prev, data, newId), data.code).Some?
  {
    var r := AddAsset(prev, data, newId);
    match FindIndex(prev, data.code)
    case Some(i) => assert r[i].code == data.code;
    case None => assert r[0].code == data.code;
  }

  // ---------------------------------------------------------------------------
  // Delete

  function KeepIdNot(id: string): Asset -> bool {
    (a: Asset) => a.id != id
  }

  function WithId(id: string): Asset -> bool {
    (a: Asset) => a.id == id
  }

  /** `deleteAsset`'s update: the positions whose id differs, in order. */
  function DeleteAsset(assets: seq<Asset>, id: string): (r: seq<Asset>)
    ensures forall k :: 0 <= k < |r| ==> r[k].id != id && r[k] in assets
    ensures forall a :: a in assets && a.id != id ==> a in r
  {
    var r := Filter(assets, KeepIdNot(id));
    FilterMembers(assets, KeepIdNot(id));
    assert forall k :: 0 <= k < |r| ==> r[k] in r;
    r
  }

  /** Deleting an id that no position has changes nothing. */
  lemma DeleteAbsentIsNoop(assets: seq<Asset>, id: string)
    requires forall k :: 0 <= k < |assets| ==> assets[k].id != id
    ensures DeleteAsset(assets, id) == assets
  {
    FilterKeepsAll(assets, KeepIdNot(id));
  }

  /** Deleting twice is deleting once. */
  lemma DeleteIdempotent(assets: seq<Asset>, id: string)
    ensures DeleteAsset(DeleteAsset(assets, id), id) == DeleteAsset(assets, id)
  {
    FilterIdempotent(assets, KeepIdNot(id));
  }

  /** Deleting keeps the relative order: it distributes over concatenation. */
  lemma DeleteKeepsOrder(a: seq<Asset>, b: seq<Asset>, id: string)
    ensures DeleteAsset(a + b, id) == DeleteAsset(a, id) + DeleteAsset(b, id)
  {
    FilterConcat(a, b, KeepIdNot(id));
  }

  // ---------------------------------------------------------------------------
  // Aggregates

  function PositionValue(a: Asset): real {
    a.quantity * a.currentPrice
  }

  /** `companyFunds`: the `reduce` of `quantity * currentPrice` from 0, so an
      empty list is worth nothing and a single position is worth its value. */
  function TotalValue(s: seq<Asset>): (r: real)
    ensures s == [] ==> r == 0.0
    ensures |s| == 1 ==> r == PositionValue(s[0])
  {
    if s == [] then 0.0 else TotalValue(s[..|s| - 1]) + PositionValue(s[|s| - 1])
  }

  /** No position has a negative quantity or a negative price. */
  predicate NoShortHoldings(s: seq<Asset>) {
    forall k :: 0 <= k < |s| ==> s[k].quantity >= 0.0 && s[k].currentPrice >= 0.0
  }

  /** Holdings with no negative quantity or price are worth at least nothing. */
  lemma {:induction false} TotalValueNonNegative(s: seq<Asset>)
    requires NoShortHoldings(s)
    ensures TotalValue(s) >= 0.0
  {
    if s != [] {
      var s' := s[..|s| - 1];
      assert NoShortHoldings(s') by {
        forall k | 0 <= k < |s'| ensures s'[k].quantity >= 0.0 && s'[k].currentPrice >= 0.0 {
          assert s'[k] == s[k];
        }
      }
      TotalValueNonNegative(s');
      var x := s[|s| - 1];
      assert x.quantity >= 0.0 && x.currentPrice >= 0.0;
      assert PositionValue(x) >= 0.0;
    }
  }

  /** Every change percentage leaves a non-zero divisor `1 + change/100`. */
  predicate Priceable(s: seq<Asset>) {
    forall k :: 0 <= k < |s| ==> s[k].change != -100.0
  }

  /** One position's gain since the previous close, the close being recovered
      from the price and the stored percentage. */
  function PositionProfit(a: Asset): (p: real)
    requires a.change != -100.0
    ensures a.change == 0.0 ==> p == 0.0
  {
    var lastClose := a.currentPrice / (1.0 + a.change / 100.0);
    (a.currentPrice - lastClose) * a.quantity
  }

  /** The recovered-close formula equals `q * p * c / (100 + c)`. */
  lemma PositionProfitClosedForm(a: Asset)
    requires a.change != -100.0
    ensures PositionProfit(a) * (100.0 + a.change) == a.quantity * a.currentPrice * a.change
  {
    var p, c, q := a.currentPrice, a.change, a.quantity;
    var d := 1.0 + c / 100.0;
    assert d * 100.0 == 100.0 + c;
    var lastClose := p / d;
    assert lastClose * d == p;
    assert lastClose * (100.0 + c) == 100.0 * p;
    calc {
      PositionProfit(a) * (100.0 + c);
      (p - lastClose) * q * (100.0 + c);
      q * (p * (100.0 + c) - lastClose * (100.0 + c));
      q * (p * (100.0 + c) - 100.0 * p);
      q * p * c;
    }
  }

  /** `dailyProfit`: the `reduce` of the per-position gains from 0. A day on
      which no position has moved brings no profit. */
  function TotalProfit(s: seq<Asset>): (r: real)
    requires Priceable(s)
    ensures (forall k :: 0 <= k < |s| ==> s[k].change == 0.0) ==> r == 0.0
  {
    if s == [] then 0.0 else TotalProfit(s[..|s| - 1]) + PositionProfit(s[|s| - 1])
  }

  lemma {:induction false} TotalValueConcat(a: seq<Asset>, b: seq<Asset>)
    ensures TotalValue(a + b) == TotalValue(a) + TotalValue(b)
    decreases |b|
  {
    if b == [] {
      assert a + b == a;
    } else {
      var b' := b[..|b| - 1];
      assert (a + b)[..|a + b| - 1] == a + b';
      TotalValueConcat(a, b');
    }
  }

  lemma {:induction false} TotalProfitConcat(a: seq<Asset>, b: seq<Asset>)
    requires Priceable(a) && Priceable(b)
    ensures Priceable(a + b)
    ensures TotalProfit(a + b) == TotalProfit(a) + TotalProfit(b)
    decreases |b|
  {
    if b == [] {
      assert a + b == a;
    } else {
      var b' := b[..|b| - 1];
      assert (a + b)[..|a + b| - 1] == a + b';
      TotalProfitConcat(a, b');
    }
  }

  /** Replacing one position changes the total by the difference of the two values. */
  lemma TotalValueUpdate(s: seq<Asset>, i: nat, x: Asset)
    requires i < |s|
    ensures TotalValue(s[i := x]) == TotalValue(s) - PositionValue(s[i]) + PositionValue(x)
  {
    var u := s[i := x];
    assert s == s[..i] + [s[i]] + s[i + 1..];
    assert u == s[..i] + [x] + s[i + 1..];
    TotalValueConcat(s[..i] + [s[i]], s[i + 1..]);
    TotalValueConcat(s[..i], [s[i]]);
    TotalValueConcat(s[..i] + [x], s[i + 1..]);
    TotalValueConcat(s[..i], [x]);
    assert TotalValue([x]) == PositionValue(x) by { assert [x][..0] == []; }
    assert TotalValue([s[i]]) == PositionValue(s[i]) by { assert [s[i]][..0] == []; }
  }

  /** How an add moves the company funds: a merge replaces the old position's
      value by the merged quantity at the new price; a new code adds its value. */
  lemma TotalValueAfterAdd(prev: seq<Asset>, data: NewAsset, newId: string)
    requires MergeDefined(prev, data)
    ensures var k := FindIndex(prev, data.code);
      k.Some? ==>
        TotalValue(AddAsset(prev, data, newId)) ==
        TotalValue(prev) - PositionValue(prev[k.value]) + (prev[k.value].quantity + data.quantity) * data.currentPrice
    ensures FindIndex(prev, data.code).None? ==>
      TotalValue(AddAsset(prev, data, newId)) == data.quantity * data.currentPrice + TotalValue(prev)
  {
    var k := FindIndex(prev, data.code);
    if k.Some? {
      TotalValueAfterMerge(prev, data, newId);
    } else {
      AddAssetPrepends(prev, data, newId);
      TotalValueCons(NewPosition(data, newId), prev);
    }
  }

  lemma TotalValueAfterMerge(prev: seq<Asset>, data: NewAsset, newId: string)
    requires MergeDefined(prev, data) && FindIndex(prev, data.code).Some?
    ensures var i := FindIndex(prev, data.code).value;
      TotalValue(AddAsset(prev, data, newId)) ==
        TotalValue(prev) - PositionValue(prev[i]) + (prev[i].quantity + data.quantity) * data.currentPrice
  {
    var i := FindIndex(prev, data.code).value;
    var m := Merge(prev[i], data);
    var v := (prev[i].quantity + data.quantity) * data.currentPrice;
    AddAssetReplaces(prev, data, newId);
    assert AddAsset(prev, data, newId) == prev[i := m];
    MergedValue(prev[i], data);
    assert PositionValue(m) == v;
    TotalValueReplace(prev, i, m, v);
  }

  lemma TotalValueReplace(s: seq<Asset>, i: nat, x: Asset, v: real)
    requires i < |s| && PositionValue(x) == v
    ensures TotalValue(s[i := x]) == TotalValue(s) - PositionValue(s[i]) + v
  {
    TotalValueUpdate(s, i, x);
  }

  lemma AddAssetReplaces(prev: seq<Asset>, data: NewAsset, newId: string)
    requires MergeDefined(prev, data) && FindIndex(prev, data.code).Some?
    ensures var i := FindIndex(prev, data.code).value;
      AddAsset(prev, data, newId) == prev[i := Merge(prev[i], data)]
  {
  }

  lemma AddAssetPrepends(prev: seq<Asset>, data: NewAsset, newId: string)
    requires MergeDefined(prev, data) && FindIndex(prev, data.code).None?
    ensures AddAsset(prev, data, newId) == [NewPosition(data, newId)] + prev
  {
  }

  lemma MergedValue(e: Asset, d: NewAsset)
    requires e.quantity + d.quantity != 0.0
    ensures PositionValue(Merge(e, d)) == (e.quantity + d.quantity) * d.currentPrice
  {
  }

  lemma TotalValueCons(x: Asset, s: seq<Asset>)
    ensures TotalValue([x] + s) == PositionValue(x) + TotalValue(s)
  {
    TotalValueConcat([x], s);
    assert [x][..0] == [];
  }

  /** A new code enters with no change, so it leaves the daily profit as it was. */
  lemma TotalProfitAfterNewCode(prev: seq<Asset>, data: NewAsset, newId: string)
    requires MergeDefined(prev, data) && Priceable(prev)
    requires FindIndex(prev, data.code).None?
    ensures Priceable(AddAsset(prev, data, newId))
    ensures TotalProfit(AddAsset(prev, data, newId)) == TotalProfit(prev)
  {
    var r := AddAsset(prev, data, newId);
    assert r == [r[0]] + prev;
    TotalProfitConcat([r[0]], prev);
    assert TotalProfit([r[0]]) == PositionProfit(r[0]) by { assert [r[0]][..0] == []; }
  }

  /** Deleting removes exactly the value of the positions with that id. */
  lemma {:induction false} TotalValueAfterDelete(s: seq<Asset>, id: string)
    ensures TotalValue(DeleteAsset(s, id)) == TotalValue(s) - TotalValue(Filter(s, WithId(id)))
  {
    if s != [] {
      TotalValueAfterDelete(s[1..], id);
      var h := [s[0]];
      assert s == h + s[1..];
      FilterConcat(h, s[1..], KeepIdNot(id));
      FilterConcat(h, s[1..], WithId(id));
      TotalValueConcat(h, s[1..]);
      TotalValueConcat(Filter(h, KeepIdNot(id)), Filter(s[1..], KeepIdNot(id)));
      TotalValueConcat(Filter(h, WithId(id)), Filter(s[1..], WithId(id)));
      assert TotalValue(h) == PositionValue(s[0]) by { assert h[..0] == []; }
      if s[0].id == id {
        assert Filter(h, KeepIdNot(id)) == [];
        assert Filter(h, WithId(id)) == h;
      } else {
        assert Filter(h, KeepIdNot(id)) == h;
        assert Filter(h, WithId(id)) == [];
      }
    }
  }
}
