/** The holdings screen: the add form with its code lookup, the edit and
    add toggles, and the profit figures it shows per position. */
module Portfolio {
  import opened Wrappers
  import opened JsString
  import opened JsNumber
  import opened Types
  import Ledger

  // ---------------------------------------------------------------------------
  // Code lookup

  /** `/^\d{6}$/`: exactly six ASCII digits. */
  predicate IsSixDigits(s: string) {
    |s| == 6 && AllAsciiDigits(s)
  }

  /** The code the add form stores: the trimmed input, behind "sh" (first
      digit 6, 5 or 9) or "sz" (other first digit) when it is six digits. */
  function FormatCode(code: string): (r: string)
    ensures IsSixDigits(Trim(code)) ==>
      |r| == 8 && r[2..] == Trim(code) && (r[..2] == "sh" || r[..2] == "sz") &&
      (r[..2] == "sh" <==> Trim(code)[0] in "659")
    ensures !IsSixDigits(Trim(code)) ==> r == Trim(code)
  {
    var finalCode := Trim(code);
    if IsSixDigits(finalCode) then
      if finalCode[0] == '6' || finalCode[0] == '5' || finalCode[0] == '9' then "sh" + finalCode
      else "sz" + finalCode
    else finalCode
  }

  /** Formatting a formatted code changes nothing. */
  lemma FormatCodeIdempotent(code: string)
    ensures FormatCode(FormatCode(code)) == FormatCode(code)
  {
    var t := Trim(code);
    var r := FormatCode(code);
    if IsSixDigits(t) {
      assert r[..2][0] == 's' && r[2..][5] == t[5];
      assert IsAsciiDigit(t[5]);
      FormattedIsFixed(r);
    } else {
      TrimIdempotent(code);
    }
  }

  lemma FormattedIsFixed(r: string)
    requires |r| == 8 && r[0] == 's' && IsAsciiDigit(r[7])
    ensures FormatCode(r) == r
  {
    assert !IsWhiteSpace(r[0]) && !IsWhiteSpace(r[|r| - 1]);
    TrimmedIsFixed(r);
    assert !IsSixDigits(Trim(r));
  }

  /** A six-digit entry is stored in the form the quote loop looks it up
      under: normalising the stored code for the request, as written or
      corrected, changes nothing. */
  lemma StoredCodeIsLookupCode(code: string)
    requires IsSixDigits(Trim(code))
    ensures Ledger.FormatSinaCode(FormatCode(code)) == FormatCode(code)
    ensures Ledger.FormatSinaCodeIntended(FormatCode(code)) == FormatCode(code)
  {
    var t := Trim(code);
    Ledger.FormatSinaCodeKeepsMatchingPrefix(t);
    Ledger.FormatSinaCodeIntendedKeepsPrefix(if t[0] in "659" then "sh" else "sz", t);
  }

  /** What a lookup found: field 0 as name, field 3 through `parseFloat`
      (`None` for `NaN`), and the code it used. */
  datatype StockInfo = StockInfo(name: string, currentPrice: Option<real>, formattedCode: string)

  /** Reads a lookup answer: `None` without `="` or with fewer than four comma
      fields after it. */
  function ParseStockResponse(text: string, finalCode: string): (r: Option<StockInfo>)
    ensures r.Some? <==> Contains(text, "=\"") && |Split(Split(text, "=\"")[1], ",")| >= 4
    ensures r.Some? ==> r.value.formattedCode == finalCode
  {
    if !Contains(text, "=\"") then None
    else
      var content := Split(text, "=\"")[1];
      var parts := Split(content, ",");
      if |parts| < 4 then None
      else Some(StockInfo(parts[0], ParseFloat(parts[3]), finalCode))
  }

  /** `fetchStockInfo`: `response` is the decoded answer to the request for
      the formatted code, `None` when the request failed. */
  function FetchStockInfo(code: string, response: Option<string>): (r: Option<StockInfo>)
    ensures response.None? ==> r.None?
    ensures r.Some? ==> r.value.formattedCode == FormatCode(code)
  {
    match response
    case None => None
    case Some(text) => ParseStockResponse(text, FormatCode(code))
  }

  /** No field of an answer holds a comma, an equals sign or a double quote. */
  predicate PlainAnswerFields(fields: seq<string>) {
    forall k :: 0 <= k < |fields| ==> ',' !in fields[k] && '=' !in fields[k] && '"' !in fields[k]
  }

  /** Reading a well-formed Sina answer (`head` is `var hq_str_` and the
      code, which hold no `=`), its price written as a decimal literal, gives
      back its name and price. */
  lemma FetchSinaAnswer(code: string, head: string, name: string, open: string, lastClose: string,
                        price: Decimal, more: seq<string>)
    requires ValidDecimal(price)
    requires '=' !in head && |more| >= 1
    requires PlainAnswerFields([name, open, lastClose, DecimalText(price)] + more)
    ensures FetchStockInfo(code, Some(head + "=\"" + (Join([name, open, lastClose, DecimalText(price)] + more, ",") + "\";")))
      == Some(StockInfo(name, Some(DecimalValue(price)), FormatCode(code)))
  {
    var fields := [name, open, lastClose, DecimalText(price)] + more;
    var text := head + "=\"" + (Join(fields, ",") + "\";");
    AnswerParts(head, fields);
    ParseFloatOfDecimalText(price);
    FetchOfParts(code, text, Split(Split(text, "=\"")[1], ","));
  }

  /** The content of a Sina answer splits into its fields, the last one
      followed by the closing `";`. */
  lemma AnswerParts(head: string, fields: seq<string>)
    requires '=' !in head && |fields| >= 5 && PlainAnswerFields(fields)
    ensures var text := head + "=\"" + (Join(fields, ",") + "\";");
      Contains(text, "=\"") &&
      var parts := Split(Split(text, "=\"")[1], ",");
      |parts| == |fields| && parts[0] == fields[0] && parts[3] == fields[3]
  {
    var b := Join(fields, ",") + "\";";
    assert '=' !in b by { JoinLacks(fields, '=', ','); }
    AnswerContent(head, b);
    SplitJoinTail(fields, ',', "\";");
  }

  /** A fetched answer whose content splits into at least four fields reads as
      fields 0 and 3, under the formatted code. */
  lemma FetchOfParts(code: string, text: string, parts: seq<string>)
    requires Contains(text, "=\"") && Split(Split(text, "=\"")[1], ",") == parts && |parts| >= 4
    ensures FetchStockInfo(code, Some(text)) == Some(StockInfo(parts[0], ParseFloat(parts[3]), FormatCode(code)))
  {
    ParseStockResponseOf(text, FormatCode(code), parts);
  }

  /** The text after the first `="` of an answer whose head and body lack `=`. */
  lemma AnswerContent(pre: string, b: string)
    requires '=' !in pre && '=' !in b
    ensures Contains(pre + "=\"" + b, "=\"") && Split(pre + "=\"" + b, "=\"")[1] == b
  {
    SplitAfterFirst(pre, "=\"", b);
    NoOccurrenceOfHead(b, "=\"");
  }

  /** An answer whose content splits into at least four fields reads as
      fields 0 and 3. */
  lemma ParseStockResponseOf(text: string, finalCode: string, parts: seq<string>)
    requires Contains(text, "=\"") && Split(Split(text, "=\"")[1], ",") == parts && |parts| >= 4
    ensures ParseStockResponse(text, finalCode) == Some(StockInfo(parts[0], ParseFloat(parts[3]), finalCode))
  {
  }

  // ---------------------------------------------------------------------------
  // Profit figures

  /** Floating profit of a lot: `(current - cost) * qty`, the market value
      less the cost basis; nothing at a price equal to the cost. */
  function Profit(current: real, cost: real, qty: real): (r: real)
    ensures r == qty * current - qty * cost
    ensures current == cost ==> r == 0.0
  {
    (current - cost) * qty
  }

  /** Profit ratio in percent against the cost: that many hundredths of the
      cost is the gain per unit. */
  function ProfitPercent(current: real, cost: real): (r: real)
    requires cost != 0.0
    ensures r * cost == (current - cost) * 100.0
    ensures current == cost ==> r == 0.0
  {
    (current - cost) / cost * 100.0
  }

  /** For a positive quantity and a positive cost, the profit figure, the
      percentage and the price-against-cost colour all agree in sign, and the
      percentage of the cost basis is the profit. */
  lemma ProfitSignsAgree(current: real, cost: real, qty: real)
    requires qty > 0.0 && cost > 0.0
    ensures Profit(current, cost, qty) >= 0.0 <==> current >= cost
    ensures ProfitPercent(current, cost) >= 0.0 <==> current >= cost
    ensures Profit(current, cost, qty) == ProfitPercent(current, cost) / 100.0 * (cost * qty)
  {
    var d := current - cost;
    Ledger.MulSign(d, qty);
    Ledger.MulSign(d, 100.0 / cost);
    assert d / cost * 100.0 == d * (100.0 / cost);
  }

  // ---------------------------------------------------------------------------
  // The add form

  /** What a submit hands to the application root's `addAsset`. */
  datatype AddRequest = AddRequest(name: string, code: string, quantity: real, cost: real, currentPrice: Option<real>)

  /** The ledger's view of a request whose price is a number. */
  function ToNewAsset(req: AddRequest): (d: NewAsset)
    requires req.currentPrice.Some?
    ensures d.code == req.code && d.quantity == req.quantity && d.cost == req.cost
    ensures d.name == req.name && d.currentPrice == req.currentPrice.value
  {
    NewAsset(req.name, req.code, req.quantity, req.cost, req.currentPrice.value)
  }

  /** A submit accepted for a six-digit code reaches the ledger under the
      stored code: after the root's `addAsset`, the list holds a position with
      that code, which the quote request's normaliser leaves unchanged, and a
      new code is put in front with the submitted quantity, cost and price. */
  lemma SubmitReachesLedger(info: StockInfo, code: string, qty: real, c: real, prev: seq<Asset>, newId: string)
    requires IsSixDigits(Trim(code)) && info.formattedCode == FormatCode(code) && info.currentPrice.Some?
    requires Ledger.MergeDefined(prev, ToNewAsset(AddRequest(info.name, info.formattedCode, qty, c, info.currentPrice)))
    ensures var d := ToNewAsset(AddRequest(info.name, info.formattedCode, qty, c, info.currentPrice));
      var r := Ledger.AddAsset(prev, d, newId);
      var k := Ledger.FindIndex(r, FormatCode(code));
      k.Some? && Ledger.FormatSinaCode(r[k.value].code) == r[k.value].code &&
      (Ledger.FindIndex(prev, FormatCode(code)).None? ==>
        r[0].code == FormatCode(code) && r[0].quantity == qty && r[0].cost == c &&
        r[0].currentPrice == info.currentPrice.value && r[0].name == info.name)
  {
    var d := ToNewAsset(AddRequest(info.name, info.formattedCode, qty, c, info.currentPrice));
    Ledger.AddAssetHoldsCode(prev, d, newId);
    StoredCodeIsLookupCode(code);
  }

  const LookupFailed: string := "无法获取股票信息"
  const SubmitFailed: string := "无法获取股票信息，请检查代码是否正确"

  class PortfolioForm {
    var isAdding: bool
    var isEditingMode: bool
    var code: string
    var quantity: string
    var cost: string
    var isFetching: bool
    var fetchError: string
    var fetchedStock: Option<StockInfo>

    /** The edit mode and the add form are never open together, and no
        lookup is in flight between two handlers. */
    ghost predicate Valid()
      reads this
    {
      !(isAdding && isEditingMode) && !isFetching
    }

    constructor ()
      ensures Valid()
      ensures !isAdding && !isEditingMode && code == [] && quantity == [] && cost == []
      ensures fetchError == [] && fetchedStock.None?
    {
      isAdding := false;
      isEditingMode := false;
      code := [];
      quantity := [];
      cost := [];
      isFetching := false;
      fetchError := [];
      fetchedStock := None;
    }

    /** `toggleEditMode`: flips edit mode and closes the add form. */
    method ToggleEditMode()
      requires Valid()
      modifies this
      ensures Valid()
      ensures isEditingMode == !old(isEditingMode) && !isAdding
      ensures code == old(code) && quantity == old(quantity) && cost == old(cost)
      ensures fetchError == old(fetchError) && fetchedStock == old(fetchedStock)
    {
      var wasAdding := isAdding;
      isEditingMode := !isEditingMode;
      if wasAdding {
        isAdding := false;
      }
    }

    /** `toggleAddMode`: flips the add form and leaves edit mode. */
    method ToggleAddMode()
      requires Valid()
      modifies this
      ensures Valid()
      ensures isAdding == !old(isAdding) && !isEditingMode
      ensures code == old(code) && quantity == old(quantity) && cost == old(cost)
      ensures fetchError == old(fetchError) && fetchedStock == old(fetchedStock)
    {
      var wasEditing := isEditingMode;
      isAdding := !isAdding;
      if wasEditing {
        isEditingMode := false;
      }
    }

    /** Typing into one of the three inputs. */
    method SetInputs(newCode: string, newQuantity: string, newCost: string)
      requires Valid()
      modifies this
      ensures Valid()
      ensures code == newCode && quantity == newQuantity && cost == newCost
      ensures isAdding == old(isAdding) && isEditingMode == old(isEditingMode)
      ensures fetchError == old(fetchError) && fetchedStock == old(fetchedStock)
    {
      code, quantity, cost := newCode, newQuantity, newCost;
    }

    /** `handleCodeBlur`: looks the typed code up. `lookup` is what the
        awaited `fetchStockInfo(code)` resolves to, `FetchStockInfo(code,
        response)` for the answer `response`; it names the formatted code.
        An empty code does nothing. */
    method HandleCodeBlur(lookup: Option<StockInfo>)
      requires Valid()
      requires lookup.Some? ==> lookup.value.formattedCode == FormatCode(code)
      modifies this
      ensures Valid()
      ensures old(code) == [] ==> fetchError == old(fetchError) && fetchedStock == old(fetchedStock)
      ensures old(code) != [] ==>
        fetchedStock == lookup &&
        fetchError == (if fetchedStock.Some? then [] else LookupFailed)
      ensures code == old(code) && quantity == old(quantity) && cost == old(cost)
      ensures isAdding == old(isAdding) && isEditingMode == old(isEditingMode)
    {
      if code == [] {
        return;
      }
      isFetching := true;
      fetchError := [];
      fetchedStock := None;
      var info := lookup;
      if info.Some? {
        fetchedStock := info;
      } else {
        fetchError := LookupFailed;
      }
      isFetching := false;
    }

    /** `handleSubmit`: with a code and two numbers, uses the stock looked up
        on blur, or looks the code up now (`lookup`, as for the blur), and
        hands the request to the root, clearing and closing the form. An
        incomplete form, or a failed lookup, hands nothing over. */
    method HandleSubmit(lookup: Option<StockInfo>) returns (req: Option<AddRequest>)
      requires Valid()
      requires lookup.Some? ==> lookup.value.formattedCode == FormatCode(code)
      modifies this
      ensures Valid()
      ensures var qty, c := ParseFloat(old(quantity)), ParseFloat(old(cost));
        old(code) == [] || qty.None? || c.None? ==>
          req.None? && fetchError == [] && code == old(code) && quantity == old(quantity) &&
          cost == old(cost) && fetchedStock == old(fetchedStock) && isAdding == old(isAdding)
      ensures var qty, c := ParseFloat(old(quantity)), ParseFloat(old(cost));
        old(code) != [] && qty.Some? && c.Some? ==>
          SubmitOutcome(old(fetchedStock), lookup, qty.value, c.value, old(code), old(quantity), old(cost), old(isAdding), req)
      ensures isEditingMode == old(isEditingMode)
    {
      fetchError := [];
      var qty := ParseFloat(quantity);
      var c := ParseFloat(cost);
      if code == [] || qty.None? || c.None? {
        return None;
      }
      req := SubmitValid(lookup, qty.value, c.value);
    }

    /** What a submit of a complete form leaves behind. */
    ghost predicate SubmitOutcome(stock0: Option<StockInfo>, lookup: Option<StockInfo>, qty: real, c: real,
                                  code0: string, quantity0: string, cost0: string, adding0: bool,
                                  req: Option<AddRequest>)
      reads this
    {
      var info := if stock0.Some? then stock0 else lookup;
      (info.None? ==>
        req.None? && fetchError == SubmitFailed && code == code0 && quantity == quantity0 &&
        cost == cost0 && fetchedStock.None? && isAdding == adding0) &&
      (info.Some? ==>
        req == Some(AddRequest(info.value.name, info.value.formattedCode, qty, c, info.value.currentPrice)) &&
        fetchError == [] && code == [] && quantity == [] && cost == [] &&
        fetchedStock.None? && !isAdding)
    }

    /** The part of `handleSubmit` after the form has been read. */
    method SubmitValid(lookup: Option<StockInfo>, qty: real, c: real) returns (req: Option<AddRequest>)
      requires Valid() && fetchError == []
      modifies this
      ensures Valid()
      ensures SubmitOutcome(old(fetchedStock), lookup, qty, c, old(code), old(quantity), old(cost), old(isAdding), req)
      ensures isEditingMode == old(isEditingMode)
    {
      var stockInfo := fetchedStock;
      if stockInfo.None? {
        isFetching := true;
        stockInfo := lookup;
        isFetching := false;
      }
      if stockInfo.None? {
        fetchError := SubmitFailed;
        return None;
      }
      req := Some(AddRequest(stockInfo.value.name, stockInfo.value.formattedCode, qty, c,
                             stockInfo.value.currentPrice));
      code, quantity, cost := [], [], [];
      fetchedStock := None;
      isAdding := false;
    }
  }
}
