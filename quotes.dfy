/** The two per-tick transforms of the position list: the real-quote tick,
    which reads one line of the Sina batch response per position, matched by
    position; and the simulation tick, a small random walk of the change
    percentage and the price. */
module Quotes {
  import opened Wrappers
  import opened JsString
  import opened JsNumber
  import opened Types
  import Ledger

  // ---------------------------------------------------------------------------
  // Real quotes

  /** The lookup codes of the request, one per position, in list order. */
  function RequestCodes(assets: seq<Asset>): (r: seq<string>)
    ensures |r| == |assets|
    ensures forall i :: 0 <= i < |assets| ==> r[i] == Ledger.FormatSinaCode(assets[i].code)
  {
    seq(|assets|, i requires 0 <= i < |assets| => Ledger.FormatSinaCode(assets[i].code))
  }

  /** The request path: `/sina-api/list=` and the lookup codes joined by commas. */
  function RequestPath(assets: seq<Asset>): (r: string)
    requires |assets| >= 1
    ensures |r| >= 15 && r[..15] == "/sina-api/list="
  {
    "/sina-api/list=" + Join(RequestCodes(assets), ",")
  }

  /** The request names the positions in list order: as long as no code
      holds a comma, the list after `=` splits back into one lookup code per
      position, so line `i` of the answer belongs to position `i`. */
  lemma RequestListsCodesInOrder(assets: seq<Asset>)
    requires |assets| >= 1
    requires forall i :: 0 <= i < |assets| ==> ',' !in assets[i].code
    ensures var path := RequestPath(assets);
      |path| >= 15 && Split(path[15..], ",") == RequestCodes(assets)
  {
    var codes := RequestCodes(assets);
    forall i | 0 <= i < |codes| ensures ',' !in codes[i] {
      CommaFreeCode(assets[i].code);
    }
    SplitJoin(codes, ',');
    assert RequestPath(assets)[15..] == Join(codes, ",");
  }

  /** The lookup code of a comma-free code is comma-free. */
  lemma CommaFreeCode(code: string)
    requires ',' !in code
    ensures ',' !in Ledger.FormatSinaCode(code)
    ensures ',' !in Ledger.FormatSinaCodeIntended(code)
  {
    var c := AsciiDigits(code);
    assert forall k :: 0 <= k < |code| ==> ToLower(code)[k] == ToLowerChar(code[k]);
    if |c| == 6 {
      var r := Ledger.FormatSinaCode(code);
      assert r == r[..2] + r[2..];
      assert forall k :: 0 <= k < |c| ==> IsAsciiDigit(c[k]);
    }
  }

  /** The three fields a quote line contributes: name (field 0), previous
      close (field 2, `None` for `NaN`) and current price (field 3). */
  datatype Quote = Quote(name: string, lastClose: Option<real>, price: real)

  /** `text.split('\n')`. */
  function Lines(text: string): (r: seq<string>)
    ensures |r| >= 1
  {
    Split(text, "\n")
  }

  /** `lines[i]`, `None` for `undefined` past the end. */
  function LineAt(lines: seq<string>, i: nat): Option<string> {
    if i < |lines| then Some(lines[i]) else None
  }

  /** One response line read as a quote. Missing or empty lines, lines without
      a double quote, fewer than four comma fields, and a field 3 that is
      `NaN` or 0 give `None`: that position keeps its values. */
  function ParseQuoteLine(line: Option<string>): (r: Option<Quote>)
    ensures r.Some? ==> r.value.price != 0.0
    ensures r.Some? ==> line.Some? && Contains(line.value, "\"")
    ensures line.None? || !Contains(line.value, "\"") ==> r.None?
    ensures line.Some? && Contains(line.value, "\"") ==>
      var parts := Split(Split(line.value, "\"")[1], ",");
      (|parts| < 4 || ParseFloat(parts[3]).None? || ParseFloat(parts[3]) == Some(0.0)) ==> r.None?
  {
    if line.None? || line.value == [] || !Contains(line.value, "\"") then None
    else
      var dataStr := Split(line.value, "\"")[1];
      var parts := Split(dataStr, ",");
      if |parts| < 4 then None
      else match ParseFloat(parts[3])
        case None => None
        case Some(price) =>
          if price == 0.0 then None else Some(Quote(parts[0], ParseFloat(parts[2]), price))
  }

  /** One line of a Sina batch response: `var hq_str_<code>="<f0>,<f1>,...";`. */
  function SinaLine(code: string, fields: seq<string>): string
    requires |fields| >= 1
  {
    "var hq_str_" + code + "=\"" + Join(fields, ",") + "\";"
  }

  /** No field holds a double quote or a comma. */
  predicate PlainFields(fields: seq<string>) {
    forall k :: 0 <= k < |fields| ==> '"' !in fields[k] && ',' !in fields[k]
  }

  /** The fields between the double quotes of a Sina line are its comma fields. */
  lemma SinaLineFields(code: string, fields: seq<string>)
    requires |fields| >= 1 && '"' !in code && PlainFields(fields)
    ensures Contains(SinaLine(code, fields), "\"")
    ensures Split(Split(SinaLine(code, fields), "\"")[1], ",") == fields
  {
    var j := Join(fields, ",");
    var pre := "var hq_str_" + code + "=";
    assert '"' !in pre;
    var s := SinaLine(code, fields);
    assert s == pre + "\"" + (j + "\";");
    SplitAfterFirst(pre, "\"", j + "\";");
    assert j + "\";" == j + "\"" + ";";
    assert '"' !in j by { JoinLacks(fields, '"', ','); }
    SplitAfterFirst(j, "\"", ";");
    SplitJoin(fields, ',');
  }

  /** Reading a well-formed Sina line, its previous close and price written
      as decimal literals, gives back its name, previous close and price. */
  lemma ParseSinaLine(code: string, name: string, open: string, lastClose: Decimal, price: Decimal, more: seq<string>)
    requires ValidDecimal(lastClose) && ValidDecimal(price)
    requires '"' !in code && DecimalValue(price) != 0.0
    requires PlainFields([name, open, DecimalText(lastClose), DecimalText(price)] + more)
    ensures ParseQuoteLine(Some(SinaLine(code, [name, open, DecimalText(lastClose), DecimalText(price)] + more)))
      == Some(Quote(name, Some(DecimalValue(lastClose)), DecimalValue(price)))
  {
    var fields := [name, open, DecimalText(lastClose), DecimalText(price)] + more;
    SinaLineFields(code, fields);
    ParseFloatOfDecimalText(price);
    ParseFloatOfDecimalText(lastClose);
    ParseQuoteLineOf(SinaLine(code, fields), fields, DecimalValue(price));
  }

  /** A line whose quoted part splits into `fields`, with a nonzero number in
      field 3, reads as the quote of fields 0, 2 and 3. */
  lemma ParseQuoteLineOf(line: string, fields: seq<string>, price: real)
    requires Contains(line, "\"") && Split(Split(line, "\"")[1], ",") == fields
    requires |fields| >= 4 && ParseFloat(fields[3]) == Some(price) && price != 0.0
    ensures ParseQuoteLine(Some(line)) == Some(Quote(fields[0], ParseFloat(fields[2]), price))
  {
    assert |line| > 0;
  }

  /** The quote can be applied without a division by zero or by `NaN`. */
  predicate QuoteUsable(q: Quote) {
    q.lastClose.Some? && q.lastClose.value != 0.0
  }

  /** The position after a usable quote: new name unless empty, new price, the
      rounded percentage change from the previous close, value recomputed. */
  function Requote(a: Asset, q: Quote): (r: Asset)
    requires QuoteUsable(q)
    ensures r.name == (if q.name == [] then a.name else q.name)
    ensures r.currentPrice == q.price && r.value == r.quantity * r.currentPrice
    ensures var lc := q.lastClose.value;
      -0.005 <= r.change - (q.price - lc) / lc * 100.0 <= 0.005
    ensures Round2(r.change) == r.change
    ensures r.(name := a.name, currentPrice := a.currentPrice, change := a.change, value := a.value) == a
  {
    var lastClose := q.lastClose.value;
    var changeAmount := q.price - lastClose;
    Round2Idempotent(changeAmount / lastClose * 100.0);
    a.(name := if q.name == [] then a.name else q.name,
       currentPrice := q.price,
       change := Round2(changeAmount / lastClose * 100.0),
       value := a.quantity * q.price)
  }

  /** The quote that line `i` of the response gives position `i`. */
  function QuoteFor(text: string, i: nat): Option<Quote> {
    ParseQuoteLine(LineAt(Lines(text), i))
  }

  /** Every quote the response gives a position is usable. */
  predicate QuotesUsable(assets: seq<Asset>, text: string) {
    forall i :: 0 <= i < |assets| && QuoteFor(text, i).Some? ==> QuoteUsable(QuoteFor(text, i).value)
  }

  /** The real-quote tick: line `i` updates position `i` when it reads as a
      quote; every other position is kept as it was. */
  function ApplyQuotes(assets: seq<Asset>, text: string): (r: seq<Asset>)
    requires QuotesUsable(assets, text)
    ensures |r| == |assets|
    ensures forall i :: 0 <= i < |assets| ==>
      r[i] == match QuoteFor(text, i) case None => assets[i] case Some(q) => Requote(assets[i], q)
  {
    seq(|assets|, i requires 0 <= i < |assets| =>
      match QuoteFor(text, i)
      case None => assets[i]
      case Some(q) => Requote(assets[i], q))
  }

  /** A position whose line is missing, has no double quote, has fewer than
      four comma fields, or has a field 3 that is `NaN` or 0 keeps its values. */
  lemma ApplyQuotesSkipsUnreadable(assets: seq<Asset>, text: string, i: nat)
    requires QuotesUsable(assets, text) && i < |assets|
    requires var line := LineAt(Lines(text), i);
      line.None? || !Contains(line.value, "\"") ||
      var parts := Split(Split(line.value, "\"")[1], ",");
      |parts| < 4 || ParseFloat(parts[3]).None? || ParseFloat(parts[3]) == Some(0.0)
    ensures ApplyQuotes(assets, text)[i] == assets[i]
  {
    assert QuoteFor(text, i).None?;
  }

  /** A real tick changes no id, code, quantity, cost, type or icon. */
  lemma ApplyQuotesKeepsHoldings(assets: seq<Asset>, text: string)
    requires QuotesUsable(assets, text)
    ensures var r := ApplyQuotes(assets, text);
      forall i :: 0 <= i < |assets| ==>
        r[i].id == assets[i].id && r[i].code == assets[i].code &&
        r[i].quantity == assets[i].quantity && r[i].cost == assets[i].cost &&
        r[i].kind == assets[i].kind && r[i].icon == assets[i].icon
  {
    var r := ApplyQuotes(assets, text);
    forall i | 0 <= i < |assets|
      ensures r[i].id == assets[i].id && r[i].code == assets[i].code
      ensures r[i].quantity == assets[i].quantity && r[i].cost == assets[i].cost
      ensures r[i].kind == assets[i].kind && r[i].icon == assets[i].icon
    {
      match QuoteFor(text, i)
      case None =>
      case Some(q) =>
        var x := Requote(assets[i], q);
        assert x.(name := assets[i].name, currentPrice := assets[i].currentPrice,
                  change := assets[i].change, value := assets[i].value) == assets[i];
    }
  }

  /** The first four fields of a Sina record: name, open, previous close, price. */
  function QuoteFields(name: string, open: Decimal, lastClose: Decimal, price: Decimal): (f: seq<string>)
    requires ValidDecimal(open) && ValidDecimal(lastClose) && ValidDecimal(price)
    ensures |f| == 4 && f[0] == name && f[2] == DecimalText(lastClose) && f[3] == DecimalText(price)
    ensures forall m :: 1 <= m < 4 ==> '"' !in f[m] && ',' !in f[m] && '\n' !in f[m]
  {
    [name, DecimalText(open), DecimalText(lastClose), DecimalText(price)]
  }

  /** A character that is not part of the line's fixed text, of the code or
      of any field is not in the line. */
  lemma SinaLineLacks(code: string, fields: seq<string>, c: char)
    requires |fields| >= 1 && c !in "var hq_str_=\";," && c !in code
    requires forall k :: 0 <= k < |fields| ==> c !in fields[k]
    ensures c !in SinaLine(code, fields)
  {
    JoinLacks(fields, c, ',');
  }

  /** Line `line` is the Sina record of `code` with these name, open,
      previous close and price, the close and the price positive, and the
      code and name free of the characters that frame the record. */
  predicate WellFormedLine(line: string, code: string, name: string, open: Decimal, close: Decimal, price: Decimal) {
    ValidDecimal(open) && ValidDecimal(close) && ValidDecimal(price) &&
    line == SinaLine(code, QuoteFields(name, open, close, price)) &&
    '"' !in code && '\n' !in code && '"' !in name && ',' !in name && '\n' !in name &&
    DecimalValue(close) > 0.0 && DecimalValue(price) > 0.0
  }

  /** A response made of one well-formed Sina line per position updates each
      position from its own line, in order: position `i` takes the name, the
      price and the previous close of line `i`. */
  lemma ApplySinaResponse(assets: seq<Asset>, lines: seq<string>, codes: seq<string>, names: seq<string>,
                          opens: seq<Decimal>, closes: seq<Decimal>, prices: seq<Decimal>)
    requires |assets| >= 1
    requires |lines| == |codes| == |names| == |opens| == |closes| == |prices| == |assets|
    requires forall i :: 0 <= i < |assets| ==> ValidDecimal(closes[i]) && ValidDecimal(prices[i])
    requires forall i :: 0 <= i < |assets| ==>
      WellFormedLine(lines[i], codes[i], names[i], opens[i], closes[i], prices[i])
    ensures QuotesUsable(assets, Join(lines, "\n"))
    ensures forall i :: 0 <= i < |assets| ==>
      QuoteFor(Join(lines, "\n"), i) == Some(Quote(names[i], Some(DecimalValue(closes[i])), DecimalValue(prices[i])))
  {
    forall k | 0 <= k < |lines| ensures '\n' !in lines[k] {
      QuoteLineLacksNewline(codes[k], names[k], opens[k], closes[k], prices[k]);
    }
    forall i | 0 <= i < |assets|
      ensures QuoteFor(Join(lines, "\n"), i) == Some(Quote(names[i], Some(DecimalValue(closes[i])), DecimalValue(prices[i])))
    {
      LineOfResponse(lines, i, codes[i], names[i], opens[i], closes[i], prices[i]);
    }
    QuotesUsableOf(assets, Join(lines, "\n"), names, closes, prices);
  }

  /** Line `i` of a response of newline-free lines reads as its own quote. */
  lemma LineOfResponse(lines: seq<string>, i: nat, code: string, name: string, open: Decimal, close: Decimal, price: Decimal)
    requires i < |lines| && forall k :: 0 <= k < |lines| ==> '\n' !in lines[k]
    requires WellFormedLine(lines[i], code, name, open, close, price)
    ensures QuoteFor(Join(lines, "\n"), i) == Some(Quote(name, Some(DecimalValue(close)), DecimalValue(price)))
  {
    LinesOfJoin(lines, i);
    QuoteLine(code, name, open, close, price);
  }

  /** Quotes all read as usable ones make the response usable. */
  lemma QuotesUsableOf(assets: seq<Asset>, text: string, names: seq<string>, closes: seq<Decimal>, prices: seq<Decimal>)
    requires |names| == |closes| == |prices| == |assets|
    requires forall i :: 0 <= i < |assets| ==> ValidDecimal(closes[i]) && ValidDecimal(prices[i])
    requires forall i :: 0 <= i < |assets| ==> DecimalValue(closes[i]) > 0.0
    requires forall i :: 0 <= i < |assets| ==>
      QuoteFor(text, i) == Some(Quote(names[i], Some(DecimalValue(closes[i])), DecimalValue(prices[i])))
    ensures QuotesUsable(assets, text)
  {
  }

  /** Joining newline-free lines with newlines and splitting again finds line `i`. */
  lemma LinesOfJoin(lines: seq<string>, i: nat)
    requires i < |lines|
    requires forall k :: 0 <= k < |lines| ==> '\n' !in lines[k]
    ensures QuoteFor(Join(lines, "\n"), i) == ParseQuoteLine(Some(lines[i]))
  {
    SplitJoin(lines, '\n');
  }

  /** A line built from quote fields with a newline-free code and name has no newline. */
  lemma QuoteLineLacksNewline(code: string, name: string, open: Decimal, lastClose: Decimal, price: Decimal)
    requires ValidDecimal(open) && ValidDecimal(lastClose) && ValidDecimal(price)
    requires '\n' !in code && '\n' !in name
    ensures '\n' !in SinaLine(code, QuoteFields(name, open, lastClose, price))
  {
    var fields := QuoteFields(name, open, lastClose, price);
    SinaLineLacks(code, fields, '\n');
  }

  /** One line built from quote fields reads back as its quote. */
  lemma QuoteLine(code: string, name: string, open: Decimal, lastClose: Decimal, price: Decimal)
    requires ValidDecimal(open) && ValidDecimal(lastClose) && ValidDecimal(price)
    requires '"' !in code && '"' !in name && ',' !in name && DecimalValue(price) != 0.0
    ensures ParseQuoteLine(Some(SinaLine(code, QuoteFields(name, open, lastClose, price))))
      == Some(Quote(name, Some(DecimalValue(lastClose)), DecimalValue(price)))
  {
    var fields := QuoteFields(name, open, lastClose, price);
    assert fields == [name, DecimalText(open), DecimalText(lastClose), DecimalText(price)] + [];
    assert PlainFields(fields);
    ParseSinaLine(code, name, DecimalText(open), lastClose, price, []);
  }

  // ---------------------------------------------------------------------------
  // Simulated quotes

  /** The new change percentage: the old one plus a delta in [-0.05, 0.05)
      drawn from `random` in [0, 1), rounded to two decimals. */
  function SimulatedChange(change: real, random: real): (c: real)
    requires 0.0 <= random < 1.0
    ensures -0.055 <= c - change < 0.055
    ensures Round2(c) == c
  {
    Round2Idempotent(change + (random * 0.1 - 0.05));
    Round2(change + (random * 0.1 - 0.05))
  }

  /** The new price: nudged by one ten-thousandth of the new change
      percentage, rounded to two decimals. */
  function SimulatedPrice(price: real, newChange: real): (p: real)
    ensures -0.005 <= p - price * (1.0 + newChange / 10000.0) <= 0.005
    ensures Round2(p) == p
  {
    Round2Idempotent(price * (1.0 + newChange / 10000.0));
    Round2(price * (1.0 + newChange / 10000.0))
  }

  /** The simulation tick over the whole list, one random draw per position. */
  function SimulateStep(assets: seq<Asset>, randoms: seq<real>): (r: seq<Asset>)
    requires |randoms| == |assets|
    requires forall i :: 0 <= i < |randoms| ==> 0.0 <= randoms[i] < 1.0
    ensures |r| == |assets|
    ensures forall i :: 0 <= i < |assets| ==>
      r[i].change == SimulatedChange(assets[i].change, randoms[i]) &&
      r[i].currentPrice == SimulatedPrice(assets[i].currentPrice, r[i].change) &&
      r[i].(change := assets[i].change, currentPrice := assets[i].currentPrice) == assets[i]
  {
    seq(|assets|, i requires 0 <= i < |assets| =>
      var newChange := SimulatedChange(assets[i].change, randoms[i]);
      assets[i].(change := newChange,
                 currentPrice := SimulatedPrice(assets[i].currentPrice, newChange)))
  }

  /** A simulation tick leaves the stored value, quantity, cost, id and name
      untouched, and moves each change by less than 0.055 points. */
  lemma SimulateStepKeepsHoldings(assets: seq<Asset>, randoms: seq<real>)
    requires |randoms| == |assets|
    requires forall i :: 0 <= i < |randoms| ==> 0.0 <= randoms[i] < 1.0
    ensures var r := SimulateStep(assets, randoms);
      forall i :: 0 <= i < |assets| ==>
        r[i].value == assets[i].value && r[i].quantity == assets[i].quantity &&
        r[i].cost == assets[i].cost && r[i].id == assets[i].id && r[i].name == assets[i].name &&
        -0.055 <= r[i].change - assets[i].change < 0.055
  {
    var r := SimulateStep(assets, randoms);
    forall i | 0 <= i < |assets|
      ensures r[i].value == assets[i].value && r[i].quantity == assets[i].quantity
      ensures r[i].cost == assets[i].cost && r[i].id == assets[i].id && r[i].name == assets[i].name
    {
      assert r[i].(change := assets[i].change, currentPrice := assets[i].currentPrice) == assets[i];
    }
  }
}
