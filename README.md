# Finance tycoon: portfolio, settlement and office scene

This project models the core of a small stock-portfolio idle game written in
React and TypeScript, and proves properties of that model.

- **The app root** holds the user record and the list of positions.
  - Adding a stock merges a repeat code at a quantity-weighted mean cost, or puts a new position in front.
  - Deleting removes every position with the given id.
  - After every change to the list, the company funds and the day's profit are recomputed from it.
  - A five-second tick either takes a random-walk step (simulation mode) or applies the quote lines of the Sina quote service, matched to the positions by line order.
  - The settlement effect runs after the first render and after every render whose loading flag, daily profit or last reward date changed. Once the data has loaded, its first run on a day that has not been rewarded yet credits the daily reward and opens the reward pop-up; no day is paid twice.
  - A day that begins while the app is already open and loaded is paid only when one of those three values next changes (see Findings).
- **The add-stock screen** normalises the typed code, whose rules differ from the app root's.
  - It parses the quote service's answer for one code.
  - It guards the submit and resets the form after a successful add.
  - It keeps the edit and add modes mutually exclusive.
  - It computes each position's profit and profit percentage.
- **The avatar** hashes a string seed with cyrb128.
  - The hash seeds a mulberry32 generator.
  - The first eight draws pick skin tone, shirt colour, hair colour, hair style, glasses and beard.
  - JavaScript's 32-bit operators are written out on integers in [0, 2^32).
- **The office scene** puts one desk per employee on a three-column grid.
  - A timer spawns a floating money text over a random desk, with ids issued by a counter.
  - Each text's animation removes it again by id.

Modules:
- `Wrappers`: Option.
- `Seqs`: filtering and order; `Types`: the records.
- `JsString` and `JsNumber`: the JavaScript string and number built-ins the core relies on.
  - `trim`, `toLowerCase`, `replace(/[^0-9]/g, '')`, `split`, `join`, `includes` and `charCodeAt`.
  - `parseFloat`, `Math.floor`, `Math.abs` and `toFixed(2)`.
- `Ledger`: the code normaliser, the position list and the aggregates.
- `Quotes`: the two quote ticks; `Settlement`: the daily reward.
- `AppRoot`: the root state as a class.
- `Portfolio`: the add-stock screen, with its form as a class.
- `LilGuy`: the avatar; `Office`: the office scene, with its state as a class.

The system's clock, `Math.random()`, `Date.now()` and the decoded text of
each HTTP answer are parameters of the operations that use them.

The model follows the code as written, including where it departs from what its own comments or the screens suggest:
- `formatSinaCode` re-derives the exchange prefix of an already prefixed code, although the comment at App.tsx:38 says such codes are left alone (see Findings).
  The quote request is built with the normaliser as written; the corrected one is kept beside it.
- Neither the add-stock screen nor `addAsset` checks that quantity, cost or price are positive.
- The line parser accepts any nonzero price, negative ones included.
- The real-quote tick matches quote line `i` to position `i` by order, never by code.
- `handleSubmit` reuses a `fetchedStock` from an earlier lookup even when the code was edited since.
  The methods take the lookup's result as given.

## Model

| member | source | states |
|---|---|---|
| Ledger.FormatSinaCode | App.tsx:36-41 | A code with exactly six ASCII digits becomes "sh" or "sz" plus those digits, "sh" exactly when the first digit is 6, 9 or 5; any other code is only lower-cased |
| Ledger.FormatSinaCodeIdempotent | App.tsx:36-41 | Normalising a normalised code changes nothing |
| Ledger.FormatSinaCodeOfDigits | App.tsx:39-40 | A bare six-digit code gets the prefix its first digit selects |
| Ledger.FormatSinaCodeKeepsMatchingPrefix | App.tsx:37-40 | A code already carrying the prefix its digits select is left as it is |
| Ledger.FormatSinaCodeReprefixes | App.tsx:37-40 | As written: "sh" plus six digits starting with neither 6, 9 nor 5 comes back as "sz" plus the digits |
| Ledger.FormatSinaCodeIntended | App.tsx:38 | Corrected: a code that already has an exchange prefix is only lower-cased |
| Ledger.FormatSinaCodeIntendedKeepsPrefix | App.tsx:38 | Corrected: "sh" or "sz" plus digits is returned unchanged |
| Ledger.FormatSinaCodeIntendedIdempotent | App.tsx:36-41 | Corrected: normalising twice is normalising once |
| Ledger.FindIndex | App.tsx:185 | `findIndex` by code: the first matching index, or none when no position has the code |
| Ledger.Merge | App.tsx:189-202 | The merged position sums the quantities, takes the new price and name, and keeps id, code, change, type and icon |
| Ledger.MergeCostBasis | App.tsx:190-200 | The new cost times the total quantity is the sum of both purchases' costs; value is total quantity times the new price |
| Ledger.MergedCostBetween | App.tsx:191-193 | With positive quantities the mean cost lies between the two costs |
| Ledger.AddAsset | App.tsx:184-219 | A repeat code replaces only the first matching entry by the merge, all others unchanged; a new code is prepended with change 0, type "stock", icon "analytics" and value quantity times price |
| Ledger.AddAssetKeepsCodesDistinct | App.tsx:185-217 | Pairwise-distinct codes stay pairwise distinct after an add |
| Ledger.AddAssetHoldsCode | App.tsx:185-217 | After an add, the list holds a position with the added code |
| Ledger.DeleteAsset | App.tsx:222-224 | The result holds exactly the positions whose id differs from the given one |
| Ledger.DeleteAbsentIsNoop | App.tsx:222-224 | Deleting an absent id leaves the list as it is |
| Ledger.DeleteIdempotent | App.tsx:222-224 | Deleting twice is deleting once |
| Ledger.DeleteKeepsOrder | App.tsx:223 | Deletion commutes with concatenation, so the kept positions stay in their order |
| Ledger.PositionProfit | App.tsx:109-111 | A position with change 0 contributes no profit |
| Ledger.PositionProfitClosedForm | App.tsx:109-110 | A position's day gain times (100 + change) is quantity times price times change |
| Ledger.TotalValue | App.tsx:107 | The `reduce` of quantity times price starts from 0: an empty list is worth 0 and a single position is worth its quantity times its price |
| Ledger.TotalValueNonNegative | App.tsx:107 | With no negative quantity or price, the company funds are at least 0 |
| Ledger.TotalProfit | App.tsx:108-112 | The sum of each position's gain since the recovered close; a day with no position moved brings 0 profit |
| Ledger.TotalValueConcat | App.tsx:107 | The summed value of two lists is the sum of their values |
| Ledger.TotalProfitConcat | App.tsx:108-112 | The summed profit of two lists is the sum of their profits |
| Ledger.TotalValueUpdate | App.tsx:107 | Replacing one position changes the total by the difference of the two positions' values |
| Ledger.TotalValueAfterAdd | App.tsx:183-219 | Adding a new code raises the funds by quantity times price; merging replaces the old position's value by the merged quantity times the new price |
| Ledger.TotalValueAfterMerge | App.tsx:189-206 | Merging a repeat code replaces its value by the merged quantity times the new price |
| Ledger.TotalProfitAfterNewCode | App.tsx:209-217 | A new position, whose change is 0, leaves the day's profit as it was |
| Ledger.TotalValueAfterDelete | App.tsx:222-224 | Deleting lowers the funds by exactly the value of the positions with that id |
| Settlement.RewardFor | App.tsx:164-167 | Base 50, fluctuation the floor of a tenth of the absolute daily profit, total their sum |
| Settlement.RewardIgnoresSign | App.tsx:166 | Gains and losses of the same size earn the same reward; no profit earns exactly the base |
| Settlement.RewardForLoss | App.tsx:164-167 | A loss of 237 earns 50 + 23 = 73 |
| Settlement.SettleUser | App.tsx:157-181 | Nothing happens before loading or when already settled today; otherwise points grow by the total, the date becomes today and the reward is shown |
| Settlement.SettleUserIdempotent | App.tsx:163 | Settling again on the same day changes nothing |
| Settlement.SettleUserMonotone | App.tsx:169-173 | Points never decrease, grow by at least the base when a reward is paid, and no other field changes |
| Settlement.FirstLoaded | App.tsx:158 | The first render at which the data is loaded, or none |
| Settlement.SettleOncePerDay | App.tsx:157-181 | From the first render, or from a render before loading, the effect gated by its dependency list pays exactly one reward on a day not yet settled, at the first loaded render and from its profit; none when no render is loaded or the day was already settled |
| Settlement.SettledStaysSettled | App.tsx:163 | Once settled today, no render pays again, whether or not the effect runs |
| Settlement.SettleAtMostOnce | App.tsx:157-181 | From any render, the gated effect pays at most one reward per day, only on a day not yet settled, and records today when it pays |
| Settlement.OvernightRewardMissed | App.tsx:157-181 | As written: when the day changes while the app is loaded and the daily profit stays as it was, the dependencies do not change, the effect does not run and nothing is paid |
| Settlement.EveryRenderPaysOncePerDay | App.tsx:157-181 | Corrected: settlement checked at every render pays exactly one reward on a day not yet settled, at the first loaded render |
| Quotes.RequestCodes | App.tsx:47 | One code per position, in list order, each normalised by `formatSinaCode` as written |
| Quotes.RequestPath | App.tsx:47-49 | The path starts with `/sina-api/list=`, followed by the comma-joined request codes |
| Quotes.RequestListsCodesInOrder | App.tsx:47-49 | The request path's list, split at commas, gives back the normalised codes in order |
| Quotes.CommaFreeCode | App.tsx:36-41 | Normalising a comma-free code, as written or corrected, gives a comma-free code |
| Quotes.Lines | App.tsx:63 | The response split at newlines has at least one line |
| Quotes.ParseQuoteLine | App.tsx:65-76 | A missing line, one without a double quote, one with fewer than four comma fields, or one whose field 3 is NaN or 0 gives nothing; a parsed quote never has price 0 |
| Quotes.SinaLineFields | App.tsx:68-69 | A quote line's quoted part, split at commas, gives back its fields |
| Quotes.ParseSinaLine | App.tsx:65-76 | A well-formed quote line, with the close and the price written as decimal literals (fraction allowed), parses to its name, previous close and price |
| Quotes.ParseQuoteLineOf | App.tsx:66-76 | A line with four or more fields and a nonzero price parses to field 0, field 2 and field 3 |
| Quotes.QuoteLine | App.tsx:65-76 | A line built from a name and three decimal literals (fraction allowed) parses back to the name and the values of the close and the price |
| Quotes.Requote | App.tsx:78-87 | Only name (kept when the new one is empty), price, value and change are updated; the change is within half a hundredth of the percentage move from the previous close and has two decimals (`Round2` leaves it fixed) |
| Quotes.ApplyQuotes | App.tsx:64-88 | Same length; position i is requoted from line i when that line parses, kept otherwise |
| Quotes.ApplyQuotesSkipsUnreadable | App.tsx:65-76 | A position whose line is missing, has no double quote, has fewer than four fields or a field 3 that is NaN or 0 keeps its values |
| Quotes.ApplyQuotesKeepsHoldings | App.tsx:81-87 | A real tick never changes id, code, quantity, cost, type or icon |
| Quotes.ApplySinaResponse | App.tsx:63-88 | For a response of well-formed lines with positive decimal closes and prices (fraction allowed), position i gets exactly the quote on line i |
| Quotes.QuotesUsableOf | App.tsx:73-79 | Quotes with positive previous closes make the whole response usable |
| Quotes.LinesOfJoin | App.tsx:63-65 | Line i of newline-joined lines is the i-th line parsed |
| Quotes.SinaLineLacks | App.tsx:63 | A character in neither the code, the fields nor the line's frame is absent from the line |
| Quotes.QuoteLineLacksNewline | App.tsx:63 | A quote line has no newline when its code and name have none |
| Quotes.QuoteFields | App.tsx:69-74 | Four fields with the name first and the close and price in places 2 and 3; the three number fields hold no quote, comma or newline |
| Quotes.SimulatedChange | App.tsx:132 | The new change is within 0.055 of the old one and has two decimals (`Round2` leaves it fixed) |
| Quotes.SimulatedPrice | App.tsx:133-137 | The new price is within half a cent of the old one scaled by 1 + change/10000, and has two decimals (`Round2` leaves it fixed) |
| Quotes.SimulateStep | App.tsx:131-139 | Same length; each position's change and price are stepped and every other field is untouched |
| Quotes.SimulateStepKeepsHoldings | App.tsx:131-139 | A simulated tick keeps value, quantity, cost, id and name, and moves change by less than 0.055 |
| AppRoot.App.constructor | App.tsx:17-33 | The saved records when present, the defaults otherwise; nothing loaded, no pop-up |
| AppRoot.App.AddAsset | App.tsx:183-220 | The list becomes Ledger.AddAsset of the old one; the user record, loading flag and pop-up are untouched |
| AppRoot.App.DeleteAsset | App.tsx:222-224 | The list becomes Ledger.DeleteAsset of the old one; nothing else changes |
| AppRoot.App.ToggleSimulationMode | App.tsx:226-228 | Only the simulation flag is set |
| AppRoot.App.RecomputeAggregates | App.tsx:104-119 | Funds and daily profit become the list's sums; every other user field is kept |
| AppRoot.App.Settle | App.tsx:157-181 | The user becomes SettleUser of the old one and a paid reward opens the pop-up |
| AppRoot.App.DismissReward | App.tsx:262 | The pop-up closes and nothing else changes |
| AppRoot.App.SimulationTick | App.tsx:123-141 | The list takes one simulated step and the data counts as loaded |
| AppRoot.App.RealQuoteTick | App.tsx:44-96 | An empty list or a failed request keeps the list; otherwise the quotes are applied; either way the data counts as loaded |
| AppRoot.App.QuoteTick | App.tsx:122-147 | The interval body: a simulated step in simulation mode, a real tick otherwise |
| AppRoot.App.StartQuoteLoop | App.tsx:149-151 | The first run of the loop's effect: an empty list marks loading done, real mode fetches at once |
| AppRoot.AddThenRecompute | App.tsx:104-119 | Adding a new code and recomputing raises the funds by quantity times price and keeps the day's profit |
| AppRoot.LoadThenSettle | App.tsx:157-181 | Before loading, a real tick sets the loading flag, so the effect runs; on a new day it pays the reward for the profit held before the tick and records today |
| Portfolio.FormatCode | screens/Portfolio.tsx:26-32 | A trimmed six-digit code gets "sh" when it starts with 6, 5 or 9 and "sz" otherwise; anything else is only trimmed, case kept |
| Portfolio.FormatCodeIdempotent | screens/Portfolio.tsx:26-32 | Normalising twice is normalising once |
| Portfolio.FormattedIsFixed | screens/Portfolio.tsx:26-27 | An eight-character code starting with "s" and ending in a digit is left unchanged |
| Portfolio.StoredCodeIsLookupCode | screens/Portfolio.tsx:26-32 | A code stored from a six-digit input is left unchanged by the app root's normaliser, as written and corrected |
| Portfolio.ParseStockResponse | screens/Portfolio.tsx:44-55 | There is a result exactly when the text holds `="` and the part after it has at least four comma fields; a result carries the normalised code |
| Portfolio.FetchStockInfo | screens/Portfolio.tsx:24-60 | A failed request gives nothing; a result carries the normalised code |
| Portfolio.FetchSinaAnswer | screens/Portfolio.tsx:43-55 | A well-formed answer, its price a decimal literal with or without a fraction, gives its name, the price's value and the normalised code |
| Portfolio.AnswerContent | screens/Portfolio.tsx:46 | The text after the first `="` is the answer's content |
| Portfolio.ParseStockResponseOf | screens/Portfolio.tsx:46-55 | Content with four or more fields gives field 0 and the parsed field 3, with no check that the price is nonzero |
| Portfolio.Profit | screens/Portfolio.tsx:250 | The profit is the market value less the cost basis, and 0 at a price equal to the cost |
| Portfolio.ProfitPercent | screens/Portfolio.tsx:251 | The percentage, taken as hundredths of the cost, is the gain per unit; 0 at a price equal to the cost |
| Portfolio.ProfitSignsAgree | screens/Portfolio.tsx:250-252 | For positive quantity and cost, profit and percentage are both non-negative exactly when the price is at least the cost, and the percentage of the cost basis is the profit |
| Portfolio.SubmitReachesLedger | screens/Portfolio.tsx:100-106 | An accepted submit of a six-digit code, handed to the root's add, leaves a position under the stored code, which the quote request's normaliser keeps; a new code is put in front with the submitted name, quantity, cost and price |
| Portfolio.PortfolioForm.constructor | screens/Portfolio.tsx:13-22 | Both modes off, empty inputs, no error, no looked-up stock |
| Portfolio.PortfolioForm.ToggleEditMode | screens/Portfolio.tsx:113-116 | Edit mode flips and the add form closes |
| Portfolio.PortfolioForm.ToggleAddMode | screens/Portfolio.tsx:118-121 | The add form flips and edit mode ends |
| Portfolio.PortfolioForm.SetInputs | screens/Portfolio.tsx:196-236 | The three inputs take the typed text and nothing else changes |
| Portfolio.PortfolioForm.HandleCodeBlur | screens/Portfolio.tsx:62-75 | An empty code does nothing; otherwise the lookup's result is stored and its failure sets the error |
| Portfolio.PortfolioForm.HandleSubmit | screens/Portfolio.tsx:77-111 | An empty code or an unparsable quantity or cost adds nothing and changes only the error; otherwise the submit outcome holds |
| Portfolio.PortfolioForm.SubmitValid | screens/Portfolio.tsx:88-110 | A missing stock sets the error and adds nothing; a found one yields the add request and resets the form |
| LilGuy.XorBitsTwice | components/game/LilGuy.tsx:19-22 | Xor with the same operand twice restores the low bits |
| LilGuy.XorTwice | components/game/LilGuy.tsx:19-22 | On 32-bit words, `(a ^ b) ^ b == a` |
| LilGuy.XorBitsSymmetric | components/game/LilGuy.tsx:28 | Xor does not depend on the order of its operands |
| LilGuy.Shr | components/game/LilGuy.tsx:24-27 | `>>>` never makes a word larger |
| LilGuy.MulBitsIsProduct | components/game/LilGuy.tsx:19 | Shift and add yields the low 32 bits of the product |
| LilGuy.ImulIsProduct | components/game/LilGuy.tsx:7 | `Math.imul` is the product reduced modulo 2^32 |
| LilGuy.CharCodes | components/game/LilGuy.tsx:18 | One word per UTF-16 code unit of the string |
| LilGuy.AbsorbConcat | components/game/LilGuy.tsx:17-23 | The loop consumes every code unit once, in order |
| LilGuy.AbsorbSnoc | components/game/LilGuy.tsx:17-23 | One more code unit is one more round |
| LilGuy.Cyrb128 | components/game/LilGuy.tsx:14-29 | The loop with its four sequentially updated words computes the hash of the string |
| LilGuy.Unit | components/game/LilGuy.tsx:9 | The word divided by 2^32 lies in [0, 1) |
| LilGuy.Draw | components/game/LilGuy.tsx:6-9 | Every draw lies in [0, 1) |
| LilGuy.StateAtIsSum | components/game/LilGuy.tsx:6 | After k calls the state's low 32 bits are the seed plus k steps of 0x6D2B79F5, modulo 2^32 |
| LilGuy.Mulberry32.constructor | components/game/LilGuy.tsx:4-5 | The closure starts from the seed |
| LilGuy.Mulberry32.Next | components/game/LilGuy.tsx:5-10 | One call advances the state by 0x6D2B79F5 and returns the draw of the new state |
| LilGuy.TraitsFromDraws | components/game/LilGuy.tsx:44-60 | Skin index below 5, hue below 360, saturation in [60, 80), lightness in [40, 80), hair index below 24, style below 3; glasses and beard exactly when their draws exceed 0.7 and 0.8 |
| LilGuy.DrawEight | components/game/LilGuy.tsx:41-60 | Call k of a fresh generator returns the draw after k steps, for k = 1..8 |
| LilGuy.DeriveTraits | components/game/LilGuy.tsx:39-63 | The traits are the function of the seed string alone |
| JsString.TrimStart | screens/Portfolio.tsx:26 | Removes exactly the leading white space |
| JsString.TrimEnd | screens/Portfolio.tsx:26 | Removes exactly the trailing white space |
| JsString.TrimIdempotent | screens/Portfolio.tsx:26 | Trimming twice is trimming once |
| JsString.AsciiDigits | App.tsx:37 | Keeps only ASCII digits |
| JsString.AsciiDigitsOfLower | App.tsx:37-38 | Lower-casing does not change the digits kept |
| JsString.ToLower | App.tsx:38 | Same length, each letter A-Z lowered, every other character kept |
| JsString.ToLowerIdempotent | App.tsx:38 | Lower-casing twice is lower-casing once |
| JsString.IndexFrom | App.tsx:66 | The first occurrence of the separator at or after a position, or none |
| JsString.Split | App.tsx:63 | At least one part; two or more exactly when the separator occurs |
| JsString.JoinSplit | App.tsx:63 | Joining the parts of a split gives the string back |
| JsString.SplitJoin | App.tsx:69 | Splitting parts joined by a separator none of them holds gives them back |
| JsString.NatToString | components/game/OfficeScene.tsx:70 | A non-empty run of digits with no leading zero |
| JsString.SurrogatePair | components/game/LilGuy.tsx:18 | A character above the basic plane becomes a high and a low surrogate that encode it |
| JsString.Utf16 | components/game/LilGuy.tsx:18 | A string in the basic plane has one code unit per character, its code point |
| JsNumber.Floor | App.tsx:166 | The greatest integer not above the argument |
| JsNumber.PickIndex | components/game/LilGuy.tsx:46 | `Math.floor(u * n)` for u in [0, 1) is an index below n |
| JsNumber.ParseFloat | App.tsx:73-74 | After leading white space, a digit gives a number and it is non-negative; a minus sign never gives a positive number |
| JsNumber.ParseFloatIsNaN | App.tsx:73-76 | `parseFloat` gives NaN exactly when, after the white space and the optional sign, neither a digit nor a point followed by a digit comes first |
| JsNumber.DigitsValueOfNat | components/game/OfficeScene.tsx:70 | Reading a number's decimal form gives the number back |
| JsNumber.ParseFloatOfNat | App.tsx:73-74 | A decimal number followed by a non-number character parses to that number |
| JsNumber.DecimalValue | screens/Portfolio.tsx:53 | A decimal literal's value lies between its whole part and the next integer |
| JsNumber.ParseFloatOfDecimal | screens/Portfolio.tsx:53 | A decimal literal with a fraction, followed by text that cannot continue a number, parses to whole part plus fraction digits over the matching power of ten |
| JsNumber.SamplePrice | screens/Portfolio.tsx:43 | The sample price "375.610" parses to 375.61 |
| JsNumber.ParseFloatOfNatString | App.tsx:74 | A decimal number parses to itself |
| JsNumber.Round2 | App.tsx:79 | `Number(x.toFixed(2))` is within half a cent of x and has at most two decimals |
| JsNumber.Round2Idempotent | App.tsx:79 | Rounding twice is rounding once |
| Seqs.FilterMembers | App.tsx:223 | `filter` keeps exactly the members passing the test |
| Seqs.FilterConcat | App.tsx:223 | Filtering commutes with concatenation |
| Seqs.FilterKeepsAll | App.tsx:223 | Filtering a list whose members all pass keeps it whole |
| Seqs.FilterIdempotent | App.tsx:223 | Filtering twice is filtering once |
| Seqs.FilterKeepsOrder | components/game/OfficeScene.tsx:49 | Filtering keeps an ordered list ordered |
| Office.GridCol | components/game/OfficeScene.tsx:27-28 | The column lies below 3 |
| Office.GridPosition | components/game/OfficeScene.tsx:27-29 | Column plus three times row is the index |
| Office.GridCellUnique | components/game/OfficeScene.tsx:62-66 | Two desks share a cell exactly when they are the same desk |
| Office.DeskCount | components/game/OfficeScene.tsx:62 | At least one desk, one per employee when there are any |
| Office.HomeEmployeeCount | screens/Home.tsx:91 | 6 employees from VIP level 2 up, 3 for level 1, a missing level, or below |
| Office.SpawnValue | components/game/OfficeScene.tsx:31 | At least 1, exactly 1 below a daily profit of 288; above that, the profit over 144, rounded down |
| Office.DeskTextsExact | components/game/OfficeScene.tsx:66 | A desk shows exactly the texts in its cell |
| Office.SpawnedShownAtItsDesk | components/game/OfficeScene.tsx:62-66 | A text spawned over desk i is shown at a rendered desk, desk i, and at no other |
| Office.EmployeeSeedInjective | components/game/OfficeScene.tsx:70 | Different desks get different avatar seeds |
| Office.SeedHoldsIndex | components/game/OfficeScene.tsx:70 | The seed's second dash-separated field is the desk's index |
| Office.SeedFields | components/game/OfficeScene.tsx:70 | A seed splits at its dashes into its four fields |
| Office.WithoutExact | components/game/OfficeScene.tsx:49 | Removing by id drops exactly the texts with that id |
| Office.Scene.constructor | components/game/OfficeScene.tsx:17-19 | No texts and a zero counter |
| Office.Scene.SetProps | components/game/OfficeScene.tsx:17 | New props; the texts and the counter survive |
| Office.Scene.SpawnMoney | components/game/OfficeScene.tsx:22-41 | Nothing without employees; otherwise one text with the counter's id over the desk the random number picks, and the counter grows by one, keeping ids increasing |
| Office.Scene.RemoveText | components/game/OfficeScene.tsx:48-50 | Exactly the texts with that id are dropped, the rest stay in order |
| Office.AppendKeepsOrder | components/game/OfficeScene.tsx:34-40 | Appending a text with a fresh, larger id keeps ids increasing |
| Office.IdsDistinct | components/game/OfficeScene.tsx:34-40 | In a list with increasing ids, no two texts share an id |

## Left out

- HTTP: `fetch`, the `response.ok` check, GBK decoding and the proxies are not modelled. The decoded answer is a parameter, and a failed request is `None`.
- Persistence: localStorage and JSON serialisation are not modelled. The constructor takes the saved records as `Option` values, and the effects that write them back are left out.
- React scheduling: `setInterval`, `clearInterval` and the order in which effects run are not modelled. Each effect is a method, and callers run them in React's order. The dependency list of the settlement effect is modelled by `Settlement.SettleRenders`; the other effects' lists are not.
- Stale closure: `fetchRealMarketData` maps the `assets` its interval captured. That list can be older than the current one after a merge, which keeps the length. The real tick is modelled on the current list.
- Clocks and randomness: `Math.random()`, `Date.now()` and `toLocaleDateString('zh-CN')` are parameters.
- Floating point: JavaScript numbers are exact reals. IEEE rounding, Infinity and the NaN cases beyond the explicit `isNaN` tests are not modelled. `parseFloat` does not read "Infinity".
- Round2: modelled as rounding half away from zero on the exact value. The binary-decimal effects of `toFixed` are not modelled.
- ToLower: only the ASCII letters A-Z are lowered. Unicode case mapping is not modelled, and codes are ASCII.
- Ledger.AddAsset: requires that a merge's total quantity is nonzero (`MergeDefined`), because the source divides by it without a guard.
- Ledger.Merge: requires a nonzero total quantity, for the same division.
- Ledger.TotalProfit: requires no position with change -100 (`Priceable`), because the source divides by `1 + change / 100`.
- Ledger.PositionProfit: requires change other than -100, for the same division.
- Quotes.ApplyQuotes: requires that every line that parses has a field 2 that parses and is nonzero (`QuotesUsable`), because the change divides by the previous close. A field 2 that is NaN (the source then stores a NaN change) and a previous close of 0 (an infinite change) are not modelled; a negative previous close is accepted.
- Quotes.Requote: requires a previous close that is a number and nonzero (`QuoteUsable`), for the same division; the NaN and zero cases are not modelled.
- Portfolio.ProfitPercent: requires a nonzero cost, because the source divides by it.
- Portfolio.SubmitReachesLedger: requires a price, as its helper `ToNewAsset` does. A lookup whose field 3 is NaN would add a position priced NaN, and that case is not modelled.
- Portfolio.PortfolioForm.HandleCodeBlur: the lookup's result is a parameter, and the `isFetching` spinner is not modelled.
- Portfolio.PortfolioForm.HandleSubmit: a second lookup, made when no stock is stored, is also a parameter.
- Rendering: the JSX markup, the `maxLength` of the code input and the development base URL are not modelled. The other screens are not modelled either; Home.tsx is used only for its employee count.
- LilGuy.Mulberry32: keeps the low 32 bits of the closure's state. The JavaScript state grows by 0x6D2B79F5 per call without wrapping and is exact below 2^53. `StateAtIsSum` ties the two, and only the low bits reach the scramble.
- LilGuy.TraitsFromDraws: skin tone and hair colour are palette indices. The shirt's `hsl(...)` string is not built, and saturation and lightness are exact reals.
- LilGuy.DeriveTraits: the SVG drawing of the avatar is not modelled.
- Office.Scene: `employeeCount` is a natural number. The `FloatingMoney` animation, whose completion calls `removeText`, is not modelled.

## Findings

| source | as written | input that shows it | evidently intended | confidence | as-written member | corrected member |
|---|---|---|---|---|---|---|
| App.tsx:36-41 | The digits are stripped out of any code and re-prefixed whenever six remain, so an already prefixed code gets a new prefix. | "sh000001" (the Shanghai composite index) becomes "sz000001", a different security. | The comment on line 38 says prefixed codes are left alone. A code that already has "sh" or "sz" should only be lower-cased. | not executed | Ledger.FormatSinaCodeReprefixes | Ledger.FormatSinaCodeIntendedKeepsPrefix |
| App.tsx:157-181 | The settlement effect depends only on the loading flag, the daily profit and the last reward date, so React does not run it when only the calendar date changes. | The app stays open past midnight with an empty list (the simulation tick returns the same list and the loading flag is already set) or with real quotes that do not move overnight: no reward is paid until the profit changes or the page is reloaded. | A reward on the first loaded render of every new day, as the comment on line 162 ("if today's reward has not been claimed yet") describes. | not executed; medium, because whether a reward is meant for an app left open is not stated | Settlement.OvernightRewardMissed | Settlement.EveryRenderPaysOncePerDay |
