# Asset buyout calculator and registry client, in Dafny

This project models two parts of a tool that reconciles laptops, tablets and phones held in an
asset registry (Jira Assets) with their buyout prices.

- **The buyout calculator** works out an asset's buyout price. It takes the age in whole months
  since purchase and a device class (Computers, Tablets or Phones) found by a case-insensitive
  substring match on the object type name. It then looks up the depreciation rate in a fixed
  48-month table, adds 21 % VAT to the original cost rounded half-up to cents, and multiplies by
  the rate, again rounded half-up to cents. Finally it writes the derived keys into the asset
  record in place.
- **The registry client** sends every request through one retry loop. It handles:
  - 429 rate-limit answers, waiting for their Retry-After;
  - 5xx server errors, with exponential backoff capped at 32 s plus up to 10 % jitter;
  - a near-limit header, which adds a one-second cooldown;
  - at most five retries.

  On top of that loop, fetching an object and updating an object classify the answer they get.
  Fetching an object also clears the shared object cache when that object's timestamp is older
  than five minutes.

Files:

- `wrappers.dfy`: the `Option` type.
- `rounding.dfy`: `Decimal.quantize(Decimal('0.01'), ROUND_HALF_UP)` on exact rationals.
- `depreciation_table.dfy`: the rate table and its shape: 48 months in order, entries between
  10.20 % and 75.25 %, every column strictly decreasing, and Tablets equal to Phones exactly in
  months 1 to 24.
- `buyout_calculator.dfy`: age, device class, rate (a linear search proved against a
  specification function), VAT, buyout price, and the in-place update of the asset record.
- `jira_api.dfy`: the retry loop and the client. `Run` is a function of the replies the server
  gives and the jitter drawn. `Client.MakeRequest` is the loop itself, proved equal to `Run`. The
  lemmas say what `Run` does: which reply decides the call, the backoff schedule, the sleeps
  taken, and how rate limits run out. `Client.GetObject` and `Client.UpdateObject` are the
  methods that use the loop.

The network, the random generator, the sleeps and the clocks are parameters:

- the replies to the successive requests, as a sequence;
- the jitter amounts drawn, as a sequence;
- the sleeps, returned as a log;
- `today` for the calculator;
- `now` and `answeredAt` for the client.

Where the code and its own comments disagree, the model follows the code:

- The comments at buyout_calculator.py:61 and :99 say the minimum rate is for devices over 48
  months. The code caps the age at 48 first, so an age above 48 months uses the month-48 row: 10.2 % for Computers, 14.2 % for Tablets and
  11.6 % for Phones. It does not use the fixed 10.2 % minimum. The minimum applies only to an
  age of 0, which is what a missing purchase date gives (`RateBeyondTable`, `MissingPurchaseDate`).
- A 429 raises a rate-limit error straight away. The handler then sleeps exactly the Retry-After
  seconds, with no cap at 32 s and no jitter (`RateLimitNotCapped`). The capping assignment at
  jira_api.py:68 comes after that call and can never run.
- A 5xx's Retry-After is used as given, also without a cap. Its jitter is up to a tenth of that
  delay (`ServerRetryAfterNotCapped`).

## Model

| member | source | states |
|---|---|---|
| Rounding.QuantizeCents | buyout_calculator.py:112 | the result is a whole number of cents within half a cent of the input, with a half-way value going away from zero (ROUND_HALF_UP) |
| Rounding.HalfUpCents | buyout_calculator.py:112 | the cent count lies within half a cent of 100·x, and a half-way value rounds away from zero |
| Rounding.QuantizeCentsOfCents | buyout_calculator.py:112 | quantizing an amount that is already whole cents leaves it unchanged |
| Rounding.QuantizeCentsMonotone | buyout_calculator.py:143 | rounding to cents never reverses the order of two amounts |
| DepreciationTable.AllRowsWellFormed | buyout_calculator.py:8-57 | every one of the 48 rows holds its own month, keeps entries within bounds, and is strictly above the next row in each class |
| DepreciationTable.MonthsInOrder | buyout_calculator.py:8-57 | the table has 48 rows, and row i holds month i + 1 |
| DepreciationTable.RowFacts | buyout_calculator.py:8-57 | each entry lies between 10.20 % and 75.25 % |
| DepreciationTable.SharedColumns | buyout_calculator.py:8-57 | Tablets and Phones have the same entry exactly in months 1 to 24 |
| DepreciationTable.StrictlyDecreasing | buyout_calculator.py:8-57 | in each class a later month has a strictly smaller entry |
| DepreciationTable.TableShape | buyout_calculator.py:8-57 | all of the above at once, for all rows and classes |
| BuyoutCalculator.ElapsedMonths | buyout_calculator.py:75-84 | the calendar-month difference less one before the day of purchase is the largest k for which k whole months have elapsed |
| BuyoutCalculator.MonthsSincePurchase | buyout_calculator.py:64-86 | a missing date gives 0 and a present one at least 1; above 1 that many months have elapsed, and one more has not |
| BuyoutCalculator.AgeMonotone | buyout_calculator.py:64-86 | for a fixed purchase date the age never decreases as today moves later |
| BuyoutCalculator.Contains | buyout_calculator.py:127-129 | Python's `in` on strings: true exactly when some position starts an occurrence |
| BuyoutCalculator.DeviceClassOf | buyout_calculator.py:124-131 | Tablets iff the lower-cased name contains "tablet"; Phones iff it contains "phone" but not "tablet"; otherwise Computers, also for a missing or empty name |
| BuyoutCalculator.MissingCharacter | buyout_calculator.py:127-129 | a string lacking one character of the pattern does not contain it |
| BuyoutCalculator.LowerChar | buyout_calculator.py:127 | an ASCII capital becomes its small letter, 32 code points on; every other character stays; the result is never a capital |
| BuyoutCalculator.Lower | buyout_calculator.py:127 | `.lower()` keeps the length, lower-cases each ASCII capital, leaves every other character as it is, and leaves no capital |
| BuyoutCalculator.LowerIdempotent | buyout_calculator.py:127-129 | lower-casing an already lower-cased name changes nothing |
| BuyoutCalculator.TabletBeforePhone | buyout_calculator.py:126-130 | "Tablet Phone" is classed as a tablet, because "tablet" is tested first |
| BuyoutCalculator.PhoneInsideWord | buyout_calculator.py:126-130 | "Telephone" is classed as a phone, because the match is a substring match |
| BuyoutCalculator.ComputersByDefault | buyout_calculator.py:125-131 | "Laptop", an empty name and a missing name all give Computers |
| BuyoutCalculator.TableRate | buyout_calculator.py:97 | a table entry divided by 100 is a rate between 10.2 % and 75.25 % |
| BuyoutCalculator.DepreciationRate | buyout_calculator.py:89-100 | every rate lies between 10.2 % and 75.25 % |
| BuyoutCalculator.RateBeyondTable | buyout_calculator.py:92 | beyond 48 months the month-48 row applies: 10.2 %, 14.2 % and 11.6 % |
| BuyoutCalculator.RateNonIncreasing | buyout_calculator.py:89-100 | from month 1 on the rate never increases with age, and falls strictly while the age stays within the table |
| BuyoutCalculator.GetDepreciationRate | buyout_calculator.py:89-100 | the linear scan over the table for the capped month returns the specified rate, and MinimumRate when no row matches |
| BuyoutCalculator.CostWithVat | buyout_calculator.py:103-112 | a missing cost gives nothing; otherwise whole cents within half a cent of 1.21 × the cost, for either sign, with a half-way value going away from zero |
| BuyoutCalculator.CostWithVatExample | buyout_calculator.py:103-112 | 100.00 gives exactly 121.00 |
| BuyoutCalculator.CostWithVatMonotone | buyout_calculator.py:103-112 | a larger cost never gives a smaller VAT-inclusive cost |
| BuyoutCalculator.BuyoutPrice | buyout_calculator.py:143 | the buyout price is whole cents |
| BuyoutCalculator.BuyoutWithinCost | buyout_calculator.py:139-144 | for a non-negative cost and a rate in [0, 1] the buyout lies between 0 and the VAT-inclusive cost |
| BuyoutCalculator.BuyoutMonotoneInRate | buyout_calculator.py:143 | for a non-negative cost a lower rate never gives a higher buyout |
| BuyoutCalculator.BuyoutNonIncreasing | buyout_calculator.py:134-144 | for a fixed cost and class the buyout never grows as the age grows from 1 month on |
| BuyoutCalculator.Recalculated | buyout_calculator.py:115-146 | the three inputs are never written; without a cost nothing changes; otherwise age and class are always written, and the other three keys are written only when the VAT-inclusive cost is non-zero, and then all three are |
| BuyoutCalculator.RecalculatedValues | buyout_calculator.py:121-144 | the written values are the age, the class, the VAT-inclusive cost and the rate as a percentage, and the buyout lies within the cost |
| BuyoutCalculator.MissingPurchaseDate | buyout_calculator.py:68-69 | a missing purchase date gives age 0 and the 10.2 % minimum rate |
| BuyoutCalculator.RecalculatedIdempotent | buyout_calculator.py:115-146 | recalculating a second time changes nothing |
| BuyoutCalculator.Asset.constructor | buyout_calculator.py:115 | an asset dictionary holds exactly the given keys |
| BuyoutCalculator.CalculateBuyoutPrice | buyout_calculator.py:115-146 | updates the asset in place to `Recalculated` of its old contents and returns the same object |
| BuyoutCalculator.UpdateAssetCalculations | buyout_calculator.py:148-150 | the same as CalculateBuyoutPrice |
| JiraApi.HandleRateLimit | jira_api.py:46-54 | never returns normally; raises a rate-limit error with the Retry-After, or 1 when the header is absent, and fails exactly when the header is not an integer |
| JiraApi.ServerErrorDelay | jira_api.py:69-74 | a parsable Retry-After is used as given; without one the delay becomes the smaller of twice the delay and 32, so from a non-negative delay it stays in [0, 32]; an unparsable header fails |
| JiraApi.NextDelay | jira_api.py:66-74 | only a 5xx moves the delay; its Retry-After becomes the delay as given; without a Retry-After a delay in [0, 32] never shrinks and stays in [0, 32] |
| JiraApi.Attempt | jira_api.py:62-98 | one pass goes on only after a 429 or a 5xx, with a non-negative sleep, and returns the answer exactly when its status is not retried |
| JiraApi.AttemptFacts | jira_api.py:61-98 | the loop goes on only after a retryable answer, with a non-negative sleep and the next delay; a 429 goes on only before the last retry and sleeps exactly its Retry-After; a non-retried answer is returned; transport errors and unparsable headers are raised; the rate-limit error is raised exactly at the last retry |
| JiraApi.Run | jira_api.py:56-100 | at most six requests, at least one, and one sleep between consecutive requests plus one after a near-limit answer or before giving up |
| JiraApi.RunFinishes | jira_api.py:61-98 | a pass that ends the call makes a one-request run |
| JiraApi.RunContinues | jira_api.py:82-89 | a pass that goes on adds one request and one sleep in front of the rest of the run |
| JiraApi.LastReplyDecides | jira_api.py:61-100 | the call returns iff the last reply is a non-retried answer, and returns that answer; a transport error or an unparsable Retry-After comes from the last reply; giving up needs a 5xx as the sixth answer, while a 429 there is raised as a rate-limit error |
| JiraApi.RetriedReplyRetryable | jira_api.py:66-74 | any request of a run other than the last got a 429 or a 5xx |
| JiraApi.RetriedRepliesRetryable | jira_api.py:66-74 | every request of a run before the last one got a 429 or a 5xx |
| JiraApi.DelayAt | jira_api.py:58-74 | the backoff delay in force once a stretch of replies has been seen; `DelayUnchanged` and `DelayCapped` state its properties |
| JiraApi.DelayUnchanged | jira_api.py:66-74 | replies that are not 5xx answers leave the backoff delay as it was |
| JiraApi.DelayCapped | jira_api.py:69-74 | without a Retry-After the backoff delay never leaves [0, 32] |
| JiraApi.AttemptSleepFits | jira_api.py:79-94 | the sleep a pass takes is the Retry-After for a 429, between the delay and 1.1 × the delay for a 5xx, and 1 s after a near-limit answer |
| JiraApi.SleepFitsAt | jira_api.py:79-94 | the i-th sleep of a run fits the reply it followed and the backoff delay current at that request |
| JiraApi.SleepsFollowReplies | jira_api.py:79-94 | every sleep of a run fits the reply it followed and the backoff delay current at that request |
| JiraApi.ReturnsAtOnce | jira_api.py:75-80 | a non-retried first answer is returned after one request, with a 1 s sleep only when the limit is near |
| JiraApi.ServerErrorsExhaustRetries | jira_api.py:69-74 | 5xx answers without Retry-After, from a non-negative delay, end in "max retries exceeded" |
| JiraApi.DoublingDelays | jira_api.py:74 | six 5xx answers without Retry-After take the delay from 1 to 2, 4, 8, 16, 32 and 32 |
| JiraApi.BackoffSleep | jira_api.py:83-87 | after a 5xx without Retry-After the sleep lies between the current delay and 1.1 × that delay |
| JiraApi.BackoffSchedule | jira_api.py:56-100 | six such answers make six requests, sleep 2, 4, 8, 16, 32 and 32 s plus at most a tenth more, and end in "max retries exceeded" |
| JiraApi.RateLimitsExhaustRetries | jira_api.py:91-95 | 429 answers only: every sleep is exactly the previous answer's Retry-After, and the sixth answer's rate-limit error is raised |
| JiraApi.RateLimitNotCapped | jira_api.py:66-68 | a 429 asking for 120 s is slept for 120 s, and the next answer is returned |
| JiraApi.ServerRetryAfterNotCapped | jira_api.py:69-72 | a 503 asking for 120 s is followed by a sleep between 120 s and 132 s, and the next answer is returned |
| JiraApi.ObjectResult | jira_api.py:113-123 | an object comes back iff the call returned a non-404 JSON answer that names its object type, and it is that JSON |
| JiraApi.StampPrecedesTypeCheck | jira_api.py:116-121 | every object returned was stamped, and a stamped answer yields nothing exactly when its type is missing |
| JiraApi.Expired | jira_api.py:106-107 | an object without a timestamp never expires; one expires from 301 s after its timestamp on and not before |
| JiraApi.ExpiredStaysExpired | jira_api.py:106-107 | an expired timestamp stays expired as the clock moves on |
| JiraApi.UpdateResult | jira_api.py:179-188 | the JSON comes back iff the call returned a 200 or 201 JSON answer |
| JiraApi.Client.constructor | jira_api.py:26-27 | a new client starts with no timestamps and an empty cache |
| JiraApi.Client.Pass | jira_api.py:62-87 | one pass of the loop body, as a method, computes the step of `Attempt`, so `AttemptFacts` gives its properties |
| JiraApi.Client.MakeRequest | jira_api.py:56-100 | the retry loop returns the outcome, the number of requests and the sleeps of `Run` |
| JiraApi.Client.GetObject | jira_api.py:102-127 | returns `ObjectResult` of the call; stamps the object with the answer time exactly when the answer is a non-404 JSON body; clears the cache exactly when the old stamp is more than 300 s old |
| JiraApi.Client.UpdateObject | jira_api.py:153-188 | sends the attributes and type id with an empty avatar, and returns `UpdateResult` of the call |

## Left out

- search_objects (jira_api.py:129-151) only forwards the loop's answer as JSON. Its request
  parameters are HTTP details.
- `_get_object_cached` and its lru_cache are not modelled. The cache appears only as the
  `cachedObjects` map that get_object clears. get_object never reads it: its request goes
  straight through the retry loop.
- HTTP, URLs, authentication, JSON parsing and logging are left out. A response is a status, the
  two headers the loop reads, and a body that is either JSON with an optional object type id or
  not JSON. A JSON body that is not an object is not modelled.
- The X-RateLimit-Reset header is only logged, so it is left out.
- `date.today()` and `time()` are parameters. GetObject reads the clock twice: `now` for the
  expiry check and `answeredAt` for the stamp.
- `random.uniform(0, 0.1) * delay` is given as the jitter amounts. `JitterFits` says which
  amounts it can produce, and only the lemmas about sleep lengths assume it.
- The replies and the jitter amounts are given as sequences of at least six elements, one per
  possible request. Elements past the last request are never read.
- `datetime.strptime` is not modelled, and neither is its failure on a malformed date. The
  purchase date arrives already parsed, or missing when the key is absent or empty.
- `Decimal(original_cost)` is not modelled, and neither is its failure on a malformed number.
  The cost arrives as a number, or missing when the key is absent or empty.
- Decimal values are exact rationals. The 28-digit context precision of Python's decimal module
  is not modelled.
- Table entries are stored as exact hundredths of a percent. The binary floating-point division
  `rate / 100` and its `str()` rendering are taken to give the exact decimal.
- The keys are stored as values, not as their string renderings: cost_with_vat as its amount, and
  depreciation_rate as the percentage instead of the text `f"{rate * 100}%"`.
- Lower: only ASCII letters are lower-cased. Python's full Unicode lower() is not modelled.
- jira_client.py, main.py and config.py are not part of this model.
