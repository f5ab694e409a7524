# Wait utilities and test-data builders of python-playwright-framework, in Dafny

This project models the two small pieces of real logic in the framework's
`utils` package.

- **The polling and retry engine** (`utils/wait_utils.py`). It covers
  `wait_for_condition`, the wrapper loop of `retry_on_exception`,
  `wait_until_stable`, `wait_for_any` and `wait_for_all`.
  - Each loop becomes a terminating recursive function. The three loops
    that poll a list of conditions share one engine, `PollRounds`, driven by
    what each round decides.
  - Wall-clock time is a caller-supplied sequence of readings,
    `clock: nat -> real`. Each `time.time()` call of one wait is one reading,
    and each `time.sleep(poll_interval)` advances the next reading by at
    least the poll interval (module `Clock`).
  - Each call of a caller-supplied callable is an input outcome, `Ok(value)` or
    `Raised(error)`, indexed by the polling round or retry attempt in which it
    is made (module `Outcomes`).
  - An exception a condition raises records whether its class derives from
    `Exception`. The polling loops' `except Exception` clauses catch those.
    Exceptions that derive only from `BaseException`, such as
    `KeyboardInterrupt` and `SystemExit`, pass through and end the wait.
  - A wait's result records what it returned or raised, and how many rounds
    it entered. That makes "the first round in which …" and "no call after …"
    statable.
- **The test-data builders** (`utils/test_data_builder.py`). It covers the
  `User`, `Product` and `Order` records, `User.full_name`,
  `Order.calculate_total`, the three fluent builders and the `create_*`
  convenience functions.
  - Each builder is an immutable datatype, and each setter is a function
    returning the updated builder.
  - The `DataGenerator` defaults a fresh builder draws are input records:
    `UserDraws`, `ProductDraws`, and the random suffix of the order id.
    Module `Draws` states which strings `random_string` can return.
  - Chains of setter calls are sequences of step values, so "the last call
    wins" and "only `out_of_stock` clears availability" are lemmas over all
    chains.

Modules:

| file | module | contents |
|---|---|---|
| outcomes.dfy | `Outcomes` | call outcomes, exceptions and their class, wait and retry results |
| clock.dfy | `Clock` | the abstract clock of a polling loop and of the stabilisation loop; the termination budget |
| decimal.dfy | `Decimal` | decimal rendering of the timeout in error messages |
| text.dfy | `Text` | Python's `str.strip()` with `str.isspace` |
| wait_utils.dfy | `WaitUtils` | the five loops, their default arguments and their properties |
| draws.dfy | `Draws` | the strings `random_string` draws for the builders |
| users.dfy | `Users` | `User`, `full_name`, `UserBuilder`, `create_*_user` |
| products.dfy | `Products` | `Product`, `ProductBuilder`, `create_sample_product` |
| orders.dfy | `Orders` | `Order`, `calculate_total`, `OrderBuilder`, `create_order_with_products` |

Facts about the code that the model follows:

- `wait_for_all` does not evaluate every condition in a round. It stops at the
  first condition that returns False or raises.
- `retry_on_exception` accepts `max_attempts < 1`. It then returns None
  without calling the function.
- It retries only exceptions matching its `exceptions` filter. Any other
  exception escapes at once.
- After failed attempt k it sleeps `delay * backoff^(k-1)`, so the sleep
  before attempt 3 is `delay * backoff`.
- The sleeps grow only when `backoff > 1` and `delay > 0`.

## Model

| member | source | states |
|---|---|---|
| WaitUtils.PollRounds | python-playwright-framework/utils/wait_utils.py:41-50 | The polling loop from any round on. Every round it enters began before the deadline. Every round but the last polled again. A returned value or an escaping exception is what the last round decided. A timeout comes from a failed loop check, with no entered round having decided. |
| WaitUtils.PollRoundsDecideBy | python-playwright-framework/utils/wait_utils.py:41-48 | A round begun before the deadline that does not poll again ends the loop by then: no later round is entered and there is no timeout. |
| WaitUtils.PollRoundsSeeOnlySteps | python-playwright-framework/utils/wait_utils.py:41-50 | Two loops whose rounds decide alike give the same result and round count. |
| WaitUtils.ConditionStep | python-playwright-framework/utils/wait_utils.py:42-46 | A round of wait_for_condition returns True exactly when the call returned True. It ends the wait with the exception exactly when the call raised one whose class does not derive from `Exception`. Otherwise it polls again. |
| WaitUtils.WaitForCondition | python-playwright-framework/utils/wait_utils.py:39-50 | Returns True in the first round whose loop check found less than `timeout` elapsed and whose condition call returned True. Every earlier round's call returned False or raised an `Exception`. A raised exception that is not an `Exception` ends the wait, unchanged. Otherwise raises TimeoutError with `"{error_message} (timeout: {timeout}s)"` once a loop check finds the deadline passed. With timeout <= 0 it raises before any call. |
| WaitUtils.WaitForConditionSucceedsByFirstTrue | python-playwright-framework/utils/wait_utils.py:41-46 | If the condition returns True in any round begun before the deadline, and no call before it raised a non-`Exception`, the wait returns True in that round or earlier, and makes no calls after it. |
| WaitUtils.WaitForConditionSwallowsExceptions | python-playwright-framework/utils/wait_utils.py:42-46 | A call that raises an `Exception` behaves exactly like one returning False. The whole result, round count included, is the same when every such exception is replaced by False. Other exceptions are left in place. |
| WaitUtils.WaitForConditionCallsBounded | python-playwright-framework/utils/wait_utils.py:41-48 | The condition is called at most once per poll interval of the timeout, plus once. |
| WaitUtils.RoundsStopForGood | python-playwright-framework/utils/wait_utils.py:41 | Once a loop check finds the deadline passed, every later check would too, on a clock that never goes back. |
| WaitUtils.StartedRoundsFitTimeout | python-playwright-framework/utils/wait_utils.py:41-48 | A polling loop enters round k only if k poll intervals fit strictly inside the timeout. |
| Clock.ChecksSpreadOut | python-playwright-framework/utils/wait_utils.py:41-48 | With a sleep of at least the poll interval between loop checks, check k comes at least k intervals after the first. |
| Clock.StableChecksSpreadOut | python-playwright-framework/utils/wait_utils.py:126-129 | In the stabilisation loop, round k's loop check comes at least k poll intervals after the initial stability start. |
| Clock.BudgetShrinks | python-playwright-framework/utils/wait_utils.py:41-48 | A sleep of at least the poll interval strictly lowers the bound on the loop checks still possible before the deadline, so every polling loop terminates. |
| Decimal.IntToStringRoundTrip | python-playwright-framework/utils/wait_utils.py:50 | The timeout's decimal rendering in the error message is well formed and reads back as the same integer. |
| Decimal.NatToString | python-playwright-framework/utils/wait_utils.py:50 | A natural number renders as at least one digit, with a leading zero only for zero itself. |
| Decimal.IntToString | python-playwright-framework/utils/wait_utils.py:50 | An int renders with a minus sign exactly when it is negative, followed by digits without a leading zero. A non-negative one starts with '0' exactly when it is zero. |
| Decimal.ParseNatToString | python-playwright-framework/utils/wait_utils.py:50 | Reading back a natural number's rendering gives the number. |
| WaitUtils.RetryOnException | python-playwright-framework/utils/wait_utils.py:76-91 | The wrapper makes at most `max_attempts` calls and returns the first returned value unchanged. Every earlier call raised an exception the `exceptions` filter catches. An exception escapes only from the last allowed attempt, or at once when the filter does not catch it. After failed attempt k+1 it sleeps `delay * backoff^k`, and nothing else. With `max_attempts < 1` it returns None, and that is the only way the wrapper returns without calling the function. |
| WaitUtils.RetryFrom | python-playwright-framework/utils/wait_utils.py:80-91 | The retry loop from any attempt on, with the delay it carries. It gives the same guarantees, and the sleeps are the geometric schedule from that delay. |
| WaitUtils.RetrySleepsGrowGeometrically | python-playwright-framework/utils/wait_utils.py:89-90 | Each sleep is the previous one times `backoff`. With a positive delay and `backoff > 1`, they strictly grow. |
| WaitUtils.RetryExhaustedRaisesLast | python-playwright-framework/utils/wait_utils.py:83-85 | When every attempt raises a caught exception, all `max_attempts` attempts are made, and the exception of the last one, not an earlier one, is raised. |
| WaitUtils.RetryTwoFailuresThenSuccess | python-playwright-framework/utils/wait_utils.py:80-91 | With three attempts, two caught failures then a return give back that value after exactly the sleeps `delay` and `delay * backoff`. |
| WaitUtils.BackoffClosedForm | python-playwright-framework/utils/wait_utils.py:78-90 | Repeatedly multiplying the delay by `backoff` makes the k-th delay `delay * backoff^k`. |
| WaitUtils.BackoffIndexed | python-playwright-framework/utils/wait_utils.py:78-90 | The same, for every index of the schedule at once. |
| WaitUtils.BackoffLength | python-playwright-framework/utils/wait_utils.py:89-91 | n failed, retried attempts give n delays. |
| WaitUtils.PowerPositive | python-playwright-framework/utils/wait_utils.py:90 | A positive backoff factor keeps every delay multiplier positive. |
| WaitUtils.WaitUntilStable | python-playwright-framework/utils/wait_utils.py:124-141 | Takes one sample before looping. An exception from any sample, that first one included, escapes unchanged, and no sample before it raised. The loop returns the sample of the first round that finds the value settled, and only such a round returns. Settled means the sample equals the previous one, and at least `stability_time` has passed since the value last changed. Otherwise it raises TimeoutError("Value did not stabilize within {timeout}s") once a loop check finds the deadline passed. |
| WaitUtils.StableRounds | python-playwright-framework/utils/wait_utils.py:128-141 | The loop from any round on, carrying `last_value` and `stable_since`. Every entered round began before the deadline. A returned value is the sample of the last round. A propagated exception is that round's sample's. A timeout comes from a failed loop check. |
| WaitUtils.StableRoundsStopAtFirstSettled | python-playwright-framework/utils/wait_utils.py:132-139 | Among the rounds the loop enters, a round finds the value settled exactly when the loop returns in that round. |
| WaitUtils.StableStep | python-playwright-framework/utils/wait_utils.py:130-139 | An unchanged sample keeps the stability start. A changed one resets the start to the reading after that sample and becomes the new last value. |
| WaitUtils.StableSinceIsLastChange | python-playwright-framework/utils/wait_utils.py:126-139 | The stability start the loop holds is the reading right after the latest sample that differs from its predecessor, or the reading after the first sample. All samples since then are equal. |
| WaitUtils.WaitUntilStableNeverSettles | python-playwright-framework/utils/wait_utils.py:132-141 | A value that changes at every sample never stabilises. The wait ends in TimeoutError. |
| WaitUtils.WaitUntilStableReturnsWhenSettled | python-playwright-framework/utils/wait_utils.py:128-135 | If a round begun before the deadline finds the value settled, and no sample up to it raised, the wait returns a stable value, in that round or an earlier one. |
| WaitUtils.StableRoundsFitTimeout | python-playwright-framework/utils/wait_utils.py:128-129 | The stabilisation loop enters round k only if k poll intervals fit strictly inside the timeout. |
| WaitUtils.WaitUntilStableCallsBounded | python-playwright-framework/utils/wait_utils.py:125-139 | After its first sample, wait_until_stable samples at most once per poll interval of the timeout, plus once. |
| WaitUtils.FirstHoldingOrEscaping | python-playwright-framework/utils/wait_utils.py:175-180 | One round's scan of wait_for_any stops at the lowest index from i on whose call returned True or raised a non-`Exception`. Every condition before it returned False or raised an `Exception`. None means every call did. |
| WaitUtils.AnyStep | python-playwright-framework/utils/wait_utils.py:175-182 | A round of wait_for_any returns an index whose call returned True, with every earlier call returning False or raising an `Exception`. Or it ends the wait with a non-`Exception` raised by a condition it called. Or, when every call returned False or raised an `Exception`, it polls again. |
| WaitUtils.WaitForAny | python-playwright-framework/utils/wait_utils.py:172-184 | Returns an index in `[0, len(conditions))`. The returned condition returned True in the last round entered, and every lower index returned False or raised an `Exception` there. In every earlier round, every call returned False or raised an `Exception`. A non-`Exception` from a called condition ends the wait. Otherwise raises TimeoutError("None of the conditions were met within timeout"). |
| WaitUtils.WaitForAnyEmptyTimesOut | python-playwright-framework/utils/wait_utils.py:174-184 | With no conditions, wait_for_any always times out. |
| WaitUtils.WaitForAnyFindsHolding | python-playwright-framework/utils/wait_utils.py:174-178 | If condition i returns True in a round begun before the deadline, and no call the scan made up to then raised a non-`Exception`, the wait succeeds in that round or earlier. In that round, the index is at most i. |
| WaitUtils.FirstHoldingOrEscapingSeesOnlyCalled | python-playwright-framework/utils/wait_utils.py:175-180 | One round's scan depends only on what the conditions it reaches do, as far as the loop can tell them apart. |
| WaitUtils.WaitForAnySeesOnlyCalled | python-playwright-framework/utils/wait_utils.py:175-182 | The result depends only on whether each condition the scan reaches returns True or lets an exception through. Raising an `Exception` is the same as False, and the scan goes on past it. Conditions after the one that ends a round have no influence. |
| WaitUtils.FirstFailing | python-playwright-framework/utils/wait_utils.py:216-223 | One round's scan of wait_for_all finds the first condition from i on that returned False or raised, with every earlier one True. None means every condition returned True. |
| WaitUtils.AllStep | python-playwright-framework/utils/wait_utils.py:214-228 | A round of wait_for_all returns True only when every condition returned True. It ends the wait with a non-`Exception` raised by a condition it called. Otherwise a condition it called returned False or raised an `Exception`, and it polls again. |
| WaitUtils.WaitForAll | python-playwright-framework/utils/wait_utils.py:211-230 | Returns True only in a round in which every condition returned True. In every earlier round, a condition the round called returned False or raised an `Exception`. A non-`Exception` from a called condition ends the wait. Otherwise raises TimeoutError("Not all conditions were met within timeout"). |
| WaitUtils.WaitForAllEmptySucceeds | python-playwright-framework/utils/wait_utils.py:213-226 | With no conditions, the wait returns True in its first round whenever that round begins before the deadline. |
| WaitUtils.HoldingRoundDecides | python-playwright-framework/utils/wait_utils.py:214-226 | A round in which every condition returned True neither polls again nor lets an exception through. |
| WaitUtils.QuietRoundLetsNothingThrough | python-playwright-framework/utils/wait_utils.py:216-223 | A round in which no call the scan made raised a non-`Exception` lets no exception through. Conditions after the first failing one are never called, so they may raise anything. |
| WaitUtils.WaitForAllFindsAllHolding | python-playwright-framework/utils/wait_utils.py:213-226 | If every condition returns True in a round begun before the deadline, and no call the scans made before then raised a non-`Exception`, the wait returns True in that round or earlier. |
| WaitUtils.FirstFailingSeesOnlyCalled | python-playwright-framework/utils/wait_utils.py:216-223 | One round's scan depends only on what the conditions it reaches do. |
| WaitUtils.WaitForAllSeesOnlyCalled | python-playwright-framework/utils/wait_utils.py:216-228 | A round stops at the first condition that returns False or raises: later conditions in that round have no influence on the result, and raising an `Exception` is the same as False. |
| WaitUtils.DefaultConditionTimeoutMessage | python-playwright-framework/utils/wait_utils.py:13-15 | With its defaults, wait_for_condition times out with "Condition not met within timeout (timeout: 30s)". |
| WaitUtils.WaitForConditionDefaultCallsAtMost60 | python-playwright-framework/utils/wait_utils.py:13-14 | With the default 30-second timeout and half-second poll interval, the condition is called at most 60 times. |
| WaitUtils.WaitUntilStableDefaultCallsAtMost20 | python-playwright-framework/utils/wait_utils.py:99-101 | With the default 10-second timeout and half-second poll interval, wait_until_stable samples at most 20 times after its first sample. |
| WaitUtils.RetryDefaultsExhausted | python-playwright-framework/utils/wait_utils.py:54-57 | With the default three attempts, one-second delay, backoff 2 and `(Exception,)` filter, a function that always raises an `Exception` is called three times, sleeps 1 and 2 seconds, and the third exception escapes. |
| WaitUtils.RetryDefaultsLetBaseExceptionsThrough | python-playwright-framework/utils/wait_utils.py:57 | The default filter `(Exception,)` does not catch an exception that is not an `Exception`: it escapes from the first attempt, with no sleep. |
| Text.IsSpace | python-playwright-framework/utils/test_data_builder.py:27 | Among ASCII characters, exactly tab, line feed, vertical tab, form feed, carriage return, the four information separators and space count as whitespace. |
| Text.Strip | python-playwright-framework/utils/test_data_builder.py:27 | `str.strip()` returns a slice of the text with no whitespace at either end, and everything cut off before and after it is whitespace. |
| Text.TrimStart | python-playwright-framework/utils/test_data_builder.py:27 | Dropping leading whitespace leaves a suffix of the text. Everything dropped is whitespace, and what is left does not start with whitespace. |
| Text.TrimEnd | python-playwright-framework/utils/test_data_builder.py:27 | The mirror image of TrimStart for trailing whitespace. |
| Text.StripEmptyIffBlank | python-playwright-framework/utils/test_data_builder.py:27 | Stripping leaves nothing exactly when the text is all whitespace. |
| Text.StripIdempotent | python-playwright-framework/utils/test_data_builder.py:27 | Stripping twice is stripping once. |
| Text.TrimmedIsFixed | python-playwright-framework/utils/test_data_builder.py:27 | Text without whitespace at its ends is left unchanged. |
| Text.AllSpaceConcat | python-playwright-framework/utils/test_data_builder.py:27 | Two texts joined are all whitespace exactly when both are. |
| Text.TrimStartAppend | python-playwright-framework/utils/test_data_builder.py:27 | Leading whitespace of text that is not blank is unaffected by what follows it. |
| Text.StripDropsSpaceSuffix | python-playwright-framework/utils/test_data_builder.py:27 | Appending whitespace makes no difference once stripped. |
| Text.TrimEndDropsSpaceSuffix | python-playwright-framework/utils/test_data_builder.py:27 | Appending whitespace makes no difference to trailing-whitespace removal. |
| Text.StripDropsSpacePrefix | python-playwright-framework/utils/test_data_builder.py:27 | Prepending whitespace makes no difference once stripped. |
| Users.FullName | python-playwright-framework/utils/test_data_builder.py:26-27 | The full name is a slice of "first last" with no whitespace at its ends, and everything cut off around it is whitespace. |
| Users.FullNameJoinsNames | python-playwright-framework/utils/test_data_builder.py:26-27 | Two non-empty names without surrounding whitespace are joined by exactly one space. |
| Users.FullNameOfJohnDoe | python-playwright-framework/utils/test_data_builder.py:26-27 | "John" and "Doe" give "John Doe". |
| Users.FullNameOfBlankLastName | python-playwright-framework/utils/test_data_builder.py:26-27 | A blank last name leaves the stripped first name, with no trailing space. |
| Users.FullNameOfBlankFirstName | python-playwright-framework/utils/test_data_builder.py:26-27 | A blank first name leaves the stripped last name, with no leading space. |
| Users.FullNameEmptyIffBlankNames | python-playwright-framework/utils/test_data_builder.py:26-27 | The full name is empty exactly when both names are blank. |
| Users.NewUserBuilder | python-playwright-framework/utils/test_data_builder.py:71-82 | A fresh builder holds the drawn email, password, names, phone, address, city and zip code, with country "USA", role "user" and active. |
| Users.WithEmail | python-playwright-framework/utils/test_data_builder.py:84-87 | Sets the email and leaves every other field unchanged. |
| Users.WithPassword | python-playwright-framework/utils/test_data_builder.py:89-92 | Sets the password and leaves every other field unchanged. |
| Users.WithName | python-playwright-framework/utils/test_data_builder.py:94-98 | Sets first and last name and leaves every other field unchanged. |
| Users.WithPhone | python-playwright-framework/utils/test_data_builder.py:100-103 | Sets the phone and leaves every other field unchanged. |
| Users.WithAddress | python-playwright-framework/utils/test_data_builder.py:105-113 | Always sets address and country. City and zip code change only for a non-empty value, and an empty one keeps the current value. Nothing else changes. |
| Users.WithAddressDefaults | python-playwright-framework/utils/test_data_builder.py:105-113 | Called with only a street, it changes the address and resets the country to "USA", and nothing else. |
| Users.WithRole | python-playwright-framework/utils/test_data_builder.py:115-118 | Sets the role and leaves every other field unchanged. |
| Users.AsAdmin | python-playwright-framework/utils/test_data_builder.py:120-123 | Sets role "admin" and leaves every other field unchanged. |
| Users.AsGuest | python-playwright-framework/utils/test_data_builder.py:125-128 | Sets role "guest" and leaves every other field unchanged. |
| Users.Active | python-playwright-framework/utils/test_data_builder.py:130-133 | Sets the active flag and leaves every other field unchanged. |
| Users.ActiveDefaultActivates | python-playwright-framework/utils/test_data_builder.py:130 | `active()` called without an argument makes the built user active. |
| Users.Build | python-playwright-framework/utils/test_data_builder.py:135-149 | Each of the eleven fields of the built user is the builder's. |
| Users.ApplyFollowsWrites | python-playwright-framework/utils/test_data_builder.py:84-133 | Every setter changes exactly the fields its entry in the ownership table names, to the value given there. |
| Users.ApplyAllLastWriteWins | python-playwright-framework/utils/test_data_builder.py:84-133 | After any chain of setter calls, each field holds what the last call writing it stored, or its value before the chain. |
| Users.EndingAsAdminBuildsAdmin | python-playwright-framework/utils/test_data_builder.py:115-123 | A chain ending in `as_admin` builds a user with role "admin", whatever `with_role` or `as_guest` calls came before. |
| Users.CreateStandardUser | python-playwright-framework/utils/test_data_builder.py:301-303 | A user with role "user", active, country "USA", and every drawn value: email, password, names, phone, address, city and zip code. |
| Users.StandardZipIsNumeric | python-playwright-framework/utils/test_data_builder.py:79 | A standard user's zip code, drawn as intended, is five digits. |
| Users.CreateAdminUser | python-playwright-framework/utils/test_data_builder.py:306-308 | The standard user from the same draws, except that the role is "admin". |
| Users.CreateGuestUser | python-playwright-framework/utils/test_data_builder.py:311-313 | The standard user from the same draws, except that the role is "guest". |
| Products.NewProductBuilder | python-playwright-framework/utils/test_data_builder.py:165-173 | A fresh builder holds a "Product-" name, the drawn price, description and SKU, category "General", stock 100, available, and the placeholder image. |
| Products.WithName | python-playwright-framework/utils/test_data_builder.py:175-178 | Sets the name and leaves every other field unchanged. |
| Products.WithPrice | python-playwright-framework/utils/test_data_builder.py:180-183 | Sets the price and leaves every other field unchanged. |
| Products.WithDescription | python-playwright-framework/utils/test_data_builder.py:185-188 | Sets the description and leaves every other field unchanged. |
| Products.InCategory | python-playwright-framework/utils/test_data_builder.py:190-193 | Sets the category and leaves every other field unchanged. |
| Products.WithSku | python-playwright-framework/utils/test_data_builder.py:195-198 | Sets the SKU and leaves every other field unchanged. |
| Products.WithStock | python-playwright-framework/utils/test_data_builder.py:200-203 | Sets the stock and leaves availability and every other field unchanged. |
| Products.OutOfStock | python-playwright-framework/utils/test_data_builder.py:205-209 | Sets stock 0 and not available, and changes no other field. |
| Products.WithImage | python-playwright-framework/utils/test_data_builder.py:211-214 | Sets the image URL and leaves every other field unchanged. |
| Products.Build | python-playwright-framework/utils/test_data_builder.py:216-227 | Each of the eight fields of the built product is the builder's. |
| Products.CreateSampleProduct | python-playwright-framework/utils/test_data_builder.py:316-318 | A default product in the given category: 100 in stock, available, with the drawn name, price, description and SKU, and the placeholder image. |
| Products.SampleProductDefaultCategory | python-playwright-framework/utils/test_data_builder.py:316 | Without a category, the sample product is a fresh builder's product in category "Electronics". |
| Products.DefaultPriceInRange | python-playwright-framework/utils/test_data_builder.py:167 | A default product's price lies in the drawn range, 10 to 1000. |
| Products.DefaultSkuIsUpperAlnum | python-playwright-framework/utils/test_data_builder.py:170 | A default product's SKU, drawn as intended, is ten upper-case letters and digits. |
| Products.AvailableUnlessMarkedOut | python-playwright-framework/utils/test_data_builder.py:200-209 | Starting from an available builder, the built product is available exactly when no call in the chain was `out_of_stock`, whatever stock was set afterwards. |
| Products.StockIsLastStockCall | python-playwright-framework/utils/test_data_builder.py:200-209 | The built stock is that of the chain's last `with_stock` call, or 0 if the last stock-setting call was `out_of_stock`, or the starting stock. |
| Orders.TotalPrice | python-playwright-framework/utils/test_data_builder.py:55 | With no negative price, the sum of the prices is not negative. |
| Orders.TotalPriceIsPriceSum | python-playwright-framework/utils/test_data_builder.py:55 | Adding the prices from the first product on gives the same exact sum as adding them from the last product back. |
| Orders.TotalPriceCoversEachPrice | python-playwright-framework/utils/test_data_builder.py:55 | With no negative price, the sum is at least each single price. |
| Orders.CalculateTotal | python-playwright-framework/utils/test_data_builder.py:54-55 | The order's total is the sum of its product prices. With no negative price it is not negative and at least each single price. |
| Orders.TotalPriceAppend | python-playwright-framework/utils/test_data_builder.py:54-55 | The total of two product lists put together is the sum of their totals. |
| Orders.TotalPriceBounds | python-playwright-framework/utils/test_data_builder.py:54-55 | With every price between lo and hi, n products total between n*lo and n*hi. |
| Orders.NewOrderBuilder | python-playwright-framework/utils/test_data_builder.py:243-249 | A fresh builder has a standard user from the draws, no products, an "ORD-" id with the drawn suffix, status "pending", no shipping address of its own, and payment "credit_card". |
| Orders.NewOrderIdIsNumeric | python-playwright-framework/utils/test_data_builder.py:246 | With the suffix drawn as intended, a fresh order id is "ORD-" followed by eight digits. |
| Orders.ForUser | python-playwright-framework/utils/test_data_builder.py:251-254 | Sets the user and leaves every other field unchanged. |
| Orders.WithProducts | python-playwright-framework/utils/test_data_builder.py:256-259 | Replaces the product list and leaves every other field unchanged. |
| Orders.AddProduct | python-playwright-framework/utils/test_data_builder.py:261-264 | Puts the product at the end and keeps the earlier products in order. Nothing else changes. |
| Orders.WithOrderId | python-playwright-framework/utils/test_data_builder.py:266-269 | Sets the order id and leaves every other field unchanged. |
| Orders.WithStatus | python-playwright-framework/utils/test_data_builder.py:271-274 | Sets the status and leaves every other field unchanged. |
| Orders.WithShippingAddress | python-playwright-framework/utils/test_data_builder.py:276-279 | Sets the shipping address and leaves every other field unchanged. |
| Orders.WithPaymentMethod | python-playwright-framework/utils/test_data_builder.py:281-284 | Sets the payment method and leaves every other field unchanged. |
| Orders.Build | python-playwright-framework/utils/test_data_builder.py:286-297 | The order carries the builder's user, products, id, status and payment method. Its total is its own `calculate_total`. It ships to the builder's address when that is non-empty, and to the user's address otherwise. |
| Orders.EmptyOrderTotalsZero | python-playwright-framework/utils/test_data_builder.py:286-297 | An order built with no products totals 0. |
| Orders.AddProductAddsPrice | python-playwright-framework/utils/test_data_builder.py:261-264 | Adding a product raises the built order's total by exactly that product's price. |
| Orders.AddAllAppends | python-playwright-framework/utils/test_data_builder.py:261-264 | A chain of `add_product` calls appends the products in call order after those already there. The built total grows by their sum. |
| Orders.DefaultProducts | python-playwright-framework/utils/test_data_builder.py:323 | n default products, the i-th built by a fresh `ProductBuilder` from the i-th draw. |
| Orders.CreateOrderWithProducts | python-playwright-framework/utils/test_data_builder.py:321-324 | An order for the given user with exactly `product_count` default products, none when the count is not positive. Its total is the sum of their prices. It is pending, paid by credit card, and ships to the user's address. |
| Orders.DefaultOrderHasThreeProducts | python-playwright-framework/utils/test_data_builder.py:321-324 | Without a count, the order holds three default products and, with every drawn price in range, costs between 30 and 3000. |
| Orders.DefaultProductsTotalInRange | python-playwright-framework/utils/test_data_builder.py:321-324 | With every drawn price in range, n default products total between 10n and 1000n. |
| Orders.CreatedOrderTotalInRange | python-playwright-framework/utils/test_data_builder.py:321-324 | With every drawn price in range, an order of n default products costs between 10n and 1000n. |
| Draws.DigitCharsAreDigits | python-playwright-framework/utils/test_data_builder.py:246 | A character is in "0123456789" exactly when it is a decimal digit. |
| Draws.UpperAlnumCharsAreUpperAlnum | python-playwright-framework/utils/test_data_builder.py:170 | A character is in the SKU alphabet exactly when it is an upper-case letter or a digit. |

## Findings

| source | as written | input that shows it | evidently intended | confidence | as-written member | corrected member |
|---|---|---|---|---|---|---|
| python-playwright-framework/utils/test_data_builder.py:246 | `random_string(8, '0123456789')` passes the digits as the `include_special` flag, which a non-empty string makes true, so the order id suffix is drawn from letters, digits and punctuation | the suffix "ab!?1234" is a possible draw | eight decimal digits | high, not executed | Draws.OrderIdDrawAsWrittenNotDigits | Draws.OrderIdDrawIsNumeric |
| python-playwright-framework/utils/test_data_builder.py:79 | `random_string(5, "0123456789")` does the same for the zip code | the zip code "9x#10" is a possible draw | five decimal digits | high, not executed | Draws.ZipDrawAsWrittenNotDigits | Draws.ZipDrawIsNumeric |
| python-playwright-framework/utils/test_data_builder.py:170 | `random_string(10, "ABC…XYZ0123456789")` does the same for the SKU | the SKU "abc-DEF123" is a possible draw | ten upper-case letters and digits | high, not executed | Draws.SkuDrawAsWrittenNotUpperAlnum | Draws.SkuDrawIsUpperAlnum |

`random_string` itself belongs to `utils/data_generator.py`, which is not
part of this model. Its signature and alphabet are taken from there:
`random_string(length, include_special)` draws from letters and digits, and
adds the punctuation `!@#$%^&*()_+-=[]{}|;:,.<>?` when the flag is true.
The builders take their draws as inputs. `Orders.NewOrderIdIsNumeric`,
`Users.StandardZipIsNumeric` and `Products.DefaultSkuIsUpperAlnum` state the
intended shape of the drawn values.

## Left out

- `SmartWait` (`utils/wait_utils.py:233-286`) is not part of this model. Its visibility checks call the browser library, and its other checks only delegate to `wait_for_condition`.
- The two console `print`s of the retry wrapper (`utils/wait_utils.py:87-88`) are output only, and are not modelled.
- Real time is not modelled. `time.time()` is the clock-reading sequence, and `time.sleep` is the least gap it guarantees between readings. Time spent inside the callables, and an upper bound on how late a wait ends, are not modelled.
- The clock is assumed monotone, as the predicates `Clock.Monotone`, `Clock.PollClock` and `Clock.StableClock` state. `time.time()` is wall-clock time and can step backwards. Termination of every loop, and the facts that each entered round began before the deadline and that one failed check ends the loop, rest on that assumption.
- Float arithmetic is not modelled. Delays and prices are exact reals, so a total such as 1029.98 is exact here, with no float rounding.
- Randomness is not modelled. `DataGenerator`'s values are inputs (`UserDraws`, `ProductDraws`, the order-id suffix). The facts kept about them are the price range 10..1000, as `Products.PriceDrawInRange`, and the alphabets of module `Draws`.
- The address dictionary that `random_address` returns (`utils/test_data_builder.py:77`) is taken as a string draw.
- The rest of the `DataGenerator` module is not part of this model.
- Python truthiness is modelled only where a string stands for a bool (`Draws.Truthy`). A condition's result is a bool, and `with_address` tests its city and zip code for the empty string.
- `wait_until_stable` compares samples with Dafny's equality, which stands in for Python's `==`. Its `get_value` calls have no `try`, so any exception a sample raises escapes, whatever its class.
- Aliasing is not modelled. The product list of `OrderBuilder` is a value here. In the code, `with_products` stores the caller's list, `add_product` appends to it in place, and the built order shares it (`utils/test_data_builder.py:256-297`).
- The `timeout` parameter is an int, as its type hint says. A float timeout would be rendered differently in the messages.
- The wrapper's `*args, **kwargs` are not modelled. Each attempt is one entry of the call-outcome sequence.
- The exception classes a retry filter names are not modelled one by one. The filter is a predicate on the raised exception, and `WaitUtils.CatchesException` is the default `(Exception,)`.
- WaitUtils.RetryOnException: requires a non-negative `delay` and `backoff`. A negative sleep makes `time.sleep` raise ValueError, and that path is not modelled. The requires is broader than that path: it also excludes inputs that never sleep a negative amount, such as a negative `backoff` with `max_attempts` at most 2, or a negative `delay` when the first call returns.
- WaitUtils.RetrySleepsGrowGeometrically: requires a non-negative `delay` and `backoff`, for the same reason.
- WaitUtils.RetryExhaustedRaisesLast: requires a non-negative `delay` and `backoff`, for the same reason.
- WaitUtils.RetryTwoFailuresThenSuccess: requires a non-negative `delay` and `backoff`, for the same reason.
- WaitUtils.PollRounds: requires a positive `poll_interval`, and so do `WaitForCondition`, `WaitForAny`, `WaitForAll`, `WaitUntilStable`, `StableRounds` and every lemma about them. The positive interval is the termination measure. A zero interval busy-polls until the deadline, and a negative one makes `time.sleep` raise ValueError after the first round that does not return. Neither path is modelled.
- WaitUtils.WaitForCondition: requires a positive `poll_interval`, for the reason given for `WaitUtils.PollRounds`.
- WaitUtils.WaitForAny: requires a positive `poll_interval`, for the same reason.
- WaitUtils.WaitForAll: requires a positive `poll_interval`, for the same reason.
- WaitUtils.WaitUntilStable: requires a positive `poll_interval`, for the same reason.
- Page objects, tests, fixtures, the API helper, environment switching and logging are not part of this model.
