# Utility services of the Jest workspace, modelled in Dafny

This project models the small utility classes of the frontend workspace
(`jest/workspace/frontend/src`) as pure Dafny functions and proves their
behaviour:

- **DataProcessor** (`data_processor.dfy`): `withRetry` is modelled as a
  state machine over a script of outcomes, one per invocation. It records
  how many invocations it made and the exponential backoff delays it waited.
  `processSequentially` is a loop. `processInParallel` and `transformData`
  are modelled through `Promise.all`.
- **NotificationService** (`notification_service.dfy`): the welcome
  notification, with its optional SMS branch. The password reset, with
  its "exception means false" rule. The bulk send, with its
  `{successful, failed}` tally. It is both a functional fold (`Dispatch`)
  and the source's loop (`SendBulkNotifications`), proved equal.
- **DataService** (`data_service.dfy`): the cache-aside read `getUserData`
  and the write-then-invalidate `updateUserProfile`. The cache is a map
  from key to entry, and the HTTP client is the outcome a request would
  settle with.
- **UserManager** (`user_manager.dfy`): the in-memory user list, with add,
  lookup, filters, average age, the e-mail validator, the summary line and
  clear. The validator is proved to accept exactly the language of the
  source's regular expression.
- **MathUtils**, **math.ts** and **string.ts** (`math_utils.dfy`,
  `arithmetic.dfy`, `strings.dfy`): factorial, evenness with JavaScript's
  remainder, the four operations, length, upper-casing and substring search.

Shared modules:
- `results.dfy` defines `Option`, `Result`, `Settled` (a settled promise)
  and `Script` (the outcome of the k-th call of a collaborator).
- `logging.dfy` holds the logger trace.
- `decimal.dfy` renders integers the way template literals do.

Collaborators are parameters. The e-mail, SMS and HTTP services, the
operation given to `withRetry`, and the tasks are described by the outcomes
they settle with. Each operation returns what it handed to them: messages,
requests, delays and log entries, in order.

## Model

| member | source | states |
|---|---|---|
| DataProcessor.RetryFrom | jest/workspace/frontend/src/DataProcessor.ts:35-48 | From iteration i on, the loop calls the operation at most maxRetries-i+1 times. Every call but the last was rejected. Success carries the value of the last call. Failure means all remaining iterations ran and the error is that of call maxRetries. Delays are the backoffs of the failed iterations that were followed by another attempt. |
| DataProcessor.WithRetry | jest/workspace/frontend/src/DataProcessor.ts:29-51 | A negative maxRetries makes no call and throws undefined. Otherwise there are 1..maxRetries+1 calls, all before the last rejected. The result is the last call's value, or on exhaustion the error of call maxRetries. The delays are 2^k*100 ms, one fewer than the calls. |
| DataProcessor.WithDefaultRetry | jest/workspace/frontend/src/DataProcessor.ts:31 | With the default maxRetries of 3 there are between 1 and 4 invocations. |
| DataProcessor.BackoffSchedule | jest/workspace/frontend/src/DataProcessor.ts:43-46 | The n delays before attempts 1..n are 2^k*100 ms, k = 0..n-1. |
| DataProcessor.BackoffDoubles | jest/workspace/frontend/src/DataProcessor.ts:44-45 | The first wait is the 100 ms base and each later wait is twice the one before. |
| DataProcessor.RetryExhausted | jest/workspace/frontend/src/DataProcessor.ts:38-42 | If every attempt fails, there are exactly maxRetries+1 calls and maxRetries delays. The thrown error is the last attempt's, not the first's. |
| DataProcessor.RetryStopsAtFirstSuccess | jest/workspace/frontend/src/DataProcessor.ts:36-37 | The first resolved attempt k is returned. There are k+1 calls, and only the k delays before it. |
| DataProcessor.RetryOnce | jest/workspace/frontend/src/DataProcessor.ts:35-42 | With maxRetries 0 there is one call and no delay. Its outcome is the result. |
| DataProcessor.RetryBoomExample | jest/workspace/frontend/src/DataProcessor.ts:35-46 | An operation that always throws "boom", retried twice, runs 3 times, waits 100 then 200 ms, and rejects with "boom". |
| DataProcessor.DefaultRetrySchedule | jest/workspace/frontend/src/DataProcessor.ts:31-46 | With the default bound and all attempts failing: 4 calls, delays 100, 200 and 400 ms, and the 4th call's error. |
| DataProcessor.All | jest/workspace/frontend/src/DataProcessor.ts:8 | Promise.all resolves iff every element resolves. It then gives every value in element order. Otherwise it rejects with the error of some rejected element. |
| DataProcessor.ProcessInParallel | jest/workspace/frontend/src/DataProcessor.ts:12-14 | Same length and order as the task list, element i being task i's value. It resolves iff every task resolves. Otherwise it rejects with the error of some rejected task. |
| DataProcessor.TransformData | jest/workspace/frontend/src/DataProcessor.ts:3-9 | Element i is transformer(data[i]), with as many results as inputs. It resolves iff every transformation resolves. Otherwise it rejects with one of their errors. |
| DataProcessor.TransformEmpty | jest/workspace/frontend/src/DataProcessor.ts:3-9 | An empty array transforms to an empty array. |
| DataProcessor.ProcessSequentially | jest/workspace/frontend/src/DataProcessor.ts:17-26 | Task k starts only after tasks 0..k-1 resolved. On success every task ran and the results equal the parallel run's. On failure the last started task's rejection is rethrown, and the parallel run fails too. |
| NotificationService.SendWelcomeEmail | jest/workspace/frontend/src/NotificationService.ts:34-46 | Exactly one welcome e-mail is sent. The flag is true iff the service answers true. An exception yields false and one error entry naming the cause, and nothing else is logged. |
| NotificationService.SendWelcomeSms | jest/workspace/frontend/src/NotificationService.ts:48-59 | The flag is true iff the SMS service answers true. An exception yields false with one error entry. |
| NotificationService.WelcomeSmsIfPhone | jest/workspace/frontend/src/NotificationService.ts:19-21 | An SMS is attempted only for a present, non-empty phone number. Otherwise the flag is false and nothing is sent or logged. |
| NotificationService.SendWelcomeNotification | jest/workspace/frontend/src/NotificationService.ts:11-32 | One welcome e-mail is always sent, and an SMS exactly when a phone is present. emailSent iff the e-mail service answered true. smsSent iff there is a phone and the SMS service answered true. |
| NotificationService.WelcomeLog | jest/workspace/frontend/src/NotificationService.ts:16-29 | The log opens with the start entry and records each channel's exception. It closes with the success entry iff emailSent or smsSent, and with the failure entry otherwise. |
| NotificationService.SendPasswordResetNotification | jest/workspace/frontend/src/NotificationService.ts:61-82 | The result is true iff the send resolved true. An exception gives false. The reset e-mail goes out once, and the second log entry distinguishes sent, not sent and exception. |
| NotificationService.Mails | jest/workspace/frontend/src/NotificationService.ts:94-101 | The bulk send hands at most one message per recipient to the service. |
| NotificationService.Dispatch | jest/workspace/frontend/src/NotificationService.ts:94-115 | successful + failed equals the number of recipients. |
| NotificationService.DispatchSendsEveryone | jest/workspace/frontend/src/NotificationService.ts:94-115 | Every recipient whose body renders is sent one message, in list order, whatever happened earlier. successful is exactly the number of service calls that resolved true. |
| NotificationService.MailsInOrder | jest/workspace/frontend/src/NotificationService.ts:96-101 | When every body renders, call i goes to recipient i with the given subject and body template(name). |
| NotificationService.DispatchLogsThrownFailures | jest/workspace/frontend/src/NotificationService.ts:95-114 | A recipient whose body renders and whose send throws gets an error entry naming its address and the cause. Its send is the service call that follows the messages of all earlier recipients, whether or not their templates threw. |
| NotificationService.DispatchLogsTemplateFailures | jest/workspace/frontend/src/NotificationService.ts:95-114 | A recipient whose template throws gets an error entry naming its address and the template's error. |
| NotificationService.DispatchLogCount | jest/workspace/frontend/src/NotificationService.ts:94-115 | The bulk error log has exactly one entry per template that throws and one per service call that throws. A `false` answer adds none. |
| NotificationService.SendBulkNotifications | jest/workspace/frontend/src/NotificationService.ts:84-121 | The source's loop computes the fold's tally and sends, with successful + failed = number of users. Its log is the start entry, the failure entries and the completion entry with both counts. |
| NotificationService.BulkExample | jest/workspace/frontend/src/__tests__/NotificationService.test.ts:207-225 | Three users with the second send rejected give {2, 1}. The three "Hello User n!" messages go out in order, and an error names user2@example.com. |
| Decimal.NatToString | jest/workspace/frontend/src/NotificationService.ts:92 | A count renders as a digit string whose decimal value (`DigitsValue`, Horner's rule) is the count. It has one digit iff the count is below 10, and no leading zero. |
| Decimal.IntToString | jest/workspace/frontend/src/DataService.ts:23 | An id renders with a leading '-' iff it is negative. The remaining characters are digits whose decimal value is the absolute value of the id, with no leading zero: one digit for 0..9. |
| Decimal.NatToStringInjective | jest/workspace/frontend/src/DataService.ts:23 | Distinct naturals render differently. |
| Decimal.IntToStringInjective | jest/workspace/frontend/src/DataService.ts:23 | Distinct integer ids render differently. |
| Decimal.NatToStringExamples | jest/workspace/frontend/src/__tests__/DataService.test.ts:43-44 | 123 renders as "123" and -5 as "-5". |
| DataService.UserKeyInjective | jest/workspace/frontend/src/DataService.ts:23 | `DataService.UserKey` gives distinct user ids distinct "user:<id>" keys. |
| DataService.GetUserData | jest/workspace/frontend/src/DataService.ts:22-47 | A truthy cached value is returned with no request and the cache unchanged. Otherwise /users/<id> is fetched once: success stores the data under the key with TTL 300 and returns it, failure rethrows the same error and leaves the cache unchanged. No other key changes. |
| DataService.UpdateUserProfile | jest/workspace/frontend/src/DataService.ts:49-65 | The profile is posted once. On success exactly "user:<id>" is deleted and the answer is true. On failure the answer is false and the cache is untouched. Each outcome writes its log entry. |
| DataService.ReadThroughThenHit | jest/workspace/frontend/src/DataService.ts:26-39 | After a miss that fetched v, the next read makes no request iff v is truthy, and then returns v. |
| DataService.FailureNotCached | jest/workspace/frontend/src/DataService.ts:40-46 | After a failed fetch the next read fetches again. |
| DataService.UpdateForcesRefetch | jest/workspace/frontend/src/DataService.ts:51-57 | After a successful update the next read of that user fetches again. |
| DataService.FailedUpdateKeepsCache | jest/workspace/frontend/src/DataService.ts:58-64 | After a failed update every later read behaves as before. |
| DataService.UpdateIsolatesOtherUsers | jest/workspace/frontend/src/DataService.ts:54 | Updating one user does not change what a read of another user returns or requests. |
| DataService.PrimedCacheExample | jest/workspace/frontend/src/__tests__/DataService.test.ts:47-61 | A truthy entry under "user:123" is returned for user 123 with no request. |
| UserManager.AddUser | jest/workspace/frontend/src/utils/UserManager.ts:17-20 | The user is appended at the end and returned, with all earlier entries unchanged. |
| UserManager.GetUserById | jest/workspace/frontend/src/utils/UserManager.ts:22-24 | Gives the first stored user with the id, or none iff no user has it. |
| UserManager.Filter | jest/workspace/frontend/src/utils/UserManager.ts:26-32 | A user is in the result iff it is in the list and satisfies the predicate. |
| UserManager.FilterAppend | jest/workspace/frontend/src/utils/UserManager.ts:26-32 | Filtering distributes over concatenation, so insertion order is kept. |
| UserManager.GetUsersByTag | jest/workspace/frontend/src/utils/UserManager.ts:26-28 | Gives exactly the stored users carrying the tag. |
| UserManager.GetActiveUsers | jest/workspace/frontend/src/utils/UserManager.ts:30-32 | Gives exactly the stored active users. |
| UserManager.AddUserExtendsViews | jest/workspace/frontend/src/utils/UserManager.ts:17-32 | After an add, each filtered view is the old view plus the new user iff it qualifies. |
| UserManager.AddThenGet | jest/workspace/frontend/src/utils/UserManager.ts:17-24 | After an add, a lookup of its id finds an earlier user with that id if there is one, and the new user otherwise. |
| UserManager.Ages | jest/workspace/frontend/src/utils/UserManager.ts:35 | The list of present ages is empty iff no user has an age. |
| UserManager.CalculateAverageAge | jest/workspace/frontend/src/utils/UserManager.ts:34-43 | null iff no user has an age. Otherwise the result times the count of ages equals their sum. |
| UserManager.AverageAgeBetween | jest/workspace/frontend/src/utils/UserManager.ts:34-43 | The average lies between any lower and upper bound of the present ages. |
| UserManager.ValidateEmailIsPattern | jest/workspace/frontend/src/utils/UserManager.ts:45-48 | The validator `UserManager.ValidateEmail` accepts a string iff it matches ^[^\s@]+@[^\s@]+\.[^\s@]+$. That means no white space, exactly one '@' with text before it, and a '.' after it that is neither first nor last in the domain. |
| UserManager.PatternIsValid | jest/workspace/frontend/src/utils/UserManager.ts:46-47 | Every string of the pattern's shape is accepted. |
| UserManager.ValidIsPattern | jest/workspace/frontend/src/utils/UserManager.ts:46-47 | Every accepted string splits into the pattern's three parts. |
| UserManager.GenerateUserSummary | jest/workspace/frontend/src/utils/UserManager.ts:50-52 | The summary is the name, " (", the e-mail, ") - Active: " and then "true" or "false" for the active flag, each at its fixed position. |
| UserManager.SummaryDeterminesFields | jest/workspace/frontend/src/utils/UserManager.ts:50-52 | Equal summaries of equal names imply equal e-mail and equal activity. |
| UserManager.ClearUsersEmpties | jest/workspace/frontend/src/utils/UserManager.ts:54-56 | `UserManager.ClearUsers` leaves no user behind: afterwards lookup, both filters and the average find nothing. |
| MathUtils.Factorial | jest/workspace/frontend/src/utils/MathUtils.ts:11-15 | Throws "Factorial is not defined for negative numbers" iff n < 0. Otherwise the result is at least 1. |
| MathUtils.FactorialBase | jest/workspace/frontend/src/utils/MathUtils.ts:13 | factorial(0) = factorial(1) = 1. |
| MathUtils.FactorialStep | jest/workspace/frontend/src/utils/MathUtils.ts:14 | factorial(n) = n * factorial(n-1) for n >= 2. |
| MathUtils.FactorialDivisible | jest/workspace/frontend/src/utils/MathUtils.ts:11-15 | factorial(n) is a multiple of every k in 1..n. |
| MathUtils.JsRemainder | jest/workspace/frontend/src/utils/MathUtils.ts:8 | The remainder has the dividend's sign and a magnitude below the divisor's, and a - r is a multiple of b. Together these fix r as JavaScript's `%`. |
| MathUtils.IsEven | jest/workspace/frontend/src/utils/MathUtils.ts:7-9 | true iff n = 2k for some integer k, negative n included. |
| MathUtils.IsEvenExamples | jest/workspace/frontend/src/utils/MathUtils.ts:7-9 | 4, 0 and -4 are even. 3 and -3 are not. |
| Arithmetic.Divide | jest/workspace/frontend/src/math.ts:17-22 | Throws "Division by zero is not allowed" iff b = 0. Otherwise the quotient times b is a. |
| Arithmetic.Inverses | jest/workspace/frontend/src/math.ts:2-22 | `Arithmetic.Subtract` undoes `Arithmetic.Add` and the reverse. Division by a non-zero b undoes `Arithmetic.Multiply` by b. |
| Arithmetic.ArithmeticExamples | jest/workspace/frontend/src/__tests__/math.test.ts:4-78 | The integral test cases hold, for example subtract(5,-3) = 8, multiply(-2,-3) = 6, divide(6,-3) = -2 and divide(0,5) = 0. The decimal cases hold exactly: add(2.5,3.1) = 5.6, subtract(5.5,3.2) = 2.3, multiply(2.5,3.1) = 7.75 and divide(7.5,2.5) = 3. divide(5,0) throws. |
| Strings.GetLength | jest/workspace/frontend/src/string.ts:2-4 | The length is 0 iff the string is empty. |
| Strings.GetLengthAppend | jest/workspace/frontend/src/string.ts:2-4 | The length of a concatenation is the sum of the lengths. |
| Strings.GetLengthUnit | jest/workspace/frontend/src/string.ts:2-4 | A one-character string has length 1. With GetLengthAppend, the length is the number of characters. |
| Strings.UpperChar | jest/workspace/frontend/src/string.ts:7-9 | The result is never a lower-case ASCII letter. A lower-case letter is shifted to its capital, and any other character is kept. |
| Strings.ToUpperCase | jest/workspace/frontend/src/string.ts:7-9 | Same length as the input, and each character is upper-cased independently. |
| Strings.ToUpperCaseIdempotent | jest/workspace/frontend/src/string.ts:7-9 | Upper-casing twice equals upper-casing once. |
| Strings.Contains | jest/workspace/frontend/src/string.ts:12-14 | true iff the searched string occurs as a substring at some index. |
| Strings.StringExamples | jest/workspace/frontend/src/__tests__/string.test.ts:4-20 | getLength("hello") = 5 and toUpperCase("hello") = "HELLO". contains("hello","e") holds and contains("hello","a") does not. |

## Source behaviour worth noting

- A second read is served from the cache only when the
  fetched value is truthy. The cache check is `if (cachedData)`
  (DataService.ts:27), so a fetched `null`, `0`, `false` or `""` is stored
  but misses again. `DataService.ReadThroughThenHit` states both directions.
- With a negative `maxRetries` the loop body never runs. `withRetry` then
  rejects with the never-assigned `lastError`, which is `undefined`, and the
  operation is never invoked (DataProcessor.ts:35,50).
- A `sendEmail` answer of `false` counts as a bulk failure but writes no
  error entry. Only exceptions from `template` or `sendEmail` are logged
  (NotificationService.ts:103-113).

## Left out

- Real waiting, timers and promise interleaving are not modelled. Delays are
  recorded as numbers, and the parallel combinators model result order only.
- DataProcessor.All: when several tasks reject, which rejection
  `Promise.all` reports depends on timing. The model reports the
  lowest-index rejection, and its contract only promises that it is one of
  the rejections.
- DataProcessor.WithRetry: `maxRetries` is an integer. A fractional bound,
  which the source's `i === maxRetries` test never meets, is not modelled.
- DataProcessor.TransformData: the index and array arguments that
  `Array.prototype.map` also passes to the transformer are not modelled.
- Cache expiry belongs to the external cache service. The TTL argument (300)
  is recorded in the entry, but entries never expire in the model.
- The `Value` of DataService's cache and responses is restricted to
  integers, strings, booleans, `null`, `undefined` and opaque objects. NaN
  and fractional numbers are not among them, and neither are non-integer
  user ids or the exponent notation of numbers from 10^21 up.
- UserManager.CalculateAverageAge: ages and ids are integers, so
  fractional `age` values (the source declares `age?: number`) are not
  modelled. The mean is the exact rational sum / count. The source divides doubles (UserManager.ts:42), so its
  result is rounded to the nearest double, which the model does not do.
- The request body of `updateUserProfile` is an opaque value, and the
  post's response value is ignored, as in the source.
- MathUtils.Factorial: computed over unbounded integers. The source's
  doubles lose precision above 2^53 and overflow to `Infinity` above 170!,
  and non-integer input is outside the model.
- MathUtils.IsEven: only integer arguments are modelled. In the source a
  fractional, NaN or infinite argument gives false (`2.5 % 2` is 0.5,
  `Infinity % 2` is NaN).
- `roundToDecimal` and `getRandomInRange` are not modelled. They are floating
  point rounding and randomness.
- Arithmetic: the operations are over exact reals, so IEEE rounding is not
  modelled. All four decimal test cases checked with `toBeCloseTo` hold
  exactly over the reals.
- Strings.ToUpperCase: only ASCII letters are mapped. Unicode case mapping,
  including length-changing cases such as 'ß', is not modelled.
- Strings are sequences of characters. UTF-16 surrogate pairs, which
  JavaScript's `length` counts twice, are not modelled.
- The `ApiClient` class (simulated network with `setTimeout` and
  `Math.random`), the React `App` component, the test setup files and the
  Prisma ORM exercises are not part of this model.
