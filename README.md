# Seeded flashcard templates — a Dafny model

The repository builds Anki flashcards whose questions are generated in the browser.
This project models the following parts of it:

- **The runtime.**
  - The mulberry32 generator and the sampling helpers built on it: `randInt`, `choice`,
    `shuffle`, `gcd` and `lcm`.
  - The per-review seed resolver (`resolveReviewSeed`). It lets the front and the back of
    one review see the same seed: the front stores a fresh seed and the back reads it and
    removes it.
  - The template registry (`registerTemplate`, `getTemplate`).
- **The four seeded templates.** Each one's `generate` and `validate`:
  - add two numbers;
  - multiply a 2-digit number by a 1-digit number;
  - greatest common factor;
  - least common multiple.
- **The order-of-operations card.**
  - Expression generation, which draws from `Math.random`.
  - Parenthesis insertion.
  - The superscript formatting of powers.
  - The front side, which stores the expression and reads its two configuration fields.
- **The back sides of two legacy cards.** These read operands from `localStorage`:
  - dynamic division, which shows a quotient and remainder;
  - exponent to factors, which writes a power out as a product.

How the model is built:

- **JavaScript semantics** are written out in the `Js` module:
  - `>>> 0` and `| 0`;
  - `parseInt`;
  - `Number(s)` with its truncation, for every numeric literal form;
  - `String(n)`;
  - `trim`;
  - truthiness;
  - `typeof`.
- **Generator state.** The generator's state is a `Stream` value. Each draw is the 32-bit
  numerator `u` of the float `u / 2^32`. Templates thread the stream through their steps,
  exactly as the closure is called.
- **`Math.random`** is a function `rnd: nat -> Unit53` from draw index to a 53-bit
  numerator.
- **Errors** that the source throws become `Failure` values carrying the same message.
- **Mutable state** becomes classes whose methods are proved against the pure functions:
  - the registry's dictionary;
  - the resolver's counter and store;
  - the front page's `localStorage`;
  - the mulberry32 closure.

## Model

| member | source | states |
|---|---|---|
| Rng.Next | src/runtime/rng.js:6-10 | one call advances the state by 0x6d2b79f5 modulo 2^32 and draws from the advanced state |
| Rng.BitwiseBound | src/runtime/rng.js:8-10 | bitwise xor and or of two k-bit values stay within k bits, so every step of the scrambling stays a 32-bit value |
| Rng.Mulberry32.constructor | src/runtime/rng.js:4-5 | the state starts at `seed >>> 0` |
| Rng.Mulberry32.Call | src/runtime/rng.js:6-11 | a call returns the draw of the old state and stores the advanced state |
| Rng.DrawMany | src/runtime/rng.js:6-11 | n calls return the first n draws of the stream and leave the state advanced by n |
| Rng.DrawsAt | src/runtime/rng.js:6-11 | draw k of a run is the draw of the state advanced k times, however long the run |
| Rng.SameSeedSameDraws | tests/runtime/rng.test.js:4-10 | two generators built from one seed return identical sequences, and draw k equals the k-th draw of that seed |
| Rng.Scale | src/runtime/rng.js:18 | `Math.floor(u / 2^32 * n)` is below n for every draw |
| Rng.RandInt | src/runtime/rng.js:15-19 | fails with "randInt: max < min" exactly when max < min; otherwise returns a value in [min, max] and uses one draw |
| Rng.Choice | src/runtime/rng.js:21-25 | fails with "choice: empty array" exactly when the array is empty; otherwise returns an element of it and uses one draw |
| Rng.FisherYates | src/runtime/rng.js:29-34 | the loop from index i down to 1 keeps the length and uses i draws |
| Rng.SwapPermutes | src/runtime/rng.js:31-33 | swapping two entries keeps the multiset of the array |
| Rng.FisherYatesPermutes | src/runtime/rng.js:29-34 | the shuffle loop keeps the multiset of the array |
| Rng.FisherYatesStep | src/runtime/rng.js:30-33 | one pass swaps index i with `floor(u * (i + 1))` and continues from i - 1 on the rest of the stream |
| Rng.Shuffle | src/runtime/rng.js:27-36 | the result is a permutation of the input (same length and multiset); it equals the Fisher-Yates function on the copy; it uses length - 1 draws |
| Rng.ShuffleInPlace | src/runtime/rng.js:29-34 | the array after the loop is the Fisher-Yates result of its old contents |
| Rng.ShufflePass | src/runtime/rng.js:30-33 | one pass on the array leaves what remains of the shuffle unchanged |
| Rng.EuclidDivides | src/runtime/rng.js:41-46 | the loop's result divides both operands |
| Rng.EuclidGreatest | src/runtime/rng.js:41-46 | every common divisor of the operands divides the loop's result |
| Rng.EuclidZero | src/runtime/rng.js:41-46 | the result is 0 exactly when both operands are 0 |
| Rng.Gcd | src/runtime/rng.js:38-47 | the loop returns the greatest common divisor of the absolute values of the operands truncated to 32 bits; it is 0 exactly when both truncated operands are 0 |
| Rng.GcdExamples | tests/runtime/rng.test.js:40 | example beside the all-input Euclid lemmas: gcd(54, 24) = 6, and gcd(0, 0) = 0 |
| Rng.Lcm | src/runtime/rng.js:49-52 | lcm is never negative and is 0 when an operand is 0; LcmProperties and LcmZero state the rest |
| Rng.LcmProperties | src/runtime/rng.js:49-52 | for positive 32-bit operands, lcm is a common multiple, lcm × gcd = a × b, and 1 ≤ lcm ≤ a × b |
| Rng.LcmZero | src/runtime/rng.js:50 | for 32-bit operands, lcm is 0 exactly when an operand is 0 |
| Rng.LcmExamples | tests/runtime/rng.test.js:41-42 | example beside LcmProperties and LcmZero: lcm(6, 8) = 24 and lcm(0, 5) = 0 |
| Js.ParseInt | src/runtime/reviewSeed.js:38 | `parseInt(s, 10)` is NaN exactly when no digit follows the leading white space and optional sign; ParseIntOfNatToString and ParseIntWithoutDigits state the rest |
| Js.ParseIntOfNatToString | src/runtime/reviewSeed.js:87-93 | `parseInt(String(n), 10)` gives back n, so a stored seed reads back unchanged |
| Js.ParseIntWithoutDigits | src/order-of-operations/front.js:50 | `parseInt` of text without any digit is NaN |
| Js.ToFiniteInteger | src/templates/number_theory/gcf_basic.js:44 | `x \| 0` and `x >>> 0` first convert x to a number and truncate it; NaN and the infinities become 0; the contract is carried by the conversion lemmas below |
| Js.StringToIntegerOfIntToString | src/templates/number_theory/gcf_basic.js:44 | `Number(String(n))` is n for every integer n |
| Js.FractionTruncates | src/templates/number_theory/gcf_basic.js:44 | the text "w.f" converts and truncates to the whole part w |
| Js.FractionExample | src/templates/number_theory/gcf_basic.js:44 | example beside FractionTruncates: `"12.5" \| 0` is 12 |
| Js.ExponentScales | src/templates/number_theory/gcf_basic.js:44 | the text "w" + "e" + k converts to w × 10^k |
| Js.RadixLiteral | src/templates/number_theory/gcf_basic.js:44 | "0x", "0o" and "0b" followed by digits read the digits in base 16, 8 and 2 |
| Js.SignedRadixIsNaN | src/templates/number_theory/gcf_basic.js:44 | a sign before a radix prefix makes NaN, which truncates to 0 |
| Js.SingletonArray | src/templates/number_theory/gcf_basic.js:44 | a one-element array `[n]` or `[String(n)]` truncates like n |
| ReviewSeed.StorageKey | src/runtime/reviewSeed.js:31-33 | the key is "anki.seed." followed by the template id |
| ReviewSeed.StorageKeyInjective | src/runtime/reviewSeed.js:31-33 | different template ids get different keys |
| ReviewSeed.CoerceSeed | src/runtime/reviewSeed.js:35-42 | a finite number, integral or not, becomes `n >>> 0`; a non-blank string parses to `parseInt(s) >>> 0` or is null; anything else is null; a result is always below 2^32 |
| ReviewSeed.CoerceStoredSeed | src/runtime/reviewSeed.js:87-93 | the text the front stores for a seed coerces back to the same seed |
| ReviewSeed.FreshSeedValue | src/runtime/reviewSeed.js:57-58 | the fresh seed is the xor of clock, counter and salt, replaced by 1 when it is 0; it is never 0 and is below 2^32 |
| ReviewSeed.Fresh | src/runtime/reviewSeed.js:44-60 | a fresh seed succeeds, is non-zero, bumps the counter and leaves the store alone |
| ReviewSeed.GetItem | src/runtime/reviewSeed.js:20-25 | the in-memory fallback never returns a stored item, because `getStorage` builds a new `Map` on every call |
| ReviewSeed.SetItem | src/runtime/reviewSeed.js:26 | a web storage maps the key to the new text; the fallback stays empty |
| ReviewSeed.RemoveItem | src/runtime/reviewSeed.js:27 | a web storage drops the key; the fallback stays empty |
| ReviewSeed.ReadAfterWrite | src/runtime/reviewSeed.js:20-27 | a web storage reads back the last text written under a key and null once it is removed; the fallback always reads null; other keys are untouched |
| ReviewSeed.Resolve | src/runtime/reviewSeed.js:64-102 | fails exactly on an invalid template id; a seed is below 2^32; at most one fresh seed is drawn; the kind of store is kept |
| ReviewSeed.InvalidTemplateId | src/runtime/reviewSeed.js:65-67 | a missing, empty or non-string template id fails with "resolveReviewSeed: templateId is required" and changes nothing |
| ReviewSeed.StaticSeed | src/runtime/reviewSeed.js:73-77 | a usable Seed field is returned as is, on either side, and any stored per-review seed is removed |
| ReviewSeed.StaticSeedExample | tests/runtime/reviewSeed.test.js:41-47 | example beside StaticSeed: Seed field "123" gives 123 on front and back |
| ReviewSeed.NotPerReview | src/runtime/reviewSeed.js:80-83 | without a seed and with perReview off, a fresh seed is returned and nothing is stored |
| ReviewSeed.FrontStoresSeed | src/runtime/reviewSeed.js:85-89 | the front returns a fresh non-zero seed and stores its decimal text under the template's key |
| ReviewSeed.BackReadsSeed | src/runtime/reviewSeed.js:90-101 | the back returns the stored seed and removes it; with nothing usable stored, and always on the in-memory fallback, it returns a fresh seed and leaves the store alone |
| ReviewSeed.FrontThenBack | tests/runtime/reviewSeed.test.js:14-33 | with a web storage, a front then a back call with the same template id return the same seed; the key is gone afterwards |
| ReviewSeed.FallbackLosesSeed | src/runtime/reviewSeed.js:22-28 | on the in-memory fallback the front's seed is lost: the back draws its own fresh seed from the next counter value, so the two sides can differ |
| ReviewSeed.SeedResolver.constructor | src/runtime/reviewSeed.js:7 | the counter starts at 1 with the given store |
| ReviewSeed.SeedResolver.FreshSeed | src/runtime/reviewSeed.js:44-60 | returns the fresh seed of the old counter and increments the counter |
| ReviewSeed.SeedResolver.ResolveReviewSeed | src/runtime/reviewSeed.js:64-102 | the returned seed or error and the new store and counter are those of the resolution function on the old state |
| Registry.RegisterIn | src/runtime/index.js:7-16 | registration succeeds exactly for a non-empty string id and an impl with a `generate` function, and then maps the id to the impl; each failure carries the source's message |
| Registry.Lookup | src/runtime/index.js:18-22 | a registered id gives its impl; any other id fails with "Unknown template: " followed by the id |
| Registry.RegisterThenLookup | src/runtime/index.js:14-21 | a template registered under an id is what `getTemplate` returns for that id |
| Registry.RegisterKeepsOthers | src/runtime/index.js:14 | registering one id leaves the lookup of every other id unchanged |
| Registry.LastRegistrationWins | src/runtime/index.js:14 | registering an id twice is the same as registering only the second impl |
| Registry.RegisterAllFindsEach | src/entry/bundle.js:9-12 | registering templates with distinct ids in turn finds each one under its id and leaves other ids unchanged |
| Registry.CoreTemplatesRegistered | src/entry/bundle.js:9-12 | after the bundle's four registrations, each of the four template ids gives its template |
| Registry.TemplateRegistry.constructor | src/runtime/index.js:5 | the registry starts empty |
| Registry.TemplateRegistry.Register | src/runtime/index.js:7-16 | on success the impl is returned and stored under its id; on failure the error is returned and the entries are unchanged |
| Registry.TemplateRegistry.Get | src/runtime/index.js:18-22 | returns the registered impl exactly when the id is registered, else the unknown-template error |
| Cards.Nullish | src/templates/number_theory/gcf_basic.js:41 | `??` replaces only undefined and null |
| Cards.SeedStream | src/templates/number_theory/gcf_basic.js:75 | a number seed gives the mulberry32 stream of that seed |
| Cards.AtLeastTwo | src/templates/number_theory/gcf_basic.js:62-63 | the operand is raised to at least 2, and values already ≥ 2 are kept |
| Cards.Coin | src/templates/number_theory/gcf_basic.js:54 | `rng() < p` uses one draw and is true exactly when the numerator is below the bound |
| Cards.NumbersIn | src/templates/number_theory/gcf_basic.js:20 | the filter keeps exactly the listed numbers that are allowed digit counts, never more than the list holds |
| Cards.NumbersInOne | src/templates/number_theory/gcf_basic.js:20 | one item is kept as its number exactly when it is an allowed number |
| Cards.NumbersInConcat | src/templates/number_theory/gcf_basic.js:20 | the filter of a concatenation is the concatenation of the filters, so order and repeats are kept |
| Cards.NumbersInAllAllowed | src/templates/number_theory/gcf_basic.js:20 | a list of allowed numbers is kept whole, in order |
| Cards.CeilMultiple | src/templates/number_theory/gcf_basic.js:33 | `Math.ceil(min / p) * p` is the least multiple of p that is at least min |
| Cards.PickMultipleOf | src/templates/number_theory/gcf_basic.js:32-38 | returns a multiple of p within [min, max] using one draw; returns null, with no draw, exactly when the range holds no multiple; never null when the range is at least p wide |
| Cards.MultiplesInRange | src/templates/number_theory/gcf_basic.js:35-37 | every offset that `randInt(0, count - 1)` can draw gives a multiple within [first, max] |
| Cards.MultipleOrUniform | src/templates/number_theory/gcf_basic.js:56-57 | `pickMultipleOf(...) ?? randInt(...)` fails only on an empty range; otherwise it lies in the range, uses one draw, and is a multiple of p whenever the range holds one |
| Cards.SharedDivisorGcd | src/templates/number_theory/gcf_basic.js:55-64 | two operands sharing a factor p > 1 have gcd at least p |
| Cards.FirstAcceptedIsFirst | src/templates/number_theory/gcf_basic.js:52-70 | the chosen attempt is the first accepted one, or the last attempt when none is accepted |
| Cards.SearchReturnsFirstAccepted | src/templates/number_theory/gcf_basic.js:52-70 | the bounded attempt loop returns the first accepted sample, or else the last one |
| Cards.SearchKeeps | src/templates/number_theory/gcf_basic.js:52-70 | a property of every attempt's sample holds of the loop's result |
| Cards.SamplesHave | src/templates/number_theory/gcf_basic.js:52-70 | a property of every attempt holds of every sample of the loop |
| Cards.SearchStep | src/templates/number_theory/gcf_basic.js:52-69 | one iteration returns an accepted attempt, or else continues with it as the last sample |
| Cards.SearchFails | src/templates/number_theory/gcf_basic.js:52-61 | an attempt that throws ends the loop with its error |
| GcfBasic.NormalizeDigits | src/templates/number_theory/gcf_basic.js:18-24 | a non-empty array gives its 2s and 3s in order with repeats (the filter of Cards.NumbersIn); a bare 2 or 3 becomes a one-element list; anything else gives [2, 3] |
| GcfBasic.RangeFromDigits | src/templates/number_theory/gcf_basic.js:26-30 | the digit count's range; the contract is carried by RangeFromDigitsIsDigitCount |
| GcfBasic.RangeFromDigitsIsDigitCount | src/templates/number_theory/gcf_basic.js:26-30 | the range is exactly the numbers with the chosen digit count (10-99 or 100-999) |
| GcfBasic.ResolveRange | src/templates/number_theory/gcf_basic.js:43-45 | a range object gives `min \| 0` raised to 2 (2 when it truncates to 0) and `max \| 0` (the digit default when it truncates to 0), with the full number conversion of `\| 0`; otherwise the digit range; the minimum is always ≥ 2 |
| GcfBasic.UniformPair | src/templates/number_theory/gcf_basic.js:59-64 | two uniform draws raised to 2 lie in the raised range, with g their gcd |
| GcfBasic.BiasedPair | src/templates/number_theory/gcf_basic.js:55-64 | the biased operands raised to 2 lie in the raised range, with g their gcd |
| GcfBasic.Attempt | src/templates/number_theory/gcf_basic.js:54-64 | one attempt fails exactly on an empty range, with the randInt error; otherwise its operands lie in the range with g their gcd |
| GcfBasic.GeneratePair | src/templates/number_theory/gcf_basic.js:40-71 | the loop with `lastA`/`lastB` returns what the attempt search defines |
| GcfBasic.SearchDivides | src/templates/number_theory/gcf_basic.js:52-70 | on a range with minimum ≥ 2 the loop succeeds, and g ≥ 1 divides both operands |
| GcfBasic.SearchReturnsFirstNonTrivial | src/templates/number_theory/gcf_basic.js:49-70 | without the bias, the first attempt is returned; with it, the first attempt with gcd > 1, or the 20th |
| GcfBasic.BiasedAttemptNonTrivial | src/templates/number_theory/gcf_basic.js:54-57 | when the 0.7 coin comes up and the range is at least 7 wide, both operands share the chosen prime, so gcd > 1 |
| GcfBasic.GeneratedPairFailure | src/templates/number_theory/gcf_basic.js:41-45 | generation fails with "choice: empty array" when no digit count survives, and with the randInt error exactly when the range is empty |
| GcfBasic.DefaultConfigPair | src/templates/number_theory/gcf_basic.js:12-15 | with the defaults, both operands have 2 digits or both have 3, and g is their gcd, ≥ 1, dividing both |
| GcfBasic.DefaultDigits | src/templates/number_theory/gcf_basic.js:13 | the default digit list is [2, 3] |
| GcfBasic.SeedRequired | src/templates/number_theory/gcf_basic.js:74 | a seed that is not a number fails with "generate: seed (number) is required" |
| GcfBasic.FrontBackParity | src/templates/number_theory/gcf_basic.js:73-81 | front and back of one seed show the same pair and data; only the back shows g, and g divides both operands |
| GcfBasic.PairDivides | src/templates/number_theory/gcf_basic.js:64-70 | a generated pair's g is their gcd, at least 1, and divides both |
| GcfBasic.Generate | src/templates/number_theory/gcf_basic.js:73-81 | `generate`; the contract is carried by SeedRequired, FrontBackParity, PairDivides and DefaultConfigPair |
| GcfBasic.Validate | src/templates/number_theory/gcf_basic.js:83-96 | `validate`; the contract is carried by ValidateAccepts |
| GcfBasic.ValidateAccepts | src/templates/number_theory/gcf_basic.js:83-96 | `validate` reports the generation error when there is one, and otherwise ok; it warns exactly when the bias is on and g = 1 |
| LcmBasic.NormalizeDigits | src/templates/number_theory/lcm_basic.js:20-26 | a non-empty array gives its 1s, 2s and 3s in order with repeats (the filter of Cards.NumbersIn); a bare 1, 2 or 3 becomes a one-element list; anything else gives [1, 2] |
| LcmBasic.RangeFromDigits | src/templates/number_theory/lcm_basic.js:28-33 | the digit count's range; the contract is carried by RangeFromDigitsIsDigitCount |
| LcmBasic.RangeFromDigitsIsDigitCount | src/templates/number_theory/lcm_basic.js:28-33 | every number of the range has the chosen digit count; 2 and 3 digits give all such numbers, 1 digit all but 0 and 1 |
| LcmBasic.ResolveRange | src/templates/number_theory/lcm_basic.js:46-52 | a numeric `range.min` gives its 32-bit truncation raised to 2, and a numeric `range.max` gives its 32-bit truncation; each missing bound comes from the digit range |
| LcmBasic.Count | src/templates/number_theory/lcm_basic.js:55 | 3 operands exactly when `config.count === 3`, else 2 |
| LcmBasic.Cap | src/templates/number_theory/lcm_basic.js:57 | a numeric cap gives its 32-bit truncation raised to 1; otherwise the default 5000 |
| LcmBasic.FoldLcm | src/templates/number_theory/lcm_basic.js:78-79 | the left fold of `lcm`; the contract is carried by FoldDivides, SmallOperandsFit and LcmOf |
| LcmBasic.LcmOf | src/templates/number_theory/lcm_basic.js:78-79 | the loop folds `lcm` over the operands from the left |
| LcmBasic.FoldDivides | src/templates/number_theory/lcm_basic.js:78-79 | for 2 or 3 operands ≥ 2 that fit in 32 bits, the fold is ≥ 1 and a multiple of each; for 2 it is the product over the gcd |
| LcmBasic.SmallOperandsFit | src/templates/number_theory/lcm_basic.js:79 | operands up to 46340 have an lcm that fits in 32 bits |
| LcmBasic.RaiseToTwo | src/templates/number_theory/lcm_basic.js:75 | each operand is raised to at least 2, and the count is kept |
| LcmBasic.UniformOps | src/templates/number_theory/lcm_basic.js:73 | n uniform draws all lie in [min, max] |
| LcmBasic.BiasedOps | src/templates/number_theory/lcm_basic.js:62-71 | the biased branch draws `count` operands, all in [min, max] |
| LcmBasic.Attempt | src/templates/number_theory/lcm_basic.js:61-79 | one attempt fails exactly on an empty range; otherwise `count` raised operands lie in the raised range with their lcm fold as answer |
| LcmBasic.GenOperands | src/templates/number_theory/lcm_basic.js:43-93 | the procedure returns what the attempt search defines |
| LcmBasic.AttemptLoop | src/templates/number_theory/lcm_basic.js:59-92 | the 40-attempt loop with `lastOps` returns the search's result |
| LcmBasic.AttemptStep | src/templates/number_theory/lcm_basic.js:60-88 | one iteration ends the loop on an accepted sample, or else continues with it as `lastOps`; a throwing attempt ends it with the error |
| LcmBasic.RunAttempt | src/templates/number_theory/lcm_basic.js:61-87 | one pass returns the attempt and whether it is accepted |
| LcmBasic.Accepts | src/templates/number_theory/lcm_basic.js:80-86 | the loop stops exactly when the answer is within the cap and, if required, some pair of operands shares a factor |
| LcmBasic.LoopReturnsFirstAccepted | src/templates/number_theory/lcm_basic.js:59-92 | the loop returns the first accepted sample, or else the 40th |
| LcmBasic.FirstAcceptedOperands | src/templates/number_theory/lcm_basic.js:80-89 | every sample before the returned one fails the cap or the non-trivial test; the returned one passes both or is the last |
| LcmBasic.SearchInRange | src/templates/number_theory/lcm_basic.js:59-92 | on a range with minimum ≥ 2 the loop succeeds with `count` operands in the range and their lcm fold as answer |
| LcmBasic.GeneratedOperandsShape | src/templates/number_theory/lcm_basic.js:43-93 | generation fails with the choice error on an empty digit list and with the randInt error exactly on an empty range; otherwise it gives `count` operands in range with their lcm |
| LcmBasic.AnswerIsCommonMultiple | src/templates/number_theory/lcm_basic.js:78-91 | the answer is ≥ 1 and a multiple of every operand; for two operands it is their product over their gcd |
| LcmBasic.DefaultSettings | src/templates/number_theory/lcm_basic.js:12-17 | the defaults are digits [1, 2], 2 operands, cap 5000, and the bias on |
| LcmBasic.DefaultConfigOperands | src/templates/number_theory/lcm_basic.js:12-17 | with the defaults, two 1-digit or two 2-digit operands, and an answer that is their lcm |
| LcmBasic.Numerals | src/templates/number_theory/lcm_basic.js:99 | one numeral per operand, the i-th being `String` of the i-th operand |
| LcmBasic.NumeralsReadBack | src/templates/number_theory/lcm_basic.js:99 | each numeral shown converts back to its operand |
| LcmBasic.Generate | src/templates/number_theory/lcm_basic.js:95-104 | `generate`; the contract is carried by SeedRequired, FrontBackParity and GeneratedOperandsShape |
| LcmBasic.Validate | src/templates/number_theory/lcm_basic.js:106-135 | `validate`; the contract is carried by ValidateAccepts, Warnings and GeneratedPassesChecks |
| LcmBasic.SeedRequired | src/templates/number_theory/lcm_basic.js:96 | a seed that is not a number fails with "generate: seed (number) is required" |
| LcmBasic.FrontBackParity | src/templates/number_theory/lcm_basic.js:95-104 | front and back of one seed show the same operands and answer; only the back shows the answer; there are 2 or 3 operands |
| LcmBasic.Warnings | src/templates/number_theory/lcm_basic.js:124-130 | the cap warning appears exactly when the answer exceeds the cap; the coprime warning exactly when the bias is on and no pair shares a factor |
| LcmBasic.GeneratedPassesChecks | src/templates/number_theory/lcm_basic.js:110-123 | the divisibility check and the pairwise `ans * g === a * b` check pass on generated operands |
| LcmBasic.ValidateAccepts | src/templates/number_theory/lcm_basic.js:106-135 | `validate` reports the generation error when there is one, and otherwise the warnings above; it is ok whenever the operands are at most 46340 |
| Multiply2dBy1d.OrDefault | src/templates/arithmetic/multiply_2d_by_1d.js:17-22 | a missing setting takes its default and a given one is kept |
| Multiply2dBy1d.DrawShape | src/templates/arithmetic/multiply_2d_by_1d.js:24-27 | the draw fails exactly when a range is empty; otherwise a comes from the first draw within its bounds, b from the second within its bounds, and the answer is a × b |
| Multiply2dBy1d.SeedRequired | src/templates/arithmetic/multiply_2d_by_1d.js:16 | a seed that is not a number fails with "generate: seed (number) is required" |
| Multiply2dBy1d.FrontBackParity | src/templates/arithmetic/multiply_2d_by_1d.js:15-33 | front and back of one seed show the same factors, which are the seed's draws 0 and 1; only the back shows and records the product |
| Multiply2dBy1d.Generate | src/templates/arithmetic/multiply_2d_by_1d.js:15-33 | `generate`; the contract is carried by SeedRequired, FrontBackParity and DrawShape |
| Multiply2dBy1d.Validate | src/templates/arithmetic/multiply_2d_by_1d.js:35-52 | `validate`; the contract is carried by ValidateOk |
| Multiply2dBy1d.ValidateOk | src/templates/arithmetic/multiply_2d_by_1d.js:35-52 | `validate` reports the draw's error or is ok exactly when the product is positive, which holds whenever both lower bounds are positive |
| Multiply2dBy1d.DefaultConfig | src/templates/arithmetic/multiply_2d_by_1d.js:12 | with the defaults, a is in 12-99, b in 2-9, and validation is ok with no warnings |
| AddTwoNumbers.DrawShape | src/templates/_starter/add_two_numbers.js:19-23 | the draw fails exactly on an empty range; otherwise both addends are successive draws in [min, max] and the sum lies in [2 min, 2 max] |
| AddTwoNumbers.SeedRequired | src/templates/_starter/add_two_numbers.js:16-18 | a seed that is not a number fails with "generate: seed (number) is required" |
| AddTwoNumbers.FrontBackParity | src/templates/_starter/add_two_numbers.js:15-31 | front and back of one seed show the same addends, the seed's draws 0 and 1; only the back shows and records the sum |
| AddTwoNumbers.Generate | src/templates/_starter/add_two_numbers.js:15-31 | `generate`; the contract is carried by SeedRequired, FrontBackParity and DrawShape |
| AddTwoNumbers.Validate | src/templates/_starter/add_two_numbers.js:33-45 | `validate`; the contract is carried by ValidateOk |
| AddTwoNumbers.ValidateOk | src/templates/_starter/add_two_numbers.js:33-45 | `validate` reports the draw's error, or else is ok with no warnings for every seed |
| AddTwoNumbers.DefaultConfig | src/templates/_starter/add_two_numbers.js:12 | with the defaults, both addends are in 2-12 and the sum in 4-24 |
| OrderOfOperations.Pick | src/order-of-operations/index.js:32 | `Math.floor(Math.random() * n)` is below n |
| OrderOfOperations.MatchAt | src/order-of-operations/index.js:4 | a match found at the start of the text is a digit run, optional spaces, `^`, optional spaces and a maximal digit run |
| OrderOfOperations.MatchAtComplete | src/order-of-operations/index.js:4 | every such match at the start of the text is the one found |
| OrderOfOperations.Superscript | src/order-of-operations/index.js:2-7 | `formatExpressionWithSuperscripts`; the contract is carried by MatchAtComplete, NoCaretUnchanged, RewritesMatch and NoDigitsKept |
| OrderOfOperations.NoCaretUnchanged | src/order-of-operations/index.js:2-7 | text without `^` is not changed |
| OrderOfOperations.RewritesMatch | src/order-of-operations/index.js:4-5 | a match becomes `base<sup>exponent</sup>`, the spaces and `^` dropped, and the search resumes after it |
| OrderOfOperations.NoDigitsKept | tests/order-of-operations/test.js:102-104 | a prefix without digits is copied unchanged before the formatted rest |
| OrderOfOperations.NumberTokenParses | src/order-of-operations/index.js:24 | a token counts as a number exactly when `parseInt(tok, 10)` is not NaN |
| OrderOfOperations.PositionsSpec | src/order-of-operations/index.js:16-27 | a position is collected exactly when the token before it is marked |
| OrderOfOperations.StartPositionsSpec | src/order-of-operations/index.js:16-20 | start positions are exactly those right after an operator other than `^` |
| OrderOfOperations.EndPositionsSpec | src/order-of-operations/index.js:23-27 | end positions are exactly those right after a token that parses as a number |
| OrderOfOperations.AfterSpec | src/order-of-operations/index.js:36 | the filter keeps exactly the positions after the start |
| OrderOfOperations.Insert | src/order-of-operations/index.js:42-43 | a splice adds one token, placed at the given index |
| OrderOfOperations.PickSpanIn | src/order-of-operations/index.js:30-44 | a chosen span opens at a start position and closes at a later end position |
| OrderOfOperations.ChosenSpanValid | src/order-of-operations/index.js:30-44 | a chosen span opens after an operator other than `^` and closes after a number, later in the expression |
| OrderOfOperations.CollectPositions | src/order-of-operations/index.js:16-27 | each collection loop returns the positions that the mask defines |
| OrderOfOperations.InsertParentheses | src/order-of-operations/index.js:10-48 | the procedure returns the tokens and the next draw that the parenthesization function defines |
| OrderOfOperations.Parenthesized | src/order-of-operations/index.js:10-48 | `insertParentheses` on values; the contract is carried by InsertParentheses, ParenthesesShape, NoOpenerNoParentheses and NoNumberNoParentheses |
| OrderOfOperations.ParenthesesShape | src/order-of-operations/index.js:30-45 | without a span the expression is unchanged and uses 0 or 1 draws; with one, "(" and ")" enclose the span, two tokens are added and two draws are used |
| OrderOfOperations.NoOpenerNoParentheses | src/order-of-operations/index.js:30 | with no operator other than `^`, nothing is inserted and nothing is drawn |
| OrderOfOperations.NoNumberNoParentheses | src/order-of-operations/index.js:30 | with no number token, nothing is inserted and nothing is drawn |
| OrderOfOperations.WrapShape | src/order-of-operations/index.js:42-43 | the two splices put "(" at the start position and ")" after the token at the end position |
| OrderOfOperations.UnwrapRestores | src/order-of-operations/index.js:42-43 | removing the two inserted tokens gives back the expression |
| OrderOfOperations.Operators | src/order-of-operations/index.js:51-54 | `^` is an operator exactly when exponents are on; parentheses never are |
| OrderOfOperations.NumberTokenIn | src/order-of-operations/index.js:60 | a number term is a numeral from 1 to 10 |
| OrderOfOperations.ExponentTokenIn | src/order-of-operations/index.js:69 | an exponent is a numeral from 2 to 4 |
| OrderOfOperations.ExtendTerms | src/order-of-operations/index.js:61-73 | one more pass appends the operator and the number drawn for it |
| OrderOfOperations.TermsUnique | src/order-of-operations/index.js:56-75 | the draws determine the tokens of the loop |
| OrderOfOperations.PushTerms | src/order-of-operations/index.js:56-75 | the loop's tokens are the terms of `numTerms` passes, and it uses one draw per token |
| OrderOfOperations.NumberAtIn | src/order-of-operations/index.js:63-73 | each pass's operator is from the list; its number is 2 to 4 after `^` and 1 to 10 otherwise |
| OrderOfOperations.TermsShape | src/order-of-operations/index.js:56-75 | n passes give 2n - 1 tokens that alternate numbers and operators, with every number in its range |
| OrderOfOperations.NumberAtStartsWithDigit | src/order-of-operations/index.js:60-73 | every number token starts with a digit |
| OrderOfOperations.TokensFromOperators | src/order-of-operations/index.js:56-75 | no token other than the numbers and the listed operators appears |
| OrderOfOperations.NoCaretNoParentheses | src/order-of-operations/index.js:51-75 | the loop never emits parentheses, and emits no `^` when exponents are off |
| OrderOfOperations.FinishTokens | src/order-of-operations/index.js:77-80 | the step after the loop returns what the optional-parentheses function defines |
| OrderOfOperations.AfterTermsShape | src/order-of-operations/index.js:77-80 | with parentheses off nothing changes and nothing is drawn; with them on, either the tokens are kept or two are added, after the 0.7 draw |
| OrderOfOperations.GenerateMathExpression | src/order-of-operations/index.js:50-83 | the expression and the next draw are those the generation relation defines |
| OrderOfOperations.GeneratedWithoutParentheses | src/order-of-operations/index.js:56-82 | with parentheses off, the expression is the loop's tokens joined by spaces, without "(" or ")" |
| OrderOfOperationsFront.ExpressionKey | src/order-of-operations/front.js:9 | the key is "tempExpression_" followed by the unique part |
| OrderOfOperationsFront.NumTermsOf | src/order-of-operations/front.js:50-53 | the term count is always positive; it is the parsed value when that is positive, and 4 otherwise |
| OrderOfOperationsFront.NumTermsOfNumeral | src/order-of-operations/front.js:46-53 | a field holding a positive numeral gives exactly that many terms |
| OrderOfOperationsFront.NumTermsWithoutDigits | src/order-of-operations/front.js:50-53 | a field without digits, empty included, gives 4 terms |
| OrderOfOperationsFront.IncludeExponentsOf | src/order-of-operations/front.js:47-56 | exponents are off exactly when the trimmed, lower-cased field is "false" |
| OrderOfOperationsFront.IncludeExponentsExamples | src/order-of-operations/front.js:56 | example beside IncludeExponentsOf: an empty field leaves exponents on, and " False " turns them off |
| OrderOfOperationsFront.FrontPage.constructor | src/order-of-operations/front.js:11 | the page starts with the given storage, or none |
| OrderOfOperationsFront.FrontPage.InitFrontSide | src/order-of-operations/front.js:6-22 | the expression is generated with parentheses on, stored under its key when there is storage (nothing otherwise), and returned with its superscript form |
| OrderOfOperationsFront.FrontPage.BrowserInitFront | src/order-of-operations/front.js:38-62 | the question shows the formatted expression, generated with the parsed defaults, and the raw expression is stored under the trimmed id |
| Js.StoredInt | dynamic-division/back.js:11-12 | reading an operand: a missing item is NaN, a present one is `parseInt` of its text (the exponent card reads its operands the same way, at exponent-to-factors/back.js lines 11-12) |
| DynamicDivision.Operands | dynamic-division/back.js:14-17 | both stored values when both parse, otherwise divisor 10 and dividend 1000 |
| DynamicDivision.FloorQuotient | dynamic-division/back.js:20 | the quotient is rounded toward minus infinity for either sign of divisor; a zero divisor gives NaN for 0/0 and an infinity otherwise |
| DynamicDivision.TruncRemainder | dynamic-division/back.js:21 | `%` has the dividend's sign, is smaller than the divisor in magnitude, and differs from the dividend by a multiple of it; NaN for 0 |
| DynamicDivision.DivisionIdentity | dynamic-division/back.js:20-21 | for a non-negative dividend and a positive divisor, quotient × divisor + remainder = dividend, with 0 ≤ remainder < divisor |
| DynamicDivision.AnswerText | dynamic-division/back.js:20-29 | the answer line; the contract is carried by ExactAnswerText and RemainderAnswerText, with Example7543By23 as an example |
| DynamicDivision.BackAnswer | dynamic-division/back.js:11-29 | the back's answer from the store; the contract is carried by Operands, Js.StoredInt and MissingValueFallback |
| DynamicDivision.ExactAnswerText | dynamic-division/back.js:25-26 | an exact division shows the quotient alone |
| DynamicDivision.RemainderAnswerText | dynamic-division/back.js:27-28 | a division with a remainder shows the quotient and the remainder |
| DynamicDivision.Example7543By23 | tests/dynamic-division/test.js:34-35 | example beside DivisionIdentity and RemainderAnswerText: 7543 ÷ 23 shows "327 with remainder 22" |
| DynamicDivision.MissingValueFallback | dynamic-division/back.js:14-17 | a missing divisor shows the fallback 1000 ÷ 10 = 100 |
| ExponentToFactors.ProductString | exponent-to-factors/back.js:20-30 | the product text; the contract is carried by ProductStringFactors and JoinedCopies, with ProductStringExamples as an example |
| ExponentToFactors.CreateProductString | exponent-to-factors/back.js:20-30 | the loop pushes the base `exponent` times and returns the product text of the definition |
| ExponentToFactors.ProductStringFactors | exponent-to-factors/back.js:24-29 | from exponent 2 up, the text is the base, " × ", and the text for one fewer factor; it has exactly exponent - 1 "×" signs |
| ExponentToFactors.JoinedCopies | exponent-to-factors/back.js:24-29 | n copies of a numeral joined by " × " hold n - 1 separators and have the matching length |
| ExponentToFactors.NoTimesInNumeral | exponent-to-factors/back.js:22 | a numeral contains no "×", so the separators are the only ones |
| ExponentToFactors.Operands | exponent-to-factors/back.js:14-17 | both stored values when both parse, otherwise base 0 and exponent 0 |
| ExponentToFactors.AnswerLine | exponent-to-factors/back.js:18-32 | the answer line; the contract is carried by MissingValueFallback and ProductStringFactors |
| ExponentToFactors.BackAnswer | exponent-to-factors/back.js:11-32 | the back's answer from the store; the contract is carried by Operands, Js.StoredInt and MissingValueFallback |
| ExponentToFactors.MissingValueFallback | exponent-to-factors/back.js:14-32 | a missing base shows "0<sup>0</sup> = 1" |
| ExponentToFactors.ProductStringExamples | tests/exponent-to-factors/test.js:47-49 | example beside ProductStringFactors: 3⁴ is "3 × 3 × 3 × 3", 5¹ is "5" and 7⁰ is "1" |

## Left out

- Floating point:
  - `roundToPrecisionAndTrim` and `decimalToMixedFraction` (src/order-of-operations/index.js:86-159) are not part of this model.
  - The back side's `eval`-based evaluation of the expression is not part of this model.
- Rng.Next: the draw is its 32-bit numerator `u`, and the division `u / 4294967296` into a double is not modelled. Every comparison with it is stated on the numerator instead:
  - `rng() < 0.7` becomes `u < 3006477108`;
  - `rng() < 0.5` becomes `u < 2^31`.
- Rng.Scale: `Math.floor(u / 2^32 * n)` is taken as the exact `floor(u * n / 2^32)`. The double product rounds, so for very wide ranges (about 2^21 and up) JavaScript can differ. The same holds for OrderOfOperations.Pick on 53-bit numerators.
- Rng.Next: `t += 0x6d2b79f5` is taken modulo 2^32. In JavaScript `t` is a double that keeps growing, but every bitwise use of it reads its low 32 bits. The model matches the source until `t` passes 2^53, after about 4.9 million draws from one generator.
- Rng.LcmProperties: stated for positive 32-bit operands only. `a * b` is a double, so for products above 2^53 the source rounds while the model stays exact.
- Rng.Lcm: when the truncated gcd is 0 but neither operand is 0 (multiples of 2^32), the model returns 0. JavaScript divides by 0 and gives Infinity or NaN.
- LcmBasic.AnswerIsCommonMultiple: requires operands up to 46340. Above that, the lcm of three operands can leave the 32-bit range, where `gcd`'s `| 0` truncation changes the answer.
- LcmBasic.GeneratedPassesChecks: the same 46340 bound, for the same reason.
- DynamicDivision.FloorQuotient: `Math.floor(dividend / divisor)` is exact integer floor division. For operands above 2^53 the double division rounds first. A stored divisor "-0" reaches it as 0 (see Js.ParseInt), so the sign of the infinity for a zero divisor follows the dividend alone, where JavaScript also flips it for -0.
- DynamicDivision.BackAnswer: a stored divisor "-0" shows "Infinity" where back.js shows "-Infinity" (and "-Infinity" for a negative dividend where back.js shows "Infinity"), because Js.ParseInt drops the sign of zero. The legacy front never stores "-0".
- Js.ParseInt: returns an exact integer where JavaScript's `parseInt` returns a double. Three differences follow. "-0" reads as 0, so the sign of zero is lost. A digit run above 2^53 is read exactly, where JavaScript rounds it to the nearest double: `parseInt("18446744073709551617") >>> 0` is 0 in JavaScript and 1 in the model. A digit run worth more than about 1.8 × 10^308 is Infinity in JavaScript.
- Js.StoredInt: inherits the Js.ParseInt differences.
- ReviewSeed.CoerceSeed: inherits the Js.ParseInt differences: a digit string above 2^53 is reduced modulo 2^32 exactly, where JavaScript first rounds it to a double, and a string worth Infinity gives 0 in JavaScript. The seeds the resolver itself stores are numerals below 2^32 and read back exactly (CoerceStoredSeed).
- Js.ToFiniteInteger: `Number(s)` is modelled exactly up to truncation. A non-integral number is known only by its truncation toward zero (`Fractional`), which is all that `| 0`, `>>> 0` and `parseInt` read of it. Texts whose value passes about 1.8 × 10^308 become Infinity in JavaScript, and so 0 after `| 0`, while the model keeps the exact integer. Values above 2^53 round to the nearest double in JavaScript and stay exact in the model. The text "Infinity" gives `None`, like NaN; JavaScript reads it as Infinity, but both truncate to 0.
- OrderOfOperations.Parenthesized: `insertParentheses` splices into its argument array and returns that same array. The model returns a new sequence. The only caller passes a fresh array and uses only the result, so no sharing is lost.
- OrderOfOperations.GenerateMathExpression: the default arguments of `generateMathExpression` (3 terms, with parentheses, with exponents) are not modelled. The front always passes all three arguments.
- Number-to-string is the plain decimal numeral. JavaScript switches to exponent notation from 10^21, which this model does not capture.
- OrderOfOperationsFront.IncludeExponentsOf: `toLowerCase` is modelled for ASCII letters only.
- Storage:
  - `getStorage` probes sessionStorage, then localStorage, and otherwise builds an in-memory `Map`. Which of them a page offers is the `Storage` value given to the resolver: a web storage (`WebStorage`) or the fallback (`MemoryFallback`).
  - The fallback `Map` is new on every call, so it never holds an item the next call can read. The model keeps it empty, and the front's seed is lost (FallbackLosesSeed). The front and back seeds agree only with a web storage.
  - The `try`/`catch` blocks around storage calls are not modelled. A web storage that throws behaves, in the source, like the fallback.
- Clocks and randomness are parameters:
  - `Date.now`, `performance.now` and `crypto.getRandomValues` form the `Clock` given to the resolver;
  - `Math.random` is the `rnd` function.
- Multiply2dBy1d.OrDefault: the settings of the multiply and add templates are typed optional integers. Config values of other JavaScript types, which those templates pass to `randInt` unchecked, are not modelled.
- The DOM is not part of this model:
  - the front's `#question` and configuration elements become string parameters;
  - the back sides become functions from the store to the answer text.
- The back sides only read the store, so the legacy keys are never removed, as in the source.
- The `window.ANKI_TEMPLATES` exposure and the bundle's debugging helper are not part of this model.
- Each template's `meta` object is not part of this model; only the defaults it holds are.
- The legacy front scripts, the `build/` copies, `utils/gen_expression.py` and the build scripts are not part of this model.
- Expectations that only the tests state are not modelled. For example, gcf operands differing is not promised by the source.
