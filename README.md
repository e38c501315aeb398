# Scroll "load more" helpers

A Dafny model of the three helpers that a smooth-scrollbar list component uses to decide, on each
scroll event, whether more content should load:

- `checkNumber(value, defValue)` coerces `value` to a number with unary `+` and returns `defValue`
  when that gives NaN;
- `checkLoadCapability(limitY, offsetY, loadThreshold)` coerces its three arguments (NaN becomes 0)
  and tests `offsetY >= limitY - loadThreshold`, boundary included;
- `getScrollState(scrollBar, axis, prop)` reads the dotted path `prop` from an arbitrary scrollbar
  state with lodash `get`, defaulting to `{}`, and for axis `"x"` or `"y"` then reads that key of it,
  with no default.

Files:

- `wrappers.dfy` — `Option`, where `None` stands for NaN.
- `js_values.dfy` — module `JsValues`: the JavaScript values involved (`undefined`, `null`, booleans,
  numbers as reals, NaN, strings, plain objects as maps), default parameters (`OrDefault`: only
  `undefined` is replaced), and unary `+` (`ToNumber`) with a decimal reading of strings.
- `lodash_get.dfy` — module `LodashGet`: the semantics assumed for lodash `get(object, path, default)`.
  A path string that is an own key of the object is that one key; otherwise it is split at every `.`
  (`Split`, so `""` is the single key `""` and `"a..b"` is `a`, `""`, `b`). The walk (`Walk`, lodash's
  `baseGet`) reads key after key, yields `undefined` as soon as it stands on `null` or `undefined`, and
  yields `undefined` for an empty key list. The default is returned exactly when the walk yields
  `undefined`, so a resolved `null` comes back as `null`.
- `helpers.dfy` — module `Helpers`: the three helpers and the properties proved about them.

The three helpers are functions of their arguments only; since Dafny values are immutable,
`getScrollState` cannot change `scrollBar`, and repeated calls with the same arguments give the same
result.

JavaScript's unary `+` turns `null` and the empty string into 0, not NaN, so `checkNumber(null, 5)` and
`checkNumber("", 5)` are both 0 (`CheckNumberOfUndefinedOrNull`, `StringToNumberEdgeCases`).
`checkNumber` returns `defValue` as given, without coercing it. The result is therefore guaranteed to be
a number when `defValue` is one or is omitted, and it is NaN only when `defValue` is NaN
(`CheckNumberNeverNaN`).

## Model

| member | source | states |
|---|---|---|
| `JsValues.OrDefault` | src/helpers.js:7 | a default parameter replaces the argument exactly when it is `undefined`; any other argument, `null` included, is kept |
| `JsValues.ToNumber` | src/helpers.js:8 | unary `+` gives a number as itself, and NaN for `undefined`, NaN and objects |
| `JsValues.StringToNumber` | src/helpers.js:8 | unary `+` on a string: `""` is 0, a string starting with neither a digit, a sign nor `.` is NaN, a leading `-` never gives a positive number and no other string gives a negative one; `StringToNumberOfIntToString` and `StringToNumberEdgeCases` characterise it further |
| `JsValues.UnsignedDecimal` | src/helpers.js:8 | an unsigned literal never reads as a negative number, and one that starts with neither a digit nor `.` is NaN |
| `JsValues.UnsignedDecimalOfDigits` | src/helpers.js:8 | a non-empty string of decimal digits reads as the natural number it spells |
| `JsValues.DigitsValueOfNatToDigits` | src/helpers.js:8 | the digits written for a natural number denote that number |
| `JsValues.StringToNumberOfIntToString` | src/helpers.js:8 | `+` on the plain decimal text of any integer `n`, negative ones included, gives `n` |
| `JsValues.StringToNumberOfDecimalExample` | src/helpers.js:8 | `+"3.5"` is 3.5 |
| `JsValues.StringToNumberEdgeCases` | src/helpers.js:8 | `+""` is 0; `"abc"`, `"."`, `"-"` and `"1.2.3"` give NaN |
| `Helpers.CheckNumber` | src/helpers.js:7-10 | the result is a number (never NaN) or else exactly the fallback |
| `Helpers.CheckNumberCoerced` | src/helpers.js:8-9 | when coercion gives a number, that number is returned, whatever the fallback |
| `Helpers.CheckNumberFallsBack` | src/helpers.js:9 | when coercion gives NaN, the fallback (0 if omitted) is returned unchanged |
| `Helpers.CheckNumberNeverNaN` | src/helpers.js:9 | the result is NaN only if the fallback is; with a numeric or omitted fallback the result is a number |
| `Helpers.CheckNumberOfNumber` | src/helpers.js:8-9 | a number that is not NaN is returned as itself |
| `Helpers.CheckNumberIdempotent` | src/helpers.js:8-9 | applying `checkNumber` to its own numeric result, with any fallback, returns that result again |
| `Helpers.CheckNumberOfUndefinedOrNull` | src/helpers.js:7-8 | an omitted or `undefined` value gives 0 whatever the fallback, and so does `null` |
| `Helpers.CheckNumberOfIntegerText` | src/helpers.js:8-9 | the decimal text of an integer coerces to that integer |
| `Helpers.CheckNumberExamples` | src/helpers.js:7-9 | `checkNumber(undefined)` is 0, `("abc", 5)` is 5, `("3.5")` is 3.5, `("abc", "none")` is `"none"`, `(NaN, NaN)` is NaN |
| `Helpers.CheckNumberWithoutFallback` | src/helpers.js:22-24 | with the fallback omitted, `checkNumber` gives the coerced number, or 0 for NaN |
| `Helpers.CheckLoadCapability` | src/helpers.js:17-27 | true exactly when n(offsetY) >= n(limitY) - n(loadThreshold), n being coercion with NaN as 0 — both directions |
| `Helpers.NonNumericCountsAsZero` | src/helpers.js:22-24 | an argument with no numeric reading behaves as 0 in each of the three positions |
| `Helpers.NothingNumericLoads` | src/helpers.js:18-26 | when every argument is omitted or non-numeric the result is true (`0 >= 0 - 0`) |
| `Helpers.LoadMonotoneInOffset` | src/helpers.js:26 | true for an offset stays true for every larger offset |
| `Helpers.LoadMonotoneInThreshold` | src/helpers.js:26 | true for a threshold stays true for every larger threshold |
| `Helpers.LoadAntitoneInLimit` | src/helpers.js:26 | true for a limit stays true for every smaller limit |
| `Helpers.LoadFromIntegerTexts` | src/helpers.js:22-26 | with integer-text arguments the test is the comparison of the integers they spell |
| `Helpers.LoadExamples` | src/helpers.js:17-26 | (100, 100, 0) and (100, 80, 20) are true, (100, 79, 20) is false, all omitted is true, ("100", "90", "10") is true |
| `LodashGet.Split` | src/helpers.js:37 | a dotted path splits into at least one key and no key contains the separator |
| `LodashGet.JoinSplit` | src/helpers.js:37 | joining the keys of a path with the separator gives the path back |
| `LodashGet.SplitJoin` | src/helpers.js:37 | splitting a path joined from separator-free keys gives those keys back |
| `LodashGet.SplitWithoutSeparator` | src/helpers.js:42 | a string without a separator, such as an axis name, is a single key |
| `LodashGet.CastPath` | src/helpers.js:37 | a path resolves to at least one key, and a path without `.` to itself as the only key |
| `LodashGet.Prop` | src/helpers.js:37 | the property read `v[key]`: it finds something only in an object that holds the key, and then finds that key's value |
| `LodashGet.Walk` | src/helpers.js:37 | lodash `baseGet`: `undefined` for an empty key list or from `null`/`undefined`; whatever it finds lies under the first key of an object; a one-key walk is one property read; `WalkAppend`, `WalkNest` and `WalkFoundThroughObjects` characterise it further |
| `LodashGet.Get` | src/helpers.js:37-42 | when the walk finds something other than `undefined` that is the result, and otherwise the result is the default; so it is `undefined` only if the default is |
| `LodashGet.WalkNest` | src/helpers.js:37 | walking a key path through the object built along it finds the stored value |
| `LodashGet.WalkAppend` | src/helpers.js:37 | walking `p + q` equals walking `p` and then `q` from where `p` ended |
| `LodashGet.WalkFromNullish` | src/helpers.js:37 | nothing is read from `null` or `undefined` |
| `LodashGet.WalkFoundThroughObjects` | src/helpers.js:37 | a walk that finds something starts at an object holding the first key and continues from that key's value |
| `LodashGet.DottedPath` | src/helpers.js:37 | a path joined from `.`-free keys walks exactly those keys, unless the whole string is an own key |
| `Helpers.GetScrollState` | src/helpers.js:36-47 | never throws, and without axis narrowing never yields `undefined` |
| `Helpers.GetScrollStateWholeState` | src/helpers.js:37-45 | for an axis other than "x"/"y" the result is the value at `prop`, or `{}` when the path does not resolve |
| `Helpers.GetScrollStateNarrowed` | src/helpers.js:39-42 | for axis "x" or "y" the result is that key of the resolved state, or `undefined` when the state lacks it |
| `Helpers.GetScrollStateDottedPath` | src/helpers.js:37 | a dotted `prop` reads its keys one after another |
| `Helpers.GetScrollStateOfNested` | src/helpers.js:37 | a state stored at a dotted path is returned from that path |
| `Helpers.GetScrollStateExamples` | src/helpers.js:36-46 | `({move: {x: 5, y: 9}}, "x", "move")` is 5, `({}, "x", "move")` is `undefined`, `(undefined, "", "move")` is `{}`, a resolved `null` is kept and narrows to `undefined` |

## Left out

- The lodash re-exports (`debounce`, `defaultsDeep`, `isArray`, `isEmpty`, `get`, `isNaN`) and the
  default-export object (src/helpers.js:1, 49-59): library code with no behaviour in this file;
  `debounce` depends on timers. Only the behaviour of `get` and of the NaN test that the helpers rely on
  is modelled.
- IEEE-754 numbers: numbers are reals, so Infinity, -0, rounding, and `Infinity - Infinity` being NaN
  inside the comparison at src/helpers.js:26 are not modelled.
- JsValues.ToNumber: reads strings only as decimal literals (optional sign, digits with at most one
  `.`); whitespace trimming, exponents, hex/octal/binary literals and `"Infinity"` are not modelled and
  give NaN in the model, where JavaScript gives a number.
- JsValues.ToNumber: objects always give NaN; a `valueOf`/`toString` override is not modelled.
- Arrays, functions, symbols and BigInt are not among the modelled values.
- LodashGet.Prop: only own keys of plain objects are read; prototype properties (such as `length` of a
  string) read as `undefined`.
- LodashGet.CastPath: bracket and quoted-key path syntax, and paths given as arrays or numbers, are not
  modelled; `prop` is a string, and an omitted `prop` is passed as `""`, its default.
- The scrollbar component, DOM binding and event wiring that call these helpers are not part of this
  model.
