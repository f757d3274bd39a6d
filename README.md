# AI Health Analyze — verified model of the deterministic core

This project models the deterministic logic of the AI Health Analyze web application in Dafny and proves its properties. The model has three parts.

- **Vital-sign analysis** (`app.py`). `_to_int`, `_to_float` and `_calc_bmi` turn loosely typed JSON values into optional numbers. `analyze_health` then does two things:
  - It applies seven fixed threshold rules to build the list of warning flags, following Python truthiness exactly.
  - It assembles the summary lines (`info_lines`) that are sent to the assistant.

  A non-blank `free_text` bypasses the rules and gives an empty flag list.
- **Toast notifications** (`static/js/notify.js`).
  - The pure parts are modelled as functions: the auth-error message lookup, the user identifier and account subtitle, the type-to-style lookup, and the texts of the auth toasts.
  - The toast lifecycle is a class, `ToastCenter.Center`. It holds the memoised container, the containers and toasts created so far, and the pending timer callbacks. It models `ensureContainer`, `notify`, the `dismiss` closure, the removal callback, the close button and the hover listeners.
- **Page switcher** (`static/js/health.js`). `goToPage` is an in-place loop over an array of elements in document order, each with its class set. The startup call goes to `landing`.

Files:

| file | contents |
|---|---|
| `wrappers.dfy` | `Option` |
| `text.dfy` | Python `str.strip` and JavaScript `String.prototype.trim` (with their whitespace sets), and `str.join` |
| `conversions.dfy` | JSON values, truthiness, `_to_int`, `_to_float`, `_calc_bmi`, and the rule that a supplied `bmi` is kept |
| `analysis.dfy` | the flag rules, the summary lines, and `analyze_health` as a specification function plus a method that appends step by step |
| `notifications.dfy` | the pure helpers of `notify.js`, including an own-property model of object-literal lookups |
| `toast_center.dfy` | the toast lifecycle class |
| `page_switcher.dfy` | `goToPage` and the startup listener |

JSON input is the datatype `Conversions.Raw`: `null`, a number, or a string. Python's `int()` and `float()` parsing of a string is not modelled. Instead, a string value carries what each of them would return (`asInt`, `asFloat`), with `None` when they would raise. A carried `float()` result is a real number, so `float("inf")` and `float("nan")` cannot be represented: a string `"inf"` for `temperature_c` or `blood_sugar` raises a flag in the source that the model cannot reproduce.

## Model

| member | source | states |
|---|---|---|
| Text.Trim | app.py:113 | the result is empty exactly when the input is all whitespace |
| Text.TrimBounds | app.py:113 | the result is a contiguous piece `s[i..j]` of the input with only whitespace before it and only whitespace after it, and it neither starts nor ends with whitespace: the input minus its leading and trailing whitespace |
| Text.TrimIdempotent | app.py:139 | stripping an already stripped string changes nothing |
| Text.Join | app.py:199 | joining no parts gives "", joining one part gives that part, and the result is at least as long as the separators between the parts |
| Text.JoinFirst | app.py:199 | joining two or more parts gives the first part, the separator, and the remaining parts joined: the parts in order with one separator between each pair |
| Conversions.Truncate | app.py:76 | `int()` of a number truncates toward zero: the greatest integer not above a non-negative input, the least integer not below a negative one |
| Conversions.ToInt | app.py:74-78 | `None` exactly for null, the empty string and unparsable text; a JSON number, taken as an exact real, gives its truncation toward zero; non-empty text gives what `int()` gives |
| Conversions.ToFloat | app.py:80-84 | `None` exactly for null, the empty string and unparsable text; a JSON number, taken as an exact real, is kept; non-empty text gives what `float()` gives |
| Conversions.CalcBmi | app.py:86-98 | a value exactly when height and weight both convert, neither is zero, and height is positive |
| Conversions.CalcBmiValue | app.py:86-98 | a computed BMI times the square of the height in metres gives back the weight |
| Conversions.EffectiveBmi | app.py:164-165 | a truthy supplied `bmi` is kept as sent (number or text); a falsy one is replaced by the computed value |
| Analysis.VitalsOf | app.py:157-165 | a `bmi` sent as a non-empty string stays text and is never converted; a falsy `bmi` is numeric exactly when `_calc_bmi` gives a value; the symptom list is passed through |
| Analysis.Fires | app.py:170-184 | the pressure rules fire only on a truthy systolic or diastolic reading; the BMI rule fires only on a numeric BMI |
| Analysis.Rank | app.py:168-184 | each flag has a fixed position in the order the rules are applied |
| Analysis.FilterRules | app.py:168-184 | applying rules never yields more flags than there are rules |
| Analysis.FilterMembership | app.py:168-184 | a flag is produced exactly when its rule is among those applied and fires |
| Analysis.FilterOrdered | app.py:168-184 | flags come out in rule order, with no repeats |
| Analysis.FilterCongruent | app.py:168-184 | two inputs on which every applied rule agrees give the same flags |
| Analysis.FlagsUnrolled | app.py:168-186 | the flag list is the seven appends in source order, with the last two skipped when `bmi` is text |
| Analysis.FlagIn | app.py:168-186 | a flag is present exactly when its rule fires and is reached: the BMI and cardio/lung rules are not reached when `bmi` is text |
| Analysis.FlagsMeaning | app.py:170-184 | fever exactly at temperature ≥ 38.0; pulse exactly below 50 or above 100; high pressure exactly at a non-zero systolic ≥ 140 or a non-zero diastolic ≥ 90; low pressure exactly at a non-zero systolic < 90 or a non-zero diastolic < 60; sugar exactly at ≥ 180; obesity exactly at a numeric BMI ≥ 30; cardio/lung exactly at chest pain together with breathlessness or palpitations; flags in rule order, no repeats, at most 7 |
| Analysis.ZeroPressureIgnored | app.py:174-177 | a pressure reading of 0 gives the same flags as a missing one |
| Analysis.HighAndLowTogether | app.py:174-177 | 150/50 raises both the high and the low pressure flag |
| Analysis.TextBmiSkipsLaterRules | app.py:180-186 | when `bmi` was sent as text, the comparison raises, and the flags found so far are kept: no obesity or cardio/lung flag, and the first five rules still apply |
| Analysis.Labels | app.py:171-184 | one label per flag, in the same order |
| Analysis.OrPlaceholder | app.py:191-194 | a falsy value is shown as the given placeholder text; a truthy one is shown as sent |
| Analysis.FixedLines | app.py:190-200 | nine lines, none of them the notes or the flags line |
| Analysis.Summary | app.py:190-205 | the nine fixed lines come first; the notes line follows exactly when the stripped notes are non-empty; the flags line comes last exactly when there are flags; so notes always precede flags |
| Analysis.Analyze | app.py:110-205 | an assistant answer exactly when the stripped `free_text` is non-empty, and then its question is that stripped text; otherwise an assessment carrying the flags of the converted vitals, whose summary starts with the nine fixed lines |
| Analysis.FreeTextMeansNoFlags | app.py:113-131 | a `free_text` that is non-blank after stripping gives an assistant answer with no flags, whatever the vitals |
| Analysis.BlankFreeTextAssesses | app.py:133-205 | otherwise the response is a form assessment carrying the rule flags of the converted vitals |
| Analysis.BlankFreeTextSummaryEndsWithFlags | app.py:133-205 | with blank free text the summary ends with the flags line exactly when some rule fired |
| Analysis.AppendIfFires | app.py:170-184 | one `if condition: flags.append(label)` appends the rule's flag exactly when its condition holds, and otherwise leaves the list as it was |
| Analysis.CollectFlags | app.py:168-186 | appending the rules one by one, and stopping when the BMI comparison raises, gives exactly the specified flags |
| Analysis.AnalyzeHealth | app.py:110-205 | the step-by-step handler (strip, convert, compute the BMI, collect flags, append summary lines) gives exactly the specified response |
| Notifications.Lookup | static/js/notify.js:62 | reading a key of an object literal finds an own property exactly when the key is in the table, and an inherited `Object.prototype` member exactly when it is not and names one |
| Notifications.TypeStyleAsWritten | static/js/notify.js:5-22 | as written, `TYPE_STYLES[type] ?? TYPE_STYLES.info` has no usable style exactly for unknown types that name an `Object.prototype` member |
| Notifications.TypeStyleAsWrittenLosesFallback | static/js/notify.js:62 | the type `"constructor"` gets neither its own style nor the info fallback |
| Notifications.TypeStyle | static/js/notify.js:5-22 | the four known types get their own border and icon; every other type gets the info border and icon |
| Notifications.TypeStylesDistinguishKinds | static/js/notify.js:5-22 | the four known types have four different icons |
| Notifications.TypeStyleAgrees | static/js/notify.js:62 | for every type that is not an `Object.prototype` member name, the corrected lookup and the code as written agree |
| Notifications.AuthCodesStartWithA | static/js/notify.js:24-43 | every code of the table starts with `a`, and every message is non-empty |
| Notifications.PrototypeNamesAvoidA | static/js/notify.js:24 | no `Object.prototype` member name starts with `a` |
| Notifications.AuthTableFacts | static/js/notify.js:24-43 | the table has no empty code, no code that names an `Object.prototype` member, and no empty message |
| Notifications.AuthErrorMessageAsWritten | static/js/notify.js:161-169 | as written, the result is an inherited member (a function, or the prototype object for `__proto__`) rather than a text exactly when the error's code names an `Object.prototype` member |
| Notifications.AuthErrorMessageAsWrittenEscapes | static/js/notify.js:163-165 | an error with code `"toString"` returns that function, whatever its message |
| Notifications.AuthErrorMessage | static/js/notify.js:161-169 | never empty; the default for a falsy error; the table entry when the code is in the table, whatever the message; otherwise the trimmed message if non-empty, else the default |
| Notifications.AuthErrorMessageSource | static/js/notify.js:161-169 | the result is either a table entry, the trimmed message, or the default |
| Notifications.AuthErrorMessageAgrees | static/js/notify.js:161-169 | for every code that is not an `Object.prototype` member name, the corrected function and the code as written agree |
| Notifications.EmailTrimmed | static/js/notify.js:172 | the email read from a user is already trimmed |
| Notifications.UserIdentifier | static/js/notify.js:171-174 | the trimmed email when non-empty, else the trimmed fallback |
| Notifications.UserIdentifierTrimmed | static/js/notify.js:171-174 | the identifier never has surrounding whitespace |
| Notifications.AccountSubtitle | static/js/notify.js:176-179 | empty exactly when the identifier is empty, otherwise the account prefix followed by the identifier |
| Notifications.ErrorToastsAreFailures | static/js/notify.js:181-220 | an auth toast is an error toast exactly for the failure events |
| Notifications.ToastBodies | static/js/notify.js:181-220 | failure toasts and the signup-success toast always carry a non-empty text |
| Notifications.ToastFor | static/js/notify.js:181-220 | every auth toast helper calls `notify` with a known type and a non-empty title |
| Notifications.ToastKinds | static/js/notify.js:161-220 | the four failure helpers that take an error make an error toast whose text is the corrected auth error message, and equals what `getAuthErrorMessage` returns whenever that is a string |
| Notifications.SignupSubtitleFallback | static/js/notify.js:189-192 | signup success shows the account subtitle, or the welcome text when the subtitle is empty |
| ToastCenter.Milliseconds | static/js/notify.js:136-148 | an auto-dismiss waits TOAST_DURATION, or 1.5 times less after the cursor leaves, and always longer than the removal delay |
| ToastCenter.Without | static/js/notify.js:127 | removing a child keeps every other child and never introduces a repeat; removing an absent child changes nothing |
| ToastCenter.WithoutKeepsOrder | static/js/notify.js:127 | removing a child that occurs once, at position `k`, leaves the children before and after it in their order |
| ToastCenter.Cancel | static/js/notify.js:139 | `clearTimeout` leaves every pending timer except the auto-dismiss with that id |
| ToastCenter.CancelKeepsUnique | static/js/notify.js:139 | cancelling a timer keeps the pending auto-dismisses at most one per toast |
| ToastCenter.AddChild | static/js/notify.js:151 | appending a new toast to a container keeps every container's children distinct toasts of that container |
| ToastCenter.Center.constructor | static/js/notify.js:47 | at module load there is no container, no toast and no pending timer |
| ToastCenter.Center.AtMostOneAttached | static/js/notify.js:49-58 | the document never holds two toast containers |
| ToastCenter.Center.EnsureContainer | static/js/notify.js:49-58 | the memoised container when it is still in the document; otherwise a new, attached and memoised one; nothing else changes |
| ToastCenter.Center.Notify | static/js/notify.js:118-153 | the new toast is the last child of the container `ensureContainer` gives, with the resolved style; its auto-dismiss is pending; nothing is merged or evicted; it is connected and scheduled |
| ToastCenter.Center.Dismiss | static/js/notify.js:121-124 | on a toast that is no longer connected, nothing; otherwise a removal callback is scheduled; nothing else changes |
| ToastCenter.Center.RemoveAfterAnimation | static/js/notify.js:125-134 | the toast is removed only if still connected; the container is detached and the memo cleared only if it is then empty and still attached; afterwards the toast is not connected, so a second run removes nothing |
| ToastCenter.Center.FireTimer | static/js/notify.js:125-136 | a fired auto-dismiss runs `dismiss`; a fired removal runs the removal callback, with its new containers and memo: the toast leaves its container if still connected, and an emptied attached container is detached and the memo cleared; the fired timer is no longer pending |
| ToastCenter.Center.CancelHideTimer | static/js/notify.js:139 | the toast's pending auto-dismiss is cancelled and nothing else changes |
| ToastCenter.Center.CloseClick | static/js/notify.js:138-141 | the pending auto-dismiss is cancelled before `dismiss` runs; a connected toast is then animating out with no auto-dismiss left |
| ToastCenter.Center.HoverEnter | static/js/notify.js:143-145 | no auto-dismiss of the toast is left pending |
| ToastCenter.Center.HoverLeave | static/js/notify.js:147-149 | a new auto-dismiss with the shorter delay is pending and held in `hideTimer`; a connected toast that is not animating is scheduled again |
| ToastCenter.Center.ExternalDetach | static/js/notify.js:49-50 | a container removed from the document by other code stays memoised but is no longer attached |
| PageSwitcher.ClearPages | static/js/health.js:3-4 | every element is visited once and only `.page` elements lose `active` |
| PageSwitcher.FirstWithClass | static/js/health.js:7 | the index of the first element in document order with the class, or none exactly when no element has it |
| PageSwitcher.AfterGoTo | static/js/health.js:1-11 | the document keeps its length, and no element gains or loses any class but `active` |
| PageSwitcher.GoToPage | static/js/health.js:1-11 | the in-place loop followed by the lookup leaves the document exactly as specified: pages cleared, then the first element with the class activated |
| PageSwitcher.Startup | static/js/health.js:13-16 | on load the document is as after going to `landing` |
| PageSwitcher.ClearKeepsSearch | static/js/health.js:3-7 | clearing pages does not change which element the class lookup finds, for any class but `active` |
| PageSwitcher.OnlyTargetActive | static/js/health.js:3-10 | an active `.page` element afterwards is the element the lookup found |
| PageSwitcher.TargetActivated | static/js/health.js:7-10 | the first element with the class is active afterwards, page or not |
| PageSwitcher.NoMatchNoActivePage | static/js/health.js:7-10 | when no element has the class, no error occurs and no `.page` element is active |
| PageSwitcher.OnlyActiveChanges | static/js/health.js:3-10 | no class but `active` changes, and an element that is neither a page nor the target is untouched, so a non-page keeps its `active` |
| PageSwitcher.GoToIdempotent | static/js/health.js:1-11 | going to the same page twice is the same as going once |
| PageSwitcher.ReactivateIsStable | static/js/health.js:4-9 | clearing twice is clearing once, and re-activating a cleared element is stable |
| PageSwitcher.SameClassSameSearch | static/js/health.js:7 | the lookup depends only on which elements carry the class |
| PageSwitcher.ExactlyOneActivePage | static/js/health.js:1-11 | when the first element with the class is a page, it is the one and only active page afterwards |
| PageSwitcher.StartupShowsLanding | static/js/health.js:13-16 | after startup, when the first `landing` element is a page, it is the only active page |

## Left out

- Flask routing, templates and the OpenAI calls in `app.py` are I/O and foreign calls. A non-blank `free_text` becomes the response `AiAnswer(question)`, with no flags. The assistant's text and the second model call made after `info_lines` are not modelled.
- `int()` and `float()` parsing of strings is an oracle carried in each string value (`asInt`, `asFloat`). Booleans, lists and objects as JSON scalars are not modelled.
- Conversions.ToInt: JSON numbers are exact reals, but Python's `json` turns a number with a fraction or an exponent into a double before `int()` sees it. Two consequences are not modelled: a decimal that rounds to a whole double (`139.99999999999999999` becomes 140.0, so `int()` gives 140) is truncated by the model to 139 instead; and an exponent beyond the double range (`1e400` becomes `inf`, and `int(inf)` raises OverflowError, so app.py:77-78 return None) gives the model a huge integer instead. So for `systolic` and `diastolic` the model can miss a high-pressure flag the source raises (the first case) or raise one the source does not, where the source shows "-" (the second case); for `heart_rate` the second case makes the model raise an abnormal-pulse flag the source does not.
- Conversions.ToFloat: JSON numbers are exact reals, and a string's carried `float()` result cannot be infinite or not-a-number, so `"inf"` or `"nan"` as text is not modelled. Neither `float()`'s OverflowError on an integer beyond the double range (app.py:83-84 then returns None, so no flag is raised and the summary shows "-") nor the rounding of decimals to doubles is modelled; for such an integer the model keeps the number, so a huge `blood_sugar` or `temperature_c` raises a flag the source does not, and a huge height or weight gives a BMI where `_calc_bmi` gives None.
- Conversions.CalcBmi: computes with exact reals. It does not model floating-point division or `round(..., 1)`, so the value is the exact quotient. Not-a-number and infinite inputs are not modelled either. This changes a flag: a computed quotient in [29.95, 30) is rounded to 30.0 by app.py:96 and flagged as obesity by app.py:180, while the model keeps it below 30 and raises no obesity flag.
- Conversions.CalcBmiValue: states the exact quotient for the same reason; the source's value is that quotient rounded to one decimal.
- Analysis.Summary: each line's values are kept as cells (raw value, number, text or placeholder) rather than as formatted strings, because Python's number formatting in f-strings is not modelled. Joining the lines with newlines is not modelled.
- The unused `SYMPTOMS` list, the `data.get(...) or {}` body parsing and the exception path of a malformed request body are outside the analysis logic.
- Notifications.ToastFor: the failure helpers' text is the corrected `AuthErrorMessage`. For an error code that names an `Object.prototype` member, notify.js:164-165 passes that inherited member as the toast text instead; the model shows the intended text (see Findings).
- Notifications.ToastKinds: states the toast text as the corrected message; it agrees with the source's `getAuthErrorMessage` only where that returns a string, and not for codes that name an `Object.prototype` member.
- ToastCenter.Center.Notify: stores the corrected `TypeStyle(kind)`. For a type that names an `Object.prototype` member, notify.js:62 gives a toast with no type-specific border colour (the class token becomes "undefined") and no icon; the model gives it the info style (see Findings).
- The request field `symptoms` is typed as a list of strings. A JSON string there turns the `in` tests of app.py:183 into substring tests, and a list element that is not a string makes `", ".join` at app.py:199 raise outside the `try`; neither is modelled.
- The request fields `free_text` and `extra_notes`, and the `fallback` of `userIdentifier`, are typed as strings. A truthy non-string value there makes `.strip()` (app.py:113, 139) or `.trim()` (notify.js:173) throw; that exception path is not modelled.
- Styling in `notify.js` is left out: CSS class strings, ARIA attributes, `animateIn`/`animateOut` and `requestAnimationFrame`. Of a toast element, only its style (border and icon), title and text are kept.
- ToastCenter.Center.FireTimer: any pending timer may fire next. Real durations are not modelled, so this allows every order a browser could produce, and more.
- ToastCenter.Center.HoverLeave: requires that the cursor entered the toast first, which browsers guarantee for `mouseleave`.
- PageSwitcher.GoToPage: requires the page name to be a plain CSS class identifier. A name that is a compound selector, or that is not a valid selector, would change what `querySelector` matches or make it throw after the pages are cleared. The only caller in the model passes `landing`.
- `static/js/register.js` is a wrapper over the Firebase SDK and is not part of this model.

## Findings

| source | as written | input that shows it | evidently intended | confidence | as-written member | corrected member |
|---|---|---|---|---|---|---|
| static/js/notify.js:163-165 | `AUTH_ERROR_MESSAGES[code]` also finds members inherited from `Object.prototype`, which are truthy inherited members | an error whose `code` is `"toString"` returns the `toString` function instead of a message | look up only the table's own keys, and fall back to the trimmed message or the default | low (the codes come from Firebase); not executed | Notifications.AuthErrorMessageAsWritten | Notifications.AuthErrorMessage |
| static/js/notify.js:62 | `TYPE_STYLES[type] ?? TYPE_STYLES.info` also finds inherited members, which are not nullish, so the info fallback is skipped | `notify("constructor", …)` yields no type-specific border colour and no icon | every unknown type gets the info style | low (callers pass fixed types); not executed | Notifications.TypeStyleAsWritten | Notifications.TypeStyle |
