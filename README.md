# Progress accounting and restart redirect of the Genshin-style loading page

This project models the core of a browser front-end that shows a themed
loading screen, turns weighted preload tasks into one progress value, and, when
the user confirms a restart, picks the one URL the browser is sent to.

- `TaskAccounting` (`task_manager.dfy`): the `TaskManager` class. It has the
  real-valued fields `taskCount`, `taskFinished` and `progress`. Two ghost fields
  support the proofs: `pending`, the weights registered but not yet settled, and
  `wholeWeights`, which says whether every weight since the last reset was at
  least 1. `Valid()` keeps progress in [0, 1]. While `wholeWeights` holds, it
  also ties the denominator to the finished plus the pending weights, and says
  progress is 1 once every task has settled. Lighter weights can break that tie
  through the floor of 1: weights 0.5 and 0.5 give a count of 1.5 but a
  finished weight of 1.0. `Task` is the synchronous half of `task`: it
  registers the weight. `Settle` is the continuation: it finishes the weight
  whether the handle resolved or rejected.
- `Session` (`game_manager.dfy`): the `GameManager` class. It holds the current
  `TaskManager`, `restartCount` and the event subscriptions. It provides
  `reset`, the `progress` getter, `restart`, `task` delegation and
  `confirmRestart`. The event emitter it extends lives in `../libs/xviewer`,
  outside the modelled code. It is modelled as an ordered list of subscriptions. `emit`
  notifies an event's listeners in subscription order, and `clear` empties the
  list.
- `Redirect` (`redirect.dfy`): the decision inside `confirmRestart` as a pure
  function `Resolve`. The order is: first the registry entry whose trimmed URL
  has the current host, then the `/s/<target>` override, then
  `https://www.guc.edu.kg/`. The fetched registry is a parameter,
  `Option<seq<Entry>>`, where `None` means the fetch, the JSON parse or the
  scan threw. The browser's URL handling is a `UrlApi` of three total
  functions. `parseHost` is `new URL(..).host`, which returns `None` where the
  constructor throws. `trim` is `String.trim`. `accepts` says whether assigning
  a string to `window.location.href` succeeds.
  - A registry URL the browser rejects is assigned inside the inner `try`, so
    it falls through to the `/s/` override.
  - An override the browser rejects is assigned inside the outer `try` only, so
    its `catch` sends the browser to the default.
- `IntermediatePage` (`intermediate_page.dfy`): `getIconProgress` for the seven
  element icons over `real`, and the `checkDaytime` rule computed from a time
  value in milliseconds.

The model follows the code as written. In particular:

- Registry entries are matched by the host of their URL against the current
  host (`src/core/GameManager.ts:73-74`). They are not matched by name against
  a percent-decoded path segment, and there is no path decoding.
- The HTTP status of the registry response is never checked. Any response whose
  body parses and has a `websites` list is scanned.
- Tasks are not serialized. `_resolve` is never reassigned, so every handle runs
  as soon as the already-settled `Promise.resolve()` allows.
- `reset` does not increment `restartCount`. Nothing in the modelled code
  changes it.
- There is no delay before navigating.

## Model

| member | source | states |
|---|---|---|
| TaskAccounting.Clamp01 | src/core/GameManager.ts:32 | clamp01 maps every real to [0, 1], keeps values already in [0, 1], and sends values below or above to 0 or 1 |
| TaskAccounting.GrownCount | src/core/GameManager.ts:35-37 | the new denominator is at least 1 and at least count + w, and equals count + w unless the floor of 1 applies |
| TaskAccounting.NextProgress | src/core/GameManager.ts:30-33 | the recomputed progress lies in [0, 1], never falls below a previous value in [0, 1], is at least finished/count when that ratio is at most 1, and is 1 exactly when the previous value was 1 or finished has reached count |
| TaskAccounting.LightTaskStaysBelowOne | src/core/GameManager.ts:30-37 | because of the floor of 1, one finished task of weight below 1 leaves progress at its weight, below 1 |
| TaskAccounting.TaskManager.constructor | src/core/GameManager.ts:3-7 | a new TaskManager starts with count, finished and progress at 0 and nothing pending |
| TaskAccounting.TaskManager.Progress | src/core/GameManager.ts:9-11 | the progress getter always returns a value in [0, 1] |
| TaskAccounting.TaskManager.Regist | src/core/GameManager.ts:35-37 | `_regist` sets the denominator to max(1, count + w), leaves finished weight and progress unchanged, adds w to the pending weights and keeps the invariant |
| TaskAccounting.TaskManager.Finish | src/core/GameManager.ts:30-33 | `_finish` adds w to the finished weight and sets progress to clamp01(max(previous, finished/count)). Progress never decreases, and once every whole-weight task has settled, finished equals count and progress is 1 |
| TaskAccounting.TaskManager.Task | src/core/GameManager.ts:13-14 | `task` registers its weight, 1 by default, at once, with the same effect as `_regist` |
| TaskAccounting.TaskManager.Settle | src/core/GameManager.ts:15-21 | a resolved handle and a rejected one both finish the task's weight, with the same new state |
| TaskAccounting.TaskManager.Reset | src/core/GameManager.ts:24-28 | `reset` sets count, finished and progress to 0 and leaves nothing pending |
| Session.ListenersOf | src/core/GameManager.ts:40 | the listeners an event reaches are exactly the ones subscribed to it, and there are never more of them than subscriptions |
| Session.ListenersOfAppend | src/core/GameManager.ts:40 | a new subscription puts its listener at the end of its own event's list and leaves every other event's list unchanged, so listeners are reached in subscription order, once per subscription |
| Session.GameManager.constructor | src/core/GameManager.ts:40-42 | a new GameManager owns a fresh TaskManager at progress 0, with restartCount 0 and no subscriptions |
| Session.GameManager.Progress | src/core/GameManager.ts:50-52 | the progress getter returns the current TaskManager's progress, a value in [0, 1] |
| Session.GameManager.On | src/App.tsx:16-18 | subscribing appends one subscription: the new listener is reached last by its event and by no other event, and nothing else changes |
| Session.GameManager.Emit | src/core/GameManager.ts:56 | emitting an event notifies that event's listener list, which `On` and `ListenersOfAppend` keep in subscription order |
| Session.GameManager.Restart | src/core/GameManager.ts:54-57 | `restart` only emits `show-intermediate-page` to its subscribers. It changes no state and does not navigate |
| Session.GameManager.Reset | src/core/GameManager.ts:44-48 | `reset` clears all subscriptions, so no event reaches any listener. It zeroes the old TaskManager and installs a fresh one at progress 0, and leaves restartCount alone |
| Session.GameManager.Task | src/core/GameManager.ts:122-124 | `task` delegates the registration to the current TaskManager, with weight 1 by default |
| Session.GameManager.Settle | src/core/GameManager.ts:15-21 | a delegated task's settlement finishes its weight. Count and the whole-weight flag are unchanged, and progress becomes clamp01(max(previous, finished/count)). Progress does not decrease, and once every whole-weight task has settled, finished equals count and progress is 1 |
| Session.GameManager.ConfirmRestart | src/core/GameManager.ts:59-120 | `confirmRestart` navigates to exactly the resolved target. That target is one the browser accepts, or the default. Without a registry match it carries an explicit scheme |
| Redirect.HostMatchIgnoresName | src/core/GameManager.ts:72-78 | the `find` callback's verdict on an entry does not depend on its name, only on the host of its trimmed URL. An entry whose URL does not parse never matches |
| Redirect.FindMatch | src/core/GameManager.ts:71-79 | the scan finds an entry exactly when some entry's trimmed URL parses to the current host. The entry found is the first such one: entries before it either do not parse or have another host |
| Redirect.PathOverride | src/core/GameManager.ts:91-109 | the override applies exactly when the path starts with `/s/` and has something after it. It yields that remainder or `https://` plus the remainder, always with an explicit scheme. The remainder is kept as it is exactly when it already has a scheme |
| Redirect.RegistryMatch | src/core/GameManager.ts:66-88 | a registry match exists only when the registry was obtained, and it indexes one of its entries |
| Redirect.OverrideOrDefault | src/core/GameManager.ts:90-118 | after the registry step, the target is either the default or a `/s/` URL that has an explicit scheme and that the browser accepts. A rejected override reaches the outer `catch` and so the default |
| Redirect.Resolve | src/core/GameManager.ts:59-119 | the resolved target is always one the browser accepts, or the default. Without a registry match it carries an explicit scheme |
| Redirect.RegistryFirstMatchWins | src/core/GameManager.ts:71-88 | when entry k is the first whose host matches, the target is entry k's trimmed URL if the browser accepts it, whatever the path. Otherwise the inner `catch` falls through to the override-or-default step |
| Redirect.OverrideWithoutMatch | src/core/GameManager.ts:86-118 | without a registry match, `/s/X` with non-empty X resolves to X when X starts with `http://` or `https://`, and to `https://` + X otherwise. In either case it goes to the default instead when the browser rejects that URL |
| Redirect.DefaultWithoutMatch | src/core/GameManager.ts:90-113 | without a registry match, a path that is `/s/` or does not start with `/s/` resolves to `https://www.guc.edu.kg/` |
| Redirect.ResolveCases | src/core/GameManager.ts:59-119 | the result is one target: the trimmed URL of a matching registry entry, or an accepted URL with an explicit scheme, or the default |
| Redirect.FetchFailureIsNoMatch | src/core/GameManager.ts:66-88 | a failed fetch or parse resolves the same as a registry in which no entry matches |
| Redirect.ExampleSchemeAdded | src/core/GameManager.ts:91-106 | `/s/bob.example/page` with no registry match resolves to `https://bob.example/page`, a URL the browser accepts |
| Redirect.ExampleSchemeKept | src/core/GameManager.ts:91-106 | `/s/http://already-scheme.example`, a URL the browser accepts, resolves to `http://already-scheme.example`, with no second scheme |
| Redirect.ExampleRejectedOverride | src/core/GameManager.ts:91-118 | `/s/http://`, which the browser rejects, resolves to the default through the outer `catch` |
| Redirect.ExampleDefault | src/core/GameManager.ts:111-113 | `/unknown` with no registry match resolves to the default |
| IntermediatePage.IconProgress | src/pages/IntermediatePage.tsx:28-40 | an icon's fill lies in [0, 100]. It is 0 up to the icon's start (index × 100/7) and 100 from its end ((index + 1) × 100/7). In between it lies strictly between 0 and 100 |
| IntermediatePage.IconProgressAsClamp | src/pages/IntermediatePage.tsx:28-41 | an icon's fill is 100 times the overall progress, counted in icons from that icon's start and clamped to [0, 1] |
| IntermediatePage.IconProgressMonotone | src/pages/IntermediatePage.tsx:28-41 | for a fixed icon, the fill never decreases as the overall progress grows |
| IntermediatePage.IconProgressEarlierFirst | src/pages/IntermediatePage.tsx:28-41 | for fixed overall progress, an earlier icon is at least as full as a later one |
| IntermediatePage.SumIconsClamp | src/pages/IntermediatePage.tsx:28-41 | the fills of the first n icons add up to 100 times the overall progress counted in icons, clamped to [0, n] |
| IntermediatePage.ClampIconsToPercent | src/pages/IntermediatePage.tsx:29-30 | with seven icons of 100/7 percent each, 100 × (progress in icons, clamped to [0, 7]) equals 7 × (progress in percent, clamped to [0, 100]) |
| IntermediatePage.IconsShowTotal | src/pages/IntermediatePage.tsx:9-41 | the seven icon fills add up to 7 times the overall percentage clamped to [0, 100], so the icon bar shows the overall percentage |
| IntermediatePage.UtcHour | src/pages/IntermediatePage.tsx:23 | `getUTCHours` of a time value lies in 0..23 |
| IntermediatePage.Utc8Hour | src/pages/IntermediatePage.tsx:21-23 | the hour read after the eight-hour shift is the UTC hour plus 8, modulo 24 |
| IntermediatePage.DaytimeHourFlips | src/pages/IntermediatePage.tsx:24 | of any two clock hours twelve apart, exactly one passes the daytime test |
| IntermediatePage.IsDaytime | src/pages/IntermediatePage.tsx:20-25 | daytime (06:00 to 18:00 in UTC+8) holds exactly when the UTC hour is from 22 to 23 or from 0 to 9 |
| IntermediatePage.DaytimeFlipsAfterTwelveHours | src/pages/IntermediatePage.tsx:20-25 | twelve hours later the day/night mode is always the opposite |

## Left out

- Promise scheduling. The model does not capture when a handle runs or in what order the handles settle. It keeps only the accounting, where `Task` registers now and `Settle` finishes later. The code makes no ordering promise, because `_resolve` is never reassigned.
- A settlement after a reset. `Settle` and `Finish` need the settled weight to be among the pending weights. A reset empties that list, so a `_finish` that arrives after a reset, which would divide by a zero count, is outside the model.
- A weight that was never registered. `_finish` is only called from `task` with the weight that `task` registered, so `Finish` requires exactly that.
- The shape of the `task` options. The optional `{ name, weight }` object, including `GameManager.task`'s default `props = {}`, becomes the single parameter `w`, which defaults to 1 as `weight = 1` does.
- The task name. It is a diagnostic label only and is not used for anything.
- The fetch has no timeout in the source. A fetch that never settles leaves `confirmRestart` waiting forever without navigating. `Resolve` assumes the fetch has settled or failed.
- The surrounding I/O: `fetch`, `response.json`, `window.location` (host and path become parameters), `console` logging, and the navigation itself (the returned target stands for `window.location.href = …`).
- `new URL`, `String.trim` and the `href` setter's URL check are the functions `parseHost`, `trim` and `accepts` of `UrlApi`. The model does not capture their exact behaviour, or how they relate (for instance, that a URL `new URL` parses is one the setter accepts).
- A registry entry whose `url` is not a string is not modelled separately. Like an unparseable URL, the code skips it inside its inner `try`. Entries here carry string URLs.
- A default target that the `href` setter itself rejects. The outer `catch` would then throw unhandled. The default is a plain https URL, so this does not arise.
- The event emitter's own implementation in `../libs/xviewer`, outside the modelled code. Its `on`/`emit`/`clear` behaviour is the assumption stated above. Listener callbacks are opaque identifiers.
- Floating point. Weights, ratios and percentages are `real`, with no IEEE rounding and no NaN or Infinity.
- The React page: the `setInterval`/`setProgress` tick, `setTimeout`, `Math.random`, `Date` (the current time becomes a parameter in milliseconds), the JSX, and all of `src/App.tsx` except the subscription calls cited above.
