# LoadApp: the loading button, the result hand-off and the click routing

A Dafny model of the logic inside the LoadApp Android demo. The app lets the user pick one of
three archives with a radio group, hands the download to the platform's download manager, and
animates a custom `LoadingButton` while it runs. When the download finishes, the app posts a
notification. That notification opens `DetailActivity`, which shows the file name and a
"Success"/"Failure" label.

Three modules mirror the three Kotlin files:

- `LoadingButtonView` (`loading_button.dfy`) models `LoadingButton.kt`.
  - The class `LoadingButton` holds `state`, `progress`, an abstract animator (`running`, and `frame`, an index into `Keyframes`) and a ghost log `calls` of every `start()`/`cancel()` made on the animator.
  - The property observer of `buttonState` is the explicit, re-entrant setter `SetState`.
  - The animator's listeners are `OnAnimationUpdate`, `OnAnimationEnd` and `OnAnimationCancel`.
  - One `Tick` steps the animator to the next keyframe.
  - Drawing is pure: `Render` dispatches on the state to `DrawLoading` or `DrawCompleted`. Each returns the list of paint operations.
- `DetailScreen` (`detail_activity.dfy`) models `DetailActivity.kt`.
  - A Bundle is a `map<string, Value>`.
  - `GetBundle` writes the Bundle and `ReadExtras` is what `loadBundle` reads back.
  - `StatusLabel` gives the status text.
  - The class `DetailActivity` holds the fields `id`, `status` and the lateinit `fileName`.
- `MainScreen` (`main_activity.dfy`) models `MainActivity.kt`.
  - `SelectUrl` is the radio-id to URL `when`.
  - The class `MainActivity` owns the button. It logs what it asks of the platform in the ghost sequence `effects`, as `Enqueue(url)`, `EmptySelectionToast`, `ButtonClicked` and `Notify(notification)`.
  - `Route` is the receiver's decision: which notification, if any, a download-complete broadcast produces.
  - The field `pendingIntent` holds the extras of the one PendingIntent that every notification's "show details" action shares. `SharedExtrasAfter` says how a broadcast changes it.

Assumptions about the animator library. The sources do not show this behaviour, so the model states it:

- `start()` begins at the first keyframe and publishes it (0) to the update listener at once.
- `cancel()` of a running animator fires `onAnimationCancel`, so progress becomes 0. It does not fire `onAnimationEnd`.
- `cancel()` of an idle animator fires nothing.
- After the last keyframe (100) is published, the animator stops and fires `onAnimationEnd`.

Platform inputs are parameters:

- the id that `enqueue` returns;
- the download manager's table, as `map<int, DownloadRow>` (a query by id has a first row exactly when the id is a key);
- the view ids of the radio buttons;
- the intent's extras.

Behaviour the model follows because the code does it:

- A click while the button is already LOADING restarts the animation from 0. The CLICKED branch cancels, then assigns LOADING with old state CLICKED, so the "not already LOADING" guard never blocks it (`LoadingButton.kt:46-49`). `SetState` and `OnClicked` state the restart, and `calls` records `[Cancel, Start]`.
- After a normal end, `progress` stays at 100. The end listener only changes the state, and the `cancel()` that COMPLETED then runs finds the animator idle. Progress is therefore not always 0 outside LOADING: it stays 100 after a normal end. The completed drawing ignores it.
- In `loadBundle`, a Bundle present without an id or status key yields 0, which is the platform `getInt` default, not -1. The -1 defaults remain only when there are no extras at all.
- Without extras, `fileName` is never assigned, and `fillContent` reads the lateinit property. `Open` and `DetailActivity.OnCreate` give the outcome `UninitializedFileName` for that case.
- The receiver posts a notification for any finished download id it can find. It does not compare that id with `downloadID`.
- Every notification's action is built by `PendingIntent.getActivity` with the same request code `notificationId` (always 0), the same target activity and `FLAG_UPDATE_CURRENT` (`MainActivity.kt:121-126`). Under the platform's PendingIntent rules these are one PendingIntent, and each post replaces its extras. Only the most recently posted notification therefore opens its own Bundle. An earlier notification opens the latest download's detail screen, which cancels the latest notification and leaves the earlier one posted. `EarlierNotificationOpensLatestDetail` proves this for two downloads.

## Model

| member | source | states |
|---|---|---|
| LoadingButtonView.KeyframesFromZeroToHundred | starter/app/src/main/java/com/udacity/LoadingButton.kt:66 | the keyframe list starts at 0, ends at 100 and never decreases, so every published progress lies in [0, 100] |
| LoadingButtonView.LoadingButton.constructor | starter/app/src/main/java/com/udacity/LoadingButton.kt:19-34 | a new button is COMPLETED with progress 0 and an idle animator; the initial value does not run the observer |
| LoadingButtonView.LoadingButton.OnAnimationUpdate | starter/app/src/main/java/com/udacity/LoadingButton.kt:67-70 | the update listener makes the published animator value the progress and changes nothing else |
| LoadingButtonView.LoadingButton.OnAnimationCancel | starter/app/src/main/java/com/udacity/LoadingButton.kt:77-80 | the cancel listener sets progress to exactly 0 and changes nothing else |
| LoadingButtonView.LoadingButton.StartAnimator | starter/app/src/main/java/com/udacity/LoadingButton.kt:42 | start() runs the animator from the first keyframe, publishes 0, and is logged as one Start |
| LoadingButtonView.LoadingButton.CancelAnimator | starter/app/src/main/java/com/udacity/LoadingButton.kt:36-38 | cancel() leaves the animator idle, resets progress to 0 only if it was running, and is logged as one Cancel |
| LoadingButtonView.LoadingButton.SetState | starter/app/src/main/java/com/udacity/LoadingButton.kt:34-54 | the observer: COMPLETED cancels and leaves the animator idle; LOADING starts it only when the old state was not LOADING and otherwise changes nothing; CLICKED cancels, then re-enters LOADING and restarts from 0, so the state is never left at CLICKED |
| LoadingButtonView.LoadingButton.OnAnimationEnd | starter/app/src/main/java/com/udacity/LoadingButton.kt:72-75 | normal end sets the state to COMPLETED and keeps the last progress |
| LoadingButtonView.LoadingButton.OnClicked | starter/app/src/main/java/com/udacity/LoadingButton.kt:151-153 | after a click the button is LOADING, the animator runs from progress 0, and the animator saw exactly cancel then start, also when it was already LOADING |
| LoadingButtonView.LoadingButton.Tick | starter/app/src/main/java/com/udacity/LoadingButton.kt:66-75 | one animator frame moves to the next keyframe and never lowers progress; after the last keyframe the button is COMPLETED with progress 100 and the animator idle; an idle animator changes nothing; the animator runs exactly while LOADING |
| LoadingButtonView.ClickAndRunToCompletion | starter/app/src/main/java/com/udacity/LoadingButton.kt:66-80 | from a new button, a click followed by frames until the animator stops publishes exactly the keyframes (non-decreasing, 0 to 100), ends COMPLETED, and then draws the completed face |
| LoadingButtonView.BarWidth | starter/app/src/main/java/com/udacity/LoadingButton.kt:108 | the loading bar's width for progress p in [0, 100] lies in [0, width]; it is 0 at p = 0 and the full width at p = 100 |
| LoadingButtonView.ArcSweep | starter/app/src/main/java/com/udacity/LoadingButton.kt:118 | the arc sweep for progress p in [0, 100] lies in [0, 360]; it is 0 at p = 0 and 360 at p = 100 |
| LoadingButtonView.GeometryMonotone | starter/app/src/main/java/com/udacity/LoadingButton.kt:108-118 | more progress never draws a narrower bar or a smaller arc |
| LoadingButtonView.DrawLoading | starter/app/src/main/java/com/udacity/LoadingButton.kt:100-125 | the loading face paints the default background over the whole view first; the bar is a slice of that background anchored at its left edge with the same top and bottom, empty at progress 0 and the whole view at 100; the arc starts at 270 degrees and sweeps within [0, 360]; the loading text comes last, in white |
| LoadingButtonView.DrawCompleted | starter/app/src/main/java/com/udacity/LoadingButton.kt:127-138 | the completed face shows no progress: it has no arc, every rectangle it paints is the whole view in the default colour, and the completed text comes last, in white |
| LoadingButtonView.FacesShareBackground | starter/app/src/main/java/com/udacity/LoadingButton.kt:100-138 | both faces paint the same background first; the loading face adds exactly two operations, the bar and the arc |
| LoadingButtonView.Render | starter/app/src/main/java/com/udacity/LoadingButton.kt:87-96 | CLICKED and LOADING draw the loading face with the bar and arc in range; COMPLETED draws the completed face only |
| LoadingButtonView.InitialRenderIsCompleted | starter/app/src/main/java/com/udacity/LoadingButton.kt:34 | the initial state draws only the default colour and the completed text |
| DetailScreen.GetBundle | starter/app/src/main/java/com/udacity/DetailActivity.kt:56-70 | getBundle stores exactly three entries, under three pairwise-distinct keys |
| DetailScreen.ReadExtras | starter/app/src/main/java/com/udacity/DetailActivity.kt:39-45 | the file name read is the stored string when there is one, and "" exactly when there is none or it is empty |
| DetailScreen.ReadGetBundle | starter/app/src/main/java/com/udacity/DetailActivity.kt:39-70 | round trip: reading back getBundle(i, s, f) gives id i, status s and file name f |
| DetailScreen.MissingFileNameReadsEmpty | starter/app/src/main/java/com/udacity/DetailActivity.kt:43 | a Bundle without a file-name string decodes the file name to "" |
| DetailScreen.StatusLabel | starter/app/src/main/java/com/udacity/DetailActivity.kt:49-52 | the label is "Success" exactly when status is STATUS_SUCCESSFUL, and "Failure" for every other value, -1 included |
| DetailScreen.Open | starter/app/src/main/java/com/udacity/DetailActivity.kt:20-37 | a new screen fails on the uninitialised file name exactly when the intent has no extras |
| DetailScreen.OpenGetBundle | starter/app/src/main/java/com/udacity/DetailActivity.kt:25-32 | a screen opened with getBundle(i, s, f) shows f unchanged and StatusLabel(s), and cancels notification i |
| DetailScreen.DetailActivity.constructor | starter/app/src/main/java/com/udacity/DetailActivity.kt:13-15 | id and status start at -1 and fileName is unassigned |
| DetailScreen.DetailActivity.LoadBundle | starter/app/src/main/java/com/udacity/DetailActivity.kt:39-45 | with extras, the three fields become what ReadExtras reads and fileName is assigned; without extras, nothing changes |
| DetailScreen.DetailActivity.FillContent | starter/app/src/main/java/com/udacity/DetailActivity.kt:47-53 | given an assigned fileName, the file-name text is that name unchanged, and the status text is "Success" exactly for STATUS_SUCCESSFUL |
| DetailScreen.DetailActivity.OnCreate | starter/app/src/main/java/com/udacity/DetailActivity.kt:20-37 | onCreate on a new screen has the outcome Open gives: the texts shown and the cancelled notification id, or the failure without extras; without extras the fields keep their defaults |
| MainScreen.SelectUrl | starter/app/src/main/java/com/udacity/MainActivity.kt:50-58 | the glide radio selects URL_GLIDE, loadApp selects URL, retrofit selects URL_RETROFIT, tried in that order; any other checked id selects nothing |
| MainScreen.EachRadioSelectsItsUrl | starter/app/src/main/java/com/udacity/MainActivity.kt:160-163 | with distinct radio ids, each of the three radio buttons selects its own URL constant |
| MainScreen.LongToInt | starter/app/src/main/java/com/udacity/MainActivity.kt:90 | Long.toInt() gives the unique signed 32-bit value congruent to the input modulo 2^32 |
| MainScreen.LongToIntInRange | starter/app/src/main/java/com/udacity/MainActivity.kt:81-90 | a download id that fits in an Int, -1 included, keeps its value through toInt() |
| MainScreen.ReceivedDownloadId | starter/app/src/main/java/com/udacity/MainActivity.kt:81 | a null intent or a missing extra gives download id -1; otherwise the extra's value |
| MainScreen.Route | starter/app/src/main/java/com/udacity/MainActivity.kt:79-93 | a notification is posted exactly when the query by the received id has a first row; its id is id.toInt(), and its Bundle reads back as that same id with the row's status and title |
| MainScreen.SharedExtrasAfter | starter/app/src/main/java/com/udacity/MainActivity.kt:117-126 | the shared PendingIntent (request code 0, FLAG_UPDATE_CURRENT) gets new extras exactly when a notification is posted, and they read back as id.toInt() with the row's status and title; a broadcast with no row leaves them as they were |
| MainScreen.LatestNotificationOpensItsDetail | starter/app/src/main/java/com/udacity/MainActivity.kt:110-141 | right after a notification is posted, the shared extras open a detail screen that shows the row's title, labels its status, and cancels that notification |
| MainScreen.EarlierNotificationOpensLatestDetail | starter/app/src/main/java/com/udacity/MainActivity.kt:121-126 | after two posts with different ids, the shared extras open the second download's screen, which cancels the second notification and not the first |
| MainScreen.MainActivity.constructor | starter/app/src/main/java/com/udacity/MainActivity.kt:25-29 | downloadID starts at 0, no click listener is installed, no PendingIntent exists yet, and nothing has been asked of the platform |
| MainScreen.MainActivity.OnCreate | starter/app/src/main/java/com/udacity/MainActivity.kt:48-49 | the click listener is installed only if none is present, so at most one is ever installed |
| MainScreen.MainActivity.Download | starter/app/src/main/java/com/udacity/MainActivity.kt:95-108 | download enqueues one request for the URL and changes only downloadID, to the id that enqueue returns |
| MainScreen.MainActivity.Click | starter/app/src/main/java/com/udacity/MainActivity.kt:49-61 | without a selection, a toast only: no download, same downloadID, button untouched; with one, exactly one enqueue of the selected URL, then exactly one button click, leaving the button LOADING from progress 0 |
| MainScreen.MainActivity.OnReceive | starter/app/src/main/java/com/udacity/MainActivity.kt:79-93 | the receiver posts the notification Route gives when the query has a first row, and otherwise asks nothing of the platform; the shared extras become SharedExtrasAfter of the old ones; it keeps the invariant that they are the latest post's |
| MainScreen.MainActivity.SendNotification | starter/app/src/main/java/com/udacity/MainActivity.kt:110-141 | sendNotification posts one notification with the given id carrying getBundle(id, status, fileName), and that Bundle replaces the extras of the PendingIntent all notifications share |
| MainScreen.MainActivity.ShowDetails | starter/app/src/main/java/com/udacity/MainActivity.kt:121-128 | tapping the action of any posted notification opens a detail screen, and it is the one for the most recently posted Bundle, whichever notification was tapped |

## Left out

- Platform I/O is left out: `DownloadManager` requests and queries, cursor access, notification building and the channel (`createChannel`), receiver registration in `onCreate`/`onDestroy`, `Toast` text, Timber logging and `getSystemService`. They appear only as logged effects or as parameters.
- Animator timing is left out: the 3000 ms duration, the linear interpolator and frame scheduling. Progress takes only keyframe values, never the interpolated values between them.
- Whether `ValueAnimator.cancel()` also fires `onAnimationEnd` is library behaviour the sources do not show. The model assumes it does not. If it did, a click while LOADING would pass through COMPLETED and still end LOADING and running from progress 0.
- Text metrics and layout are left out: `getTextBounds`, `ascent`/`descent`, the text baseline, the arc's position (`circleX`, `circleY`, radius, offset), `onMeasure`, and the paint's typeface and size.
- `requestLayout` and `invalidate` are left out. They are only redraw requests to the framework.
- The colours read from styled attributes are left out. They are a parameter (`ButtonStyle`).
- BarWidth: computed in exact reals, not 32-bit floats, so rounding of `progress / 100F * width` is not modelled.
- ArcSweep: computed in exact reals, not 32-bit floats.
- A null title in the cursor is left out. Kotlin would reject it when it is passed to `sendNotification`'s non-null parameter. Titles are plain strings.
- The ids and statuses in a Bundle are unbounded integers. Every producer passes values that already fit in an Int: `toInt()` results and download statuses.
- A PendingIntent's identity is reduced to its request code: every notification asks for the same target activity and flags, so only the request code could tell them apart, and it is always 0.
- The detail screen's OK button (`finish()`) is left out. So are the toolbar setup and layout inflation.
