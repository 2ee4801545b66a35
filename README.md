# MoviePilot front end — the logic beneath the views

The MoviePilot web front end is a Vue application. This Dafny project models
the parts of it that are logic rather than presentation:

- the episode-range formatter `formatEp`, which sorts the caller's array of episode numbers in place, cuts it into runs of consecutive values and prints them as `n` or `start-end` joined by `、`;
- the duration formatter `formatSeconds`, plus the small string rules `formatSeason`, `avatarText` and `prefixWithPlus`;
- `urlBase64ToUint8Array`, which turns a VAPID public key published in base64url into bytes. It pads the text, maps the URL-safe alphabet (section 5 of RFC 4648) to the standard one (section 4 of RFC 4648), decodes it with `atob`, and fills a byte array. `atob` is modelled as the forgiving-base64 decode of the WHATWG Infra Standard, including its failure;
- the router: its route table with the `requiresAuth` and `keepAlive` flags, `scrollBehavior`, the set of registered abort controllers, and the `beforeEach` guard. The guard remembers where the user was going, then either sends an unauthenticated user to `/login` or aborts every pending request and lets the navigation through;
- the `auth` and `user` stores: records with setter actions, `login`/`logout`, `loginUser`/`reset`, and getters;
- the drag-and-drop state of the workflow canvas. Three shared flags are changed by the drag handlers, and a drop adds a node built from the dragged data;
- the API constants: the storage options, the `storageDict` built from them by a `reduce`, and the built-in filter rules.

Layout:

| file | module | models |
|---|---|---|
| `wrappers.dfy` | `Wrappers` | `Option` and `Result` |
| `text.dfy` | `Text` | decimal `toString`, `join`, `split` and `padStart` |
| `formatters.dfy` | `Formatters` | `src/@core/utils/formatters.ts` |
| `navigator.dfy` | `Navigator` | `src/@core/utils/navigator.ts` |
| `router.dfy` | `Router` | `src/router/index.ts` |
| `auth_store.dfy` | `AuthStore` | `src/stores/auth.ts` |
| `user_store.dfy` | `UserStore` | `src/stores/user.ts` |
| `workflow.dfy` | `Workflow` | `src/@core/utils/workflow.ts` |
| `constants.dfy` | `Constants` | `src/api/constants.ts` |

Code that changes state in place is modelled imperatively:

- `formatEp` is a method over an `array<int>`. It sorts the array in place, then scans it with a loop. It is proved equal to the specification function `Render`, and the runs behind `Render` are proved to be the unique maximal decomposition of the sorted input.
- `formatSeconds` appends to its result piece by piece.
- The byte array of `urlBase64ToUint8Array` is filled in a loop.
- The stores, the abort registry, the drag state and the canvas are classes whose methods change their fields.

## Model

| member | source | states |
|---|---|---|
| Text.NatToString | src/@core/utils/formatters.ts:126 | `toString()` of a non-negative integer: at least one character, all decimal digits, and a leading `0` only for zero itself |
| Text.NatToStringRoundTrip | src/@core/utils/formatters.ts:126 | reading the digits of `n.toString()` back gives `n` |
| Text.NatToStringInjective | src/@core/utils/formatters.ts:126 | different numbers print differently |
| Text.IntToString | src/@core/utils/formatters.ts:126 | `toString()` of an integer: a `-` exactly for negatives, followed by the digits of the magnitude in canonical form, with no leading zero except for `0` itself |
| Text.Join | src/@core/utils/formatters.ts:148 | `join(sep)`: `""` for no parts, the part itself for one, and the result always starts with the first part; `JoinSplit` and `SplitJoin` pin it as the inverse of `split` |
| Text.Split | src/@core/utils/formatters.ts:12 | `split(c)` gives at least one piece, and no piece contains the separator |
| Text.JoinSplit | src/@core/utils/formatters.ts:12 | joining the pieces of a split with the separator gives the string back |
| Text.SplitJoin | src/@core/utils/formatters.ts:12 | splitting a join of separator-free pieces gives the pieces back |
| Text.PadStart | src/@core/utils/formatters.ts:60 | `padStart(width, fill)`: the length is the larger of the two, the original is the suffix, and only the fill character is put in front |
| Formatters.Scan | src/@core/utils/formatters.ts:134-146 | the scan loop's runs: the first starts at the open window's start, every run has start ≤ end, and no run is followed by one starting at its end plus one |
| Formatters.Token | src/@core/utils/formatters.ts:138-139 | a token starts with the start value's decimal text; it is nothing more exactly for a one-value run, and otherwise continues with `-` and the end value's text |
| Formatters.Runs | src/@core/utils/formatters.ts:134-146 | the runs of the sorted values: none exactly for an empty input, the first starting at the smallest value, all well formed and maximal |
| Formatters.Tokens | src/@core/utils/formatters.ts:138-139 | one token per run, `"n"` for a one-value run and `"start-end"` otherwise |
| Formatters.Render | src/@core/utils/formatters.ts:123-148 | the text `formatEp` returns for the sorted values: empty exactly for an empty input (its meaning is pinned by `RunsFlatten` and `RunsUnique`) |
| Formatters.RunsFlatten | src/@core/utils/formatters.ts:134-148 | for every input, duplicates included, expanding the runs and concatenating them gives back exactly the sorted input; the runs are well formed and maximal |
| Formatters.RunsUnique | src/@core/utils/formatters.ts:134-146 | any well-formed, maximal list of runs that expands to the input is the list the loop produces |
| Formatters.ScanUnique | src/@core/utils/formatters.ts:134-146 | the same uniqueness for the scan from an open window |
| Formatters.RunsOrdered | src/@core/utils/formatters.ts:134-148 | for sorted input the runs come in ascending order; without duplicates, neighbouring runs are separated by a missing value and their starts strictly increase |
| Formatters.ScanOrdered | src/@core/utils/formatters.ts:134-146 | the ordering facts for the scan from an open window |
| Formatters.RunsCount | src/@core/utils/formatters.ts:134-146 | for a non-empty input, the number of tokens is one more than the number of places where the next value is not the current one plus one |
| Formatters.RenderShortInputs | src/@core/utils/formatters.ts:124-126 | an empty list renders as `""` and a one-element list as that number's decimal text |
| Formatters.RenderExamples | src/@core/utils/formatters.ts:134-148 | `[1,2,3]` gives `1-3`, `[1,3,4,5,8]` gives `1、3-5、8`, and the duplicate in `[2,2,3]` gives `2、2-3` |
| Formatters.SortAscending | src/@core/utils/formatters.ts:129 | `nums.sort((a, b) => a - b)`: the array ends sorted ascending with the same multiset of values |
| Formatters.FormatEp | src/@core/utils/formatters.ts:123-149 | with fewer than two values the array is untouched; otherwise it ends sorted with the same values; the result is `Render` of the array's final contents |
| Formatters.JsRem | src/@core/utils/formatters.ts:87-88 | JavaScript `%`, which truncates: for a non-negative dividend the remainder lies in `0..b-1` and `a == (a / b) * b + r`; for a negative one it lies in `-(b-1)..0` and `a == -((-a) / b) * b + r` with the quotient rounded toward zero |
| Formatters.Decompose | src/@core/utils/formatters.ts:86-88 | for a non-negative count, `h*3600 + m*60 + s` equals it, with `0 ≤ m < 60` and `0 ≤ s < 60`; for a negative count no part is positive |
| Formatters.SecondsText | src/@core/utils/formatters.ts:85-99 | the text is never empty, and from one hour on it ends in the hours or minutes unit, never in seconds |
| Formatters.FormatSeconds | src/@core/utils/formatters.ts:85-99 | the text built step by step equals the specification `SecondsText` |
| Formatters.SecondsTextNeverEmpty | src/@core/utils/formatters.ts:90-98 | the text is never empty, and zero gives `0秒` |
| Formatters.SecondsTextBelowOneHour | src/@core/utils/formatters.ts:92-96 | under a minute only seconds show; under an hour, whole minutes show alone and other counts show minutes then seconds |
| Formatters.SecondsTextDropsSecondsWithHours | src/@core/utils/formatters.ts:90-98 | from one hour on, the text is exactly the hours with `小时`, then the minutes with `分` only when there are any, and no seconds part; so it equals the text for the count rounded down to a whole minute |
| Formatters.SecondsTextNegative | src/@core/utils/formatters.ts:86-98 | a negative count shows only its seconds remainder, in `-59..0`, with the sign JavaScript `%` gives it, followed by `秒` |
| Formatters.FormatSeason | src/@core/utils/formatters.ts:60 | `""` exactly for `""`; otherwise `S`, zeros up to two characters, then the value; values of two or more characters are kept whole |
| Formatters.UpperCase | src/@core/utils/formatters.ts:14 | `toUpperCase` maps `a`–`z` to `A`–`Z` and keeps every other character |
| Formatters.AvatarText | src/@core/utils/formatters.ts:10-15 | `avatarText` equals the independent character-by-character `InitialsFrom`: the upper-cased first character of every space-separated word, in order, so extra spaces add nothing; it is never longer than the input |
| Formatters.HeadsOfSplit | src/@core/utils/formatters.ts:12-14 | taking the first character of each piece of `split(' ')` picks the characters that begin a word |
| Formatters.InitialsShorter | src/@core/utils/formatters.ts:10-15 | at most one initial per character |
| Formatters.PrefixWithPlus | src/@core/utils/formatters.ts:57 | a string `+n` exactly for positive values; other values are returned unchanged as numbers |
| Formatters.PrefixWithPlusShowsSign | src/@core/utils/formatters.ts:57 | displayed, a positive value starts with `+`, a negative one with `-`, zero is `0`, and the digits after the sign are the magnitude |
| Navigator.PaddingLength | src/@core/utils/navigator.ts:26 | `(4 - n % 4) % 4` is at most 3, makes the length a multiple of four, and is zero exactly when the length already is one |
| Navigator.Padding | src/@core/utils/navigator.ts:26 | `'='.repeat(...)`: that many `=` and nothing else |
| Navigator.ReplaceAll | src/@core/utils/navigator.ts:27 | `.replace(/x/g, y)`: the same length, every `x` replaced by `y`, every other character kept |
| Navigator.UrlToStandard | src/@core/utils/navigator.ts:27 | every `-` becomes `+` and every `_` becomes `/`; the length and all other characters are unchanged |
| Navigator.StripWhitespace | src/@core/utils/navigator.ts:29 | forgiving-base64 step 1: no longer than the input and free of ASCII whitespace; `StripOne`, `StripAppend` and `StripOnlyDeletes` show that it deletes exactly the whitespace and keeps every other character in order |
| Navigator.DropPadding | src/@core/utils/navigator.ts:29 | forgiving-base64 step 2: the result is a prefix, at most two characters shorter, only `=` are removed, and nothing changes unless the length is a multiple of four |
| Navigator.DropPaddingRemoves | src/@core/utils/navigator.ts:29 | with a length that is a multiple of four, two final `=` are removed, else one final `=`, else nothing; other lengths are kept |
| Navigator.Sextets | src/@core/utils/navigator.ts:29 | the values of the standard alphabet, failing exactly when some character is outside it |
| Navigator.DecodeSextets | src/@core/utils/navigator.ts:29 | four values give three bytes, and a trailing two or three give one or two |
| Navigator.ForgivingDecode | src/@core/utils/navigator.ts:29 | fails exactly when, after whitespace and padding removal, the length leaves remainder 1 modulo 4 or some character is outside the alphabet |
| Navigator.Atob | src/@core/utils/navigator.ts:29 | `atob` succeeds exactly when the forgiving-base64 decode does, and every character of its result has a code below 256 equal to the decoded byte |
| Navigator.ToUint8 | src/@core/utils/navigator.ts:33 | a value already in `0..255` is stored unchanged in a `Uint8Array` |
| Navigator.UrlBase64ToBytes | src/@core/utils/navigator.ts:25-36 | the bytes the function returns: success exactly when `atob` succeeds on the padded, standard-alphabet text, with one byte per character equal to its code |
| Navigator.UrlBase64ToUint8Array | src/@core/utils/navigator.ts:25-36 | fails exactly when `atob` throws; otherwise the array has the decoded string's length, byte `i` is the code of character `i`, and its contents are `UrlBase64ToBytes` of the input, about which the round trip is proved |
| Navigator.AtobRejectsTriplePadding | src/@core/utils/navigator.ts:29 | any text ending in `===` is rejected |
| Navigator.UrlBase64RejectsLengthOneModFour | src/@core/utils/navigator.ts:26-29 | an input whose length leaves remainder 1 modulo 4 gets three `=` and is always rejected |
| Navigator.StripAppend | src/@core/utils/navigator.ts:29 | removing whitespace distributes over concatenation |
| Navigator.StripNoWhitespace | src/@core/utils/navigator.ts:29 | removing whitespace leaves whitespace-free text unchanged |
| Navigator.StripOne | src/@core/utils/navigator.ts:29 | a single whitespace character is removed and any other character is kept, which with `StripAppend` fixes the result on every string |
| Navigator.StripOnlyDeletes | src/@core/utils/navigator.ts:29 | every character of the result comes from the input, and every non-whitespace character of the input is in the result |
| Navigator.DecodeWellFormed | src/@core/utils/navigator.ts:29 | alphabet characters followed by at most two `=` that complete a multiple of four decode value by value |
| Navigator.AtobLength | src/@core/utils/navigator.ts:29-30 | a well-formed padded text of `L` characters with `p` padding `=` decodes to `3L/4 - p` bytes |
| Navigator.DecodeEncode | src/@core/utils/navigator.ts:29 | decoding the base64 values of any bytes gives the bytes back |
| Navigator.UrlBase64RoundTrip | src/@core/utils/navigator.ts:25-36 | the unpadded base64url text of any bytes, as a key is published, converts back to exactly those bytes |
| Router.ScrollBehavior | src/router/index.ts:11-15 | the saved position exactly when the target is kept alive and a position was saved; `{ top: 0 }` otherwise |
| Router.MetaOf | src/router/index.ts:253 | the `to.meta` the guard reads: the page's declared meta when it has one; `requiresAuth` or `keepAlive` can only be set by a declared meta |
| Router.AbortController.Abort | src/router/index.ts:241 | `abort()` leaves the controller aborted |
| Router.AbortRegistry.Register | src/router/index.ts:231-236 | set insertion: registering the same controller twice stores it once |
| Router.AbortRegistry.AbortAll | src/router/index.ts:239-244 | every registered controller is aborted, and then the set is empty |
| Router.Decide | src/router/index.ts:252-258 | redirect to `/login` exactly when the route requires authentication and the token is `null`; an empty-string token counts as authenticated |
| Router.BeforeEach | src/router/index.ts:247-259 | every path other than `/login` is stored as the original path, even when redirected, and `/login` leaves it alone; on a redirect the registry is untouched; on proceeding every controller is aborted and the set emptied; the token and flag are kept |
| Router.DefaultLayoutPagesRequireAuth | src/router/index.ts:18-213 | every page of the default layout requires authentication |
| Router.BlankLayoutPagesHaveNoMeta | src/router/index.ts:214-227 | the login and catch-all pages carry no meta |
| Router.GuardOnRouteTable | src/router/index.ts:18-258 | whatever the token, the guard never redirects a blank-layout page, and without a token it redirects every default-layout page |
| Router.ScrollOnRouteTable | src/router/index.ts:11-227 | the dashboard, which is kept alive, gets its saved position back; the resource page and the blank-layout pages scroll to the top |
| Router.NavigateAfterLogout | src/router/index.ts:247-259 | after a logout, navigating to any default-layout page is redirected to `/login` |
| AuthStore.Store.constructor | src/stores/auth.ts:5-9 | token `null`, remember `false`, original path `null` |
| AuthStore.Store.SetToken | src/stores/auth.ts:15-17 | assigns the token and nothing else |
| AuthStore.Store.ClearToken | src/stores/auth.ts:18-20 | sets the token to `null` and nothing else |
| AuthStore.Store.SetRemember | src/stores/auth.ts:21-23 | assigns the flag and nothing else |
| AuthStore.Store.SetOriginalPath | src/stores/auth.ts:24-26 | assigns the original path and nothing else |
| AuthStore.Store.Login | src/stores/auth.ts:27-30 | takes the token and the flag from the payload, ignores its path, and keeps the stored path |
| AuthStore.Store.Logout | src/stores/auth.ts:31-34 | sets the token and the original path to `null` and keeps the flag |
| AuthStore.Store.GetToken | src/stores/auth.ts:38 | the current token |
| AuthStore.Store.GetRemember | src/stores/auth.ts:39 | the current flag |
| AuthStore.Store.GetOriginalPath | src/stores/auth.ts:40 | the current original path |
| AuthStore.LoginThenLogout | src/stores/auth.ts:27-34 | a login followed by a logout leaves no token and no path, and keeps the new flag |
| UserStore.Store.constructor | src/stores/user.ts:5-12 | super user `false`, id `-1`, empty name and avatar, level `1`, no permissions |
| UserStore.Store.SetSuperUser | src/stores/user.ts:18-20 | changes only the super-user flag |
| UserStore.Store.SetUserID | src/stores/user.ts:21-23 | changes only the id |
| UserStore.Store.SetUserName | src/stores/user.ts:24-26 | changes only the name |
| UserStore.Store.SetAvatar | src/stores/user.ts:27-29 | changes only the avatar |
| UserStore.Store.SetLevel | src/stores/user.ts:30-32 | changes only the level |
| UserStore.Store.SetPermissions | src/stores/user.ts:33-35 | changes only the permissions |
| UserStore.Store.LoginUser | src/stores/user.ts:36-43 | the state becomes exactly the payload |
| UserStore.Store.Reset | src/stores/user.ts:44-51 | the state becomes exactly the initial state |
| UserStore.Store.GetSuperUser | src/stores/user.ts:55 | the current super-user flag |
| UserStore.Store.GetUserID | src/stores/user.ts:56 | the current id |
| UserStore.Store.GetUserName | src/stores/user.ts:57 | the current name |
| UserStore.Store.GetAvatar | src/stores/user.ts:58 | the current avatar |
| UserStore.Store.GetLevel | src/stores/user.ts:59 | the current level |
| UserStore.Store.GetPermissions | src/stores/user.ts:60 | the current permissions |
| UserStore.ResetForgetsLogin | src/stores/user.ts:36-51 | the state after one `reset` equals the state after a second `reset`, and a `loginUser` followed by `reset` ends in that same state, whatever the payload |
| Workflow.DragAndDrop.constructor | src/@core/utils/workflow.ts:16-23 | the dragged data starts as `{}` (truthy), both flags false |
| Workflow.Step | src/@core/utils/workflow.ts:34-72 | one handler call on the shared state: `isDragging` is raised by a drag start, lowered by a drag end and otherwise kept; `isDragOver` holds afterwards exactly when it was a drag-over with data present, or the flag was up and the call was neither a drag leave nor a drag end; a start stores its data, an end clears it, and every other handler keeps it |
| Workflow.DragAndDrop.OnDragStart | src/@core/utils/workflow.ts:34-44 | stores the data, raises `isDragging`, and leaves `isDragOver` alone |
| Workflow.DragAndDrop.OnDragOver | src/@core/utils/workflow.ts:51-61 | raises `isDragOver` only while there is dragged data, and touches nothing else |
| Workflow.DragAndDrop.OnDragLeave | src/@core/utils/workflow.ts:63-65 | lowers `isDragOver` and nothing else |
| Workflow.DragAndDrop.OnDragEnd | src/@core/utils/workflow.ts:67-72 | lowers both flags and sets the dragged data to `null` |
| Workflow.DragAndDrop.OnDrop | src/@core/utils/workflow.ts:79-110 | appends to the canvas the node built from the dragged data, with an `act_` id, and leaves the three refs unchanged |
| Workflow.NoDragOverWithoutDragStart | src/@core/utils/workflow.ts:54-70 | with no data and the flag down, no sequence of handler calls without a drag start raises the flag or brings data back |
| Workflow.AfterDragEnd | src/@core/utils/workflow.ts:54-70 | after `onDragEnd`, `onDragOver` cannot raise the flag until another `onDragStart` |
| Workflow.IsDraggingIffOpenStart | src/@core/utils/workflow.ts:34-72 | `isDragging` holds exactly when the latest drag start has not been followed by a drag end, or it held before and no drag end came |
| Workflow.Substr | src/@core/utils/workflow.ts:9 | `substr(start, length)`: a prefix of the text from `start` on, of exactly `length` characters when that many remain and of the rest otherwise; empty when `start` is past the end |
| Workflow.NodeId | src/@core/utils/workflow.ts:7-10 | `getId()` starts with `act_` and adds at most nine characters; with a random text of eleven or more characters, exactly its characters 2 to 10 |
| Workflow.NewNode | src/@core/utils/workflow.ts:87-94 | type, name, description and data are copied from the dragged data, and all are absent when it is `null` |
| Workflow.FlowCanvas.AddNode | src/@core/utils/workflow.ts:109 | appends the node |
| Constants.BuildStorageDict | src/api/constants.ts:70-73 | the reduce's keys are exactly the option values, and each maps to the title of the last option carrying it |
| Constants.DictOf | src/api/constants.ts:70-73 | the dictionary the `reduce` has built after a prefix of the options; the last option visited is present with its title |
| Constants.DictOfMeaning | src/api/constants.ts:70-73 | the same facts for the fold as a function |
| Constants.DictOfKeys | src/api/constants.ts:70-73 | the fold starts from `{}`, so its keys are exactly the values |
| Constants.LaterOptionWins | src/api/constants.ts:70-72 | if two options shared a value, the later title would win |
| Constants.StorageValuesDistinct | src/api/constants.ts:1-27 | the five storage values are pairwise distinct |
| Constants.StorageValues | src/api/constants.ts:1-27 | the storage values are `local`, `alipan`, `u115`, `rclone` and `alist` |
| Constants.StorageDictContents | src/api/constants.ts:1-27 | `storageDict` has exactly those five keys, and each storage's value maps to its title |
| Constants.FilterRulesSpaceWrapped | src/api/constants.ts:29-68 | every built-in filter rule value is one token wrapped in a single leading and trailing space |

## Left out

- Floating-point, locale and date formatters (`kFormatter`, `formatFileSize`, `formatBytes`, `formatRating`, `formatDate`, `formatDateToMonthShort`, `formatDateDifference`, `parseDate`): they rest on floating point, `Intl` and `dayjs`.
- Clipboard access and `isPWA` in `navigator.ts`: browser APIs, asynchronous.
- Formatters.FormatEp: works on integers only. JavaScript numbers are floats: fractions, `NaN` and the exponent form of `toString` for magnitudes from 1e21 are not modelled. Negative episode numbers are allowed, but their `-` sign is then indistinguishable from the range dash. Above 2^53, where JavaScript gives `end + 1 === end`, the source merges equal values into one run and the model does not: `formatEp([2**53, 2**53])` gives one token in the source and two in the model.
- Formatters.FormatEp: there is no parsing and no deduplication, because the source has neither.
- Formatters.FormatSeason and Formatters.AvatarText: strings are sequences of Unicode scalar values. JavaScript's `length`, `padStart` and `charAt` count UTF-16 code units, so for characters outside the Basic Multilingual Plane the source differs: `formatSeason` does not pad such a one-character value, and `avatarText` takes only the first half of its surrogate pair.
- Formatters.UpperCase: maps only `a`–`z`. JavaScript's `toUpperCase` also maps other scripts and can lengthen a character (`ß` to `SS`).
- Formatters.FormatSeconds: integer seconds only. A fractional count would show fractional seconds.
- Formatters.PrefixWithPlus: integers only, for the same reason as `formatEp`.
- Navigator.Atob: follows the forgiving-base64 decode that `atob` uses. Non-zero leftover bits in a final partial group are discarded, not rejected. This is looser than the strict reading of section 4 of RFC 4648.
- Navigator.UrlBase64ToUint8Array: `window.atob` is a pure function here. The model has no global `window`.
- Router.AbortController: reduced to an `aborted` flag. The effect of `abort()` on pending requests is outside the model.
- Router.AbortRegistry.AbortAll: aborts in an unspecified order. JavaScript visits a `Set` in insertion order, which the model does not keep.
- Router: route components are lazy `import()` calls, shown only by name. NProgress, the hash history and the `props` of the parameterised routes are not modelled.
- Router.BeforeEach: works on the store instance passed in. `useAuthStore()` returning one shared instance is not modelled.
- Router.ScrollBehavior: the saved position is modelled as present or absent. The JavaScript truthiness of other values is not modelled.
- AuthStore.Store: `originalPath` is `Option<string>`. An absent `originalPath` in a payload and an explicit `null` are not told apart. Persistence (`persist: true`) is not modelled.
- UserStore.Store: `permissions` is a `map<string, string>`. The source accepts any object.
- The store getters (`AuthStore.Store.GetToken` and the others) only read the field back, which is all the source does.
- Workflow: the `watch` on `isDragging` that sets `document.body.style.userSelect`, the `drop` listener added and removed on `document`, and `dataTransfer` are DOM effects and are not modelled.
- Workflow.DragAndDrop.OnDrop: the screen-to-canvas conversion is a parameter. The re-centering of the node once the canvas has measured it (floating point, inside the graph library) is not modelled.
- Workflow.NodeId: `Math.random().toString(36)` is a parameter, the random text. Whether ids are unique is not modelled.
- Constants.DictOf and Constants.BuildStorageDict: stated for any option list. On a plain object `{}`, assigning the key `__proto__` sets the prototype and adds no key, so an option with that value would be missing from the source's dictionary; the five storage options have no such value.
- Constants: `transferTypeOptions` is a constant table that no modelled operation uses.
