# Portfolio site logic, modelled in Dafny

This project models the logic of a portfolio web site and of a small Pokémon
database service that sits beside it, and proves what that logic promises.

- **HTTP client** (`useAPIService.js`). The URL builder and query encoder,
  with `encodeURIComponent` written out as UTF-8 plus `%XX`. The status-code
  table and the error classifier. Request preparation: header merge, removal
  of undefined headers, and body pass-through versus JSON serialisation. The
  dispatch of a response (204, JSON, text). The catch-block reclassification.
  The per-method shortcuts. The `createAPIHelpers` wrappers, whose callbacks
  are recorded in a `Callbacks` object.
- **CORS allow-list** of the backend (`cors.js`).
- **Two colour parsers**: `HexToRGB.js` of the UI package, and the
  `hexToRgb` helper of the web site's navigation bar with the colour that
  `resetTheme` applies.
- **Tooltip hook** (`useTooltip.js`): the placement cascade and clamp, the
  show and hide flags with their scheduled callbacks, and what the portal
  renders.
- **Preference hooks**: the UI package's `useTheme` and `useAnimations`,
  which share the `userSessionInfo` object in local storage, and the
  frontend's `useTheme`, which keeps a plain `theme` key.
- **Device tiers** of the frontend (`deviceUtils.js`).
- **Pokémon service** (`pokemon_solution.py`): the `clean_database` pipeline
  over in-memory tables, the four query endpoints, and `add_pokemon` with its
  get-or-insert steps.

Browser, network and database inputs become parameters:

- the transport's outcome;
- the stored texts and the media-query results;
- the element rectangles;
- the PokeAPI answer;
- whether a connection could be opened.

State that the source changes in place is held in classes:

- `TooltipHook`;
- `Browser` and `Page`;
- `Callbacks`;
- `Connection`;
- `Database`.

Each class's methods are proved against the functions that specify them.

## Model

| member | source | states |
|---|---|---|
| UriEncoding.EncodeURIComponent | packages/UI/src/hooks/useAPIService.js:87 | every character of the result is an unreserved character or `%` |
| UriEncoding.DecodeEncode | packages/UI/src/hooks/useAPIService.js:87 | percent-decoding the encoding of any text gives back that text's UTF-8 octets (no information is lost) |
| UriEncoding.EncodeUnescaped | packages/UI/src/hooks/useAPIService.js:121-123 | text made only of unreserved characters is left as it is |
| UriEncoding.EncodedHasNoDelimiters | packages/UI/src/hooks/useAPIService.js:121-123 | an encoded key or value never contains `:`, `/`, `?`, `#`, `&`, `=` or `$`, so it cannot break the URL's structure |
| ApiUrl.Template | packages/UI/src/hooks/useAPIService.js:81 | defines the registry lookup with the endpoint as fallback |
| ApiUrl.SubstituteAll | packages/UI/src/hooks/useAPIService.js:84-89 | defines the substitution loop over the params |
| ApiUrl.QueryString | packages/UI/src/hooks/useAPIService.js:111-126 | defines buildQueryString |
| ApiUrl.Url | packages/UI/src/hooks/useAPIService.js:80-104 | defines the URL buildURL returns |
| ApiUrl.SubstituteAllAppend | packages/UI/src/hooks/useAPIService.js:84-89 | the substitution loop is a left fold: substituting `a + b` is substituting `a`, then `b` |
| ApiUrl.NullishParamSkipped | packages/UI/src/hooks/useAPIService.js:85-88 | a null or undefined param leaves the URL as if it were absent |
| ApiUrl.SubstituteFirstOnly | packages/UI/src/hooks/useAPIService.js:87 | only the first occurrence of `:key` is replaced, by the value's text; the rest of the template is kept |
| ApiUrl.KeyMatchesLongerToken | packages/UI/src/hooks/useAPIService.js:87 | `:id` also matches the start of `:idx`, leaving `x` after the value |
| ApiUrl.RepeatedKeyKeepsSecond | packages/UI/src/hooks/useAPIService.js:87-95 | a key used twice is replaced once; the second `:key` is still there and is reported as unreplaced |
| ApiUrl.NoWarningIff | packages/UI/src/hooks/useAPIService.js:92-95 | no warning is given exactly when no `:` is followed by a letter or `_` |
| ApiUrl.MissingParamWarns | packages/UI/src/hooks/useAPIService.js:85-95 | a null param leaves its `:key` in the URL, and that token is the one reported |
| ApiUrl.QueryStringFlat | packages/UI/src/hooks/useAPIService.js:111-126 | the query string is the `&`-join of one `key=value` pair per kept scalar, arrays expanded in order, null and undefined dropped |
| ApiUrl.EmptyQueryIff | packages/UI/src/hooks/useAPIService.js:112-126 | the query string is empty exactly when every value is null or undefined |
| ApiUrl.PairRoundTrip | packages/UI/src/hooks/useAPIService.js:121-123 | splitting a pair on `=` gives back the encoded key and value |
| ApiUrl.QueryRoundTrip | packages/UI/src/hooks/useAPIService.js:119-125 | splitting the query string on `&` gives back exactly the pairs, in order |
| ApiUrl.EmptyArraySegment | packages/UI/src/hooks/useAPIService.js:112-125 | an empty array is not filtered out and leaves an empty segment, so the string starts with `&` |
| ApiUrl.RegistryLookup | packages/UI/src/hooks/useAPIService.js:81 | a registry hit supplies the template |
| ApiUrl.RegistryMiss | packages/UI/src/hooks/useAPIService.js:81 | on a miss, or an empty registry entry, the endpoint itself is the template |
| ApiUrl.NoQueryNoQuestionMark | packages/UI/src/hooks/useAPIService.js:98-103 | without kept query values the URL is exactly `baseURL + path` |
| ApiUrl.QueryAfterQuestionMark | packages/UI/src/hooks/useAPIService.js:98-103 | with a kept value the URL is `baseURL + path + "?" + query` |
| ApiUrl.BuildURL | packages/UI/src/hooks/useAPIService.js:80-104 | the loop's URL is the specified URL, and the reported tokens are those left after substitution |
| ApiUrl.DocumentedExample | packages/UI/src/hooks/useAPIService.js:72-78 | `/client/:clientId/project/:projectId` with 123 and 456 and `status=ACTIVE` gives `…/client/123/project/456?status=ACTIVE` |
| ApiErrors.StatusMessage | packages/UI/src/hooks/useAPIService.js:42-57 | defines the status-code table |
| ApiErrors.IsNetworkError | packages/UI/src/hooks/useAPIService.js:133-146 | defines isNetworkError; its words are proved in NetworkErrorWords |
| ApiErrors.IsTimeoutError | packages/UI/src/hooks/useAPIService.js:153-159 | defines isTimeoutError |
| ApiErrors.UserFriendlyMessage | packages/UI/src/hooks/useAPIService.js:166-168 | every status code maps to one of the 14 fixed messages |
| ApiErrors.StatusMessageDefined | packages/UI/src/hooks/useAPIService.js:42-57 | the table has an entry exactly for 400, 401, 403, 404, 408, 409, 429, 500, 502, 503 and 504 |
| ApiErrors.UserFriendlyMessageDistinct | packages/UI/src/hooks/useAPIService.js:42-57 | the default message is given exactly for the other codes, and two listed codes never share a message (also lines 166-168) |
| ApiErrors.NetworkErrorWords | packages/UI/src/hooks/useAPIService.js:133-146 | a network error is a TypeError whose lower-cased message contains `fetch`, `network` or `load failed` |
| ApiErrors.Reclassify | packages/UI/src/hooks/useAPIService.js:267-294 | whatever is thrown, the rejection carries one of the 14 fixed messages |
| ApiErrors.ReclassifyRules | packages/UI/src/hooks/useAPIService.js:267-294 | the order of the rules: AbortError, then network, then timeout words, then a known message rethrown, then the default |
| ApiErrors.ReclassifyKeepsStatusMessage | packages/UI/src/hooks/useAPIService.js:249-289 | a status message thrown by the non-ok branch comes out of the catch block unchanged |
| ApiErrors.NoTimeoutWords | packages/UI/src/hooks/useAPIService.js:42-57 | no status message contains `timeout` or `timed out` (also lines 153-159) |
| ApiErrors.StatusMessages | packages/UI/src/hooks/useAPIService.js:166-168 | the list holds the message of every status code |
| ApiService.MergeHeaders | packages/UI/src/hooks/useAPIService.js:210-213 | defines the spread of the call's headers over the default headers |
| ApiService.DefinedHeaders | packages/UI/src/hooks/useAPIService.js:218-222 | every header left is defined |
| ApiService.BodyToSend | packages/UI/src/hooks/useAPIService.js:226-235 | defines the body step; its rules are proved in BodyRules |
| ApiService.Credentials | packages/UI/src/hooks/useAPIService.js:206-209 | defines the credentials of the spread config |
| ApiService.ConfigBody | packages/UI/src/hooks/useAPIService.js:206-235 | defines `config.body` after the spread and the body step |
| ApiService.RemoveUndefined | packages/UI/src/hooks/useAPIService.js:218-222 | the loop that deletes undefined headers leaves exactly the defined ones |
| ApiService.FinalHeaders | packages/UI/src/hooks/useAPIService.js:206-222 | a header is sent when the call defines it or leaves a default alone; a call's undefined value removes it; a call's value overrides the default |
| ApiService.BodyRules | packages/UI/src/hooks/useAPIService.js:226-235 | a body is sent exactly when it is truthy and the method is not GET or HEAD; native bodies, strings included, pass unchanged; only booleans, numbers, objects and arrays are serialised, as their own JSON value |
| ApiService.BodyTruthyAsJson | packages/UI/src/hooks/useAPIService.js:226 | `if (body)` is JavaScript truthiness: a JSON body is truthy exactly when its value is, undefined never is, and the native objects always are |
| ApiService.CustomConfigRules | packages/UI/src/hooks/useAPIService.js:206-235 | customConfig's credentials replace `include`; its body is kept exactly when the request's own body is not attached, even on GET or HEAD, and is then sent unserialised |
| ApiService.Prepare | packages/UI/src/hooks/useAPIService.js:190-235 | the URL, the upper-cased method, the credentials of the spread config, the final headers and the body of the spread config after the body step |
| ApiService.NoBodyOnGetOrHead | packages/UI/src/hooks/useAPIService.js:226 | GET and HEAD, in any case, never carry a body |
| ApiService.Respond | packages/UI/src/hooks/useAPIService.js:243-294 | every rejection carries one of the 14 fixed messages |
| ApiService.NonOkRejected | packages/UI/src/hooks/useAPIService.js:249-251 | a non-ok status rejects with the status's message before the body is read (also lines 300-303) |
| ApiService.OkDispatch | packages/UI/src/hooks/useAPIService.js:254-265 | 204 gives null; a JSON content type gives the parsed body; anything else gives the text |
| ApiService.AbortIsTimeout | packages/UI/src/hooks/useAPIService.js:270-272 | an aborted request rejects with the timeout message |
| ApiService.FulfilledIff | packages/UI/src/hooks/useAPIService.js:243-294 | a request is fulfilled exactly when the response is ok and its body can be read |
| ApiService.Request | packages/UI/src/hooks/useAPIService.js:189-295 | the request sends the prepared URL and config, and settles as `Respond` of the outcome |
| ApiService.Get | packages/UI/src/hooks/useAPIService.js:328-330 | a GET, which carries no body unless customConfig sets one |
| ApiService.Post | packages/UI/src/hooks/useAPIService.js:338-340 | a POST with the given body |
| ApiService.Put | packages/UI/src/hooks/useAPIService.js:348-350 | a PUT with the given body |
| ApiService.Patch | packages/UI/src/hooks/useAPIService.js:358-360 | a PATCH with the given body |
| ApiService.Delete | packages/UI/src/hooks/useAPIService.js:367-369 | a DELETE that passes the options' body through |
| ApiService.ActionVerb | packages/UI/src/hooks/useAPIService.js:307-317 | defines getActionVerb |
| ApiService.ActionVerbIgnoresCase | packages/UI/src/hooks/useAPIService.js:308-317 | getActionVerb depends only on the upper-cased method |
| ApiHelpers.SubmitAction | packages/UI/src/hooks/useAPIService.js:416 | defines the action word of the submit helpers |
| ApiHelpers.SubmitActionCases | packages/UI/src/hooks/useAPIService.js:416 | `create` exactly for POST, `update` exactly for PUT and PATCH, `process` otherwise; it agrees with getActionVerb on those three |
| ApiHelpers.LowerCasePostDisagrees | packages/UI/src/hooks/useAPIService.js:308-317 | a lower-case `post` is created by the request but announced as `process` (also line 416) |
| ApiHelpers.ToastNamesEntity | packages/UI/src/hooks/useAPIService.js:399-432 | a toast names the entity, or `data` when there is none or it is empty |
| ApiHelpers.Callbacks.FetchData | packages/UI/src/hooks/useAPIService.js:388-405 | never rejects: the data, with setState called, or null after a toast or a console error |
| ApiHelpers.Callbacks.SubmitData | packages/UI/src/hooks/useAPIService.js:410-421 | settles as the request does; a failure is announced by a toast when one is given |
| ApiHelpers.Callbacks.DeleteData | packages/UI/src/hooks/useAPIService.js:426-438 | true exactly on success; false after a toast or a console error |
| ApiHelpers.Callbacks.FetchDataWithLoading | packages/UI/src/hooks/useAPIService.js:443-471 | as fetchData, between `setLoading(true)` and `setLoading(false)` |
| ApiHelpers.Callbacks.SubmitDataWithLoading | packages/UI/src/hooks/useAPIService.js:476-499 | as submitData, and `setLoading(false)` runs even when the request rejects |
| Cors.BuildAllowedOrigins | backend/src/middleware/cors.js:8-12 | defines buildAllowedOrigins: the two defaults, then the cleaned extras |
| Cors.Decide | backend/src/middleware/cors.js:17-24 | defines the origin callback: no origin or a listed one is allowed, anything else denied |
| Cors.CleanEntries | backend/src/middleware/cors.js:10 | the entries are trimmed and the empty ones are dropped |
| Cors.CleanEntriesKeepAbsent | backend/src/middleware/cors.js:10 | trimming and dropping never bring in a character that was not there |
| Cors.Extras | backend/src/middleware/cors.js:9-10 | every extra is trimmed, non-empty and free of commas |
| Cors.UnsetGivesDefaults | backend/src/middleware/cors.js:3-11 | an unset or empty variable gives exactly the two defaults |
| Cors.ExtrasRoundTrip | backend/src/middleware/cors.js:9-11 | a comma-joined list of clean entries is read back as that list, in order |
| Cors.CleanClean | backend/src/middleware/cors.js:10 | cleaning clean entries changes nothing |
| Cors.DecideIff | backend/src/middleware/cors.js:17-23 | denied, with `CORS origin denied`, exactly when the origin is present and non-empty and not a member of the list |
| Cors.BareOriginDenied | backend/src/middleware/cors.js:3-20 | `https://francois0203.github.io` is denied unless it is one of the extras |
| Cors.MissingSlashDenied | backend/src/middleware/cors.js:3-20 | the Pages origin with its path but no trailing slash is denied unless it is one of the extras |
| CssColor.FromHex | packages/UI/src/utils/HexToRGB.js:11-26 | the `#` branch always gives three components |
| CssColor.FromRgb | packages/UI/src/utils/HexToRGB.js:27-33 | the `rgb` branch always gives three components |
| CssColor.HexToRGB | packages/UI/src/utils/HexToRGB.js:7-35 | the result always has three components |
| CssColor.Branches | packages/UI/src/utils/HexToRGB.js:8-34 | `#` reads the digits after it, `rgb` reads digit runs, and anything else is the fallback `[41, 128, 185]` |
| CssColor.DropHash | packages/UI/src/utils/HexToRGB.js:12 | `replace('#', '')` drops exactly the leading `#` |
| CssColor.PairIsParseInt | packages/UI/src/utils/HexToRGB.js:16-24 | the pair reading agrees with `parseInt(x + y, 16)` on every pair of characters |
| CssColor.ShortHex | packages/UI/src/utils/HexToRGB.js:14-19 | `#RGB` doubles each digit: every component is 17 times its digit |
| CssColor.ShortHexExample | packages/UI/src/utils/HexToRGB.js:14-19 | `#abc` reads as `[170, 187, 204]` |
| CssColor.LongHex | packages/UI/src/utils/HexToRGB.js:20-25 | `#RRGGBB` reads consecutive digit pairs |
| CssColor.LongHexColor | packages/UI/src/utils/HexToRGB.js:8-25 | a value that trims to `#RRGGBB` gives its three pair values |
| CssColor.LongHexBounds | packages/UI/src/utils/HexToRGB.js:20-25 | with six hexadecimal digits every component is a number in 0..255 |
| CssColor.OtherLengthFallback | packages/UI/src/utils/HexToRGB.js:13-26 | a `#` value with neither 3 nor 6 digits keeps the fallback |
| CssColor.RgbTextRuns | packages/UI/src/utils/HexToRGB.js:28 | the digit runs of `rgb(R,G,B)` are R, G and B |
| CssColor.RgbNoClamp | packages/UI/src/utils/HexToRGB.js:28-31 | decimal components are read without clamping |
| CssColor.RgbExample | packages/UI/src/utils/HexToRGB.js:8-31 | `rgb(300,20,5)` keeps 300 |
| NavBarColor.HexToRgb | website/src/components/NavBar.js:31-37 | defines hexToRgb: the three masked bytes of the parsed number as text |
| NavBarColor.RgbText | website/src/components/NavBar.js:36 | defines the template `r, g, b` |
| NavBarColor.ToInt32 | website/src/components/NavBar.js:33-35 | the 32-bit conversion of the shift operators lands in the signed 32-bit range |
| NavBarColor.Bytes | website/src/components/NavBar.js:33-35 | every masked component is in 0..255 |
| NavBarColor.Components | website/src/components/NavBar.js:31-35 | every component of any input is in 0..255 |
| NavBarColor.PackedRoundTrip | website/src/components/NavBar.js:33-35 | for a number below 2^24, `r*65536 + g*256 + b` gives back the number |
| NavBarColor.UnpackPacked | website/src/components/NavBar.js:33-35 | three bytes packed into a number unpack to themselves |
| NavBarColor.SixDigitPacking | website/src/components/NavBar.js:31-35 | a six-digit colour's components are its three digit-pair values |
| NavBarColor.AgreesWithHexToRGB | website/src/components/NavBar.js:31-35 | on six-digit colours the two parsers agree |
| NavBarColor.ThreeDigitComponents | website/src/components/NavBar.js:31-35 | `#RGB` is read as a three-digit number and not expanded: 0, R and GB |
| NavBarColor.UnreadableIsBlack | website/src/components/NavBar.js:32-36 | text that parseInt cannot read at all gives `0, 0, 0` |
| NavBarColor.DefaultColorRgb | website/src/components/NavBar.js:7-36 | the default `#30d5c8` gives `48, 213, 200` |
| NavBarColor.ShorthandDisagrees | website/src/components/NavBar.js:31-37 | `#abc` gives `0, 10, 188` here, while HexToRGB expands it to `[170, 187, 204]` |
| NavBarColor.ThemePropertiesOf | website/src/components/NavBar.js:12-19 | a colour sets both colour properties to itself and the hover effect to its components at 20% opacity |
| NavBarColor.ResetThemeProperties | website/src/components/NavBar.js:21-28 | resetTheme applies the default colour with hover effect `rgba(48, 213, 200, 0.2)` |
| Tooltip.Candidate | packages/UI/src/hooks/useTooltip.js:25-47 | defines the placement cascade before the final clamp |
| Tooltip.Clamp | packages/UI/src/hooks/useTooltip.js:49-50 | the clamp never goes below its lower bound, stays under a consistent upper bound, and keeps a value already inside |
| Tooltip.CalculatePosition | packages/UI/src/hooks/useTooltip.js:15-54 | x and y are at least 12; they stay a margin inside the right and bottom edges whenever the viewport leaves room for that |
| Tooltip.PlacementIsFirstFit | packages/UI/src/hooks/useTooltip.js:27-47 | the placement is the first of right, left, bottom and top that fits, and right when none does |
| Tooltip.SidePlacementsCentre | packages/UI/src/hooks/useTooltip.js:29-50 | right and left centre vertically, bottom and top horizontally, unless the clamp moves the tooltip |
| Tooltip.RightSitsBesideTrigger | packages/UI/src/hooks/useTooltip.js:27-49 | a right placement starts 12 pixels to the right of the trigger when the clamp leaves it there |
| Tooltip.FallbackGoesRight | packages/UI/src/hooks/useTooltip.js:43-47 | when nothing fits, the tooltip goes right, at `min(trigger.right + 12, vw - tw - 12)` |
| Tooltip.AfterShow | packages/UI/src/hooks/useTooltip.js:56-64 | showTooltip makes the tooltip visible and not exiting, and schedules one reveal |
| Tooltip.AfterReveal | packages/UI/src/hooks/useTooltip.js:59-63 | the second animation frame starts the enter animation |
| Tooltip.AfterHide | packages/UI/src/hooks/useTooltip.js:66-73 | hideTooltip stops the enter animation, starts the exit, and schedules one hide |
| Tooltip.AfterHideTimer | packages/UI/src/hooks/useTooltip.js:69-72 | the timer hides the tooltip and ends the exit |
| Tooltip.Portal | packages/UI/src/hooks/useTooltip.js:104-127 | it renders exactly when the tooltip is visible or exiting; it is hidden exactly at (0, 0); `visible` only while animating in and not exiting; `exit` exactly while exiting |
| Tooltip.RepositionNeedsBothElements | packages/UI/src/hooks/useTooltip.js:16-53 | with either element missing nothing changes; otherwise the position and placement are calculatePosition's |
| Tooltip.PositionedIsNotHidden | packages/UI/src/hooks/useTooltip.js:49-52 | once a shown tooltip is positioned, it is not hidden (also line 121) |
| Tooltip.HideKeepsRenderingUntilTimer | packages/UI/src/hooks/useTooltip.js:66-73 | after hiding, the tooltip still renders with `exit` until the timer fires (also lines 105, 111) |
| Tooltip.ShowDoesNotCancelHide | packages/UI/src/hooks/useTooltip.js:56-73 | hide, show again, then the timer: the tooltip ends hidden although the pointer is back |
| Tooltip.EnterAnimationAfterReveal | packages/UI/src/hooks/useTooltip.js:59-63 | the `visible` class appears only after the reveal frames, and never during an exit (also line 110) |
| Tooltip.TooltipHook.ShowTooltip | packages/UI/src/hooks/useTooltip.js:56-64 | the hook's new state is AfterShow of the old one |
| Tooltip.TooltipHook.RevealFrame | packages/UI/src/hooks/useTooltip.js:60-62 | the hook's new state is AfterReveal of the old one |
| Tooltip.TooltipHook.HideTooltip | packages/UI/src/hooks/useTooltip.js:66-73 | the hook's new state is AfterHide of the old one |
| Tooltip.TooltipHook.HideTimer | packages/UI/src/hooks/useTooltip.js:69-72 | the hook's new state is AfterHideTimer of the old one |
| Tooltip.TooltipHook.CalculatePositionFor | packages/UI/src/hooks/useTooltip.js:15-54 | the hook's new state is AfterReposition of the old one |
| UiPreferences.InitialTheme | packages/UI/src/hooks/useTheme.js:3-17 | defines getInitialTheme: a truthy stored prefersColorScheme, otherwise the system scheme |
| UiPreferences.InitialAnimations | packages/UI/src/hooks/useAnimations.js:3-18 | defines getInitialAnimations: a stored animationsEnabled that is not undefined, otherwise true |
| UiPreferences.ToggleTheme | packages/UI/src/hooks/useTheme.js:40 | defines toggleTheme: `dark` becomes `light`, anything else `dark` |
| UiPreferences.ToggleAnimations | packages/UI/src/hooks/useAnimations.js:46 | defines toggleAnimations: the negation of the previous value |
| UiPreferences.SessionBase | packages/UI/src/hooks/useTheme.js:25-34 | defines `updatedInfo` before the write: the parsed session, or an empty object |
| UiPreferences.ReadSession | packages/UI/src/hooks/useTheme.js:4-7 | the session is read exactly when it is stored and is valid JSON |
| UiPreferences.WithField | packages/UI/src/hooks/useTheme.js:36-37 | an object gains the field; an array keeps its serialised form; null and primitives throw |
| UiPreferences.StoreField | packages/UI/src/hooks/useTheme.js:25-37 | a write only ever touches the `userSessionInfo` key |
| UiPreferences.ThemeRoundTrip | packages/UI/src/hooks/useTheme.js:8-37 | the write succeeds exactly on an object, an array, a missing session or invalid JSON; after a write to an object, a missing session or invalid JSON, the next start reads back a truthy theme |
| UiPreferences.ArraySessionDropsField | packages/UI/src/hooks/useTheme.js:30-37 | a stored array is written back unchanged |
| UiPreferences.PrimitiveSessionThrows | packages/UI/src/hooks/useTheme.js:30-36 | a stored null, string, number or boolean makes the effect throw |
| UiPreferences.CorruptSessionReplaced | packages/UI/src/hooks/useTheme.js:28-37 | invalid JSON is replaced by an object that holds only the new field |
| UiPreferences.AnimationsRoundTrip | packages/UI/src/hooks/useAnimations.js:8-43 | a persisted value, even `false`, is what the next start returns |
| UiPreferences.OtherFieldsKept | packages/UI/src/hooks/useAnimations.js:31-43 | writing one field keeps every other field of the session |
| UiPreferences.HooksDoNotInterfere | packages/UI/src/hooks/useAnimations.js:42-43 | persisting the animations flag keeps the stored theme, and the other way round |
| UiPreferences.Defaults | packages/UI/src/hooks/useAnimations.js:4-17 | a missing or invalid session gives the system's theme and animations on |
| UiPreferences.ToggleThemeCases | packages/UI/src/hooks/useTheme.js:40 | `dark` becomes `light` and anything else `dark`; toggling twice is the identity on the two themes |
| UiPreferences.ToggleAnimationsTwice | packages/UI/src/hooks/useAnimations.js:46 | the toggle negates; toggling twice gives the flag back |
| UiPreferences.Browser.PersistTheme | packages/UI/src/hooks/useTheme.js:22-38 | sets `data-theme`; storage becomes StoreField's result, or is unchanged when the effect throws |
| UiPreferences.Browser.PersistAnimations | packages/UI/src/hooks/useAnimations.js:23-44 | removes `data-no-animations` when enabled and sets it to `true` otherwise; storage as for the theme |
| FrontendTheme.InitialTheme | frontend/src/hooks/useTheme.js:4-16 | defines the initial state: a non-empty saved theme, otherwise the system scheme |
| FrontendTheme.ToggleTheme | frontend/src/hooks/useTheme.js:25-27 | defines toggleTheme: `light` becomes `dark`, anything else `light` |
| FrontendTheme.SavedThemeWins | frontend/src/hooks/useTheme.js:4-16 | a non-empty saved theme wins; otherwise the system preference decides |
| FrontendTheme.PersistRoundTrip | frontend/src/hooks/useTheme.js:6-22 | a stored non-empty theme is what the next start reads |
| FrontendTheme.ToggleCases | frontend/src/hooks/useTheme.js:25-27 | `light` becomes `dark` and anything else `light`; toggling twice is the identity on the two themes |
| FrontendTheme.TogglesDisagreeOffScheme | frontend/src/hooks/useTheme.js:26 | the two theme hooks agree on `light` and `dark` and send any other value to opposite themes |
| FrontendTheme.Page.Persist | frontend/src/hooks/useTheme.js:18-23 | sets the `primary-theme` attribute and the `theme` key, and nothing else |
| DeviceUtils.IsMobile | frontend/src/utils/deviceUtils.js:18-28 | defines isMobileDevice: a mobile user agent, or touch support on a screen at most 768 wide |
| DeviceUtils.IsTablet | frontend/src/utils/deviceUtils.js:34-40 | defines isTabletDevice: a tablet user agent, or a width above 768 and at most 1024 |
| DeviceUtils.ShouldReduce | frontend/src/utils/deviceUtils.js:46-48 | defines shouldReduceAnimations: reduced motion requested, or a mobile device |
| DeviceUtils.ParticleCount | frontend/src/utils/deviceUtils.js:56-64 | defines getOptimalParticleCount; its tiers are proved in ParticleTiers |
| DeviceUtils.Interval | frontend/src/utils/deviceUtils.js:71-79 | defines getOptimalInterval; its bounds are proved in IntervalNeverShorter |
| DeviceUtils.ReduceCases | frontend/src/utils/deviceUtils.js:18-48 | reduced exactly when the user asks for less motion, or the agent is mobile, or touch with width at most 768 |
| DeviceUtils.WidthWindowsDisjoint | frontend/src/utils/deviceUtils.js:25-37 | by width alone no device is both mobile and tablet |
| DeviceUtils.ParticleTiers | frontend/src/utils/deviceUtils.js:56-64 | reduced gives mobileCount (even 0) or a quarter rounded down; tablet gives half rounded down; otherwise the desktop count |
| DeviceUtils.ParticleCountBounded | frontend/src/utils/deviceUtils.js:56-64 | without a mobileCount the count is between 0 and the desktop count |
| DeviceUtils.ReducedBeatsTablet | frontend/src/utils/deviceUtils.js:57-76 | a tablet in reduced mode gets the reduced count and the tripled interval |
| DeviceUtils.IntervalNeverShorter | frontend/src/utils/deviceUtils.js:71-79 | the interval lies between the input and three times it, and equals the input exactly on desktop or at 0 |
| PokemonClean.Dedup | pokemon_solution.py:67-74 | defines the DELETE of every row but the first of its name |
| PokemonClean.FixRows | pokemon_solution.py:90-111 | defines the second pass over one table |
| PokemonClean.Cleaned | pokemon_solution.py:63-111 | defines both loops over a table list |
| PokemonClean.Connection.DeduplicateListed | pokemon_solution.py:63-74 | succeeds exactly when every listed table can be deduplicated, and then holds the deduplicated tables |
| PokemonClean.Connection.FixListed | pokemon_solution.py:86-111 | holds the tables after the second pass over every listed table |
| PokemonClean.KeepFirsts | pokemon_solution.py:67-74 | a row is kept exactly when it has the smallest rowid of its name group |
| PokemonClean.DedupOnePerName | pokemon_solution.py:63-74 | every name keeps exactly one row, the one with the smallest rowid, and rowids stay unique |
| PokemonClean.DeleteNamed | pokemon_solution.py:91-95 | exactly the rows with that name are deleted |
| PokemonClean.Rename | pokemon_solution.py:98-103 | exactly the rows with the wrong name are renamed; nothing else changes |
| PokemonClean.RecaseAll | pokemon_solution.py:106-111 | every row's name is re-cased and nothing else changes |
| PokemonClean.RecaseIdempotent | pokemon_solution.py:106-111 | re-casing twice is re-casing once |
| PokemonClean.DeleteAllRemoves | pokemon_solution.py:77-95 | a row survives exactly when its name is no placeholder |
| PokemonClean.NoPlaceholdersLeft | pokemon_solution.py:77-111 | after the second pass no row is named `---`, `???` or the empty string |
| PokemonClean.CorrectionsApply | pokemon_solution.py:78-103 | every misspelling in the table is replaced by its correction |
| PokemonClean.FixCleanRows | pokemon_solution.py:86-111 | on rows without placeholder names the second pass keeps every row and only corrects and re-cases its name |
| PokemonClean.MisspellingCorrected | pokemon_solution.py:78-111 | a row named with a misspelling ends up with its correction, e.g. `Pikuchu` becomes `Pikachu` |
| PokemonClean.CaseVariantOfMisspellingSurvives | pokemon_solution.py:98-111 | corrections run before re-casing, so `PIKUCHU` ends up as `Pikuchu` |
| PokemonClean.DedupTables | pokemon_solution.py:63-74 | the same tables, and a table that is not listed is unchanged |
| PokemonClean.FixTables | pokemon_solution.py:86-111 | the same tables, and a table that is not listed is unchanged |
| PokemonClean.CleanedOnce | pokemon_solution.py:63-111 | a listed table ends up deduplicated, then cleaned of placeholders, corrected and re-cased |
| PokemonClean.CaseVariantsBothKept | pokemon_solution.py:63-111 | deduplication runs before re-casing, so `fire` and `Fire` both survive as `Fire` |
| PokemonClean.NamelessTableBlocksClean | pokemon_solution.py:70-74 | a listed table without a `name` column makes the run fail (also lines 116-118) |
| PokemonClean.TablesAsWritten | pokemon_solution.py:53-60 | defines the table list as the code reads it: always empty |
| PokemonClean.AsWrittenCleansNothing | pokemon_solution.py:53-118 | as written, the clean always commits and leaves every table as it was |
| PokemonClean.AsWrittenKeepsDuplicate | pokemon_solution.py:53-74 | as written, a duplicate name survives; with the listed tables it is removed |
| PokemonClean.TablesIntended | pokemon_solution.py:53-58 | defines the intended table list: the names sqlite_master lists |
| PokemonClean.Connection.DeleteDuplicates | pokemon_solution.py:63-74 | one table deduplicated, or a failure when it has no `name` column |
| PokemonClean.Connection.FixTable | pokemon_solution.py:86-111 | one table's second pass, or a failure when it has no `name` column |
| PokemonClean.Connection.CleanDatabase | pokemon_solution.py:35-118 | commits exactly when every listed table can be cleaned, and then holds the cleaned tables; otherwise rolls back to the old tables |
| PokemonApi.PokemonWithAbility | pokemon_solution.py:155-162 | defines the ability join |
| PokemonApi.AbilitiesOfPokemon | pokemon_solution.py:257-264 | defines the join of a Pokémon's abilities |
| PokemonApi.TrainersOfPokemon | pokemon_solution.py:223-230 | defines the join of a Pokémon's trainers |
| PokemonApi.PokemonOfType | pokemon_solution.py:189-196 | defines the type join over both slots |
| PokemonApi.StoreTypes | pokemon_solution.py:313-327 | defines the get-or-insert of the first and second type |
| PokemonApi.Link | pokemon_solution.py:313-365 | defines the committed writes of a successful add |
| PokemonApi.Answer | pokemon_solution.py:171-174 | 404 with the message exactly when nothing is found; otherwise the distinct names |
| PokemonApi.GetPokemonByAbility | pokemon_solution.py:144-174 | 500 without a connection; otherwise the distinct Pokémon with the ability, or 404 |
| PokemonApi.GetPokemonByType | pokemon_solution.py:178-208 | 500 without a connection; otherwise the distinct Pokémon of the type, or 404 |
| PokemonApi.GetTrainersByPokemon | pokemon_solution.py:212-242 | 500 without a connection; otherwise the distinct trainers of the Pokémon, or 404 |
| PokemonApi.GetAbilitiesByPokemon | pokemon_solution.py:246-276 | 500 without a connection; otherwise the distinct abilities of the Pokémon, or 404 |
| PokemonApi.AbilityQueriesAreConverse | pokemon_solution.py:155-162 | a Pokémon has an ability in one query exactly when the ability belongs to the Pokémon in the other (also lines 257-264) |
| PokemonApi.TypeMatchesEitherSlot | pokemon_solution.py:189-195 | a Pokémon is found by its first type or its second |
| PokemonApi.TypeAnswersAreSound | pokemon_solution.py:189-195 | every name found has a Pokémon row of that type |
| PokemonApi.DanglingType1Hides | pokemon_solution.py:189-195 | a Pokémon whose first type id matches no type is never found, whatever its second type |
| PokemonApi.NextRowid | pokemon_solution.py:316-317 | a new rowid is above every id: 1 in an empty table, otherwise one more than some id |
| PokemonApi.FindId | pokemon_solution.py:314-315 | no id exactly when no row has the name; otherwise the id of a row with the name |
| PokemonApi.GetOrInsert | pokemon_solution.py:314-318 | reuse the existing id and leave the table alone, or append one row with a fresh id |
| PokemonApi.GetOrInsertPokemon | pokemon_solution.py:330-339 | the same for Pokémon rows, which carry their types |
| PokemonApi.GetOrInsertNames | pokemon_solution.py:314-318 | afterwards the name is present and the id found for it is the one returned |
| PokemonApi.GetOrInsertIdempotent | pokemon_solution.py:314-318 | a second get-or-insert of the same name returns the same id and changes nothing |
| PokemonApi.FindAfterAppend | pokemon_solution.py:316-318 | a name appended to a table that lacked it is found with its new id |
| PokemonApi.Capitalize | pokemon_solution.py:296-302 | capitalising keeps the length |
| PokemonApi.SecondType | pokemon_solution.py:301-322 | a second type is used exactly when PokeAPI gives one and its name is not empty |
| PokemonApi.AddOutcome | pokemon_solution.py:280-372 | success exactly when PokeAPI answers 200 with types and abilities, the connection opens and a trainer exists; a failure changes nothing |
| PokemonApi.AddAppendsOneLink | pokemon_solution.py:351-365 | a success appends one link, for the first trainer, with a fresh id that is returned |
| PokemonApi.AddReusesExistingRows | pokemon_solution.py:313-348 | when every name is already stored, only the links table changes |
| PokemonApi.AddedPokemonIsFound | pokemon_solution.py:280-365 | after a success the Pokémon is found by its ability, its ability is listed for it, and the first trainer is listed for it |
| PokemonApi.StoreTypesIdempotent | pokemon_solution.py:313-327 | storing a Pokémon's types a second time returns the same ids and leaves the types table as it was |
| PokemonApi.AddTwiceLinksTwice | pokemon_solution.py:280-365 | adding twice reuses every row and adds two links |
| PokemonApi.NoTrainerDiscardsInserts | pokemon_solution.py:351-370 | without a trainer the request fails with 500 and the rows inserted before are discarded |
| PokemonApi.AddedNamesAreClean | pokemon_solution.py:296 | a newly inserted Pokémon's name is already re-cased as clean_database would (also lines 330-339) |
| PokemonApi.Database.AddPokemon | pokemon_solution.py:280-372 | the reply and the new tables are AddOutcome's |

## Left out

- Transport and timers: `fetch`, `AbortController` and `setTimeout`. A request's outcome (`Completed`, `Aborted` or `Threw`) is a parameter.
- The per-request `timeout` option: it only decides when the abort happens.
- `response.json()` and `response.text()`: a body's parsed form and text are part of the outcome.
- `console.warn` and its text: the model returns the unreplaced tokens it reports.
- `customConfig`: only its `credentials` and `body` are modelled. Its `method` and `headers` are always overwritten by `request`, and its `signal` by the abort controller. Its other fetch options (`mode`, `cache` and the like) are passed on to `fetch` unchanged and are not modelled.
- A `customConfig` key set explicitly to `undefined` is treated as an absent key.
- `entityName` in the options passed to `request`: it is only forwarded.
- `createAPIHooks`: React state plumbing around the same `request` calls.
- The `<Loading/>` JSX of the helpers.
- `JSON.stringify` of a body and `JSON.parse` of storage are modelled by their round trip on JSON values. Text that `JSON.stringify` did not write is treated as text `JSON.parse` rejects.
- JSON numbers are integers: fractions, NaN and the infinities are not modelled, in bodies, parsed responses or stored sessions.
- URL parameters are strings or integers. Fractional numbers, NaN and objects (which `String` turns into `[object Object]`) are not modelled as parameters.
- `encodeURIComponent`'s `URIError` on a lone surrogate cannot arise: text is a sequence of Unicode scalar values. In the source, `request` would reject such a call with the default message.
- Case mapping (`toLowerCase`, `toUpperCase`, Python's `capitalize`, SQLite's `UPPER`/`LOWER`) is modelled on ASCII letters only.
- `parseInt` and `Number` are modelled on exact integers: values above 2^53 are not rounded as doubles would be.
- Tooltip coordinates are reals, so the halving used for centring is exact. IEEE-754 doubles only approximate it.
- The device interval's factor of 1.5 is also computed on reals.
- Browser queries become inputs: `getComputedStyle`, `getBoundingClientRect`, `matchMedia`, the user agent, touch support and the window width. The user-agent regular expressions are booleans.
- Event-listener wiring, the animation-frame effect and the cancellation of its frame are left out. `requestAnimationFrame` and `setTimeout` callbacks of the tooltip are pending counts that the environment fires.
- Attribute values are the values given to `setAttribute`, before their string conversion.
- The SQLite engine is reduced to the statements the script issues, over in-memory tables: rowid order, `GROUP BY` keeping the smallest rowid, and `fetchone` as the first row.
- `connect_db`'s file check is a `connected` flag or an `Option` of the tables.
- SQL errors other than a missing `name` column are left out, and so is the 2^63 rowid limit.
- The query endpoints' result order is left out: they return sets, as `DISTINCT` promises nothing about order.
- NULL names in the API tables are left out.
- The PokeAPI call is a parameter holding its status, name, types and abilities. A `KeyError` on malformed JSON is left out.
- FastAPI routing and `uvicorn` are left out.
- `clean_database`'s `if not conn` return is left out: the connection is given.
- The CORS allow-list is kept exactly as written. Its two defaults carry paths, while an Origin header never does, so a request from those sites matches neither default. The model does not guess an intended list.

## Findings

| source | as written | input that shows it | evidently intended | confidence | as-written member | corrected member |
|---|---|---|---|---|---|---|
| pokemon_solution.py:60 | the table list is read with `cursor.fetchall()` on a cursor that never ran the `sqlite_master` query, which was run on the connection at line 53, so the list is empty and no table is cleaned (PokemonClean.AsWrittenCleansNothing: the clean commits and changes nothing) | a database whose `pokemon` table holds two rows named `Pikachu` | clean every table that `sqlite_master` lists | not executed | PokemonClean.AsWrittenKeepsDuplicate | PokemonClean.Connection.CleanDatabase |
