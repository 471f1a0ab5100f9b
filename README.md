# cms-editor: a Dafny model of the editor's session, catalog and dialog logic

This project models the client-side core of the Serverless CMS editor, a React
and Lexical application. The parts modelled are:

- the URL joining helper `Utils.cleanURL`;
- the Lexical image node: its JSON and HTML export, clone and import, and the
  resize handle's arithmetic;
- `DataService`, the lazily initialised holder of the storage service;
- `AuthService`: token refresh scheduling, the idle-session check, the
  throttled activity recorder and base64 token storage in session storage;
- the catalog components: the catalog editing dialog, the catalog list with
  its save and publish flows, and the catalog picker;
- the editor dialogs: save post, hyperlink, image picker, image generation;
- the session-timeout countdown dialog and the notification provider;
- the `DataBus` listener list of `Auth.tsx` and `NonAuth.tsx`, and the logout
  URL built in `Auth.tsx`.

How the source becomes Dafny:

- Each React component is a `class`. Its `useState` hooks are fields. Its
  handlers and effects are methods with `modifies this`.
- A callback prop (`onSave`, `onSelect`, `onLogout`, …) is a log field. It
  records each call with its arguments, so "nothing was saved" is a statement
  about that log.
- An asynchronous handler is split where it awaits a service. A `…Begin`
  method runs up to the request and records it. A `…Settled` method takes the
  way the request settled as a parameter.
- `Date.now()`, the configuration values and the answers of the cloud
  services are parameters.
- The browser window `AuthService` uses is the class `Browser.Window`. It
  holds session storage as a map, the timer table, the dispatched events and
  the added listeners.

JavaScript's library is modelled where the logic depends on it (`Strings`,
`Base64`, `UriEncoding`):

- `trim` strips ECMAScript white space and line terminators.
- `parseInt` and `Number.prototype.toString` are modelled on integers.
- `btoa` and `atob` use Latin-1 and the forgiving base64 decoder.
- `encodeURIComponent` writes UTF-8 bytes as upper-case `%HH` escapes.
- A case-insensitive regular expression over an ASCII pattern is matched
  against ASCII lower-cased text.

Some consequences of the code as written are stated and proved:

- A stored empty token reads back as no token (`StoredTokenRoundTrip`),
  because the empty base64 text is falsy.
- `cleanup` leaves the activity listeners on the window.
- Reopening the session-timeout dialog after its countdown ran out calls
  `onLogout` once more before the countdown restarts (`ReopenAfterRunOut`).
  The countdown effect runs on the old `timeLeft` in the same commit as the
  reset.
- The token refresh recursion is listed under Findings.

`DataBus` is declared twice, identically, in `src/components/Auth.tsx:123-138`
and `src/components/NonAuth.tsx:47-62`. `DataBuses.DataBus` models both. Its
rows below cite the `Auth.tsx` copy.

## Model

| member | source | states |
|---|---|---|
| Utils.CleanUrl | src/helpers/Utils.ts:8-22 | A url starting with `http` is returned unchanged. Any other url is the host without a trailing slash, one `/`, then the url without a leading slash. |
| Utils.CleanUrlShape | src/helpers/Utils.ts:14-21 | For a non-`http` url the result starts with the whole host. Its length is \|host\|+\|url\| less 1 when both carry the slash, plus 0 when exactly one does, plus 1 when neither does. |
| Utils.CleanUrlSlashCombinations | src/helpers/Utils.ts:14-19 | All four slash combinations of a host and a path give host + "/" + path. |
| Utils.CleanUrlExamples | src/__tests__/Utils.test.ts:14-39 | The vectors of `Utils.test.ts`: the absolute url passes through, and the four combinations of `https://example.com` and `path/to/resource` agree. |
| ImageNodes.Serialize | src/editor/ImageNode.tsx:99-107 | The JSON record is tagged `image` with version 1 and carries exactly the payload. |
| ImageNodes.ImageNode.ExportJSON | src/editor/ImageNode.tsx:99-108 | `exportJSON` tags type `image` and version 1, and reading the record back gives the node's src, alt, width and height. |
| ImageNodes.ImageNode.Clone | src/editor/ImageNode.tsx:90-92 | The clone is a new node with the same src, alt, width, height and key. |
| ImageNodes.ImageNode.ImportJSON | src/editor/ImageNode.tsx:94-97 | The imported node is new, carries the record's src, alt, width and height, and has no key. |
| ImageNodes.ImageNode.constructor | src/editor/ImageNode.tsx:110-116 | The constructor stores the four payload fields and the key as given. |
| ImageNodes.CreateImageNode | src/editor/ImageNode.tsx:163-165 | `$createImageNode` passes the payload's four fields through unchanged. |
| ImageNodes.ExportImport | src/editor/ImageNode.tsx:94-108 | `importJSON(exportJSON(n))` has n's src, alt, width and height. |
| ImageNodes.ImportExportRecord | src/editor/ImageNode.tsx:94-108 | A record tagged `image`, version 1, is re-exported unchanged after import. |
| ImageNodes.ImageNode.OnResize | src/editor/ImageNode.tsx:135-138 | The resize callback sets width and height and leaves src, alt and key untouched. |
| ImageNodes.ImageNode.ExportDOM | src/editor/ImageNode.tsx:143-160 | The `img` always has `src` and `max-width: 100%`. `alt` is set iff non-empty. Each size is an attribute iff present and non-zero, and an `Npx` style iff positive, since a browser rejects a negative CSS length. A size style never appears without its attribute. |
| ImageNodes.DomAttributesLookup | src/editor/ImageNode.tsx:145-156 | Attribute lookup: `src` is the node's src; `alt`, `width` and `height` are present exactly when truthy, with their text values. |
| ImageNodes.DomStyleLookup | src/editor/ImageNode.tsx:150-158 | Style lookup: `width`/`height` hold `Npx` exactly when the size is positive (a negative assignment is not kept); `max-width` is always `100%`. |
| ImageNodes.Lookup | src/editor/ImageNode.tsx:145-158 | The value found under a name is the last one set, and none exactly when the name was never set. |
| ImageNodes.LookupSnoc | src/editor/ImageNode.tsx:145-158 | Setting a property makes it the value found under its name. |
| ImageNodes.LookupOptional | src/editor/ImageNode.tsx:147-157 | A conditionally set property decides the lookup under its own name and leaves other names alone. |
| ImageNodes.StartSize | src/editor/ImageNode.tsx:33-34 | The drag-start size is the stored size if truthy, else the rendered size if truthy, else 100, and never 0. |
| ImageNodes.Resized | src/editor/ImageNode.tsx:37-38 | A move gives max(20, start + delta) on each axis, so both sizes stay at least 20. |
| ImageNodes.ResizedAll | src/editor/ImageNode.tsx:36-41 | Each active drag listener reports its own resized size for one move, in order. |
| ImageNodes.ImageComponent.MouseDown | src/editor/ImageNode.tsx:29-48 | A mousedown adds one drag listener holding the pointer position and the fallback start size. |
| ImageNodes.ImageComponent.MouseMove | src/editor/ImageNode.tsx:36-41 | Every listener sets the size and reports it to `onResize` in order; the last listener's size remains. |
| ImageNodes.ImageComponent.MouseUp | src/editor/ImageNode.tsx:42-45 | A mouseup removes all drag listeners and keeps the size. |
| DataServices.DataService.constructor | src/helpers/DataService.ts:10-13 | A new service holds the instance passed in and is not ready. |
| DataServices.DataService.Init | src/helpers/DataService.ts:24-58 | Both identity requests carry the user-pool login. A rejection of either, or missing credentials, rejects `init` and leaves svc and ready as they were. Success sets svc from the region and credentials, then ready. |
| DataServices.DataService.GetService | src/helpers/DataService.ts:60-68 | A missing service is reported before readiness. The service is returned iff it is present and ready. |
| DataServices.DataService.IsReady | src/helpers/DataService.ts:15-17 | A present service is ready exactly when `getService` returns it; a present service that is not ready is refused with the not-ready message. |
| DataServices.NewServiceNotReady | src/helpers/DataService.ts:10-13 | A fresh service refuses `getService`, with either message depending on whether an instance was passed. |
| DataServices.InitThenGetService | src/helpers/DataService.ts:55-67 | After a successful `init`, `getService` returns the service built from the credentials. |
| AuthServices.PlanRefresh | src/helpers/AuthService.ts:80-106 | No user, or no truthy expiry: nothing is scheduled. A delay `expires_at*1000 - now - 300000` below 0 refreshes at once; otherwise a timer of exactly that delay. |
| AuthServices.RefreshTimerLeadsToRefreshNow | src/helpers/AuthService.ts:95-106 | When the refresh timer fires late, the next pass refreshes at once. When it fires on time, the next pass schedules a zero delay. |
| AuthServices.ExpiredTokenExhaustsStack | src/helpers/AuthService.ts:98-101 | As written, a token inside the refresh buffer makes `setupTokenRefresh` and `refreshToken` call each other until any finite stack is exhausted. |
| AuthServices.SetupAsWrittenSchedules | src/helpers/AuthService.ts:103-106 | As written, a token outside the buffer settles with one timer of the planned delay and no event. |
| AuthServices.AuthService.StepTokenRefresh | src/helpers/AuthService.ts:80-106 | One pass of the set-up: with a user, the previous timer is cancelled, then a one-shot timer is armed for the planned delay. Reports whether an immediate refresh is due. |
| AuthServices.AuthService.SetupTokenRefresh | src/helpers/AuthService.ts:80-107 | Corrected set-up: a token inside the buffer produces one `tokenRefreshed` event and no timer. Otherwise the timer table is as planned. |
| AuthServices.AuthService.RefreshToken | src/helpers/AuthService.ts:118-140 | Corrected refresh: with a user, one set-up pass and exactly one `tokenRefreshed` event. Without a user, nothing happens. |
| AuthServices.AuthService.constructor | src/helpers/AuthService.ts:29-36 | No user, no timers, and a 30-minute timeout. |
| AuthServices.AuthService.SetupSessionTimeout | src/helpers/AuthService.ts:145-150 | A fresh interval of 60000 ms running the idle check is armed, and its handle kept. |
| AuthServices.AuthService.UpdateActivity | src/helpers/AuthService.ts:179-183 | The decimal text of `now` is stored under `cms_last_activity`; nothing else changes. |
| AuthServices.LastActivityOf | src/helpers/AuthService.ts:188-191 | The stored activity time is used iff the stored text is non-empty and parses to a non-zero integer. |
| AuthServices.StoredActivityReadsBack | src/helpers/AuthService.ts:182-190 | A positive time written by `updateActivity` reads back as that time. |
| AuthServices.TimeoutCallbacks | src/helpers/AuthService.ts:162-173 | The warning is called iff 5·idle > 4·timeout and it is registered. Logout is called iff idle > timeout and it is registered. The warning comes first. |
| AuthServices.LogoutComesWithWarning | src/helpers/AuthService.ts:166-173 | With both callbacks registered, a check that logs out also warns first. |
| AuthServices.AuthService.CheckSessionTimeout | src/helpers/AuthService.ts:155-174 | With no usable last activity, only the activity is recorded and no callback runs. Otherwise exactly the callbacks `TimeoutCallbacks` gives are called, in order. |
| AuthServices.ThrottleStep | src/helpers/AuthService.ts:202-208 | An event records iff `now - lastUpdate > 5000`, and then `lastUpdate` becomes `now`. |
| AuthServices.RecordedTimesSpaced | src/helpers/AuthService.ts:202-208 | Over any run of events, recorded times are event times, and any two consecutive records are more than 5000 ms apart. |
| AuthServices.AnyRecordsSnoc | src/helpers/AuthService.ts:211-213 | A record happens among the first i+1 listener sets iff it happens among the first i or in set i. |
| AuthServices.ThrottleAll | src/helpers/AuthService.ts:202-213 | After an event, each listener set's `lastUpdate` is its own throttle step's result. |
| AuthServices.AuthService.AddActivityListeners | src/helpers/AuthService.ts:196-214 | One throttled listener set with `lastUpdate` 0 is added on mousedown, keypress, scroll, mousemove and touchstart. |
| AuthServices.AuthService.Activity | src/helpers/AuthService.ts:202-213 | A watched event updates every listener set's throttle. The activity time is stored iff some set records. Other events change nothing. |
| AuthServices.AuthService.RunThrottles | src/helpers/AuthService.ts:202-208 | Running the throttle of each listener set in turn gives `ThrottleAll`. It stores `now` iff some set records. |
| AuthServices.AuthService.Initialize | src/helpers/AuthService.ts:55-75 | Keeps the user and both callbacks and records activity now. The timer table afterwards is exactly: the old table, less any truthy old refresh timer, plus a one-shot refresh timer when the refresh point lies ahead, plus one new one-minute idle interval under a fresh handle. The refresh set-up is the corrected one of "## Findings": one `tokenRefreshed` event goes out iff the refresh point has passed, where the code as written recurses until the stack is exhausted. One listener set is added. |
| AuthServices.AuthService.FireTimer | src/helpers/AuthService.ts:104-106 | A firing refresh timeout (and, at lines 147-149, a firing idle interval) first leaves the timer table as `Fired` says: a one-shot timer is removed and an interval kept. A refresh then runs the corrected `refreshToken` of "## Findings": it re-plans and rearms the refresh timer, and emits `tokenRefreshed` iff there is a user, where the code as written recurses until the stack is exhausted once the timeout fires late. An idle check then records activity or invokes the callbacks the idle time calls for. An unknown handle changes nothing. |
| AuthServices.FireOneShotOnce | src/helpers/AuthService.ts:104-106 | A one-shot refresh timeout fires at most once: afterwards its handle is gone from the timer table, even when the refresh arms the next timeout. |
| AuthServices.AuthService.Cleanup | src/helpers/AuthService.ts:219-237 | Both timers are cancelled and nulled, both session keys removed and the user cleared. The listeners stay. |
| AuthServices.AuthService.CancelTimers | src/helpers/AuthService.ts:220-229 | Each truthy timer handle has its timer cancelled, then both handles are nulled. Storage and the user are untouched. |
| AuthServices.Cancelled | src/helpers/AuthService.ts:221-229 | A truthy handle's timer is gone and every other timer stays. |
| AuthServices.DecodeStoredToken | src/helpers/AuthService.ts:261-272 | A missing or empty entry reads as null. Otherwise the result is `atob` of it, or null when `atob` throws. |
| AuthServices.StoredTokenRoundTrip | src/helpers/AuthService.ts:252-272 | `btoa` accepts a value iff it is Latin-1. An accepted non-empty value reads back unchanged, and the empty value reads back as null. |
| AuthServices.SecurelyStoreToken | src/helpers/AuthService.ts:252-256 | Stores `btoa(value)` under the name. A character above U+00FF throws `InvalidCharacterError` and stores nothing. |
| AuthServices.RetrieveSecureToken | src/helpers/AuthService.ts:261-272 | An absent name gives null. A present non-empty entry gives `atob` of it. |
| AuthServices.ClearSecureTokens | src/helpers/AuthService.ts:277-279 | All of session storage is emptied. |
| AuthServices.StoreThenRetrieve | src/helpers/AuthService.ts:252-272 | Retrieving after storing a Latin-1 value returns it, or null for the empty value. |
| AuthServices.AuthService.StoreToken | src/helpers/AuthService.ts:285-287 | The instance form stores exactly as the static one does. It succeeds iff the value is Latin-1, and otherwise fails with `InvalidCharacterError` and stores nothing. Timers, events and listeners are untouched. |
| AuthServices.AuthService.RetrieveToken | src/helpers/AuthService.ts:293-295 | The instance form reads exactly as the static one does. A missing name gives null, and a non-empty stored value gives its `atob` decoding. |
| AuthServices.AuthService.ClearTokens | src/helpers/AuthService.ts:301-303 | The instance form empties session storage. Timers, events and listeners are untouched. |
| AuthServices.Registry.GetInstance | src/helpers/AuthService.ts:42-47 | The first call creates the instance. Every later call returns that same instance. |
| AuthServices.GetInstanceTwice | src/helpers/AuthService.ts:42-47 | Two calls of `getInstance` return the same object. |
| Base64.AtobBtoa | src/helpers/AuthService.ts:254-267 | `btoa` rejects exactly the non-Latin-1 strings, and `atob(btoa(s)) == s` for the rest. |
| Strings.DecimalRoundTrip | src/helpers/AuthService.ts:182-190 | `parseInt(n.toString(), 10) == n` for every natural n. |
| CatalogModals.SubmitCatalogChecks | src/components/CatalogModal.tsx:64-85 | Checks run in order: blank title, then blank description, then empty image key, each with its message. An accepted entry has the trimmed title and description, the key as is, and the initial catalog's id, published flag and creation time, else `''`, false and now. |
| CatalogModals.SubmittedFieldsTrimmed | src/components/CatalogModal.tsx:78-82 | An accepted entry's title and description are non-empty and already trimmed. |
| CatalogModals.CatalogModal.OpenEffect | src/components/CatalogModal.tsx:43-62 | Opening on a catalog copies title, description and key. The image URL is `cleanURL(media host, key)` for a non-empty key, else empty. Opening without one clears all four. Both clear the error; a closed dialog changes nothing. |
| CatalogModals.CatalogModal.HandleSave | src/components/CatalogModal.tsx:64-89 | A refused form shows its message and calls nothing. An accepted one clears the error and calls `onSave` once with the entry. |
| CatalogModals.CatalogModal.OpenImagePicker | src/components/CatalogModal.tsx:156 | The image picker opens. |
| CatalogModals.CatalogModal.HandleImageSelect | src/components/CatalogModal.tsx:91-95 | The chosen URL and key are kept and the picker closes. |
| CatalogManagers.ShortDescription | src/components/CatalogManager.tsx:147-149 | Descriptions over 100 characters show their first 100 and `...`; others show whole. |
| CatalogManagers.ShortDescriptionBounds | src/components/CatalogManager.tsx:147-149 | The preview has at most 103 characters, agrees with the description on its first characters, and is its own preview. |
| CatalogManagers.CatalogManager.LoadBegin | src/components/CatalogManager.tsx:38-42 | Loading starts, the error is cleared and one listing request is sent. |
| CatalogManagers.CatalogManager.LoadSettled | src/components/CatalogManager.tsx:42-49 | The list is replaced, or "Failed to load catalogs: " + message is shown. Loading ends either way. |
| CatalogManagers.CatalogManager.Load | src/components/CatalogManager.tsx:38-53 | A whole load: one listing request, then the listed catalogs or the load error, and not loading. |
| CatalogManagers.CatalogManager.HandleCreateCatalog | src/components/CatalogManager.tsx:55-58 | Create clears the selection and opens the dialog. |
| CatalogManagers.CatalogManager.HandleEditCatalog | src/components/CatalogManager.tsx:60-63 | Edit selects the catalog and opens the dialog. |
| CatalogManagers.CatalogManager.PublishBegin | src/components/CatalogManager.tsx:65-67 | `publishingId` becomes the catalog's id, which disables its publish button. One publish request goes to the preview endpoint. |
| CatalogManagers.CatalogManager.PublishSettled | src/components/CatalogManager.tsx:67-76 | Success reloads the list. Failure shows "Failed to publish catalog: " + message. `publishingId` is null afterwards either way, so every publish button is then disabled exactly while loading or for a published catalog. |
| CatalogManagers.CatalogManager.PublishDisabled | src/components/CatalogManager.tsx:181 | A published catalog's button is always disabled, and so is the button of the catalog being published. With nothing loading or publishing, the button is enabled exactly for unpublished catalogs. |
| CatalogManagers.CatalogManager.SaveBegin | src/components/CatalogManager.tsx:78-88 | With a selection, the catalog is sent as an update with published false, never as a creation. Without one, it is sent as a creation. Loading starts. |
| CatalogManagers.CatalogManager.SaveSettled | src/components/CatalogManager.tsx:88-96 | Success closes the dialog, then reloads. Failure shows "Failed to save catalog: " + message and keeps the dialog. Loading is false at the end in every outcome. |
| CatalogManagers.EditAndSave | src/components/CatalogManager.tsx:60-96 | Editing and saving sends one draft update, then one listing. It ends with the dialog closed, not loading, no error, and the listed catalogs shown. |
| CatalogSelectModals.PublishedOnly | src/components/CatalogSelectModal.tsx:47-50 | Exactly the published catalogs of the listing are kept. |
| CatalogSelectModals.PublishedOnlyAppend | src/components/CatalogSelectModal.tsx:49 | Filtering distributes over concatenation, so the listing's order is kept. |
| CatalogSelectModals.PublishedOnlyIsSubsequence | src/components/CatalogSelectModal.tsx:49 | The filtered list is a subsequence of the listing. |
| CatalogSelectModals.PublishedOnlyKeepsPublished | src/components/CatalogSelectModal.tsx:49 | A list of published catalogs is unchanged by the filter. |
| CatalogSelectModals.PublishedOnlyIdempotent | src/components/CatalogSelectModal.tsx:49 | Filtering twice is filtering once. |
| CatalogSelectModals.FindById | src/components/CatalogSelectModal.tsx:73 | `find` returns the first catalog with the id, and nothing iff none has it. |
| CatalogSelectModals.CatalogSelectModal.OpenEffect | src/components/CatalogSelectModal.tsx:43-46 | Opening starts a load: loading, error cleared, one listing request. A closed picker does nothing. |
| CatalogSelectModals.CatalogSelectModal.LoadSettled | src/components/CatalogSelectModal.tsx:46-58 | Success lists the published catalogs in order and clears the mark. Failure shows "Failed to load catalogs: " + message. Loading ends either way, and only published catalogs are ever listed. |
| CatalogSelectModals.CatalogSelectModal.Mark | src/components/CatalogSelectModal.tsx:104 | A click marks the catalog's id. |
| CatalogSelectModals.CatalogSelectModal.HandleSelect | src/components/CatalogSelectModal.tsx:67-77 | With nothing marked: "Please select a catalog" and no `onSelect`. Otherwise `onSelect` gets the id and title of the first listed match, and nothing happens without a match. |
| CatalogSelectModals.CatalogSelectModal.SelectDisabled | src/components/CatalogSelectModal.tsx:151 | `Select` is disabled whenever nothing is marked (the case `handleSelect` refuses). An enabled button means a non-empty id is marked and nothing is loading. |
| CatalogSelectModals.ListMarkSelect | src/components/CatalogSelectModal.tsx:43-77 | Loading, marking a listed published catalog and selecting hands over one published catalog with that id. |
| SavePostModals.CheckPostOrder | src/editor/SavePostModal.tsx:15-25 | The title is checked before the author, each with its message. An accepted form is both fields trimmed. |
| SavePostModals.SavePostModal.HandleSave | src/editor/SavePostModal.tsx:15-28 | A refused save shows its message and keeps both fields. An accepted one clears the error, calls `onSave` once with trimmed values, and empties both fields. |
| SavePostModals.SavePostModal.HandleClose | src/editor/SavePostModal.tsx:30-35 | Title, author and error are reset, then `onClose` is called. |
| SavePostModals.SavePostModal.Edit | src/editor/SavePostModal.tsx:11-12 | The text fields set title and author. |
| SavePostModals.BlankTitleRefused | src/editor/SavePostModal.tsx:16-19 | A white-space-only title is refused whatever the author, and nothing is saved. |
| HyperlinkModals.WithScheme | src/editor/HyperlinkModal.tsx:45-48 | A URL starting with `http://` or `https://`, in any case, is unchanged. Any other gets `https://` in front. |
| HyperlinkModals.WithSchemeIdempotent | src/editor/HyperlinkModal.tsx:45-48 | Every result has a scheme, so applying the prefixing again changes nothing. |
| HyperlinkModals.SaveLinkCases | src/editor/HyperlinkModal.tsx:36-61 | A blank URL gives "URL is required." first. A parse error gives "Please enter a valid URL.: " + message. Otherwise the link is the prefixed URL, with the trimmed text or, when that is blank, the URL as text. |
| HyperlinkModals.HyperlinkModal.HandleSave | src/editor/HyperlinkModal.tsx:36-64 | A refused save shows its message and keeps the form. An accepted one calls `onSave` once and resets url, text and error. |
| HyperlinkModals.HyperlinkModal.OpenEffect | src/editor/HyperlinkModal.tsx:28-34 | Opening copies the initial URL and text and clears the error. |
| HyperlinkModals.HyperlinkModal.HandleRemove | src/editor/HyperlinkModal.tsx:71-76 | Without `onRemove` nothing happens. With it, it is called once and the form is reset. |
| HyperlinkModals.HyperlinkModal.HandleClose | src/editor/HyperlinkModal.tsx:66-69 | The form is reset and `onClose` is called. |
| HyperlinkModals.HyperlinkModal.ResetForm | src/editor/HyperlinkModal.tsx:78-82 | url, text and error become empty. |
| HyperlinkModals.HyperlinkModal.Edit | src/editor/HyperlinkModal.tsx:23-24 | The text fields set url and text. |
| HyperlinkModals.BareHostLink | src/editor/HyperlinkModal.tsx:37-55 | `example.com` with blank text passes the checks as `https://example.com`, which is also its text. |
| HyperlinkModals.SaveBareHost | src/editor/HyperlinkModal.tsx:45-58 | `example.com` with blank text is saved as `https://example.com`, with that as its text. |
| SelectImageModals.ImageKeys | src/editor/SelectImageModal.tsx:41 | Exactly the keys ending, in any case, in .jpg/.jpeg/.png/.gif/.webp/.svg are kept. |
| SelectImageModals.ImageKeysIsSubsequence | src/editor/SelectImageModal.tsx:41 | The kept keys are in listing order: a subsequence of the listing. |
| SelectImageModals.ImageKeysKeepsImages | src/editor/SelectImageModal.tsx:41 | A list of image keys is unchanged by the filter. |
| SelectImageModals.ImageKeysIdempotent | src/editor/SelectImageModal.tsx:41 | Filtering twice equals filtering once. |
| SelectImageModals.ImageKeyExamples | src/editor/SelectImageModal.tsx:41 | An upper-case `.JPG` key is an image; a `.txt` key is not. |
| SelectImageModals.SelectImageModal.constructor | src/editor/SelectImageModal.tsx:14-19 | Width and height start at 300 and 200, with nothing listed or marked. |
| SelectImageModals.SelectImageModal.OpenEffect | src/editor/SelectImageModal.tsx:34-39 | Opening sets loading, clears the error and sends one listing request. A closed picker lists nothing. |
| SelectImageModals.SelectImageModal.ListingSettled | src/editor/SelectImageModal.tsx:40-47 | Success lists the image keys. Failure stores the message. Loading is false either way. |
| SelectImageModals.SelectImageModal.Mark | src/editor/SelectImageModal.tsx:60 | A click marks the key. |
| SelectImageModals.SelectImageModal.SetSize | src/editor/SelectImageModal.tsx:26-28 | The size fields, or a loaded image's natural size, set width and height. |
| SelectImageModals.SelectImageModal.Select | src/editor/SelectImageModal.tsx:79 | Only with a non-empty key marked: `onSelect(media host + "/" + key, key, width, height)`. Otherwise nothing. |
| GenerateImageModals.GenerateImageModal.constructor | src/editor/GenerateImageModal.tsx:18-20 | The size starts at `512x512`, the first option. |
| GenerateImageModals.GenerateImageModal.HandleGenerate | src/editor/GenerateImageModal.tsx:22-29 | A blank prompt gives "Prompt is required." and nothing is generated. Otherwise the error is cleared and `onGenerate` gets the untrimmed prompt and the size. |
| GenerateImageModals.GenerateImageModal.SetSize | src/editor/GenerateImageModal.tsx:11-15 | The size menu sets one of the three options, and every size ever requested is an option. |
| GenerateImageModals.GenerateImageModal.SetPrompt | src/editor/GenerateImageModal.tsx:18 | The prompt field sets the prompt. |
| GenerateImageModals.SizesDistinct | src/editor/GenerateImageModal.tsx:11-15 | The options are exactly three distinct values. |
| SessionTimeoutDialogs.SessionTimeoutDialog.constructor | src/components/SessionTimeoutDialog.tsx:27-55 | `timeLeft` starts at `remainingTime` (60 by default). An open dialog with no time left logs out at mount. |
| SessionTimeoutDialogs.SessionTimeoutDialog.CountdownEffect | src/components/SessionTimeoutDialog.tsx:39-55 | A closed dialog does nothing. Open with `timeLeft` ≤ 0: `onLogout` once and no interval. Otherwise an interval runs. |
| SessionTimeoutDialogs.SessionTimeoutDialog.SetOpen | src/components/SessionTimeoutDialog.tsx:32-55 | Opening resets `timeLeft` to `remainingTime` and runs the countdown iff it is positive. The stale `timeLeft` is checked first. Closing stops the interval. |
| SessionTimeoutDialogs.SessionTimeoutDialog.Tick | src/components/SessionTimeoutDialog.tsx:49-51 | Each tick lowers `timeLeft` by exactly 1. It logs out when that reaches 0, and then no interval remains. |
| SessionTimeoutDialogs.SessionTimeoutDialog.RunOut | src/components/SessionTimeoutDialog.tsx:43-51 | A running countdown ends after exactly `timeLeft` ticks, with one `onLogout`. |
| SessionTimeoutDialogs.CountdownFrom | src/components/SessionTimeoutDialog.tsx:27-51 | Opened with n ≥ 0 and never closed, `onLogout` is reached after exactly n ticks. |
| SessionTimeoutDialogs.ReopenAfterRunOut | src/components/SessionTimeoutDialog.tsx:32-46 | Reopening after the countdown ran out calls `onLogout` a second time before the new countdown starts. |
| NotificationContexts.NotificationProvider.ShowNotification | src/context/NotificationContext.tsx:29-32 | Stores the message, severity (default info) and duration (default 3000), and opens. |
| NotificationContexts.NotificationProvider.CloseNotification | src/context/NotificationContext.tsx:34-36 | Closes and keeps the stored notification. |
| NotificationContexts.NotificationProvider.HandleClose | src/context/NotificationContext.tsx:38-43 | Reason `clickaway` changes nothing. Any other reason, or none, closes. |
| NotificationContexts.UseNotification | src/context/NotificationContext.tsx:70-75 | Outside a provider: "useNotification must be used within a NotificationProvider". Inside one, the provider's context. |
| NotificationContexts.ShowCloseShow | src/context/NotificationContext.tsx:29-43 | A click-away keeps the notification shown. After closing, a new notification with defaults replaces it. |
| DataBuses.Without | src/components/Auth.tsx:130-132 | The listener is gone, and every other listener keeps exactly its number of entries; the result is shorter by the removed listener's entries. |
| DataBuses.WithoutAppend | src/components/Auth.tsx:130-132 | `filter` works entry by entry: filtering a concatenation is concatenating the filtered parts, so every other entry stays in place. |
| DataBuses.WithoutIsSubsequence | src/components/Auth.tsx:130-132 | Removal keeps the remaining listeners in order. |
| DataBuses.WithoutAbsent | src/components/Auth.tsx:130-132 | Removing an absent listener leaves the list unchanged. |
| DataBuses.WithoutTwice | src/components/Auth.tsx:130-132 | Removing twice is removing once. |
| DataBuses.DataBus.AddListener | src/components/Auth.tsx:126-128 | The listener is appended at the end; nothing else changes. |
| DataBuses.DataBus.RemoveListener | src/components/Auth.tsx:130-132 | Every occurrence is removed, and the rest stay in order, each repeated entry included (by `Without`, `WithoutAppend` and `WithoutIsSubsequence`). |
| DataBuses.DataBus.Notify | src/components/Auth.tsx:134-137 | Each registered entry is called once, in list order, with the same event and object. |
| DataBuses.Deliveries | src/components/Auth.tsx:134-137 | One delivery per list entry, in order, each with the event and the object. |
| AuthViews.LogoutUrl | src/components/Auth.tsx:45-50 | The logout URL is `https://` + domain + `/logout?client_id=` + client id + `&logout_uri=`, then the percent-encoded sign-out URI, which contains no `&` or `#`. |
| AuthViews.LogoutUrlPlainRedirect | src/components/Auth.tsx:49 | A redirect of unreserved characters appears unchanged. |
| UriEncoding.EncodeURIComponent | src/components/Auth.tsx:49 | The encoding uses only unreserved characters, `%` and upper-case hex digits. It never holds `&`, `=`, `#`, `?` or `/`, and is at least as long as the input. |
| AuthViews.AuthView.InitEffect | src/components/Auth.tsx:53-61 | Only a successful `init` marks the user authenticated and keeps the token and user name. A rejected one changes nothing. |
| AuthViews.AuthView.Render | src/components/Auth.tsx:104-115 | The editor is rendered iff authenticated, and only with the ready, initialised service. |
| AuthViews.AuthView.SignOutRedirect | src/components/Auth.tsx:45-50 | `removeUser` is called once and the browser goes to the logout URL. The rest of the component state is unchanged. |
| AuthViews.AuthView.HandleTemplateClose | src/components/Auth.tsx:94-98 | The choice is kept, the picker closes, and `new-template` with the lower-cased value goes to every bus listener. The rest of the component state is unchanged. |

## Left out

- Lexical and React plumbing are not modelled: `createDOM`, `updateDOM`, `decorate`, rendering, the toolbar, table and editor plugins, and the theme and configuration files.
- The cloud services are not modelled: the S3 calls of `AWSCMSCrudSvc.ts` and the Cognito requests of `DataService.init`. How a request settles is a parameter.
- The source shows no implementation of catalog publishing or content lifecycle, so `publishCatalog` and the other catalog calls are requests that succeed or fail.
- The browser's `new URL` parser in `HyperlinkModal.handleSave` is replaced by its verdict, passed as a parameter.
- The browser's loading of an image's natural size is replaced by a `SetSize` call with the loaded size.
- ImageNodes.ImageNode.ExportDOM: sizes are whole numbers written in decimal. JavaScript's `String(n)` switches to exponent form from 1e21 on and also prints fractions, and neither case is modelled. The browser's rejection of a negative `Npx` style is modelled as the style being unset; the assignment itself is not recorded.
- The floating-point `progressPercentage` of the session dialog is not modelled.
- The `console` logging is not modelled.
- Concurrent handlers are not interleaved. Each asynchronous step settles in the order the methods are called.
- React's batching and the identity of callback props across renders are not modelled.
- `Date.now()` is taken to be the same throughout one synchronous run.
- Lengths are counted in Unicode scalar values, not UTF-16 code units. `substring(0, 100)` and `.length` therefore differ from the browser on characters outside the Basic Multilingual Plane.
- Image sizes are integers; fractional pixel sizes are not modelled.
- `HandleTemplateClose` lower-cases ASCII letters only, where `toLowerCase` also folds other scripts.
- The Lexical key generation for a node without a key is not modelled. A node without one has `key == None`.
- AuthServices.AuthService.Initialize: uses the corrected refresh set-up, so it does not promise the code-as-written stack exhaustion for a token inside the refresh buffer; `ExpiredTokenExhaustsStack` covers that.
- AuthServices.AuthService.FireTimer: a firing refresh timeout runs the corrected `refreshToken`, so it does not promise the code-as-written stack exhaustion a late timeout causes; `ExpiredTokenExhaustsStack` and `RefreshTimerLeadsToRefreshNow` cover that.
- As written, `refreshToken` catches the error the exhausted call stack raises, then calls the logout callback and dispatches events while unwinding. The model stops at the exhaustion and does not model what follows it.
- `cleanup` does not remove the activity listeners, and the model keeps them too. `setupSessionTimeout` called twice leaves the first interval running, as the source does.
- The `mousemove` handlers' removal in `ImageComponent` is modelled as removing all drag listeners on `mouseup`, which is what each pair does to itself.
- Listener functions on `DataBus` are identities. What a listener does when called, including changing the list during `notify`, is not modelled.
- `SessionTimeoutDialogs.SessionTimeoutDialog.SetOpen`: `remainingTime` is fixed for the life of the dialog. A change of that prop while open is not modelled.

## Findings

| source | as written | input that shows it | evidently intended | confidence | as-written member | corrected member |
|---|---|---|---|---|---|---|
| src/helpers/AuthService.ts:98-101, 126 | When the refresh point has passed, `setupTokenRefresh` calls `refreshToken`, which has no `await` before calling `setupTokenRefresh` again. The two recurse synchronously with the same user until the call stack is exhausted. | A user whose `expires_at` is less than five minutes after `now`. Such a user is also reached whenever the refresh timer fires late. | One immediate refresh, one `tokenRefreshed` event and no further re-entry. | not executed | AuthServices.ExpiredTokenExhaustsStack | AuthServices.AuthService.SetupTokenRefresh |
