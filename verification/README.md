# Kokoro clinic website: offline cache and page logic in Dafny

This project models the two scripts of the clinic's static website.

- **The service worker (`sw.js`).**
  - The install handler precaches a fixed manifest of nineteen paths into the cache `kokoro-clinic-v2`.
  - The activate handler deletes every other cache.
  - The fetch handler routes each request to one of three strategies:
    - cache-first for Google Fonts URLs, with a synthetic 408 response when offline;
    - network-first for requests that accept `text/html`, falling back to the stored copy and then to `/404.html`;
    - cache-first for every other GET.
  - Cache Storage is the state of `OfflineCache.Worker`. It holds the list of cache names in creation order, which is the order `caches.match` searches them, and a map from each name to its URL-to-response store. The network is an input: each fetch event receives the result the network would give, and install receives a function from URL to result.
- **The page script (`js/main.js`).**
  - `escapeHtml` (module `HtmlEscape`), with a decoder used as its partner to show that escaping loses nothing.
  - `getClinicStatus` (module `ClinicHours`). The weekday and the minute of the day are parameters instead of reading the clock.
  - The contact form's submit handler (module `ContactForm`). It is modelled two ways:
    - the pure step function `SubmitStep` over the closure state `(isSubmitting, submitCount, lastSubmitTime)`, replayed over sequences of events to prove the latch and rate-limit properties;
    - the class `FormGuard`, whose `Submit` method updates those fields in place and is proved equal to the step function. Its validation loop over the required fields is the method `ValidateRequired`.
  - The three regular expressions of the handler are written out as predicates:
    - `^[^\s@]+@[^\s@]+\.[^\s@]+$` (e-mail);
    - `^[\d\-\+\(\)\s]{10,15}$` (telephone);
    - `<script|javascript:|on\w+\s*=` with the `i` flag (script injection).
  - `String.prototype.trim` and `\s` share the ECMAScript white-space set, in module `Text`.
  - Two small page decisions (module `PageEffects`): the stagger delay of fade-in siblings, and which link clicks skip the page-transition animation.

In these details the model follows the code:

- **Font routing is a substring test.** The font rule tests whether the whole URL contains `fonts.googleapis.com` or `fonts.gstatic.com`. It does not compare the host, so a query string mentioning a font host also routes to cache-first (`FontHostWins`).
- **`caches.match` searches every cache**, not only the current one. It returns the first hit in creation order.
- **Font and asset responses are stored only when `response.ok`.** A fetched 404 is returned but not stored. HTML responses are stored whatever their status.
- **The HTML store is not awaited.** The code does not wait for the store: it starts the write and returns the response at once. The model applies the write within the same fetch event.
- **A request can go unanswered.** An HTML request that fails on the network, with neither its own URL nor `/404.html` cached, resolves with `undefined` (`RespondUndefined`). An asset miss with the network down rejects (`Rejected`). Both are network errors for the page.

## Model

| member | source | states |
|---|---|---|
| OfflineCache.Route | sw.js:62-108 | Each request gets exactly one strategy, first match wins: non-GET passes through; a GET whose URL contains a font host is font cache-first; other GETs whose Accept header contains text/html are network-first; everything else is asset cache-first (each an if-and-only-if) |
| OfflineCache.IsFontUrl | sw.js:67-68 | A URL is a font URL when it contains fonts.googleapis.com or fonts.gstatic.com anywhere |
| OfflineCache.AcceptsHtml | sw.js:89-90 | The Accept header is present, non-empty and contains text/html |
| OfflineCache.FontHostWins | sw.js:67-68 | A GET whose URL has a font host anywhere in it is served font cache-first, whatever its Accept header |
| OfflineCache.HtmlAcceptGoesToNetwork | sw.js:89-90 | A non-font GET whose Accept header contains text/html goes network-first |
| OfflineCache.MatchIn | sw.js:70-71 | caches.match misses exactly when no cache holds the URL; a hit is the entry of the first cache, in creation order, that holds it |
| OfflineCache.MatchSoleHolder | sw.js:99-100 | When exactly one cache holds the URL, caches.match returns that cache's entry |
| OfflineCache.Without | sw.js:49-51 | The names kept by the activate filter are exactly those other than the given one; no name is repeated and the list does not grow |
| OfflineCache.AddAll | sw.js:37 | cache.addAll stores something only when every URL is fetched with an ok response; it then holds exactly the manifest URLs, each with its own response |
| OfflineCache.PrecacheBatch | sw.js:36-37 | addAll over the manifest succeeds exactly when every manifest path is fetched ok, and then holds each path's response |
| OfflineCache.OfflinePageIsPrecached | sw.js:8-31 | The offline page /404.html is one of the precached paths |
| OfflineCache.PutThenMatch | sw.js:92-101 | Opening a cache and storing a response for a URL that no other cache holds makes caches.match return that response |
| OfflineCache.MissThenPutHits | sw.js:70-79 | A caches.match miss followed by a store makes the next lookup a hit for the stored response |
| OfflineCache.Worker.Open | sw.js:36 | caches.open creates an empty cache at the end of the order when the name is new, and changes nothing otherwise |
| OfflineCache.Worker.Put | sw.js:75-77 | cache.put on an opened cache overwrites the URL's entry and touches no other entry or cache |
| OfflineCache.Worker.Delete | sw.js:52 | caches.delete removes the name from the order and its store from the map, and reports whether it existed |
| OfflineCache.Worker.Install | sw.js:34-42 | The cache is always opened; install succeeds exactly when every manifest URL is fetched ok; then every manifest URL has its fetched response in kokoro-clinic-v2; on failure the cache holds what it held before |
| OfflineCache.Worker.Activate | sw.js:45-59 | After activation no cache other than kokoro-clinic-v2 remains; that cache, if present, keeps its contents; the order is just that name or empty |
| OfflineCache.Worker.HandleFetch | sw.js:62-122 | Per route: non-GET changes nothing; a cache-first hit returns the entry and changes nothing; a cache-first miss returns the network response and stores it only when ok; offline, fonts get a 408 "Offline" response and other assets a rejection; network-first returns and stores any response; offline, it returns the stored page, else the stored /404.html, else undefined, and changes nothing |
| OfflineCache.Worker.OnlineThenOffline | sw.js:92-101 | An HTML page fetched online is served from the cache, with the same response, when the network then fails, provided no cache other than kokoro-clinic-v2 holds that URL (otherwise caches.match may return an older cache's copy first) |
| OfflineCache.Worker.RepeatCacheFirst | sw.js:109-118 | A cache-first request that was a hit, or a miss answered ok, is answered the second time with the same response, whatever the network says |
| OfflineCache.Worker.OfflineAfterInstall | sw.js:34-59 | After a successful install and activation, an HTML request that fails on the network gets its own stored copy if there is one, and otherwise the precached /404.html response |
| HtmlEscape.Escape | js/main.js:10-13 | escapeHtml itself: every character replaced by its table entry, left to right (its properties are the lemmas below) |
| HtmlEscape.EscapeChar | js/main.js:11 | Each of & < > " ' becomes an entity that starts with & and ends with ;, and every other character is copied |
| HtmlEscape.EscapeCharNoMarkup | js/main.js:11 | No entity in the table contains < > " or ' |
| HtmlEscape.EscapeRemovesMarkup | js/main.js:10-13 | The output of escapeHtml contains none of < > " ' |
| HtmlEscape.EscapePlainUnchanged | js/main.js:10-13 | Text with none of the five special characters is returned unchanged |
| HtmlEscape.EscapeLength | js/main.js:10-13 | Escaping never shortens the text |
| HtmlEscape.EscapeConcat | js/main.js:11-12 | Escaping works character by character: escaping a + b gives the escape of a followed by the escape of b |
| HtmlEscape.EscapeSingle | js/main.js:11-12 | A one-character string becomes exactly that character's table entry |
| HtmlEscape.UnescapeEscape | js/main.js:10-13 | Decoding the five entities recovers the original text, so escaping is injective |
| ClinicHours.Schedule | js/main.js:831-839 | The weekly table: Sunday closed, Wednesday and Saturday mornings only, Thursday afternoons only, the other days both sessions |
| ClinicHours.Message | js/main.js:845-870 | The message string returned with each status |
| ClinicHours.ClinicStatus | js/main.js:817-871 | Every weekday and minute gets exactly one status. Holiday exactly on Sunday. Open (morning) exactly on Mon, Tue, Wed, Fri, Sat from 9:00 to 13:00. Open (afternoon) exactly on Mon, Tue, Thu, Fri from 15:00 to 19:00. Break exactly on Mon, Tue, Fri from 13:00 to 15:00. Closed exactly on non-Sundays from 19:00. Before in every other case, including Thursday before 15:00 and Wednesday and Saturday between 13:00 and 19:00 |
| ClinicHours.StatusName | js/main.js:845-870 | The status string of the returned record; both sessions give 'open' |
| ClinicHours.MessagesDistinct | js/main.js:845-870 | Different statuses carry different messages |
| Text.Trim | js/main.js:328 | trim() removes only leading and trailing white space: the result is a contiguous piece of the value, everything outside it is white space, it neither starts nor ends with white space, and it is empty exactly when the value is all white space |
| ContactForm.EmailPattern | js/main.js:351 | The e-mail regular expression: three non-empty runs without white space or @, joined by one @ and then a dot |
| ContactForm.TelPattern | js/main.js:361 | The telephone regular expression: 10 to 15 characters, each a digit, - + ( ) or white space |
| ContactForm.DangerousPattern | js/main.js:370 | The script-injection regular expression, searched anywhere, with ASCII case folding: <script, javascript:, or on followed by word characters, optional white space and = |
| ContactForm.FieldValid | js/main.js:328-375 | A required checkbox passes when checked; any other field passes when its trimmed value is non-empty, matches the e-mail or telephone pattern for those types, and does not trip the script pattern |
| ContactForm.HoneypotFilled | js/main.js:379-380 | The honeypot input exists and holds a non-empty value |
| ContactForm.EmailShape | js/main.js:351 | An address the e-mail pattern accepts has no white space and exactly one @, which is neither its first nor its last character |
| ContactForm.EmailExample | js/main.js:351 | The pattern accepts info@kokoro.jp |
| ContactForm.TelExamples | js/main.js:361 | The telephone pattern accepts 03-1234-5678 and refuses the too-short 03-1234 |
| ContactForm.DangerousExamples | js/main.js:370 | The script pattern ignores case (<SCRIPT>) and allows white space before the = of an event-handler attribute |
| ContactForm.SafeWithoutMarkers | js/main.js:370 | Text without <, : or = never trips the script pattern |
| ContactForm.BlankFieldFails | js/main.js:328-347 | A required non-checkbox field holding only white space fails, because trim() empties it |
| ContactForm.FirstInvalid | js/main.js:335-374 | The recorded field is the first failing one in document order; there is none exactly when every field passes |
| ContactForm.FirstInvalidIsFirst | js/main.js:335-374 | A failing field with only passing fields before it is the one recorded |
| ContactForm.ConsentErrors | js/main.js:336 | Every pushed message is the privacy-consent message |
| ContactForm.ConsentErrorsCount | js/main.js:331-337 | One message is pushed per unchecked required checkbox |
| ContactForm.CheckField | js/main.js:328-375 | Running the callback's checks in its order fails the field exactly when the field is not valid |
| ContactForm.ValidateRequired | js/main.js:319-376 | After the forEach, isValid holds exactly when every required field passes; firstErrorField is the first failing field; errorMessages has the consent message once per unchecked checkbox, in order |
| ContactForm.SubmitStep | js/main.js:294-397 | While submitting, nothing changes. Otherwise the counter grows inside the 60-second window and restarts at 1 outside it. The checks run in order: rate limit (count above 3), then honeypot, then validity. Submission happens exactly when every check passes, and only a submission sets the latch |
| ContactForm.LatchIsPermanent | js/main.js:296-299 | Once isSubmitting is set, every later event is refused and the state never changes |
| ContactForm.AtMostOneSubmission | js/main.js:294-397 | Over any sequence of submit events, the form is submitted at most once |
| ContactForm.WindowAdmitsAtMostThree | js/main.js:303-317 | Within one window, at most three events (counting those already made in it) get past the rate limiter, valid or not |
| ContactForm.InvalidAttemptsCount | js/main.js:303-317 | Three invalid submissions within a minute make a fourth, valid one rate-limited |
| ContactForm.FormGuard.constructor | js/main.js:256-258 | The guard starts unlatched with a zero count and window start |
| ContactForm.FormGuard.Submit | js/main.js:294-397 | One submit event updates the closure state and gives the outcome exactly as SubmitStep does |
| PageEffects.StaggerDelay | js/main.js:170-173 | A delay is set exactly for indices above 0. It is a positive multiple of 150 ms, namely idx steps of 150 ms |
| PageEffects.StaggerIncreases | js/main.js:172 | Later siblings start later, 150 ms per index |
| PageEffects.SkipsTransition | js/main.js:680-686 | The early-return condition of the click handler: missing or empty href, #, tel:, mailto:, http, javascript prefixes, or target _blank |
| PageEffects.ExternalLinksSkip | js/main.js:682-686 | http, https and javascript: links never start the page transition |
| PageEffects.RootRelativeLinksAnimate | js/main.js:682-691 | A root-relative link opened in the same window starts the page transition |

## Left out

- Promise plumbing (`event.waitUntil`, `event.respondWith`) is not modelled. Each handler is one atomic step.
- Interleaving of concurrent fetch events is not modelled, and neither is the un-awaited `cache.put`. Each store happens within the event that starts it.
- `self.skipWaiting()` (sw.js:39) and `self.clients.claim()` (sw.js:56) are left out. They change which pages the worker controls, not the caches.
- The skipWaiting step of install does not run when addAll fails. This ordering is not modelled: `Install` only reports the failure.
- `response.clone()` is modelled as copying the response value. Bodies are plain strings.
- Request matching is by URL only. Vary headers, `ignoreSearch` and URL normalisation are not modelled.
- Manifest paths are resolved by concatenating them onto the origin.
- The Cache API refuses partial (206) responses in `put` and `addAll`; this is not modelled, and `AddAll` accepts any 200-299 response. The rejection of `addAll` on duplicate requests is not modelled either; the manifest has no duplicates.
- The network is an input. A fetch resolves with a response of any status or rejects, and no timing is modelled.
- The DOM side of the submit handler is not modelled:
  - `setFieldError` and `clearFieldError`;
  - focusing the first failing field;
  - the `form-errors` texts;
  - disabling the submit button;
  - `preventDefault`. Every outcome except `Submitted` stands for a prevented submission.
- `errorMessages` is computed by the handler (js/main.js:336) but never read. `ValidateRequired` returns it, and `Submit` drops it as the handler does.
- The honeypot input is `Some(value)` when present and `None` when absent.
- Required fields are records of their type attribute, value and checked flag, in document order.
- The commented-out reCAPTCHA block (js/main.js:405-417) is not modelled.
- `Date.now()` and `new Date()` are parameters: the millisecond time and the (weekday, minute) pair.
- JavaScript strings are UTF-16 code units, while the model's characters are Unicode scalar values. This matters only for characters outside the Basic Multilingual Plane. None of the three patterns treats those characters specially.
- The rest of js/main.js is not part of this model: the menu, the scroll and reveal animations apart from the stagger delay, sliders, cursor and decorative effects.
- PageEffects.StaggerDelay: gives the delay in milliseconds as a number. The `'ms'` string the code builds is not modelled.
