# Better information for tracing: flow controller model

A Dafny model of the flow controller of the "better information for tracing" questionnaire
of the February 2025 apply prototype. A user picks the sections they can tell us about the
other parent (name, date of birth, address, phone number, national insurance number, other
information). The controller turns that selection into an ordered list of pages, the
journey flow. It keeps a step counter in the session and sends the user through the selected
pages one by one, ending on check-your-answers. Every redirect passes a guard that only lets
through same-site paths from a fixed allowlist of ten pages.

Modules, one per concept of `app/routes/better-information.js`:

- `Wrappers` (wrappers.dfy): `Option`, for session fields that may be absent.
- `Redirect` (redirect.dfy): the ten allowlisted paths, the `Response` a handler answers
  with (303 redirect, 400, pass to the next handler, render), the shape test and
  `SafeRedirect`.
- `Flow` (flow.dfy): `redirectMap` in key order, the flow built from the selected sections
  (a pure `FlowOf` and the handler's loop `BuildRequiredJourneyFlow`, proved equal), and
  `NextAllowedPage`.
- `Answers` (answers.dfy): JavaScript's `includes` as a scan with its substring
  characterisation, and the three phrases of the previous-address question.
- `Controller` (controller.dfy): the `Session` class with fields `currentOPStep`,
  `journeyFlow` (op-journey-flow) and `details` (op-details), the step counter and the
  request handlers as methods, and a client method that runs a whole journey.

Session fields are `Option` values. An absent step reads as 0 and an absent flow or
selection as empty, as `?? 0` and `Array.isArray(..) ? .. : []` do in the source.

## Model

| member | source | states |
|---|---|---|
| `Redirect.LowerAscii` | app/routes/better-information.js:38 | ASCII upper-case letters map to their lower-case letter and every other character is left alone; for the all-ASCII pattern `https?:` this agrees with the case-insensitive comparison of the regular expression |
| `Redirect.HasHttpScheme` | app/routes/better-information.js:38 | `/^https?:/i` matches exactly when the text starts with `http:` or `https:`, each letter in either case |
| `Redirect.LooksInternal` | app/routes/better-information.js:35-38 | the shape test passes exactly when the target starts with `/` and its second character, if any, is not `/`: the scheme test never decides anything once the first holds |
| `Redirect.SafeRedirect` | app/routes/better-information.js:29-46 | the guard answers 303 exactly when the target is allowlisted, the redirect goes to the target itself, and every other target gets 400 with "Invalid redirect target" |
| `Redirect.AllowedPathsLookInternal` | app/routes/better-information.js:15-38 | every allowlisted path starts with a single `/` and has no http(s) scheme, so the shape test never rejects one of them |
| `Redirect.SingleSlashShape` | app/routes/better-information.js:35-38 | a target whose first character is `/` and second is not passes the whole shape test |
| `Redirect.SlashExcludesScheme` | app/routes/better-information.js:36-38 | a target starting with `/` never matches `/^https?:/i`: the scheme test is implied by the slash test |
| `Redirect.OffSiteTargetsRejected` | app/routes/better-information.js:34-45 | no open redirect: a target that is not a single-slash, scheme-free path is always answered with 400 |
| `Flow.FlowOf` | app/routes/better-information.js:91-99 | the flow built from a list of map entries has at most one page per entry and holds only allowlisted pages |
| `Flow.RequiredJourneyFlow` | app/routes/better-information.js:91-99 | the flow built for op-details has at most six pages, all of them allowlisted |
| `Flow.BuildRequiredJourneyFlow` | app/routes/better-information.js:90-99 | the handler's loop over the map keys, pushing the page of each selected key whose page is allowlisted, yields exactly the flow `FlowOf` defines |
| `Flow.PositionIn` | app/routes/better-information.js:92 | the position found is the first entry carrying the page, or the end when no entry does |
| `Flow.RedirectMapWellFormed` | app/routes/better-information.js:81-88 | every page of the label map is allowlisted and no two labels share a page |
| `Flow.FlowOfMembership` | app/routes/better-information.js:92-97 | a page is in the built flow exactly when some selected entry with an allowlisted page names it |
| `Flow.RequiredJourneyFlowContents` | app/routes/better-information.js:77-99 | the flow holds the page of a known section exactly when that section is in op-details, and holds nothing else: unknown labels are dropped |
| `Flow.PrefixFlowInCanonicalOrder` | app/routes/better-information.js:92-99 | after walking the first n map keys, the flow's pages rank below n and in strictly increasing map order |
| `Flow.RequiredJourneyFlowOrdered` | app/routes/better-information.js:81-99 | the flow lists pages in the map's key order whatever order they were picked in, never repeats a page, and has at most six pages |
| `Flow.FlowOfDependsOnSelectedSections` | app/routes/better-information.js:92-93 | two selections that agree on which entries' labels they contain build the same flow |
| `Flow.RequiredJourneyFlowDependsOnSections` | app/routes/better-information.js:77-99 | only which known sections were selected matters: order, repeats and unknown labels in op-details do not change the flow |
| `Flow.NextAllowedPage` | app/routes/better-information.js:50-64 | the next page is always allowlisted; it is the flow entry at the step (absent step = 0, absent flow = empty) when that entry exists and is allowlisted, it is check-your-answers when the step is past the end, and any other answer is the entry at the step |
| `Flow.NextAllowedPageWalksFlow` | app/routes/better-information.js:50-64 | for a flow of allowlisted pages, step k resolves to the k-th page while k is inside the flow and to check-your-answers once it runs past the end |
| `Flow.PhoneThenNameExample` | app/routes/better-information.js:81-99 | selecting "Phone number" then "Name" builds the flow name page, phone page |
| `Flow.UnknownLabelExample` | app/routes/better-information.js:92-93 | a selection holding only an unknown label builds the empty flow |
| `Answers.Includes` | app/routes/better-information.js:183 | the scan reports true exactly when the phrase occurs at some position of the answer |
| `Answers.MatchesPreviousAddressOption` | app/routes/better-information.js:175-183 | the answer is accepted exactly when one of the three phrases occurs at some position of it |
| `Answers.OptionPhrasesAccepted` | app/routes/better-information.js:175-183 | each of the three phrases is accepted, also with any text before and after it |
| `Answers.ShortAnswersRejected` | app/routes/better-information.js:181-183 | "something else" and the empty answer (a missing field) are not accepted |
| `Controller.Session.constructor` | app/routes/better-information.js:72 | fresh session data has no step, no flow and no selected sections |
| `Controller.Session.Count` | app/routes/better-information.js:4-11 | the step becomes 0 when it was absent and the old step + 1 otherwise; no other session field changes |
| `Controller.Session.SubmitQuestionList` | app/routes/better-information.js:69-108 | the step becomes 0 whatever it was, op-journey-flow becomes the flow built from op-details, and the redirect goes to its first page, or to check-your-answers when it is empty |
| `Controller.Session.SubmitPage` | app/routes/better-information.js:112-118 | an ordinary page submission (name, date of birth, address, phone, national insurance number, anything else, previous-address replay) advances the step once and always redirects, to the allowlisted page the flow names |
| `Controller.Session.SubmitPreviousAddress` | app/routes/better-information.js:172-193 | when the answer contains one of the three phrases the step advances and the response redirects to the next page; otherwise the response passes to the next handler and the step is unchanged |
| `Controller.Session.GetWelcome` | app/routes/better-information.js:207-215 | step, flow and selected sections are all absent afterwards and the welcome page is rendered, not redirected to |
| `Controller.Session.HandlePost` | app/routes/better-information.js:67-217 | across all registered POST routes no handler answers 400, every redirect is to an allowlisted page, only the previous-address page passes on, and only the question list rewrites the flow |
| `Controller.WalkJourney` | app/routes/better-information.js:69-119 | from a question-list submission building n pages, the question list redirects to the first page (check-your-answers when n is 0), the next n - 1 page submissions redirect to the remaining pages in order, and the n-th to check-your-answers |
| `Controller.NameAndNinoFlow` | app/routes/better-information.js:81-99 | selecting "National Insurance number" then "Name" builds the flow name page, national insurance number page |

## Left out

- The web framework: route registration, `res.status(400).send`, `res.redirect(303, ..)` and
  `res.render` become the `Response` value a handler returns. The registered URL of each
  POST route is named by the `PostRoute` constructor, not by its path string.
- The session middleware: `req.session.data` is the `Session` object. The `if
  (!req.session.data)` initialisations (lines 5 and 72) are the constructor's empty data.
  The prototype kit's storing of form fields into the session is not modelled: a client
  sets `details` directly.
- JavaScript's dynamic typing: the `typeof targetPath !== 'string'` branch of safeRedirect,
  non-string flow entries, `Number(..)` of a non-numeric step (NaN) and
  `String(req.body[..] || '')` of non-string form values. Typed fields take their place:
  the target and flow entries are strings, the step is a `nat`, and the previous-address
  answer is an `Option<string>` whose absence reads as the empty text.
- The handler that runs after `next()` on the previous-address route is not part of this
  model; the model returns `Next` and stops.
- The commented-out diagnostic log line (line 190).
- Concurrent requests on the same session: the source does nothing about them.
- Unicode: strings are sequences of characters. The case-insensitive scheme test folds ASCII
  letters only. That is exact for `/^https?:/i`: the pattern is all ASCII, and a non-unicode
  `/i` regular expression never folds a non-ASCII character onto an ASCII one.
