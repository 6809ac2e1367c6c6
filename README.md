# SkillMapper: session gate, speech transcript and blank-answer guard

SkillMapper is a career-advisory web application whose pages forward user
input to a generative-AI service. Almost all of it is rendering and prompt
templates; this project models, in Dafny, the three small pieces of logic
that stand on their own:

- **The session gate** (`src/middleware.ts`). Before every page request that
  the route matcher selects, the middleware reads the `__session` cookie,
  asks `/api/auth/verify` whether it is valid, and then lets the request
  through, redirects it to `/auth/login`, or redirects it to `/dashboard`.
  Module `SessionGate` models the matcher as the regular expression it is
  (with the `.` of `favicon.ico` as a wildcard), `isAuthenticated` with the
  verification round-trip as an oracle on the forwarded `Cookie` header, and
  the decision as a function. The lemmas give the full decision table, show
  that a missing or empty cookie never reaches the verifier, that a redirect
  never loops, and that the verification endpoint itself is never gated.
- **The speech transcript accumulator** (`src/hooks/use-speech-recognition.ts`).
  Class `SpeechRecognition.Recognizer` holds the hook's `transcript` and
  `isListening` state, whether an engine exists, and the log of `start()`
  and `stop()` commands sent to it. Its methods are the hook's operations
  and the engine's `onresult`, `onerror` and `onend` handlers. The loop of
  `onresult` is the method `CollectFinal`, proved against `FinalText`, the
  in-order concatenation of the final results. The object invariant says
  that without an engine nothing ever changes.
- **The blank-answer guard of the feedback flow** (`src/ai/flows/feedback-flow.ts`).
  Module `FeedbackFlow` models `feedbackFlow`: an absent answer, or one that
  ECMAScript's `trim()` reduces to the empty string, gets a fixed message
  without reaching the model; any other answer gets the prompt oracle's
  output unchanged. `trim()` itself is modelled in module `JsText` with the
  WhiteSpace and LineTerminator code points of ECMA-262.

Module `Wrappers` holds the `Option` type used for JavaScript values that
may be `undefined`.

## Model

| member | source | states |
|---|---|---|
| `JsText.Trim` | src/ai/flows/feedback-flow.ts:70 | `trim()` yields "" exactly when every code point is whitespace or a line terminator; a non-empty result starts and ends with a code point that is neither |
| `FeedbackFlow.IsBlank` | src/ai/flows/feedback-flow.ts:70 | `!input.answer?.trim()` holds exactly when the answer is absent or made only of whitespace and line terminators |
| `FeedbackFlow.Feedback` | src/ai/flows/feedback-flow.ts:68-78 | `feedbackFlow`: an absent or all-whitespace answer yields the fixed message; an answer with any other character yields the prompt's output unchanged |
| `FeedbackFlow.BlankAnswerGetsFixedMessage` | src/ai/flows/feedback-flow.ts:70-75 | an absent, empty or whitespace-only answer gets the fixed "It seems you didn't provide an answer…" feedback |
| `FeedbackFlow.BlankAnswerNeverPrompts` | src/ai/flows/feedback-flow.ts:70-76 | for a blank answer the result is the same whatever the prompt oracle would answer: the model is never consulted |
| `FeedbackFlow.AnswerWithTextIsPrompted` | src/ai/flows/feedback-flow.ts:76-77 | an answer holding any non-whitespace code point returns the prompt's output unchanged |
| `SessionGate.IsAuthenticated` | src/middleware.ts:6-19 | `isAuthenticated` is true exactly when a non-empty `__session` cookie is present and the verifier accepts the header `__session=<value>` |
| `SessionGate.Decide` | src/middleware.ts:22-40 | `middleware` passes a request exactly when being on an `/auth` path and being authenticated differ; a redirect goes to `/dashboard` when authenticated and to `/auth/login` otherwise |
| `SessionGate.Gated` | src/middleware.ts:43 | the matcher pattern matched against the whole pathname; no gated path starts with `/api`, `/_next/static` or `/_next/image` |
| `SessionGate.Gate` | src/middleware.ts:22-44 | the whole pipeline: an ungated path passes, and a redirect happens only on a gated path and only to `/auth/login` or `/dashboard` |
| `SessionGate.NoCookieIsUnauthenticated` | src/middleware.ts:7-10 | an absent or empty `__session` cookie makes the request unauthenticated, whatever the verifier would say |
| `SessionGate.CookieAuthenticationIsVerifierAnswer` | src/middleware.ts:12-18 | with a non-empty cookie, authentication is the verifier's answer for the header `__session=<value>`, and depends on nothing else |
| `SessionGate.AuthRouteDecision` | src/middleware.ts:26-33 | on a path starting with `/auth`, an authenticated request is redirected to `/dashboard` and an unauthenticated one passes |
| `SessionGate.ProtectedRouteDecision` | src/middleware.ts:35-39 | on any other path, an unauthenticated request is redirected to `/auth/login` and an authenticated one passes |
| `SessionGate.NoRedirectLoop` | src/middleware.ts:26-39 | every redirect target is a gated path on which the decision, with the same authentication, passes |
| `SessionGate.NoRedirectLoopThroughGate` | src/middleware.ts:22-39 | a request redirected by the whole gate, re-sent to the target with the same cookie and verifier, passes |
| `SessionGate.UngatedPassesWithoutVerifying` | src/middleware.ts:42-44 | a path the matcher does not select passes, whatever the verifier would answer |
| `SessionGate.LiteralMatchesIffPrefix` | src/middleware.ts:43 | a run of literal characters in the lookahead matches exactly the texts it is a prefix of |
| `SessionGate.FaviconIcoMatchesIff` | src/middleware.ts:43 | the alternative `favicon.ico` matches `favicon`, any code point but a line terminator, then `ico` |
| `SessionGate.ExcludedIff` | src/middleware.ts:43 | the negative lookahead rejects exactly the texts starting with `api`, `_next/static`, `_next/image` or that `favicon.ico` pattern |
| `SessionGate.GatedIff` | src/middleware.ts:43 | a path is gated iff it starts with `/`, holds no line terminator, and the rest starts with none of the four excluded alternatives |
| `SessionGate.RedirectTargetsGated` | src/middleware.ts:43 | `/auth/login` and `/dashboard` are gated, and `/api/auth/verify` is not, so the gate's own verification call is never gated |
| `SessionGate.ApiaryUngated` | src/middleware.ts:43 | the prefix test has no word boundary: `/apiary` is ungated |
| `SessionGate.FaviconWildcardUngated` | src/middleware.ts:43 | `/favicon-ico` is ungated like `/favicon.ico`, since `.` is a wildcard |
| `SessionGate.RootGated` | src/middleware.ts:43 | the root path `/` is gated |
| `SpeechRecognition.FinalTextAppend` | src/hooks/use-speech-recognition.ts:69-73 | the final text of two lists joined is the final text of the first followed by that of the second |
| `SpeechRecognition.InterimContributesNothing` | src/hooks/use-speech-recognition.ts:70-72 | inserting an interim result anywhere leaves the final text unchanged |
| `SpeechRecognition.OnlyInterimIsEmpty` | src/hooks/use-speech-recognition.ts:69-73 | a list of interim results only has an empty final text |
| `SpeechRecognition.FinalResultAppears` | src/hooks/use-speech-recognition.ts:70-72 | a final result's text appears, in its place, between the final texts before and after it |
| `SpeechRecognition.CollectFinal` | src/hooks/use-speech-recognition.ts:68-73 | the loop from `resultIndex` returns the in-order concatenation of the final results from that index on (nothing when the index is past the end) |
| `SpeechRecognition.Recognizer.constructor` | src/hooks/use-speech-recognition.ts:29-43 | an engine exists iff a window offers `SpeechRecognition` or `webkitSpeechRecognition`; the hook starts with an empty transcript, not listening |
| `SpeechRecognition.Recognizer.HasRecognitionSupport` | src/hooks/use-speech-recognition.ts:104 | `hasRecognitionSupport`: when it is false, nothing has happened: the transcript is empty, not listening, no command sent |
| `SpeechRecognition.Recognizer.StartListening` | src/hooks/use-speech-recognition.ts:45-51 | with an engine and not listening: the transcript is cleared, `start()` is sent, listening begins; otherwise nothing changes |
| `SpeechRecognition.Recognizer.StopListening` | src/hooks/use-speech-recognition.ts:53-58 | with an engine and listening: `stop()` is sent and listening ends; otherwise nothing changes; the transcript is never touched |
| `SpeechRecognition.Recognizer.ResetTranscript` | src/hooks/use-speech-recognition.ts:60-62 | the transcript becomes empty; the listening flag and the engine are untouched |
| `SpeechRecognition.Recognizer.OnResult` | src/hooks/use-speech-recognition.ts:65-75 | the transcript becomes the old one followed by the final texts of the pending results, so the old one is a prefix; nothing else changes |
| `SpeechRecognition.Recognizer.OnError` | src/hooks/use-speech-recognition.ts:77-83 | whatever the error, listening ends and the transcript and engine log are kept |
| `SpeechRecognition.Recognizer.OnEnd` | src/hooks/use-speech-recognition.ts:85-87 | listening ends and the transcript and engine log are kept |
| `SpeechRecognition.Recognizer.Unmount` | src/hooks/use-speech-recognition.ts:89-94 | the clean-up sends `stop()` when an engine exists and leaves the hook's state alone |

Every `Recognizer` method also requires and preserves `Valid()`: without an
engine the transcript stays empty, the flag stays false and no command is
ever sent (src/hooks/use-speech-recognition.ts:46, 54, 65).

## Left out

- The `fetch` to `/api/auth/verify` and the Next.js request and response objects are replaced by the verifier oracle and the `Response` datatype; a redirect keeps only the target path, not the absolute URL built from `request.url`.
- A failing `fetch` is not caught by the middleware, so its exception propagates instead of yielding a decision. No timeout is imposed on the verification call either; the model follows the code and states no fail-closed property.
- Next.js's compilation of the matcher string is taken to be the JavaScript regular expression `^/((?!api|_next/static|_next/image|favicon.ico).*)$` tested against the pathname. Pathnames are taken as percent-encoded, so every character is a single UTF-16 code unit and the regular expression's `.` matches exactly one of them; percent-decoding of pathnames is not modelled.
- Session issuance and verification (`src/lib/auth.ts`, `src/app/api/auth/session/route.ts`, `src/app/api/auth/verify/route.ts`, `src/lib/firebase-admin.ts`) are not part of this model: they are thin wrappers over Firebase and the cookie store. They are also inconsistent with the gate: they name the cookie `session` (src/lib/auth.ts:13) where the gate reads `__session`, call `createSession`, `signOutAndClearSession` and `SESSION_COOKIE_NAME` which the `auth` object does not define, and pass a millisecond value as `maxAge`.
- The other AI flows (skill analysis, resume scanner, day in the life, course and project suggestions, resume interview, mock interview, quiz generation, skill-to-job mapping) are prompt templates around an external model with schemas enforced by a library; their float score ranges are not modelled.
- `FeedbackFlow.Feedback` takes the prompt's output as always present; the `output!` assertion on a missing output and the schema validation done by the flow library are not modelled.
- The browser speech engine itself (its configuration with `continuous`, `interimResults` and `lang`, and what `start()` and `stop()` do) is replaced by the recorded command log; `console.error` and the empty branch on permission errors in `onerror` have no effect to model.
- `SpeechRecognition.SpeechResult` keeps only the first alternative of a result (`results[i][0]`); a result without alternatives, on which the code would throw, is not modelled.
- React's asynchronous, batched state updates are modelled as immediate assignments, and each hook instance as its own `Recognizer`; the code shares one module-level engine across instances, and each mount overwrites the handlers installed by the previous one, which the model does not capture.
- UI components, illustrations and static data carry no logic and are not modelled.
