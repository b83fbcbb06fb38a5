# Request admission of the Ollama auth gateway

This project models, in Dafny, how the gateway in `auth-app/main.py` admits a
`/chat` request before anything is forwarded to the Ollama backend. There are
three gates, run in this order:

1. **Credential check** (`verify_token`). The bearer credential must equal the
   configured token exactly. Otherwise the answer is 401 and no state changes.
   This is module `Credentials`.
2. **Per-client fixed-window rate limiter** (`rate_limit_check`). It works on
   the process-wide table `user_requests`, which maps a client address to a
   count and a reset time. This is module `RateLimit`:
   - the class `RateLimiter` holds the table as a `map` field;
   - its method `Check` updates the table in place, as the source does;
   - the pure function `Step` is the specification that `Check` is proved
     against;
   - the lemmas about `Step` and `RunClient` state the quota properties.
3. **Payload validation** (the `ChatRequest` model and `validate_message`).
   The message must be 1 to 1000 characters long. It must not be all
   whitespace. It must not contain `<script`, `<?php`, `javascript:` or
   `data:` in any letter-casing. The accepted message is the stripped one.
   The model name must match `^[a-zA-Z0-9_:-]+$` and defaults to
   `gemma3n:e4b`. This is module `Payload`. Module `Text` supplies
   whitespace, `strip`, `lower` and substring search.

Module `Admission` composes the gates:
- `Decide` is one request as a pure function;
- `Admit` is the same thing as a method on the live `RateLimiter`;
- `Serve` runs a sequence of requests one after another;
- the lemmas about `Serve` cover many requests: failed authentications never
  touch the quota, clients are independent, the count bound is kept, and a
  window admits no more than its slots.

Modelling assumptions:
- The gate order is the order in which FastAPI resolves the endpoint's
  dependencies. `verify_token` is declared before `rate_limit_check`
  (auth-app/main.py:73-74), and the body is validated after both. The source
  text does not show this order, so it is an assumption here.
- Time is a `real` parameter `now`, standing in for `time.time()`.
- The hourly limit is an `int` parameter, standing in for
  `RATE_LIMIT_PER_HOUR`. It may be zero or negative, as the environment
  variable allows.
- The configured token is a parameter too.

The model keeps these behaviours of the code, which a reader might not expect:
- A new table entry gets a reset time equal to its creation time, not one
  hour later. This comes from the `defaultdict` factory (auth-app/main.py:22).
  So a client's first request never resets the window, and its second request
  at any later time does reset it, which discards the first count.
  `RateLimit.LimitPlusOneBurst` proves the consequence: a new client can be
  admitted `limit + 1` times in an arbitrarily short span.
- The reset test is strict (`now > reset_time`). A request exactly at the
  reset time keeps the old window (`RateLimit.ResetTimeItselfKeepsWindow`).
- A denied request can still change the table. The entry may be created, or
  reset, before the limit test. Only the count is left alone.
- The length bounds apply to the raw message, before stripping. The blank
  test and the marker scan come afterwards. So a message over 1000 characters
  is invalid input even if it contains a marker or is whitespace only.
- Nothing is atomic per client: the code has no locking. The model is
  sequential.
- The default model name is not checked against the pattern. It matches it
  anyway (`Payload.DefaultModelIsWellFormed`).

## Model

| member | source | states |
|---|---|---|
| `Text.Strip` | auth-app/main.py:30 | `str.strip` on ASCII: the result is `s` minus whitespace padding on both sides. It neither starts nor ends with whitespace. It is empty exactly when `s` is all whitespace. |
| `Text.ContainsLowered` | auth-app/main.py:35 | If `s` contains `c` in any casing, then `s.lower()` contains `c.lower()`. |
| `Payload.ValidateMessage` | auth-app/main.py:28-37 | `validate_message` rejects a blank message as invalid input. It rejects a message whose lower-cased form holds a marker as a security risk. Otherwise it returns the stripped message, which is non-blank, no longer than the input and free of markers in every casing. |
| `Payload.StrippedKeepsNoMarker` | auth-app/main.py:33-37 | Stripping a marker-free message cannot produce a marker, because the stripped message is a slice of the raw one. |
| `Payload.CasedMarkerIsRisk` | auth-app/main.py:33-36 | Any casing of any marker, anywhere in a message, makes `validate_message` report a security risk. |
| `Payload.BlankMessageIsInvalid` | auth-app/main.py:30-31 | A whitespace-only message is invalid input. |
| `Payload.ParseChatRequest` | auth-app/main.py:24-37 | A body is accepted iff: the raw message has 1 to 1000 characters, is not all whitespace and holds no marker in any casing; and the model, when sent, matches the pattern. A security risk is reported iff the length and blank tests pass and a marker is present. An accepted request carries the stripped message, which is already stripped, 1 to 1000 long and marker-free. Its model is the one sent, or the default, and always well formed. |
| `Payload.DefaultModelIsWellFormed` | auth-app/main.py:26 | `gemma3n:e4b` matches `^[a-zA-Z0-9_:-]+$`. |
| `Credentials.VerifyToken` | auth-app/main.py:40-44 | Authorized iff the credential equals the configured token exactly. Otherwise the answer is status 401. |
| `RateLimit.Step` | auth-app/main.py:47-61 | One limiter call. The request is admitted iff the count in the live window is below the limit. The count grows by exactly 1 on admission and not at all on denial. The reset time becomes the creation time for a new client, `now + 3600` once the old one has passed, and otherwise stays the same. The client's entry exists afterwards. No other entry changes. No entry is removed. |
| `RateLimit.StepKeepsBounded` | auth-app/main.py:51-60 | If every count is at most the limit (or 0) before a call, the same holds after it. |
| `RateLimit.AdmissionsWithinWindow` | auth-app/main.py:51-60 | Within one window, out of `n` requests a client with `count` admissions is admitted exactly `min(n, limit - count)` more times. Its window does not move. |
| `RateLimit.FirstRequestKeepsCreationTime` | auth-app/main.py:22 | A new client's entry keeps its creation time as reset time. Its first request is admitted iff the limit is positive. |
| `RateLimit.ResetTimeItselfKeepsWindow` | auth-app/main.py:51 | A request exactly at the reset time does not reset the window. |
| `RateLimit.ExpiredWindowRestarts` | auth-app/main.py:51-60 | When the limit is at least 1: after the reset time, the next request is admitted into a new window that ends at `now + 3600` and holds only this request. |
| `RateLimit.LimitPlusOneBurst` | auth-app/main.py:22 | Because of the creation-time reset, a new client is admitted `limit + 1` times across `t0 < t1`, however close `t1` is to `t0`. |
| `RateLimit.RateLimiter.constructor` | auth-app/main.py:22 | The table starts empty. |
| `RateLimit.RateLimiter.Check` | auth-app/main.py:47-61 | The in-place update of `user_requests` produces exactly the decision and table of `Step`. It keeps the count bound. It leaves every other client's entry as it was. |
| `Admission.Decide` | auth-app/main.py:70-75 | The request is rejected as unauthorized iff the credential is wrong, and then the table is unchanged. It is rate-limited iff the credential is right and the live count has reached the limit; the rejection carries the limit. Past both, it is rejected as a security risk iff body validation reports a marker, and as invalid input iff body validation reports a length, blank or model-name failure. It is admitted iff all three gates pass. It then carries the validated body: a stripped, marker-free message of 1 to 1000 characters (the raw one was 1 to 1000 too) and a well-formed model name. A rejection's status is 401 iff the credential is wrong, 429 iff the quota is exhausted, and 422 iff the body failed. Whenever the credential is right, the limiter's table update stands. |
| `Admission.Reason.Status` | auth-app/main.py:43-58 | A rejection is answered with 401 exactly when it is unauthorized, 429 exactly when the rate limit is exceeded, and 422 exactly when the body failed validation. |
| `Admission.Admit` | auth-app/main.py:70-75 | Running the gates on the live limiter gives exactly `Decide`'s outcome and table. A wrong credential leaves the limiter unchanged. |
| `Admission.Serve` | auth-app/main.py:70-75 | A run of requests gives one outcome per request. It never drops a client from the table. |
| `Admission.BadCredentialsNeverTouchQuota` | auth-app/main.py:73-74 | Any number of requests with a wrong credential are all rejected as unauthorized, and the table stays exactly as it was. |
| `Admission.OtherClientsUntouched` | auth-app/main.py:47-61 | Requests from other clients never create, change or remove a client's entry. |
| `Admission.ServeKeepsBounded` | auth-app/main.py:57-60 | The count bound holds after any run of requests. |
| `Admission.WindowQuota` | auth-app/main.py:47-61 | In any run of requests, mixed from any clients, in which each of one client's requests comes at or before its window's reset time: the pipeline admits that client no more often than the slots the limiter had left. Requests rejected later for their body still use up a slot. The window does not move. |

## Left out

- Forwarding to the backend is not modelled: the model pull, the generation call, the error-to-status mapping in `chat`, and the `/models`, `/health` and `/` endpoints (auth-app/main.py:64-126). They are HTTP pass-through.
- `ollama-auth/auth-app/main.py` is not modelled. It is an older version with no rate limit and no payload constraints, and its `verify_token` is the same equality test.
- `time.time()`, `os.getenv`, logging and `uvicorn.run` are not modelled. Time, the limit and the token are parameters.
- Extracting the credential from the `Authorization` header is not modelled. A missing header or a non-bearer scheme is answered by the framework's `HTTPBearer` before `verify_token` runs.
- Decoding the JSON body is not modelled. The framework does it before any dependency runs.
- The defaultdict factory reads the clock a moment after `rate_limit_check` does. The model takes both readings to be the same `now`, which keeps "the first request never resets".
- Floating-point rounding of `now + 3600` and of time comparisons is not modelled. Time is a real number.
- Concurrency is not modelled. The source has no locking, and the model serves requests one at a time.
- `str.strip`, `str.lower` and `str.isspace` are modelled on ASCII only: whitespace is space, tab to carriage return, and U+001C to U+001F; only `A`-`Z` change case. Unicode whitespace and case mappings that change a string's length are not modelled.
- Payload.ParseChatRequest: pydantic reports every failing field at once. The model returns the first failure, checking the message before the model name. Both kinds are the same 422 response in the source.
- The model pattern is read with `$` at the very end of the text. A trailing newline therefore does not match.
