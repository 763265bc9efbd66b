# A verified model of the Zeam SDK for Go

The Dafny files in this directory model the parts of the SDK whose behaviour is hardest to see from
one function at a time, and prove what those parts are for. `dafny verify dfyconfig.toml` checks
everything.

| file | models |
|---|---|
| `RefreshProtocol.dfy`, `RefreshTraces.dfy`, `RefreshOrigins.dfy`, `Resubmission.dfy` | sessions, the memory store and the auto-refresh protocol under any interleaving of callers, refreshes, logins, deletions and clock ticks (`auth/`) |
| `TokenStore.dfy`, `AutoRefresh.dfy` | the same objects in memory, one call at a time: token buffers, erasure, one uncontended `Ensure` |
| `ReplayCache.dfy`, `Webhook.dfy` | the LRU replay cache and the webhook verifier (`webhook/verifier.go`) |
| `Redaction.dfy`, `RedactionContext.dfy` | the value patterns, their replacement, redaction of nested values, and what redaction leaves alone (`transport/redaction.go`) |
| `Retry.dfy` | bounded retry, response bodies, backoff and the Idempotency-Key (`transport/`) |
| `ConnectPayment.dfy` | the nine-step payment recipe (`recipes/connect_payment.go`) |
| `Asset.dfy`, `Keypair.dfy` | parsing and printing assets, and the shape of keys (`stellar/`) |
| `Go.dfy`, `Collections.dfy` | int64 arithmetic, durations, trimming, case folding, decimal text; equations on sequences and maps |

## How the models are built

**The refresh protocol** is a transition system. Each locked section and each remote call is one
action; where a caller or a run stands fixes its next action, but for the answer to a post. A session
is shared by pointer, so the heap maps session ids to fields. `MemoryStore.Put` keeps its two halves,
the unlocked check and the locked section. Singleflight is modelled by its contract: one running
function per slot, whose result its waiters share; a slot is a refresher (one per flow) and a track
asked for. Upstream may answer a post in any way, but never issues the same token twice. A `Trace` is
a schedule of actions with the states between them, and theorems quantify over all traces. An action
that is not enabled does nothing, so finite runs are covered.

**The classes** (`Session`, `MemoryStore`, `AutoRefresher`, `LRU`, `Verifier`, `RetryRoundTripper`,
`DecoratedRT`, `Runner`) have the fields of the originals, and their methods are proved against a
specification: a function of the call history for the cache and for the verifier, a first-final-outcome
function for retry, a plan of requests for the recipe.

**Outside parties** are parameters. Upstream is an oracle that sees all requests so far and may fail
anywhere; the network under retry is a stream of outcomes; clocks and random draws are arguments;
HMAC-SHA256 (section 2 of RFC 2104) is an arbitrary function of key and message.

## Where the code differs from what one would expect

Each of these is proved, with the exact condition under which the code does what one would expect.

- A key that `Put` refuses is used after all: a session erased between the two halves of `Put` lands
  under `TrackUnknown` (`UnknownKeyIsUsed`). That key is in the store exactly if a locked half of `Put`
  found its session erased and neither `Close` nor a deletion of that key has come since
  (`UnknownKeyIff`). The two real tracks stay isolated (`ErasedStaysOut`).
- An erased session can hold tokens again (`ErasedRegainsToken`): exactly if a refresh that was in
  flight when it was erased has updated it, and neither an update nor an erasure has come since
  (`ErasedHoldsToken`).
- A refresh token can be submitted twice (`FailedTokenIsResubmitted`): exactly if its first refresh
  failed and the session had not been erased by then (`SubmittedAgainIff`). Upstream may have consumed
  it the first time.
- The lifetime in `expiresIn` wraps when it does not fit a `time.Duration`; the expiry is then not the
  one asked for (`ExpiryIsExactIff`).
- The webhook verifier accepts replays in two places where int64 gives out. A skew above half of int64
  wraps when doubled (`TtlIsExactIff`), and whatever passes is accepted again at once
  (`WrappedSkewAcceptsReplay`). A timestamp 2^63 ns or more ahead of the clock passes the skew check
  (`FreshIff`, `FarFutureIsFresh`), and passes again when its own time has come
  (`FarFutureAcceptsReplay`). Replay protection holds over all runs exactly outside these two places
  (`NeverTwiceIff`). Even there one delivery is accepted twice at readings exactly twice the skew apart
  (`AcceptedAtBothEnds`).
- `backoff` panics before certain attempts between the 38th and the 56th, where the shifted bound
  wraps to a negative number (`BackoffPanicsIff`); a negative budget returns neither response nor error
  (`NothingIffNegativeBudget`). The shipped budgets meet neither (`ShippedBudgets`).
- The comment on retry says that Retry-After (section 10.2.3 of RFC 9110) is honoured. `backoff` would
  honour it (`BackoffWouldHonour`), but the previous response is set to nil before `backoff` is called
  (`transport/retry.go:51-56`), so no header changes what a call does (`RetryAfterIsIgnored`).
- Decoding a Connect quote leaves its `Raw` field empty (`client/connect/connect.go:101`), so the
  clearing account that `Do` reads from it is always the empty string: a completed run pays to no
  account (`PaysNobody`). A payment names an account exactly if the text of its quote does
  (`PaysSomebodyIff`); a caller who drives the steps by hand may fill it in between.

## Model

| member | source | states |
|---|---|---|
| RefreshProtocol.AlwaysInv | auth/autorefresh.go:43-75 | the protocol invariant holds in every state of every trace, for any number of callers, runs, logins, deletions and ticks |
| RefreshProtocol.StepKeeps | auth/autorefresh.go:52-70 | every action keeps the invariant: store isolated by track, sessions hold only tokens issued to them, exchanges stay in their home slot, spent tokens are about to be replaced |
| RefreshProtocol.PutKeeps | auth/store.go:46-52 | the locked half of Put keeps it, whatever became of the session since the check |
| RefreshProtocol.PutIsolates | auth/store.go:48-51 | storing a session under the track it has now and erasing the one it replaces leaves every key with a session of that track |
| RefreshProtocol.DeleteKeeps | auth/store.go:67-75 | so does erasing and removing the session under a key |
| RefreshProtocol.CloseKeeps | auth/store.go:78-86 | so does erasing every stored session |
| RefreshProtocol.TokenReadIsUnspent | auth/otp.go:97-100 | the token that Refresh reads from the shared session has not been spent: only the run in the session's home slot could have |
| RefreshProtocol.OneExchangePerSession | auth/autorefresh.go:51-52 | two slots exchanging one session are one slot |
| RefreshProtocol.PostKeepsSpent | auth/otp.go:102-109 | after a successful post the only session still holding the spent token is the one about to be updated |
| RefreshTraces.SpentOnce | auth/otp.go:93-111 | a non-empty refresh token whose Refresh returned no error is not submitted by any later action, in any slot |
| RefreshTraces.OneExchange | auth/autorefresh.go:52-70 | in every reachable state at most one exchange of a session is in flight, and it runs in the slot of the session's own track |
| RefreshTraces.ErasedStaysOut | auth/store.go:39-86 | in every reachable state each stored session has its key as its track, and a session once erased is under neither real track ever after |
| RefreshTraces.TrackKept | auth/session.go:107-119 | along a trace a session keeps its track or loses it for good |
| RefreshTraces.StaysSettled | auth/autorefresh.go:55-69 | once updated, a session keeps its new expiry and its place in the store, and the run in its slot neither leaves it nor calls Refresh, while it is not erased and not due |
| RefreshTraces.OneRefreshIsEnough | auth/autorefresh.go:48-69 | after a refresh updates a session, while the session is not erased and now plus threshold is not past the new expiry, the refresher calls Refresh no more for that track, on any session, and submits no token |
| RefreshTraces.ReturnedIsEarned | auth/autorefresh.go:48-74 | a session returned unrefreshed passed the caller's own fast check or the re-check of a run the caller waited for; one returned refreshed was updated by a run the caller waited for; an error is that of such a run, at a step that fails, or there was no session |
| RefreshTraces.AlwaysOrderly | auth/autorefresh.go:51-74 | in every reachable state no run number is reused, and each waiter's run is still in its slot or has left its result |
| RefreshTraces.WaitersShare | auth/autorefresh.go:51-74 | all who waited for one run return one result, the one that run finished with |
| RefreshTraces.UnknownKeyIsUsed | auth/store.go:43-51 | a trace that puts a session under TrackUnknown |
| RefreshTraces.UnknownKeyStep | auth/store.go:39-86 | one step leaves TrackUnknown a key exactly if it is the locked half of a Put that finds its session erased, or if it was a key and the step is neither Close nor its deletion |
| RefreshTraces.UnknownKeyIff | auth/store.go:39-86 | TrackUnknown is a key exactly if such a locked half came before and neither Close nor its deletion since |
| RefreshTraces.StepChangesSession | auth/session.go:86-119 | a step leaves a session as it was, leaves it without track, token and expiry, or refreshes it, and which of these is fixed by the step |
| RefreshTraces.ErasedHoldsToken | auth/session.go:86-119 | an erased session holds a token exactly if a refresh updated it with one after the erasure, and neither an update nor an erasure has come since |
| RefreshTraces.ErasedRegainsToken | auth/session.go:86-119 | a trace in which that happens |
| RefreshOrigins.UpdateIsAnswered | auth/otp.go:102-109 | every update leaves the session with the token and the expiry that upstream answered to the post of that very run, and with the track it had |
| RefreshOrigins.LandsErasedOnlyIf | auth/store.go:43-51 | a Put whose locked half finds its session erased had found it with a track in its first half, and an action between the two erased it |
| RefreshOrigins.ChecksDecide | auth/autorefresh.go:48-63 | a caller whose session has the threshold left joins no run, and a run whose session has it left does not call Refresh; the others go on |
| Resubmission.SubmittedAgainIff | auth/otp.go:93-111 | a submitted token can be submitted again by some continuation exactly if its refresh failed and the session was not erased by then |
| Resubmission.AlwaysExchanges | auth/otp.go:97-109 | from the track check to the reply the session holds the token that was read, or is erased and holds none |
| Resubmission.StaysDead | auth/otp.go:100-102 | a token that neither a session nor a run has is never had again |
| Resubmission.FailedTokenIsResubmitted | auth/otp.go:100-104 | a trace whose failed token can be submitted again |
| TokenStore.Zero | auth/session.go:121-125 | every byte of the buffer is zero afterwards |
| TokenStore.Session.constructor | auth/session.go:25-33 | the fields as given, in buffers of its own |
| TokenStore.Session.Update | auth/session.go:86-94 | new tokens and expiry in new buffers, the track kept; both old buffers are all zeros |
| TokenStore.Session.Erase | auth/session.go:107-119 | no tokens, no track, zero expiry; both old buffers are all zeros |
| TokenStore.MemoryStore.Put | auth/store.go:39-53 | refuses exactly nil and erased sessions; otherwise the session takes its track's place, the one it replaces is emptied and its token buffers are zeros, and the sessions ever stored still split into those in the map and those erased |
| TokenStore.MemoryStore.Get | auth/store.go:56-64 | the session under the track, or ErrNoSession exactly when there is none |
| TokenStore.MemoryStore.Delete | auth/store.go:67-75 | the key is gone, its session emptied and its token buffers zeros, everything else as it was |
| TokenStore.MemoryStore.EraseStored | auth/store.go:81-83 | the loop erases every stored session, whatever the order |
| TokenStore.MemoryStore.Close | auth/store.go:78-86 | the map is empty, every session ever stored is erased, and every buffer any of them had is all zeros |
| TokenStore.MemoryStore.UpdateSession | auth/session.go:86-94 | updating a session that is stored, or never was, keeps the store valid and every other session untouched |
| AutoRefresh.ExpiryIsExactIff | auth/otp.go:156-168 | a lifetime is accepted exactly when positive, and the expiry is that many seconds ahead exactly when that fits a Duration |
| AutoRefresh.LifetimeIsANumber | auth/otp.go:157-163 | only digits after an optional plus sign, with white space around, are accepted |
| AutoRefresh.AutoRefresher.Refresh | auth/otp.go:93-111 | a nil session is refused; the token is submitted only for a session of the flow's track, stored or not; the session changes exactly when the reply is accepted, and then its id token, refresh token and expiry are those of the reply, each in its place |
| AutoRefresh.AutoRefresher.Ensure | auth/autorefresh.go:43-75 | the stored session is returned; its token is submitted exactly when it had less than the threshold left at both clock readings and the flow is that of the track; then it holds the reply's id token, refresh token and expiry; after an error, or without a request, it is as before |
| ReplayCache.LRU.Seen | webhook/verifier.go:207-234 | the answer is what the history demands, and the list holds the first cap distinct ids of the reversed history |
| ReplayCache.LRU.constructor | webhook/verifier.go:194-203 | an empty cache, of 1024 entries unless the capacity is positive |
| ReplayCache.LRU.MakeRoom | webhook/verifier.go:222-229 | the eviction loop leaves the most recent cap - 1 entries in list and map |
| ReplayCache.AnswerIsReplayed | webhook/verifier.go:207-233 | true exactly when the id was called before, fewer than cap distinct other ids came since its last call, and now is strictly before the expiry its last unanswered call wrote |
| ReplayCache.KeysAreRecency | webhook/verifier.go:181-234 | after any calls, with any clocks and TTLs, the keys are the first cap distinct ids of the reversed history |
| ReplayCache.SmallerCacheIsPrefix | webhook/verifier.go:222-229 | on the same calls the keys of a smaller cache are a prefix of a larger one's |
| ReplayCache.DistinctMeaning | webhook/verifier.go:212-217 | the recency list has exactly the ids of the history, each once |
| ReplayCache.DistinctOrder | webhook/verifier.go:212-217 | and in the order of their latest calls |
| ReplayCache.PlaceIsCount | webhook/verifier.go:215-231 | an id's place in the list is the number of distinct other ids called since |
| ReplayCache.ExpiriesAreWritten | webhook/verifier.go:213-231 | moving an entry to the front does not renew it: its expiry is that of its id's last unanswered call |
| ReplayCache.NextCallIff | webhook/verifier.go:207-233 | the next call of an id goes unanswered exactly if cap other ids came between or its entry has run out |
| ReplayCache.TwoMisses | webhook/verifier.go:207-233 | two unanswered calls of one id have cap other ids between them, or an entry that ran out |
| Webhook.FreshIff | webhook/verifier.go:116-123 | the skew check is the window of the skew, but for timestamps 2^63 ns or more ahead and the greatest skew |
| Webhook.FarFutureIsFresh | webhook/verifier.go:166-171 | a timestamp that is not in the window and passes |
| Webhook.UnixTimeIsExactIff | webhook/verifier.go:114 | a timestamp is read exactly unless the shift to the epoch of time.Time wraps |
| Webhook.SignedMessageIsInjective | webhook/verifier.go:159-161 | equal signed messages have equal timestamps and bodies, for all int64 timestamps and all bodies |
| Webhook.SignedMessageIs | webhook/verifier.go:159-161 | the signed message is the decimal timestamp, a dot and the body, byte by byte |
| Webhook.HexIff | webhook/verifier.go:154-158 | a signature decodes to given bytes exactly if it spells them, two digits each, in either case |
| Webhook.ScreenedIsAuthentic | webhook/verifier.go:101-140 | a request passes the checks before the cache exactly when it is signed, fresh, whole and within the size cap, and what is returned is its body |
| Webhook.StaleIff | webhook/verifier.go:116-123 | for a readable timestamp less than 2^63 ns ahead, a request is found stale exactly if it is signed and the two instants are further apart than the configured skew, five minutes when that is not positive |
| Webhook.ErrorIff | webhook/verifier.go:102-113 | a missing signature, a missing timestamp and an unreadable one are each reported exactly then, in this order |
| Webhook.LaterErrorIff | webhook/verifier.go:125-140 | so are, for a request that is not stale, a body over 2 MiB by length or by content, a failed read and a wrong signature |
| Webhook.Verifier.Check | webhook/verifier.go:101-140 | the checks before the cache, taken in the order of the source, give what the specification gives |
| Webhook.Verifier.Verify | webhook/verifier.go:101-150 | only a request that passes those checks and names an event reaches the cache; it is accepted unless it is a replay, and never further from its timestamp than the configured skew |
| Webhook.TtlIsExactIff | webhook/verifier.go:144 | the doubled skew is right exactly up to half of int64, and negative beyond |
| Webhook.AcceptedTwice | webhook/verifier.go:142-148 | with a monotone clock, one event and timestamp accepted twice means cap other events between, readings exactly twice the skew apart, or a skew or timestamp at which int64 gives out |
| Webhook.WrappedSkewAcceptsReplay | webhook/verifier.go:144 | for every configuration with a skew above half of int64, whatever passes is accepted twice at one instant |
| Webhook.FarFutureAcceptsReplay | webhook/verifier.go:166-171 | for every other configuration, a timestamp 2^63 ns or more ahead is accepted at once and again later than twice the skew |
| Webhook.NeverTwiceIff | webhook/verifier.go:116-148 | for every configuration, capacity, timestamp and first reading, no run accepts the event twice without such an excuse exactly if int64 does not give out or nothing is accepted at all |
| Webhook.RedeliveryIff | webhook/verifier.go:142-148 | an event that does not recur between is accepted again exactly if cap others came between or its entry ran out |
| Webhook.AcceptedAtBothEnds | webhook/verifier.go:121-148 | for every configuration within half of int64, capacity and timestamp, a request accepted at both ends of its window |
| Redaction.RedactString | transport/redaction.go:97-102 | the output matches none of the patterns, and equals the input exactly when the input matched none |
| Redaction.CoverIsUnique | transport/redaction.go:97-102 | leftmost longest non-overlapping matches are determined by the pattern |
| Redaction.SpansCover | transport/redaction.go:97-102 | the matches that are replaced are those |
| Redaction.SpliceMakesNoMatch | transport/redaction.go:99 | no match of any pattern touches a placeholder put at word boundaries |
| Redaction.MatchWasThere | transport/redaction.go:98-100 | every match in the replaced text comes from a match before, and none of the replaced pattern is left |
| Redaction.ReplaceAllCleans | transport/redaction.go:98-100 | replacing one pattern removes its matches and makes none of another's |
| Redaction.RedactedIsClean | transport/redaction.go:97-102 | for every string, no pattern matches the output |
| Redaction.UnchangedIffClean | transport/redaction.go:97-102 | a string is unchanged exactly when no pattern matches it |
| Redaction.RedactedIsIdempotent | transport/redaction.go:97-102 | redacting a string twice is redacting it once |
| Redaction.WholeMatchIsReplaced | transport/redaction.go:48-53 | a text that is one match becomes the placeholder |
| RedactionContext.GapsSurvive | transport/redaction.go:98-100 | for every pattern and text, replacing keeps the text between the leftmost longest matches, in order, with one placeholder for each match |
| RedactionContext.RedactedKeepsGaps | transport/redaction.go:97-102 | for every string, redaction replaces substrings that are each a text of one of the four patterns by one placeholder each, and keeps all the text between them, in order |
| RedactionContext.RedactedApart | transport/redaction.go:97-102 | the texts on the two sides of a character that no secret contains are redacted independently, and the character stays |
| RedactionContext.SecretInContext | transport/redaction.go:97-102 | a secret set off from its surroundings becomes the placeholder, and what stands before and after it is redacted as if alone, so kept if clean |
| RedactionContext.SecretIsReplaced | transport/redaction.go:48-53 | a secret alone becomes the placeholder, whichever pattern it is of |
| RedactionContext.KeysAreSecrets | transport/redaction.go:48-53 | every seed and every public key does |
| Redaction.RedactValue | transport/redaction.go:70-94 | the recursion computes the redacted value at every key: the placeholder under a sensitive key, and elsewhere each kind of value in its own way |
| Redaction.KeysIgnoreCase | transport/redaction.go:71-77 | a sensitive key is known in whatever case it is written |
| Redaction.RedactAlongPath | transport/redaction.go:58-94 | off sensitive keys the same paths lead somewhere, maps keep their keys and lists their lengths, and every string is redacted |
| Redaction.SensitiveIsHidden | transport/redaction.go:71-77 | under a sensitive key, at any depth, stands the placeholder and nothing below it |
| Redaction.LeavesAreClean | transport/redaction.go:58-94 | no string at the end of any path of the output, under whatever keys, matches a pattern |
| Redaction.RedactIsIdempotent | transport/redaction.go:58-94 | redacting a value twice is redacting it once |
| Redaction.RedactHeaders | transport/redaction.go:106-120 | every header is kept; a sensitive one has the placeholder as its only value, any other its values redacted |
| Retry.RetryRoundTripper.RoundTrip | transport/retry.go:37-90 | the exit and the log of drains, closes, sleeps and sends are those of the first final outcome, for all budgets and outcomes; an error comes only with the budget spent, a retryable status of a GET likewise |
| Retry.FirstFinalIsLeast | transport/retry.go:47-88 | that outcome is the least final one |
| Retry.ResentOnlyIf | transport/retry.go:68-87 | what is sent again failed, or was a GET with a retryable status |
| Retry.EveryCall | transport/retry.go:45-90 | from the outcomes alone: every call reaches some attempt, all before it failed or were GETs with status 408, 429, 502, 503 or 504, and ends there for one of the listed reasons, with its sends in order, its bodies settled and its sleeps the pauses of backoff |
| Retry.EndsOnlyIf | transport/retry.go:68-87 | an error is returned only once the budget is spent, a retryable status only then or for a verb other than GET |
| Retry.NothingIffNegativeBudget | transport/retry.go:89 | the return after the loop is reached exactly on a negative budget |
| Retry.CallSummary | transport/retry.go:45-90 | attempts are sent once and in order, at most budget + 1; each response but the returned one is drained, then closed, once, before the next send or the exit |
| Retry.BackoffPanicsIff | transport/retry.go:119-124 | backing off panics before exactly the listed attempts |
| Retry.BackoffIsDrawn | transport/retry.go:119-125 | for every attempt backing off sleeps its random draw below the closed form of the bound, or panics |
| Retry.NoRequestNoDifference | transport/retry.go:108-118 | without a number of seconds in the header a previous response changes nothing |
| Retry.NoOverflow | transport/retry.go:120 | up to attempt 37 the bound is 100ms doubled each time, without overflow |
| Retry.BackoffBounds | transport/retry.go:107-125 | a sleep is between zero and the lesser of one second and 100ms * 2^(n-1) |
| Retry.SleepIsBounded | transport/retry.go:56 | n retries sleep at most 100ms * (2^n - 1), and past four 1500ms plus one second each |
| Retry.ShippedBudgets | transport/retry.go:27-35 | with the shipped budgets a call sleeps at most 300ms and does not panic |
| Retry.RetryAfterIsIgnored | transport/retry.go:51-56 | whatever Retry-After headers the responses carry, a call ends the same way with the same log |
| Retry.BackoffWouldHonour | transport/retry.go:108-117 | given a previous response with a number of seconds that a Duration holds, backoff sleeps that long, at most one second |
| Retry.SendsShareKey | transport/retry.go:64 | all sends of a call carry one key |
| Retry.DecoratedRT.RoundTrip | transport/roundtripper.go:60-93 | that key is the caller's, or for a mutating verb without one the generated id, and no other header but the agent changes |
| ConnectPayment.Runner.Do | recipes/connect_payment.go:99-143 | the input is refused exactly when a field is missing or there is no Business session; the requests are a prefix of the plan, and all of it on completion, ten if the accepted asset parses and is not the funding asset, else nine; a run stops early only because the last request was refused or a local check failed; the Business session keeps its track and tokens, and no call meets a session of the wrong track |
| ConnectPayment.InOrder | recipes/connect_payment.go:103-134 | the requests of a run come in the order of the steps, none twice: at most one payment and one execution |
| ConnectPayment.PaidAsQuoted | recipes/connect_payment.go:290-327 | a completed run executes the quote whose amount it paid, with the hash of that payment and the destination it had quoted |
| ConnectPayment.ConvertsAsQuoted | recipes/connect_payment.go:264-301 | the payment names an asset to convert to and a maximum exactly when a Stellar quote was fetched in the run, on that quote's terms |
| ConnectPayment.ConvertsIff | recipes/connect_payment.go:264-273 | a completed run fetches a Stellar quote exactly when the asset that upstream's quote accepts parses and prints differently from the funding asset |
| ConnectPayment.RequestsCarry | recipes/connect_payment.go:147-327 | which input and which choice every request of a completed run carries |
| ConnectPayment.AnswersAreUsed | recipes/connect_payment.go:195-260 | the challenge submitted is the one given for the key, as signed, and the quoted destination is the first of the beneficiary's that matches |
| ConnectPayment.PaysNobody | recipes/connect_payment.go:333-345 | the account a completed run pays to is the empty string |
| ConnectPayment.PaysSomebodyIff | recipes/connect_payment.go:333-345 | a payment names an account exactly if the text of its quote does |
| ConnectPayment.SomeRunCompletes | recipes/connect_payment.go:99-143 | for every input there are answers that a completed run can have, with a conversion exactly if the funding asset is not native |
| ConnectPayment.Runner.Login | auth/sep10.go:86-102 | the challenge is fetched, signed and submitted in this order, each only if the one before succeeded; what is submitted is the signed challenge, and a failure has its reason |
| ConnectPayment.Runner.StepSignInConnect | recipes/connect_payment.go:195-212 | signing in stores a new Connect session with the tokens and expiry of the reply, and erases no other than the one it replaces; a failure stores nothing |
| ConnectPayment.Runner.HeldIsAnother | auth/store.go:48-50 | given the store invariant the session it replaces is not the Business session |
| ConnectPayment.Runner.StepExecuteStellarTransaction | recipes/connect_payment.go:290-308 | the payment is made of the two quotes; it needs a Stellar quote exactly when one is required |
| ConnectPayment.Runner.RequiresStellarQuote | recipes/connect_payment.go:264-273 | there is a quote, and the asset it accepts parses and is another than the funding asset |
| ConnectPayment.Runner.StepGetStellarQuote | recipes/connect_payment.go:276-287 | the request asks for the quoted amount in the accepted asset, and is not sent if either asset does not parse |
| ConnectPayment.Runner.SelectConnector | recipes/connect_payment.go:230-241 | the caller's choice stands, otherwise the first active connector of the method |
| ConnectPayment.ActiveIsFirst | recipes/connect_payment.go:234-239 | which is the first in the list |
| ConnectPayment.Runner.BuildDestination | recipes/connect_payment.go:349-359 | the first destination of the beneficiary with the method and country |
| ConnectPayment.DestinationIsFirst | recipes/connect_payment.go:353-357 | which is the first in the list |
| Assets.ParsePrinted | stellar/asset.go:29-73 | printing a parsed asset and parsing it gives it back |
| Assets.CanonicalIsIdempotent | stellar/asset.go:29-73 | print after parse is a canonical form |
| Assets.EqualIffPrintedSame | stellar/asset.go:76-81 | parsed assets are Equal exactly when they print the same |
| Assets.NativeIff | stellar/asset.go:34-37 | the native asset is parsed from exactly xlm and native, in any case and between spaces |
| Assets.IssuedIff | stellar/asset.go:38-50 | a text that is a code, a colon and an issuer once trimmed is that asset, with the code in upper case, exactly if both are well formed |
| Assets.NeedsColon | stellar/asset.go:38-41 | without a colon only the native asset is parsed |
| Assets.CodesInEitherCase | stellar/asset.go:42-46 | up to twelve letters in either case, and digits, are a code, each letter put in upper case |
| Go.ParseFormat | webhook/verifier.go:110 | reading a printed int64 gives it back |
| Go.TrimSpaceOf | stellar/asset.go:30 | trimming takes the white space around a text and nothing else |
| Go.Wrap64 | transport/retry.go:120 | two's-complement int64 arithmetic |

## Left out

- Memory below locks: a locked section is one step, so a session erased by its holder between two reads inside one section is not modelled.
- Several AutoRefreshers of one flow over one store: the source has one singleflight group per refresher, and the protocol assumes one refresher per flow.
- Upstream that re-issues a refresh token: excluded, as it would make a spent token valid again.
- Erasing a stored session behind the store's back, and Update by other code than Refresh: outside the protocol.
- Id tokens in the protocol: they ride along with refresh tokens; `TokenStore` has them.
- Track values beyond the three named ones.
- ReplayCache.LRU.Seen: the clock reading it takes before locking is an argument; what `Webhook` proves end to end takes the reading of `Seen` to be that of `Verify`, and the cache to have no other user.
- Caches other than LRU behind the ReplayCache interface.
- HMAC-SHA256, its constant-time comparison, and HTTP header canonicalisation. Where a request has to be made up, the hash is taken not to be empty; that of HMAC-SHA256 has 32 bytes.
- Regular expressions beyond the four patterns: for these, leftmost-first matching and leftmost-longest matching agree, since each repeated class either excludes the character that must follow it or ends the pattern before a word boundary.
- Attribute values the redactor does not look into (other map and slice types, structs) pass through unchanged, as in the source.
- The latency and observer event of the round-tripper, TLS setup, and replaying a consumed request body.
- A base round-tripper that returns a response together with an error.
- The error branch after Put in signing in: Put refuses only nil and erased sessions, so it is never taken.
- What a challenge signer does: it is an arbitrary function that may be missing or fail; the one in the source always fails.
- ConnectPayment.Runner.Do: other goroutines changing the two sessions or the runner's fields during a run.
- Quote, wallet and connector fields that no step reads.
- Upper and lower case outside ASCII in asset codes and keys, apart from code points whose image is ASCII.
- The typed endpoint wrappers, URLs, JSON, options, environment, the keyring store stub, error kinds, version comparison and the remaining recipes: plumbing or short tables that would only add easy members.
