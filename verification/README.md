# ImageLoader request tracking, modelled in Dafny

This project models the core of the Swift package ImageLoader. `CachedImageLoader` loads an image from a URL. It answers from its image cache (an `NSCache`) when it can. Otherwise it starts a `URLSession` data task, which it tracks in `runningRequests` under a fresh `UUID`. When the task finishes, the completion handler turns the result into exactly one outcome, stores successful images in the cache, retires the handle and calls the caller's completion. `cancelLoading(id:)` cancels a running task and forgets its handle. On top of this, `UIImageLoader` keeps `uuidDict`, which maps each image view to the handle of the request it started. It uses that map for `cancel(for:)` and `cancelAll()`.

Everything is a pure transition over immutable maps:

- `types.dfy` (`Types`): URLs, handles, payload bytes, the opaque image type, the network error code and `NSURLErrorCancelled` (-999).
- `outcome.dfy` (`Outcome`): `CachedImageLoaderError` and the classification of a finished transfer. The source spells the decoding case `errorDecording`; the model calls it `ErrorDecoding`.
- `cached_image_loader.dfy` (`CachedImageLoader`): the loader state and its transitions `LoadImage`, `Complete`, `CancelLoading` and `Evict`, with the reachable-state invariant `Valid`.
- `loader_trace.dfy` (`LoaderTrace`): any interleaving of those transitions as an event sequence. It includes the exactly-once conservation law and the cache-write law.
- `ui_image_loader.dfy` (`UIImageLoader`): `uuidDict` bookkeeping. `cancelAll()` appears twice: as the source's loop (`CancelAllLoop`) and as its closed-form effect (`CancelAll`), and the two are proved equal.
- `ui_trace.dfy` (`UITrace`): any interleaving of the view-layer events. It shows that no registered token ever dangles, given that `load`'s `loadImage` call and its token registration run as one step (see "## Left out").

Modelling choices:

- `UUID()` is assumed never to repeat, and is modelled as a counter `nextUuid` in the state. Given that assumption, freshness against `running` and `session` is proved.
- The URL session's side is explicit. `session` holds the data tasks that were resumed and have not yet run their completion handler. `Task.cancel()` sets the task's `cancelled` flag there. A transfer's end is an input event, `LoaderTrace.Finish(handle, transfer)` or `UITrace.Finished(handle, transfer)`, carrying a `TransferEnd(data, error)`; the transition it triggers is `CachedImageLoader.Complete`. The event is enabled only for a task the session still holds, because the session runs each handler once.
- The completion closure a caller passes is named by a `Client` tag. The view layer uses the view itself, since its closure captures the view.
- `UIImage(data:)` is a parameter `decode: Data -> Option<Image>`.
- Concurrency is an arbitrary order of atomic events; the source has no locking.

## Model

| member | source | states |
|---|---|---|
| Outcome.Classify | Sources/ImageLoader/CachedImageLoader.swift:72-89 | The result is admissible in the outcome-by-outcome reference description: success only for a decodable payload, carrying the decoded image; decoding error only with no usable payload and no error; cancelled only for the cancellation code; loading error only for another code, carrying that error |
| Outcome.AdmissibleIsUnique | Sources/ImageLoader/CachedImageLoader.swift:12-16 | Exactly one of the four outcomes is admissible for every transfer: a result is admissible if and only if it is the classified one |
| Outcome.DecodedPayloadWins | Sources/ImageLoader/CachedImageLoader.swift:72-75 | A decodable payload gives success with the decoded image even when an error is also reported |
| Outcome.EmptyResultIsDecodingError | Sources/ImageLoader/CachedImageLoader.swift:78-81 | With no error reported, the outcome is a decoding error exactly when there is no decodable payload (missing or undecodable) |
| Outcome.ErrorSplit | Sources/ImageLoader/CachedImageLoader.swift:84-89 | With no decodable payload and an error present, the outcome is cancelled exactly when the code is NSURLErrorCancelled, and otherwise a loading error carrying the reported error |
| CachedImageLoader.InitialIsValid | Sources/ImageLoader/CachedImageLoader.swift:45-47 | The freshly created loader (empty cache, no running requests) satisfies the state invariant |
| CachedImageLoader.LoadImage | Sources/ImageLoader/CachedImageLoader.swift:57-95 | Hit: one completion with the cached image, no handle, state unchanged. Miss: a handle absent from both dictionaries is registered for a new uncancelled task of that URL, no completion runs, the cache is unchanged; the invariant is kept |
| CachedImageLoader.Complete | Sources/ImageLoader/CachedImageLoader.swift:65-90 | The handle leaves both dictionaries and nothing else does; exactly one completion runs, for the task's caller and handle, with an admissible result; success stores the image at the task's URL with the payload size as cost, failure leaves the cache unchanged; the invariant is kept |
| CachedImageLoader.CancelLoading | Sources/ImageLoader/CachedImageLoader.swift:100-103 | Only the given handle leaves running requests; its task is marked cancelled; the cache and every other task are unchanged; an unknown handle changes nothing |
| CachedImageLoader.Evict | Sources/ImageLoader/CachedImageLoader.swift:45 | The cache may lose one URL and keep every other entry; request bookkeeping is untouched |
| CachedImageLoader.CancelIdempotent | Sources/ImageLoader/CachedImageLoader.swift:100-103 | Cancelling a handle twice has the effect of cancelling it once |
| CachedImageLoader.CancelCommutes | Sources/ImageLoader/CachedImageLoader.swift:100-103 | Cancelling two handles in either order gives the same state |
| CachedImageLoader.CancelAfterCompleteIsNoOp | Sources/ImageLoader/CachedImageLoader.swift:66-70 | Once a handle's completion has run, cancelling that handle changes nothing |
| CachedImageLoader.CancelledTransferReportsCancelled | Sources/ImageLoader/CachedImageLoader.swift:72-86 | A running request that is cancelled, and whose transfer then ends with the cancellation code and no decodable payload (missing or undecodable), completes exactly once with `cancelled`, leaves the cache alone and is retired; a decodable payload would still be a success, by the data-first check |
| CachedImageLoader.HitAfterSuccess | Sources/ImageLoader/CachedImageLoader.swift:58-61 | After a successful completion for a URL, loading it again is a hit that delivers that same image with no handle and no state change |
| LoaderTrace.StepConserves | Sources/ImageLoader/CachedImageLoader.swift:63-94 | One event keeps the invariant, never lowers the handle supply, and balances each handle's books: owed before plus issued now equals delivered now plus owed after |
| LoaderTrace.ExactlyOnce | Sources/ImageLoader/CachedImageLoader.swift:63-94 | Over any interleaving: for every handle, completions delivered plus completion still owed equals completion owed at the start plus one if issued during the run |
| LoaderTrace.ExactlyOnceFromInitial | Sources/ImageLoader/CachedImageLoader.swift:66-70 | From the initial state every handle is completed at most once; an issued handle is completed exactly when the session no longer owes it, and then it is absent from both dictionaries; unissued handles are never completed |
| LoaderTrace.CacheWritesOnlyOnSuccess | Sources/ImageLoader/CachedImageLoader.swift:72-89 | Without eviction no URL leaves the cache, and if no transfer succeeded the cache ends exactly as it started |
| LoaderTrace.SuccessThenHitScenario | Sources/ImageLoader/CachedImageLoader.swift:57-95 | Load, a decodable 1024-byte transfer, and a second load give a success and then a synchronous hit with the same image; the cache holds the URL at cost 1024 and nothing is in flight |
| LoaderTrace.CancelBeforeFinishScenario | Sources/ImageLoader/CachedImageLoader.swift:84-103 | Load, cancel, then a transfer ending with the cancellation code give exactly one `cancelled` completion, no cache entry and nothing in flight |
| UIImageLoader.TokensAreInjective | Sources/ImageLoader/UIImageLoader.swift:16 | Under the view invariant two views hold the same token only if they are the same view |
| UIImageLoader.Load | Sources/ImageLoader/UIImageLoader.swift:34-60 | Hit: the view's entry is removed by the synchronous completion and nothing is registered. Miss: the view's entry is overwritten with a handle new to the loader, whose running task fetches the URL for that view; other views keep their entries; the view invariant is kept |
| UIImageLoader.TransferFinished | Sources/ImageLoader/UIImageLoader.swift:35-37 | Every completion, success or failure, removes the entry of the view it was started for, and the handle is retired from the loader; the view invariant is kept |
| UIImageLoader.CancelFor | Sources/ImageLoader/UIImageLoader.swift:66-71 | A view with a token: the loader ends exactly as `cancelLoading` with that token leaves it, so only that token leaves running requests, its live task is marked cancelled and no other task changes; only that view's entry goes. A view without a token: nothing changes. The view invariant is kept |
| UIImageLoader.Drop | Sources/ImageLoader/CachedImageLoader.swift:45 | Eviction seen from the view layer removes the URL from the cache and touches no bookkeeping |
| UIImageLoader.CancelAll | Sources/ImageLoader/UIImageLoader.swift:74-78 | The dictionary ends empty, exactly the registered tokens leave running requests, each of their tasks is marked cancelled, every other task the session holds is unchanged, and the cache is unchanged |
| UIImageLoader.CancelAllLoop | Sources/ImageLoader/UIImageLoader.swift:74-78 | Calling `cancel(for:)` on each initially registered view, in any order, ends in exactly the state `CancelAll` describes |
| UIImageLoader.CancelTokensStep | Sources/ImageLoader/UIImageLoader.swift:76 | Cancelling one more handle after a set of handles equals cancelling the enlarged set |
| UIImageLoader.OverwriteWithoutCancel | Sources/ImageLoader/UIImageLoader.swift:59 | A second load on a view with a token leaves the earlier request running and uncancelled, held by no view |
| UIImageLoader.StaleCompletionOrphansNewerToken | Sources/ImageLoader/UIImageLoader.swift:35-37 | When an older request of a view finishes after a newer one was registered, the view's entry is removed and the newer request keeps running with no view holding its handle |
| UIImageLoader.CacheHitRegistersNothing | Sources/ImageLoader/UIImageLoader.swift:58-60 | After a cache-hit load the view has no entry, and `cancel(for:)` on it changes nothing |
| UITrace.UIRunKeepsTokensLive | Sources/ImageLoader/UIImageLoader.swift:34-78 | Over any interleaving of loads, completions, cancels and evictions, with each `load` taken as one step (its `loadImage` call and token registration together; see "## Left out"), every registered token names a running request started for that very view |
| UITrace.ReachableTokensAreLive | Sources/ImageLoader/UIImageLoader.swift:66-71 | In every state reachable with one-step loads (see "## Left out"), `cancel(for:)` on a registered view retires exactly that view's live request |

## Left out

- Cache cost budgeting and eviction policy: NSCache is a foreign store. The cache is a map. Its only removal is the abstract `Evict`/`Drop` event, with no bound on total cost.
- URLSession: creating, resuming and cancelling a data task are effects on the explicit `session` map. The network's behaviour is the `TransferEnd` input. The response object is never inspected and is not modelled.
- CachedImageLoader.Complete: the model does not force a cancelled task's transfer to end with the cancellation code, because URLSession may still deliver a finished payload when cancellation loses the race. `CancelledTransferReportsCancelled` states the case where the session honours it.
- UIImage decoding: this is the `decode` parameter.
- Threading: dispatch queues and the unsynchronised shared dictionaries are not modelled. Events are atomic and interleave in any order.
- UIImageLoader.Load: `loadImage` and the token registration are one atomic step. A transfer whose completion runs before `load` stores the token (possible in the source, since nothing orders them) would leave a token for a finished request. The model does not represent that race.
- UITrace.UIRunKeepsTokensLive: holds only because `load` is one atomic step. In the source a completion may run between `loadImage` returning and `self.uuidDict[imageView] = token` (Sources/ImageLoader/UIImageLoader.swift:34, 58-60); the token then names a request that has already finished. The same limit applies to UITrace.ReachableTokensAreLive.
- UITrace.ReachableTokensAreLive: inherits the one-step `load` assumption of UITrace.UIRunKeepsTokensLive.
- UI presentation: spinner, constraints, alpha animation, the placeholder image and the `print` of the error are not modelled.
- The localized `errorDescription` and `failureReason` strings are presentation only.
- `throws` on `loadImage` and `load`: neither body throws, so there is no error path.
- `Sources/ImageLoader/ImageView+Extensions.swift` only forwards to `UIImageLoader.shared`.
- The `publicCache` and `shared` singletons: state is passed explicitly instead.
