/**
 `CachedImageLoader` as a sequential state machine: the image cache, the
 `runningRequests` dictionary, and the data tasks the URL session still owes a
 completion for. Every entry point is a pure transition.
 */
module CachedImageLoader {
  import opened Types
  import opened Outcome

  /** Names the completion closure a caller passed to `loadImage`. */
  type Client = nat

  /** A data task: the URL it fetches, the caller whose completion closure it
      will run, and whether `cancel()` has been sent to it. */
  datatype Task = Task(url: Url, client: Client, cancelled: bool)

  /** A cache slot: the decoded image and the cost it was stored with. */
  datatype CacheEntry = CacheEntry(image: Image, cost: nat)

  /**
   The loader's state. `cache` is the NSCache, `running` is `runningRequests`,
   `session` holds the data tasks that were resumed and have not yet run their
   completion handler (URLSession's side of the bookkeeping), and `nextUuid`
   is the next handle `UUID()` will produce.
   */
  datatype Loader = Loader(
    cache: map<Url, CacheEntry>,
    running: map<Uuid, Task>,
    session: map<Uuid, Task>,
    nextUuid: Uuid)

  /** One completion-handler invocation: whose closure ran, for which handle
      (none for a synchronous cache hit), and with which result. */
  datatype Callback = Callback(client: Client, handle: Option<Uuid>, result: ImageResult)

  /** What an entry point leaves behind: the new state, the handle it returned,
      and the completion-handler invocations it performed, in order. */
  datatype Reply = Reply(next: Loader, token: Option<Uuid>, callbacks: seq<Callback>)

  /** The loader before any request: everything empty. */
  const Initial: Loader := Loader(map[], map[], map[], 0)

  /**
   The invariant of every reachable state: handles already issued lie below
   `nextUuid`; a handle is in `running` exactly when its task is still owed a
   completion and has not been cancelled, and then both dictionaries hold the
   same task.
   */
  ghost predicate Valid(s: Loader)
  {
    && (forall u :: u in s.session ==> u < s.nextUuid)
    && (forall u :: u in s.running ==> u in s.session && s.session[u] == s.running[u])
    && (forall u :: u in s.session ==> (u in s.running <==> !s.session[u].cancelled))
  }

  lemma InitialIsValid()
    ensures Valid(Initial)
  {
  }

  /**
   `loadImage(from:completion:)`. A cache hit runs the completion at once with
   the cached image and returns no handle; a miss creates a fresh handle,
   registers a new data task under it, resumes it and returns the handle.
   */
  function LoadImage(s: Loader, url: Url, client: Client): (r: Reply)
    ensures url in s.cache ==>
      && r.token == None
      && r.next == s
      && r.callbacks == [Callback(client, None, Success(s.cache[url].image))]
    ensures url !in s.cache ==>
      && r.token.Some?
      && r.callbacks == []
      && r.next.cache == s.cache
      && r.next.running == s.running[r.token.value := Task(url, client, false)]
      && r.next.session == s.session[r.token.value := Task(url, client, false)]
    ensures Valid(s) && url !in s.cache ==>
      r.token.value !in s.running && r.token.value !in s.session
    ensures Valid(s) ==> Valid(r.next)
  {
    if url in s.cache then
      Reply(s, None, [Callback(client, None, Success(s.cache[url].image))])
    else
      var uuid := s.nextUuid;
      var task := Task(url, client, false);
      Reply(Loader(s.cache, s.running[uuid := task], s.session[uuid := task], uuid + 1),
            Some(uuid), [])
  }

  /**
   The data task's completion handler for handle `uuid`, run when the transfer
   ends with `t`: classify the transfer, store the image on success, retire the
   handle, then run the caller's completion exactly once with that one result.
   */
  function Complete(s: Loader, uuid: Uuid, t: TransferEnd, decode: Decoder): (r: Reply)
    requires uuid in s.session
    ensures uuid !in r.next.running && uuid !in r.next.session
    ensures r.next.running == s.running - {uuid}
    ensures r.next.session == s.session - {uuid}
    ensures r.next.nextUuid == s.nextUuid
    ensures r.token == None
    ensures |r.callbacks| == 1
    ensures r.callbacks[0] == Callback(s.session[uuid].client, Some(uuid), r.callbacks[0].result)
    ensures Admissible(t, decode, r.callbacks[0].result)
    ensures r.callbacks[0].result.Success? ==>
      r.next.cache == s.cache[s.session[uuid].url := CacheEntry(r.callbacks[0].result.image, |t.data.value|)]
    ensures r.callbacks[0].result.Failure? ==> r.next.cache == s.cache
    ensures Valid(s) ==> Valid(r.next)
  {
    var task := s.session[uuid];
    var result := Classify(t, decode);
    var cache := if result.Success? then s.cache[task.url := CacheEntry(result.image, |t.data.value|)] else s.cache;
    Reply(Loader(cache, s.running - {uuid}, s.session - {uuid}, s.nextUuid),
          None, [Callback(task.client, Some(uuid), result)])
  }

  /** `Task.cancel()` on the task the session holds under `uuid`, if any. */
  function MarkCancelled(session: map<Uuid, Task>, uuid: Uuid): map<Uuid, Task>
  {
    if uuid in session then session[uuid := session[uuid].(cancelled := true)] else session
  }

  /**
   `cancelLoading(id:)`: cancel the running task and forget the handle. An
   unknown or already retired handle is left alone. No completion runs here.
   */
  function CancelLoading(s: Loader, uuid: Uuid): (r: Loader)
    ensures r.running == s.running - {uuid}
    ensures r.cache == s.cache && r.nextUuid == s.nextUuid
    ensures r.session.Keys == s.session.Keys
    ensures forall u :: u in s.session && u != uuid ==> r.session[u] == s.session[u]
    ensures uuid in s.running && uuid in s.session ==> r.session[uuid].cancelled
    ensures uuid !in s.running ==> r == s
    ensures Valid(s) ==> Valid(r)
  {
    if uuid in s.running then
      Loader(s.cache, s.running - {uuid}, MarkCancelled(s.session, uuid), s.nextUuid)
    else
      s
  }

  /** NSCache dropping an entry on its own (memory pressure, cost budget). Which
      entry and when is not specified; the model lets any entry go at any time. */
  function Evict(s: Loader, url: Url): (r: Loader)
    ensures url !in r.cache
    ensures forall k :: k in s.cache && k != url ==> k in r.cache && r.cache[k] == s.cache[k]
    ensures r.cache.Keys <= s.cache.Keys
    ensures r.running == s.running && r.session == s.session && r.nextUuid == s.nextUuid
    ensures Valid(s) ==> Valid(r)
  {
    s.(cache := s.cache - {url})
  }

  /** Cancelling twice has the effect of cancelling once. */
  lemma CancelIdempotent(s: Loader, uuid: Uuid)
    ensures CancelLoading(CancelLoading(s, uuid), uuid) == CancelLoading(s, uuid)
  {
  }

  /** Cancelling a handle whose transfer already completed changes nothing. */
  lemma CancelAfterCompleteIsNoOp(s: Loader, uuid: Uuid, t: TransferEnd, decode: Decoder)
    requires uuid in s.session
    ensures CancelLoading(Complete(s, uuid, t, decode).next, uuid) == Complete(s, uuid, t, decode).next
  {
  }

  /** Cancellations of different handles commute. */
  lemma CancelCommutes(s: Loader, u1: Uuid, u2: Uuid)
    ensures CancelLoading(CancelLoading(s, u1), u2) == CancelLoading(CancelLoading(s, u2), u1)
  {
    if u1 != u2 {
      var a := CancelLoading(CancelLoading(s, u1), u2);
      var b := CancelLoading(CancelLoading(s, u2), u1);
      assert a.running == b.running;
      assert a.session.Keys == b.session.Keys;
      forall u | u in a.session
        ensures a.session[u] == b.session[u]
      {
        if u != u1 && u != u2 {
          assert a.session[u] == s.session[u] == b.session[u];
        }
      }
      assert a.session == b.session;
    }
  }

  /**
   A cancelled request whose session honours the cancellation (the transfer
   ends with `NSURLErrorCancelled` and no decodable payload) is reported as
   cancelled, and its URL is not cached by that completion. A decodable payload
   would still win (see `DecodedPayloadWins`).
   */
  lemma CancelledTransferReportsCancelled(s: Loader, uuid: Uuid, t: TransferEnd, decode: Decoder)
    requires Valid(s) && uuid in s.running
    requires !Decodes(t, decode) && ReportsCancellation(t)
    ensures var r := Complete(CancelLoading(s, uuid), uuid, t, decode);
      && r.callbacks == [Callback(s.running[uuid].client, Some(uuid), Failure(Cancelled))]
      && r.next.cache == s.cache
      && uuid !in r.next.running && uuid !in r.next.session
  {
  }

  /** After a successful completion for a URL, loading that URL again is a
      cache hit that delivers the very image just decoded, with no handle. */
  lemma HitAfterSuccess(s: Loader, uuid: Uuid, t: TransferEnd, decode: Decoder, client: Client)
    requires uuid in s.session && Decodes(t, decode)
    ensures var done := Complete(s, uuid, t, decode);
      var again := LoadImage(done.next, s.session[uuid].url, client);
      && again.token == None
      && again.next == done.next
      && again.callbacks == [Callback(client, None, done.callbacks[0].result)]
      && done.callbacks[0].result == Success(decode(t.data.value).value)
  {
  }
}
