/**
 Arbitrary interleavings of the loader's entry points and of the session's
 completion events, run as one sequence of events. The source has no locking,
 so concurrency is modelled as any order of these atomic steps.
 */
module LoaderTrace {
  import opened Types
  import opened Outcome
  import opened CachedImageLoader

  /** One atomic step: a caller loads a URL, the session finishes the transfer
      of a handle, a caller cancels a handle, or the cache drops a URL. */
  datatype Event =
    | Load(url: Url, client: Client)
    | Finish(handle: Uuid, transfer: TransferEnd)
    | Cancel(handle: Uuid)
    | Drop(url: Url)

  /** The session only finishes tasks it holds; any other event is always possible. */
  predicate Enabled(s: Loader, e: Event)
  {
    e.Finish? ==> e.handle in s.session
  }

  function Apply(s: Loader, e: Event, decode: Decoder): Reply
    requires Enabled(s, e)
  {
    match e
    case Load(url, client) => LoadImage(s, url, client)
    case Finish(uuid, t) => Complete(s, uuid, t, decode)
    case Cancel(uuid) => Reply(CancelLoading(s, uuid), None, [])
    case Drop(url) => Reply(Evict(s, url), None, [])
  }

  /** The final state and every completion-handler invocation of a run. */
  datatype Trace = Trace(final: Loader, callbacks: seq<Callback>)

  /** Runs the events in order; `None` when some event was not enabled. */
  function Run(s: Loader, events: seq<Event>, decode: Decoder): Option<Trace>
    decreases |events|
  {
    if events == [] then Some(Trace(s, []))
    else if !Enabled(s, events[0]) then None
    else
      var r := Apply(s, events[0], decode);
      match Run(r.next, events[1..], decode)
      case None => None
      case Some(tr) => Some(Trace(tr.final, r.callbacks + tr.callbacks))
  }

  /** How many completion-handler invocations were made for handle `u`. */
  function Deliveries(cs: seq<Callback>, u: Uuid): nat
  {
    if cs == [] then 0
    else (if cs[0].handle == Some(u) then 1 else 0) + Deliveries(cs[1..], u)
  }

  lemma {:induction false} DeliveriesAppend(a: seq<Callback>, b: seq<Callback>, u: Uuid)
    ensures Deliveries(a + b, u) == Deliveries(a, u) + Deliveries(b, u)
  {
    if a != [] {
      assert (a + b)[1..] == a[1..] + b;
      DeliveriesAppend(a[1..], b, u);
    } else {
      assert a + b == b;
    }
  }

  /** 1 when the session still owes handle `u` its completion. */
  function Owed(s: Loader, u: Uuid): nat
  {
    if u in s.session then 1 else 0
  }

  /** 1 when `u` was issued while the handle supply went from `lo` to `hi`. */
  function Issued(lo: Uuid, hi: Uuid, u: Uuid): nat
  {
    if lo <= u < hi then 1 else 0
  }

  /** One step keeps the invariant and balances the books: a handle's completion
      is owed before, or issued now, exactly when it is delivered now or still owed. */
  lemma StepConserves(s: Loader, e: Event, decode: Decoder)
    requires Valid(s) && Enabled(s, e)
    ensures var r := Apply(s, e, decode);
      && Valid(r.next)
      && s.nextUuid <= r.next.nextUuid
      && forall u: Uuid :: Deliveries(r.callbacks, u) + Owed(r.next, u) == Owed(s, u) + Issued(s.nextUuid, r.next.nextUuid, u)
  {
    var r := Apply(s, e, decode);
    forall u
      ensures Deliveries(r.callbacks, u) + Owed(r.next, u) == Owed(s, u) + Issued(s.nextUuid, r.next.nextUuid, u)
    {
      if r.callbacks != [] {
        assert r.callbacks[1..] == [];
      }
    }
  }

  /**
   Exactly one completion per transfer, over any interleaving: for every handle,
   the completions delivered during the run plus the one still owed at the end
   equal the one owed at the start plus one if the handle was issued during the
   run. So no handle is ever completed twice, and none is dropped.
   */
  lemma {:induction false} ExactlyOnce(s: Loader, events: seq<Event>, decode: Decoder)
    requires Valid(s) && Run(s, events, decode).Some?
    ensures var tr := Run(s, events, decode).value;
      && Valid(tr.final)
      && s.nextUuid <= tr.final.nextUuid
      && forall u: Uuid :: Deliveries(tr.callbacks, u) + Owed(tr.final, u) == Owed(s, u) + Issued(s.nextUuid, tr.final.nextUuid, u)
    decreases |events|
  {
    var tr := Run(s, events, decode).value;
    if events != [] {
      var r := Apply(s, events[0], decode);
      StepConserves(s, events[0], decode);
      ExactlyOnce(r.next, events[1..], decode);
      var rest := Run(r.next, events[1..], decode).value;
      assert tr == Trace(rest.final, r.callbacks + rest.callbacks);
      forall u
        ensures Deliveries(tr.callbacks, u) + Owed(tr.final, u) == Owed(s, u) + Issued(s.nextUuid, tr.final.nextUuid, u)
      {
        DeliveriesAppend(r.callbacks, rest.callbacks, u);
      }
    }
  }

  /**
   From the initial state: every handle is completed at most once; a handle that
   was issued has been completed exactly when the session no longer owes it, and
   then it is in neither dictionary; handles never issued are never completed.
   */
  lemma ExactlyOnceFromInitial(events: seq<Event>, decode: Decoder)
    requires Run(Initial, events, decode).Some?
    ensures var tr := Run(Initial, events, decode).value;
      && (forall u: Uuid :: Deliveries(tr.callbacks, u) <= 1)
      && (forall u: Uuid :: u < tr.final.nextUuid ==> (Deliveries(tr.callbacks, u) == 1 <==> u !in tr.final.session))
      && (forall u: Uuid :: Deliveries(tr.callbacks, u) == 1 ==> u !in tr.final.session && u !in tr.final.running)
      && (forall u: Uuid :: tr.final.nextUuid <= u ==> Deliveries(tr.callbacks, u) == 0)
  {
    InitialIsValid();
    ExactlyOnce(Initial, events, decode);
  }

  /** No `Drop` event: the cache is not under memory pressure in this run. */
  predicate NoEviction(events: seq<Event>)
  {
    forall e :: e in events ==> !e.Drop?
  }

  /** No transfer's completion delivered a success (cache hits may have). */
  predicate NoTransferSucceeded(cs: seq<Callback>)
  {
    forall c :: c in cs && c.handle.Some? ==> c.result.Failure?
  }

  /**
   The cache only changes through a successful transfer: without eviction no
   URL ever leaves it, and if every completed transfer failed it ends exactly
   as it started.
   */
  lemma {:induction false} CacheWritesOnlyOnSuccess(s: Loader, events: seq<Event>, decode: Decoder)
    requires Run(s, events, decode).Some? && NoEviction(events)
    ensures var tr := Run(s, events, decode).value;
      && s.cache.Keys <= tr.final.cache.Keys
      && (NoTransferSucceeded(tr.callbacks) ==> tr.final.cache == s.cache)
    decreases |events|
  {
    if events != [] {
      var r := Apply(s, events[0], decode);
      assert events[0] in events;
      assert NoEviction(events[1..]) by {
        forall e | e in events[1..] ensures !e.Drop? {
          assert e in events;
        }
      }
      CacheWritesOnlyOnSuccess(r.next, events[1..], decode);
      var rest := Run(r.next, events[1..], decode).value;
      var tr := Run(s, events, decode).value;
      assert tr.callbacks == r.callbacks + rest.callbacks;
      if NoTransferSucceeded(tr.callbacks) {
        assert NoTransferSucceeded(rest.callbacks) by {
          forall c | c in rest.callbacks ensures c.handle.Some? ==> c.result.Failure? {
            assert c in tr.callbacks;
          }
        }
        if events[0].Finish? {
          assert r.callbacks[0] in tr.callbacks;
        }
      }
    }
  }

  /**
   A fetch whose transfer delivers a decodable 1024-byte payload completes with
   that image, is cached under its URL at cost 1024, and a second fetch of the
   URL is a synchronous hit with no handle.
   */
  lemma SuccessThenHitScenario(url: Url, payload: Data, decode: Decoder)
    requires |payload| == 1024 && decode(payload).Some?
    ensures var events := [Load(url, 7), Finish(0, TransferEnd(Some(payload), None)), Load(url, 8)];
      var tr := Run(Initial, events, decode);
      var img := decode(payload).value;
      && tr.Some?
      && tr.value.callbacks == [Callback(7, Some(0), Success(img)), Callback(8, None, Success(img))]
      && tr.value.final.cache == map[url := CacheEntry(img, 1024)]
      && tr.value.final.running == map[] && tr.value.final.session == map[]
  {
    var events := [Load(url, 7), Finish(0, TransferEnd(Some(payload), None)), Load(url, 8)];
    var r1 := Apply(Initial, events[0], decode);
    var r2 := Apply(r1.next, events[1], decode);
    var r3 := Apply(r2.next, events[2], decode);
    assert events[1..][1..] == [events[2]] && events[1..] == [events[1], events[2]];
    assert events[2..] == [events[2]] && events[2..][1..] == [];
    assert Run(r3.next, events[2..][1..], decode) == Some(Trace(r3.next, []));
    assert r3.callbacks + [] == r3.callbacks;
    assert Run(r2.next, events[2..], decode) == Some(Trace(r3.next, r3.callbacks));
    assert Run(r1.next, events[1..], decode) == Some(Trace(r3.next, r2.callbacks + r3.callbacks));
    assert Run(Initial, events, decode) == Some(Trace(r3.next, r1.callbacks + (r2.callbacks + r3.callbacks)));
  }

  /**
   A fetch cancelled before its transfer ends, where the session reports the
   cancellation, completes exactly once with `Cancelled` and leaves the URL
   uncached.
   */
  lemma CancelBeforeFinishScenario(url: Url, decode: Decoder)
    ensures var events := [Load(url, 7), Cancel(0), Finish(0, TransferEnd(None, Some(NetError(NSURLErrorCancelled))))];
      var tr := Run(Initial, events, decode);
      && tr.Some?
      && tr.value.callbacks == [Callback(7, Some(0), Failure(Cancelled))]
      && url !in tr.value.final.cache
      && tr.value.final.running == map[] && tr.value.final.session == map[]
  {
    var events := [Load(url, 7), Cancel(0), Finish(0, TransferEnd(None, Some(NetError(NSURLErrorCancelled))))];
    var r1 := Apply(Initial, events[0], decode);
    var r2 := Apply(r1.next, events[1], decode);
    var r3 := Apply(r2.next, events[2], decode);
    assert events[1..][1..] == [events[2]] && events[1..] == [events[1], events[2]];
    assert events[2..] == [events[2]] && events[2..][1..] == [];
    assert Run(r3.next, events[2..][1..], decode) == Some(Trace(r3.next, []));
    assert r3.callbacks + [] == r3.callbacks;
    assert Run(r2.next, events[2..], decode) == Some(Trace(r3.next, r3.callbacks));
    assert Run(r1.next, events[1..], decode) == Some(Trace(r3.next, r2.callbacks + r3.callbacks));
    assert Run(Initial, events, decode) == Some(Trace(r3.next, r1.callbacks + (r2.callbacks + r3.callbacks)));
  }
}
