/**
 Arbitrary interleavings of the view layer's entry points with transfer
 completions and cache evictions.
 */
module UITrace {
  import opened Types
  import opened Outcome
  import opened CachedImageLoader
  import opened UIImageLoader

  datatype UIEvent =
    | LoadInto(url: Url, view: View)
    | Finished(handle: Uuid, transfer: TransferEnd)
    | CancelView(view: View)
    | CancelEverything
    | Evicted(url: Url)

  /** The session only finishes tasks it holds. */
  predicate UIEnabled(ui: UI, e: UIEvent)
  {
    e.Finished? ==> e.handle in ui.loader.session
  }

  function UIApply(ui: UI, e: UIEvent, decode: Decoder): UI
    requires UIEnabled(ui, e)
  {
    match e
    case LoadInto(url, view) => Load(ui, url, view)
    case Finished(uuid, t) => TransferFinished(ui, uuid, t, decode)
    case CancelView(view) => CancelFor(ui, view)
    case CancelEverything => CancelAll(ui)
    case Evicted(url) => Drop(ui, url)
  }

  /** Runs the events in order; `None` when some event was not enabled. */
  function UIRun(ui: UI, events: seq<UIEvent>, decode: Decoder): Option<UI>
    decreases |events|
  {
    if events == [] then Some(ui)
    else if !UIEnabled(ui, events[0]) then None
    else UIRun(UIApply(ui, events[0], decode), events[1..], decode)
  }

  /**
   No token in `uuidDict` ever dangles: after any interleaving, each view's
   token names a request that is still running and was started for that view.
   */
  lemma {:induction false} UIRunKeepsTokensLive(ui: UI, events: seq<UIEvent>, decode: Decoder)
    requires UIValid(ui) && UIRun(ui, events, decode).Some?
    ensures UIValid(UIRun(ui, events, decode).value)
    decreases |events|
  {
    if events != [] {
      var next := UIApply(ui, events[0], decode);
      assert UIValid(next);
      UIRunKeepsTokensLive(next, events[1..], decode);
    }
  }

  /** From the start, `cancel(for:)` on any registered view always reaches a
      live request of that view. */
  lemma ReachableTokensAreLive(events: seq<UIEvent>, decode: Decoder, view: View)
    requires UIRun(InitialUI, events, decode).Some?
    ensures var ui := UIRun(InitialUI, events, decode).value;
      view in ui.uuidDict ==>
        && ui.uuidDict[view] in ui.loader.running
        && ui.loader.running[ui.uuidDict[view]].client == view
        && CancelFor(ui, view).loader.running == ui.loader.running - {ui.uuidDict[view]}
  {
    InitialIsValid();
    UIRunKeepsTokensLive(InitialUI, events, decode);
  }
}
