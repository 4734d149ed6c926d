/**
 `UIImageLoader`'s bookkeeping on top of the loader: `uuidDict` maps each image
 view to the handle of the request it started, so that the view's request can
 be cancelled later. The presentation work (spinner, fade-in, placeholder) is
 not modelled.
 */
module UIImageLoader {
  import opened Types
  import opened Outcome
  import opened CachedImageLoader

  /** An image view. Its completion closure is named by the view itself. */
  type View = Client

  datatype UI = UI(loader: Loader, uuidDict: map<View, Uuid>)

  const InitialUI: UI := UI(Initial, map[])

  /**
   Every registered token names a request that is still running and was
   started for that very view. (The converse does not hold: a view's older
   request may keep running unregistered.)
   */
  ghost predicate UIValid(ui: UI)
  {
    && Valid(ui.loader)
    && forall v :: v in ui.uuidDict ==>
         ui.uuidDict[v] in ui.loader.running && ui.loader.running[ui.uuidDict[v]].client == v
  }

  /** Under the invariant no two views share a token. */
  lemma TokensAreInjective(ui: UI, v: View, w: View)
    requires UIValid(ui) && v in ui.uuidDict && w in ui.uuidDict
    ensures ui.uuidDict[v] == ui.uuidDict[w] <==> v == w
  {
  }

  /** The views whose completion closure ran during `cs`: each closure's
      deferred cleanup removes its view's entry. */
  function ViewsCompleted(cs: seq<Callback>): set<View>
  {
    set i | 0 <= i < |cs| :: cs[i].client
  }

  /**
   `load(from:for:errorPlaceholderImage:)`. On a cache hit the completion runs
   synchronously and its cleanup removes the view's entry, and no token is
   registered. On a miss the new token is stored for the view, overwriting any
   earlier one without cancelling it.
   */
  function Load(ui: UI, url: Url, view: View): (r: UI)
    ensures url in ui.loader.cache ==> r.loader == ui.loader && r.uuidDict == ui.uuidDict - {view}
    ensures url !in ui.loader.cache ==>
      && view in r.uuidDict
      && r.uuidDict == ui.uuidDict[view := r.uuidDict[view]]
      && r.loader.running == ui.loader.running[r.uuidDict[view] := Task(url, view, false)]
      && r.loader.cache == ui.loader.cache
    ensures UIValid(ui) && url !in ui.loader.cache ==> r.uuidDict[view] !in ui.loader.session
    ensures UIValid(ui) ==> UIValid(r)
  {
    var reply := LoadImage(ui.loader, url, view);
    assert reply.callbacks != [] ==> ViewsCompleted(reply.callbacks) == {view} by {
      if reply.callbacks != [] {
        assert reply.callbacks[0].client in ViewsCompleted(reply.callbacks);
      }
    }
    var dict := ui.uuidDict - ViewsCompleted(reply.callbacks);
    UI(reply.next, if reply.token.Some? then dict[view := reply.token.value] else dict)
  }

  /**
   The transfer of handle `uuid` ends: the loader's completion handler runs,
   then the view's closure removes the view's entry, whatever the outcome and
   whatever token the entry holds by then.
   */
  function TransferFinished(ui: UI, uuid: Uuid, t: TransferEnd, decode: Decoder): (r: UI)
    requires uuid in ui.loader.session
    ensures r.uuidDict == ui.uuidDict - {ui.loader.session[uuid].client}
    ensures r.loader.running == ui.loader.running - {uuid}
    ensures r.loader.session == ui.loader.session - {uuid}
    ensures UIValid(ui) ==> UIValid(r)
  {
    var reply := Complete(ui.loader, uuid, t, decode);
    UI(reply.next, ui.uuidDict - ViewsCompleted(reply.callbacks))
  }

  /**
   `cancel(for:)`: a view with a token has exactly that token cancelled and its
   own entry removed; a view without a token is left alone.
   */
  function CancelFor(ui: UI, view: View): (r: UI)
    ensures view !in ui.uuidDict ==> r == ui
    ensures view in ui.uuidDict ==>
      && r.uuidDict == ui.uuidDict - {view}
      && r.loader == CancelLoading(ui.loader, ui.uuidDict[view])
      && r.loader.running == ui.loader.running - {ui.uuidDict[view]}
      && r.loader.cache == ui.loader.cache
      && r.loader.session.Keys == ui.loader.session.Keys
    ensures UIValid(ui) && view in ui.uuidDict ==>
      && ui.uuidDict[view] in ui.loader.running
      && ui.uuidDict[view] in r.loader.session
      && r.loader.session[ui.uuidDict[view]].cancelled
    ensures UIValid(ui) ==> UIValid(r)
  {
    if view in ui.uuidDict then
      UI(CancelLoading(ui.loader, ui.uuidDict[view]), ui.uuidDict - {view})
    else
      ui
  }

  /** The cache dropping a URL, seen from the view layer. */
  function Drop(ui: UI, url: Url): (r: UI)
    ensures url !in r.loader.cache && r.uuidDict == ui.uuidDict
    ensures r.loader.running == ui.loader.running && r.loader.session == ui.loader.session
    ensures UIValid(ui) ==> UIValid(r)
  {
    UI(Evict(ui.loader, url), ui.uuidDict)
  }

  /** The loader after `cancelLoading` was called for every handle in `tokens`,
      in any order: those handles leave `running`, and the session's tasks of
      the ones that were running are marked cancelled. */
  function CancelTokens(l: Loader, tokens: set<Uuid>): Loader
  {
    Loader(
      l.cache,
      map u | u in l.running && u !in tokens :: l.running[u],
      map u | u in l.session :: if u in tokens && u in l.running then l.session[u].(cancelled := true) else l.session[u],
      l.nextUuid)
  }

  /** Cancelling one more handle extends the set of cancelled handles. */
  lemma CancelTokensStep(l: Loader, tokens: set<Uuid>, uuid: Uuid)
    ensures CancelLoading(CancelTokens(l, tokens), uuid) == CancelTokens(l, tokens + {uuid})
  {
  }

  /** The tokens of the views in `views`. */
  function TokensOf(dict: map<View, Uuid>, views: set<View>): set<Uuid>
  {
    set v | v in views && v in dict :: dict[v]
  }

  /**
   `cancelAll()`, stated by its effect: every registered token is cancelled and
   the dictionary ends empty. `CancelAllLoop` shows that the source's loop over
   the views reaches exactly this state, in whatever order it visits them.
   */
  function CancelAll(ui: UI): (r: UI)
    ensures r.uuidDict == map[]
    ensures r.loader.running == ui.loader.running - ui.uuidDict.Values
    ensures r.loader.cache == ui.loader.cache && r.loader.nextUuid == ui.loader.nextUuid
    ensures r.loader.session.Keys == ui.loader.session.Keys
    ensures forall u :: u in ui.loader.session && u !in ui.uuidDict.Values ==> r.loader.session[u] == ui.loader.session[u]
    ensures UIValid(ui) ==> forall v :: v in ui.uuidDict ==>
      ui.uuidDict[v] in r.loader.session && r.loader.session[ui.uuidDict[v]].cancelled
    ensures UIValid(ui) ==> UIValid(r)
  {
    UI(CancelTokens(ui.loader, ui.uuidDict.Values), map[])
  }

  /** Before the loop of `cancelAll()` nothing is cancelled yet. */
  lemma CancelAllStart(ui: UI)
    ensures ui.loader == CancelTokens(ui.loader, TokensOf(ui.uuidDict, ui.uuidDict.Keys - ui.uuidDict.Keys))
  {
  }

  /** After the loop of `cancelAll()` every registered token is cancelled. */
  lemma CancelAllEnd(ui: UI, r: UI)
    requires r.uuidDict == map[]
    requires r.loader == CancelTokens(ui.loader, TokensOf(ui.uuidDict, ui.uuidDict.Keys))
    ensures r == CancelAll(ui)
  {
  }

  /** One iteration of `cancelAll()`'s loop keeps its invariant. */
  lemma CancelAllStep(ui: UI, remaining: set<View>, r: UI, view: View)
    requires view in remaining && remaining <= ui.uuidDict.Keys
    requires r.uuidDict == map v | v in remaining :: ui.uuidDict[v]
    requires r.loader == CancelTokens(ui.loader, TokensOf(ui.uuidDict, ui.uuidDict.Keys - remaining))
    ensures var r' := CancelFor(r, view);
      && r'.uuidDict == (map v | v in remaining - {view} :: ui.uuidDict[v])
      && r'.loader == CancelTokens(ui.loader, TokensOf(ui.uuidDict, ui.uuidDict.Keys - (remaining - {view})))
  {
    var done := ui.uuidDict.Keys - remaining;
    CancelTokensStep(ui.loader, TokensOf(ui.uuidDict, done), ui.uuidDict[view]);
    assert TokensOf(ui.uuidDict, done + {view}) == TokensOf(ui.uuidDict, done) + {ui.uuidDict[view]};
    assert ui.uuidDict.Keys - (remaining - {view}) == done + {view};
  }

  /**
   `cancelAll()` as written: visit the views registered at the start, one at a
   time in an unspecified order, and call `cancel(for:)` on each.
   */
  method CancelAllLoop(ui: UI) returns (r: UI)
    ensures r == CancelAll(ui)
  {
    var remaining := ui.uuidDict.Keys;
    r := ui;
    CancelAllStart(ui);
    while remaining != {}
      invariant remaining <= ui.uuidDict.Keys
      invariant r.uuidDict == map v | v in remaining :: ui.uuidDict[v]
      invariant r.loader == CancelTokens(ui.loader, TokensOf(ui.uuidDict, ui.uuidDict.Keys - remaining))
      decreases remaining
    {
      var view :| view in remaining;
      CancelAllStep(ui, remaining, r, view);
      r := CancelFor(r, view);
      remaining := remaining - {view};
    }
    assert ui.uuidDict.Keys - remaining == ui.uuidDict.Keys;
    CancelAllEnd(ui, r);
  }

  /**
   Loading into a view that already has a token replaces the token without
   cancelling the earlier request: it keeps running, uncancelled, and no view
   holds its handle any more.
   */
  lemma OverwriteWithoutCancel(ui: UI, url: Url, view: View)
    requires UIValid(ui) && view in ui.uuidDict && url !in ui.loader.cache
    ensures var old_token := ui.uuidDict[view];
      var r := Load(ui, url, view);
      && old_token in r.loader.running
      && !r.loader.session[old_token].cancelled
      && old_token !in r.uuidDict.Values
  {
  }

  /**
   The cleanup in a view's completion removes the view's entry unconditionally.
   When an older request of the view finishes after a newer one was registered,
   the newer request keeps running but no view holds its handle, so neither
   `cancel(for:)` nor `cancelAll()` can reach it any more.
   */
  lemma StaleCompletionOrphansNewerToken(ui: UI, uuid: Uuid, t: TransferEnd, decode: Decoder)
    requires UIValid(ui) && uuid in ui.loader.session
    requires ui.loader.session[uuid].client in ui.uuidDict
    requires ui.uuidDict[ui.loader.session[uuid].client] != uuid
    ensures var view := ui.loader.session[uuid].client;
      var newer := ui.uuidDict[view];
      var r := TransferFinished(ui, uuid, t, decode);
      && view !in r.uuidDict
      && newer in r.loader.running
      && newer !in r.uuidDict.Values
  {
  }

  /** A cache-hit load leaves the view without an entry, so a later
      `cancel(for:)` of the view does nothing at all. */
  lemma CacheHitRegistersNothing(ui: UI, url: Url, view: View)
    requires url in ui.loader.cache
    ensures var r := Load(ui, url, view);
      && view !in r.uuidDict
      && CancelFor(r, view) == r
  {
  }
}
