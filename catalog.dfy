/** The page state of js/main.js around the pure parts: all fetched
    listings, the drawn cards and the status line, with `applyAndRender`,
    `loadData` and the favourite-button click. */
module Catalog {
  import opened JsValues
  import opened Seqs
  import opened Listings
  import opened ViewFilter
  import opened Cards
  import opened Favorites

  const LoadingText: string := "Loading data..."
  const LoadFailedText: string := "Failed to load JSON. Use a local server (e.g., Live Server)."

  /** The outcome of fetching the listings file: a network error, a non-OK
      status or a body `res.json()` rejects all end up in `Failed`. */
  datatype Fetch = Failed | Received(listings: seq<Listing>)

  /** What `applyAndRender` draws for the given search box and select values. */
  function ViewOf(ls: seq<Listing>, qRaw: string, modeRaw: string, favs: set<string>): seq<Listing> {
    Visible(ls, NormalizeQuery(qRaw), ModeOf(modeRaw), favs)
  }

  class Catalog {
    const store: FavoriteStore
    /** `JSON.parse`, as listings with string amenities meet it. */
    const parse: string -> Parsed
    var allListings: seq<Listing>
    /** The cards `redraw` last put into the listings element. */
    var cards: seq<Card>
    /** The text of the status element. */
    var status: string

    ghost predicate Valid()
      reads this, store
    {
      store.Valid()
    }

    constructor(store: FavoriteStore, parse: string -> Parsed)
      requires store.Valid()
      ensures Valid()
      ensures this.store == store && this.parse == parse
      ensures allListings == [] && cards == [] && status == ""
    {
      this.store := store;
      this.parse := parse;
      allListings := [];
      cards := [];
      status := "";
    }

    /** `applyAndRender()`: filter by query, then by favourites, draw the first
      50 and report the counts. When a card throws, nothing is drawn and the
      status keeps its text; `ok` tells which happened. */
    method ApplyAndRender(qRaw: string, modeRaw: string) returns (ok: bool)
      requires Valid()
      modifies this
      ensures Valid()
      ensures allListings == old(allListings)
      ensures var view := ViewOf(allListings, qRaw, modeRaw, store.favorites);
              var drawn := CardsOf(Displayed(view), store.favorites, parse);
              && (ok <==> drawn.Done?)
              && (ok ==> cards == drawn.value && status == StatusText(|Displayed(view)|, |view|, |store.favorites|))
              && (!ok ==> cards == old(cards) && status == old(status))
    {
      var q := NormalizeQuery(qRaw);
      var mode := ModeOf(modeRaw);
      var filtered := FilterStages(allListings, q, mode, store.favorites);
      var first50 := filtered[..Min(MaxDisplayed, |filtered|)];
      assert first50 == Displayed(filtered);
      var drawn := CardsOf(first50, store.favorites, parse);
      if drawn.TypeError? {
        return false;
      }
      cards := drawn.value;
      status := StatusText(|first50|, |filtered|, |store.favorites|);
      return true;
    }

    /** `loadData()`: reload the favourites, then show the fetched listings,
      or the failure text when the fetch or the first render fails. */
    method LoadData(fetched: Fetch, qRaw: string, modeRaw: string)
      requires Valid()
      modifies this, store
      ensures Valid()
      ensures store.order == LoadFavorites(old(store.persisted)) && store.persisted == old(store.persisted)
      ensures fetched.Failed? ==> allListings == old(allListings) && cards == old(cards) && status == LoadFailedText
      ensures fetched.Received? ==>
        var view := ViewOf(fetched.listings, qRaw, modeRaw, store.favorites);
        var drawn := CardsOf(Displayed(view), store.favorites, parse);
        && allListings == fetched.listings
        && (drawn.Done? ==> cards == drawn.value && status == StatusText(|Displayed(view)|, |view|, |store.favorites|))
        && (drawn.TypeError? ==> cards == old(cards) && status == LoadFailedText)
    {
      store.Load();
      status := LoadingText;
      if fetched.Failed? {
        status := LoadFailedText;
        return;
      }
      allListings := fetched.listings;
      var ok := ApplyAndRender(qRaw, modeRaw);
      if !ok {
        status := LoadFailedText;
      }
    }

    /** A click on a card's favourite button, whose `data-id` attribute reads
      as `dataId`: nothing for an empty id, else toggle and redraw. */
    method OnFavoriteClick(dataId: string, qRaw: string, modeRaw: string) returns (ok: bool)
      requires Valid()
      modifies this, store
      ensures Valid()
      ensures allListings == old(allListings)
      ensures dataId == "" ==>
        && ok && store.favorites == old(store.favorites) && store.order == old(store.order)
        && store.persisted == old(store.persisted)
        && cards == old(cards) && status == old(status)
      ensures dataId != "" ==>
        && store.favorites == Toggled(old(store.favorites), dataId)
        && store.order == ToggledOrder(old(store.order), dataId)
        && store.persisted == SavedSlot(store.order)
        && var view := ViewOf(allListings, qRaw, modeRaw, store.favorites);
           var drawn := CardsOf(Displayed(view), store.favorites, parse);
           && (ok <==> drawn.Done?)
           && (ok ==> cards == drawn.value && status == StatusText(|Displayed(view)|, |view|, |store.favorites|))
           && (!ok ==> cards == old(cards) && status == old(status))
    {
      if dataId == "" {
        return true;
      }
      store.Toggle(dataId);
      ok := ApplyAndRender(qRaw, modeRaw);
    }
  }
}
