/** The icon catalog cache: a sparse array indexed by icon id that holds the
    available listings, filled by a scan over every listing index. */
module Catalog {
  import opened Ledger

  /** The cached part of a listing: its id, enum type and price. */
  datatype CachedIcon = CachedIcon(id: nat, iconType: nat, price: nat)

  /** A card of the shop grid: the id its buttons open and the enum type it
      shows; its image is named after Format.IconTypeName(iconType) and its
      label is Format.DisplayName(iconType). */
  datatype IconCard = IconCard(id: nat, iconType: nat)

  /** The shop grid: the prompt shown while disconnected, the error message,
      the "no icons yet" message, or the cards. */
  datatype IconsView = IconsPrompt | IconsError | NoIcons | IconCards(cards: seq<IconCard>)

  /** Index of the first read that threw, or |s| when none did. */
  function FirstFailure<T>(s: seq<Fetch<T>>): (n: nat)
    ensures n <= |s|
    ensures forall k :: 0 <= k < n ==> s[k].Fetched?
    ensures n < |s| ==> s[n].Failed?
  {
    if s == [] || s[0].Failed? then 0 else 1 + FirstFailure(s[1..])
  }

  /** The cache entry at `id` once the scan over `icons` has ended: the scan
      stops at the first read that throws, and skips unavailable listings. */
  function CachedAt(icons: seq<Fetch<Icon>>, id: int): Option<CachedIcon> {
    if 0 <= id < FirstFailure(icons) then Entry(id, icons[id].value) else None
  }

  /** The entry the scan writes for listing `id`, or none when it skips it. */
  function Entry(id: nat, icon: Icon): Option<CachedIcon> {
    if icon.available then Some(CachedIcon(id, icon.iconType, icon.price)) else None
  }

  /** The cache has an entry at `id` exactly when listing `id` exists, it and
      every listing before it could be read, and it is available; the entry
      carries that id, type and price. */
  lemma CachedAtExactly(icons: seq<Fetch<Icon>>, id: int)
    ensures CachedAt(icons, id).Some? <==>
      0 <= id < |icons| && (forall k :: 0 <= k <= id ==> icons[k].Fetched?) && icons[id].value.available
    ensures CachedAt(icons, id).Some? ==>
      CachedAt(icons, id).value == CachedIcon(id, icons[id].value.iconType, icons[id].value.price)
  {
    var f := FirstFailure(icons);
    assert f < |icons| ==> icons[f].Failed?;
  }

  /** When every read succeeds, the cache holds exactly the available listings. */
  lemma CachedWhenAllRead(icons: seq<Fetch<Icon>>, id: int)
    requires AllFetched(icons)
    ensures CachedAt(icons, id).Some? <==> 0 <= id < |icons| && icons[id].value.available
  {
    CachedAtExactly(icons, id);
  }

  /** An empty catalog leaves the cache empty. */
  lemma EmptyCatalog(id: int)
    ensures CachedAt([], id) == None
  {
  }

  /** The card shown for listing `i`. */
  function Card(i: nat, icon: Icon): IconCard {
    IconCard(i, icon.iconType)
  }

  /** The cards of the grid, in the order of the scan. */
  function Cards(icons: seq<Icon>): seq<IconCard> {
    if icons == [] then []
    else
      var i := |icons| - 1;
      Cards(icons[..i]) + (if icons[i].available then [Card(i, icons[i])] else [])
  }

  /** Every card is the card of an available listing, and the cards come in
      ascending id order. */
  lemma {:induction false} CardsAreAvailable(icons: seq<Icon>)
    ensures forall k :: 0 <= k < |Cards(icons)| ==>
      Cards(icons)[k].id < |icons| && icons[Cards(icons)[k].id].available &&
      Cards(icons)[k] == Card(Cards(icons)[k].id, icons[Cards(icons)[k].id])
    ensures forall k1, k2 :: 0 <= k1 < k2 < |Cards(icons)| ==> Cards(icons)[k1].id < Cards(icons)[k2].id
  {
    if icons != [] {
      var i := |icons| - 1;
      var prev := Cards(icons[..i]);
      var cards := Cards(icons);
      CardsAreAvailable(icons[..i]);
      forall k | 0 <= k < |prev|
        ensures prev[k].id < i && icons[prev[k].id].available && prev[k] == Card(prev[k].id, icons[prev[k].id])
      {
        assert icons[..i][prev[k].id] == icons[prev[k].id];
      }
      forall k | 0 <= k < |cards|
        ensures cards[k].id < |icons| && icons[cards[k].id].available && cards[k] == Card(cards[k].id, icons[cards[k].id])
      {
        if k < |prev| {
          assert cards[k] == prev[k];
        }
      }
    }
  }

  /** Every available listing gets its card. */
  lemma {:induction false} CardsComplete(icons: seq<Icon>, i: nat)
    requires i < |icons| && icons[i].available
    ensures exists k :: 0 <= k < |Cards(icons)| && Cards(icons)[k] == Card(i, icons[i])
  {
    var last := |icons| - 1;
    var prev := Cards(icons[..last]);
    if i == last {
      assert Cards(icons)[|prev|] == Card(i, icons[i]);
    } else {
      CardsComplete(icons[..last], i);
      var k :| 0 <= k < |prev| && prev[k] == Card(i, icons[..last][i]);
      assert Cards(icons)[k] == prev[k];
    }
  }

  /** The cards are exactly those of the available listings: listing `i` has
      a card if and only if it exists and is available. */
  lemma CardsExactly(icons: seq<Icon>, i: int)
    ensures (exists k :: 0 <= k < |Cards(icons)| && Cards(icons)[k].id == i)
        <==> 0 <= i < |icons| && icons[i].available
  {
    CardsAreAvailable(icons);
    if 0 <= i < |icons| && icons[i].available {
      CardsComplete(icons, i);
    }
  }

  /** The slots written by a scan that stopped at index `n`, because the read
      there threw or because the listings ran out, are those of CachedAt. */
  lemma CacheAfterScan(slots: seq<Option<CachedIcon>>, icons: seq<Fetch<Icon>>, n: nat)
    requires n <= |icons| == |slots|
    requires forall k :: 0 <= k < n ==> icons[k].Fetched?
    requires n < |icons| ==> icons[n].Failed?
    requires forall k :: 0 <= k < n ==> slots[k] == Entry(k, icons[k].value)
    requires forall k :: n <= k < |slots| ==> slots[k] == None
    ensures forall id :: 0 <= id < |slots| ==> slots[id] == CachedAt(icons, id)
  {
    assert FirstFailure(icons) == n;
  }

  /** The loop of the shop over indices 0 .. count - 1, writing into a cache
      that starts empty. Afterwards each slot holds what CachedAt says; the grid
      shows the cards of the available listings, or the error message when a
      read threw (the entries cached before that read stay). */
  method FillCatalog(cache: array<Option<CachedIcon>>, icons: seq<Fetch<Icon>>) returns (view: IconsView)
    requires cache.Length == |icons|
    requires forall k :: 0 <= k < cache.Length ==> cache[k] == None
    modifies cache
    ensures forall id :: 0 <= id < cache.Length ==> cache[id] == CachedAt(icons, id)
    ensures view == if AllFetched(icons) then IconCards(Cards(Values(icons))) else IconsError
  {
    var cards: seq<IconCard> := [];
    var i := 0;
    while i < |icons|
      invariant 0 <= i <= |icons|
      invariant AllFetched(icons[..i])
      invariant cards == Cards(Values(icons[..i]))
      invariant forall k :: 0 <= k < i ==> cache[k] == Entry(k, icons[k].value)
      invariant forall k :: i <= k < cache.Length ==> cache[k] == None
    {
      if icons[i].Failed? {
        CacheAfterScan(cache[..], icons, i);
        return IconsError;
      }
      var icon := icons[i].value;
      ValuesPrefix(icons, i);
      assert Values(icons[..i + 1])[..i] == Values(icons[..i]);
      if icon.available {
        cache[i] := Some(CachedIcon(i, icon.iconType, icon.price));
        cards := cards + [Card(i, icon)];
      }
      i := i + 1;
    }
    CacheAfterScan(cache[..], icons, i);
    assert icons[..i] == icons;
    view := IconCards(cards);
  }
}
