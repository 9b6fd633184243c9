/** The merge of the model's roasts back onto the roasted items
    (src/app/page.tsx, lines 337-345): each roast takes the image of the
    first item whose name contains the roast's name or is contained in it. */
module Merge {
  import opened Wrappers
  import opened Text
  import opened Items
  import opened RoastData

  /** A card the page shows: the roast's own name and text, plus an image. */
  datatype Card = Card(name: string, roast: string, image: string)

  /** The fuzzy match: case-sensitive containment in either direction. */
  ghost predicate Related(itemName: string, roastName: string) {
    IsInfix(roastName, itemName) || IsInfix(itemName, roastName)
  }

  /** `item.name.includes(roastName) || roastName.includes(item.name)`. */
  function NamesMatch(itemName: string, roastName: string): (b: bool)
    ensures b <==> Related(itemName, roastName)
  {
    IncludesIsInfix(itemName, roastName);
    IncludesIsInfix(roastName, itemName);
    Includes(itemName, roastName) || Includes(roastName, itemName)
  }

  /** `allItems.find(...)` from index `from` on: the index of the first
      related item, or None. */
  function FindFrom(items: seq<Item>, roastName: string, from: nat): (r: Option<nat>)
    requires from <= |items|
    ensures r.Some? ==> from <= r.value < |items| && Related(items[r.value].name, roastName)
    ensures r.Some? ==> forall k :: from <= k < r.value ==> !Related(items[k].name, roastName)
    ensures r.None? ==> forall k :: from <= k < |items| ==> !Related(items[k].name, roastName)
    decreases |items| - from
  {
    if from == |items| then None
    else if NamesMatch(items[from].name, roastName) then Some(from)
    else FindFrom(items, roastName, from + 1)
  }

  /** The index of the first item related to `roastName`. */
  function FirstMatch(items: seq<Item>, roastName: string): (r: Option<nat>)
    ensures r.Some? ==> r.value < |items| && Related(items[r.value].name, roastName)
    ensures r.Some? ==> forall k :: 0 <= k < r.value ==> !Related(items[k].name, roastName)
    ensures r.None? <==> forall k :: 0 <= k < |items| ==> !Related(items[k].name, roastName)
  {
    FindFrom(items, roastName, 0)
  }

  /** `original?.image || ""`: the first related item's image, or "" when no
      item is related. A first match with an empty image gives "" even when a
      later item would have one. */
  function ImageFor(items: seq<Item>, roastName: string): (image: string)
    ensures image != "" ==> exists k :: 0 <= k < |items| && items[k].image == image
                                       && Related(items[k].name, roastName)
                                       && forall j :: 0 <= j < k ==> !Related(items[j].name, roastName)
    ensures (forall k :: 0 <= k < |items| ==> !Related(items[k].name, roastName)) ==> image == ""
    ensures FirstMatch(items, roastName).Some? ==> image == items[FirstMatch(items, roastName).value].image
  {
    match FirstMatch(items, roastName)
    case None => ""
    case Some(k) => items[k].image
  }

  /** `data.roasts.map(...)`: one card per roast, in the roasts' order, with
      the roast's name and text copied and the image looked up by name. */
  function Reconcile(items: seq<Item>, roasts: seq<RoastEntry>): (cards: seq<Card>)
    ensures |cards| == |roasts|
    ensures forall i :: 0 <= i < |roasts| ==>
              cards[i].name == roasts[i].name && cards[i].roast == roasts[i].roast
    ensures forall i :: 0 <= i < |roasts| ==> cards[i].image == ImageFor(items, roasts[i].name)
  {
    seq(|roasts|, i requires 0 <= i < |roasts| =>
      Card(roasts[i].name, roasts[i].roast, ImageFor(items, roasts[i].name)))
  }

  /** The image is decided by the first related item alone: with `k` the
      first related index, every card for that name shows `items[k].image`. */
  lemma FirstRelatedItemDecides(items: seq<Item>, roastName: string, k: int)
    requires 0 <= k < |items| && Related(items[k].name, roastName)
    requires forall j :: 0 <= j < k ==> !Related(items[j].name, roastName)
    ensures ImageFor(items, roastName) == items[k].image
  {
  }

  /** Reconciling a concatenation of roast lists reconciles each part. */
  lemma ReconcileAppend(items: seq<Item>, a: seq<RoastEntry>, b: seq<RoastEntry>)
    ensures Reconcile(items, a + b) == Reconcile(items, a) + Reconcile(items, b)
  {
  }

  /** An empty roast name is contained in every name, so it takes the first
      item's image whenever there is an item. */
  lemma EmptyRoastNameTakesFirstItem(items: seq<Item>)
    requires |items| > 0
    ensures ImageFor(items, "") == items[0].image
  {
  }

  /** A playlist item is related to a roast named after just its track, or
      just its first artist. */
  lemma PlaylistItemRelatedToParts(e: PlaylistEntry)
    requires PlaylistItem(e).Some?
    ensures Related(PlaylistItem(e).value.name, e.track.value.name)
    ensures Related(PlaylistItem(e).value.name, e.track.value.artists[0].name)
  {
    var t := e.track.value;
    var name := PlaylistItem(e).value.name;
    assert OccursAt(name, t.name, 0);
    assert OccursAt(name, t.artists[0].name, |t.name| + |ByWord|);
  }

  /** The matching example: a roast named after the track finds the
      composite "track by artist" item. */
  lemma ExampleSubstringMatch()
    ensures Reconcile([Item("Blinding Lights by The Weeknd", "x")],
                      [RoastEntry("Blinding Lights", "r")])
            == [Card("Blinding Lights", "r", "x")]
  {
  }

  /** The search stops at the first related item even when its image is
      empty and a later related item has one. */
  lemma ExampleFirstMatchWithoutImage()
    ensures Reconcile([Item("Blinding Lights", ""), Item("Blinding Lights by The Weeknd", "x")],
                      [RoastEntry("Blinding Lights", "r")])
            == [Card("Blinding Lights", "r", "")]
  {
  }
}
