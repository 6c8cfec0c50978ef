/**
 * The "Latest Music" section: three album cards whose ids are `album-<id>`, and
 * the set of card ids currently in view, updated from each batch of observer
 * entries. A card in the set takes the visible classes; the others take the
 * entry-animation class of their position.
 */
module MusicSection {
  import opened Wrappers
  import opened Observation

  datatype Album = Album(id: nat, title: string, releaseDate: string, imageUrl: string)

  const Albums: seq<Album> := [
    Album(1, "Echoes of the Void", "Oct 2024", "/MusicSection/—Pngtree—electronic music album_1301130.jpg"),
    Album(2, "Infinite Descent", "Jan 2024", "/MusicSection/WhatsApp Image 2025-08-26 at 02.34.10.jpeg"),
    Album(3, "The Unseen Pulse", "May 2023", "/MusicSection/568873-Music-vinyl-album-covers-John-Lennon-2560x1440.jpg")
  ]

  /** The hidden-state class of the left, centre and right card. */
  const InitialAnimationClasses: seq<string> := [
    "opacity-0 -translate-x-20",
    "opacity-0 translate-y-10",
    "opacity-0 translate-x-20"
  ]

  const VisibleClass: string := "opacity-100 translate-x-0 translate-y-0"

  // ---------------------------------------------------------------------------
  // Card ids

  function DigitChar(d: nat): char
    requires d < 10
  {
    "0123456789"[d]
  }

  /** The decimal text of a number, as a template literal prints it. */
  function NatToString(n: nat): string
    decreases n
  {
    if n < 10 then [DigitChar(n)] else NatToString(n / 10) + [DigitChar(n % 10)]
  }

  lemma NatToStringLength(n: nat)
    ensures |NatToString(n)| >= 1
    ensures n >= 10 ==> |NatToString(n)| >= 2
    decreases n
  {
    if n >= 10 {
      NatToStringLength(n / 10);
    }
  }

  /** Different numbers print differently. */
  lemma {:induction false} NatToStringInjective(a: nat, b: nat)
    requires NatToString(a) == NatToString(b)
    ensures a == b
    decreases a
  {
    NatToStringLength(a);
    NatToStringLength(b);
    var sa := NatToString(a);
    if a >= 10 && b >= 10 {
      var sb := NatToString(b);
      assert sa[|sa| - 1] == DigitChar(a % 10) && sb[|sb| - 1] == DigitChar(b % 10);
      assert sa[..|sa| - 1] == NatToString(a / 10) && sb[..|sb| - 1] == NatToString(b / 10);
      NatToStringInjective(a / 10, b / 10);
    }
  }

  /** `album-${album.id}` */
  function CardId(album: Album): string {
    "album-" + NatToString(album.id)
  }

  lemma CardIdInjective(a: Album, b: Album)
    requires CardId(a) == CardId(b)
    ensures a.id == b.id
  {
    var p := "album-";
    assert NatToString(a.id) == CardId(a)[|p|..] && NatToString(b.id) == CardId(b)[|p|..];
    NatToStringInjective(a.id, b.id);
  }

  /** The album ids are distinct, so the card ids are too. */
  lemma CardIdsDistinct(i: nat, j: nat)
    requires i < |Albums| && j < |Albums| && i != j
    ensures CardId(Albums[i]) != CardId(Albums[j])
  {
    if CardId(Albums[i]) == CardId(Albums[j]) {
      CardIdInjective(Albums[i], Albums[j]);
    }
  }

  // ---------------------------------------------------------------------------
  // The visibility set

  /** One step of the `forEach`: an entering card is added, a leaving one deleted. */
  function ApplyEntry(visible: set<string>, e: Entry): set<string> {
    if e.isIntersecting then visible + {e.targetId} else visible - {e.targetId}
  }

  /** The copy `updatedVisibleCards` after the whole batch. */
  function ApplyBatch(visible: set<string>, entries: seq<Entry>): set<string> {
    if |entries| == 0 then visible
    else ApplyEntry(ApplyBatch(visible, entries[..|entries| - 1]), entries[|entries| - 1])
  }

  /** The `isIntersecting` flag of the last entry about `id`, if the batch names it. */
  function LastFor(entries: seq<Entry>, id: string): Option<bool> {
    if |entries| == 0 then None
    else if entries[|entries| - 1].targetId == id then Some(entries[|entries| - 1].isIntersecting)
    else LastFor(entries[..|entries| - 1], id)
  }

  /**
   * After a batch an id is in the set exactly when its last entry says it is
   * intersecting; an id the batch does not name keeps its membership.
   */
  lemma {:induction false} BatchMembership(visible: set<string>, entries: seq<Entry>, id: string)
    ensures id in ApplyBatch(visible, entries) <==>
      (match LastFor(entries, id) case Some(b) => b case None => id in visible)
  {
    if |entries| > 0 {
      BatchMembership(visible, entries[..|entries| - 1], id);
    }
  }

  /** Applying a batch a second time changes nothing. */
  lemma ApplyBatchIdempotent(visible: set<string>, entries: seq<Entry>)
    ensures ApplyBatch(ApplyBatch(visible, entries), entries) == ApplyBatch(visible, entries)
  {
    var once := ApplyBatch(visible, entries);
    forall id ensures id in ApplyBatch(once, entries) <==> id in once {
      BatchMembership(once, entries, id);
      BatchMembership(visible, entries, id);
    }
  }

  /** The class list of card `index`: the visible classes exactly when its id is in the set. */
  function CardClass(visible: set<string>, index: nat): string
    requires index < |Albums|
  {
    if CardId(Albums[index]) in visible then VisibleClass else InitialAnimationClasses[index]
  }

  /** There is a hidden-state class for every card, and none of them is the visible class. */
  lemma CardClassExact(visible: set<string>, index: nat)
    requires index < |Albums|
    ensures |InitialAnimationClasses| == |Albums|
    ensures CardClass(visible, index) == VisibleClass <==> CardId(Albums[index]) in visible
    ensures CardId(Albums[index]) !in visible ==> CardClass(visible, index) == InitialAnimationClasses[index]
  {
    assert VisibleClass[..9] == "opacity-1";
    assert forall k :: 0 <= k < 3 ==> InitialAnimationClasses[k][..9] == "opacity-0";
  }

  class MusicSectionState {
    /** `visibleCards` */
    var visibleCards: set<string>

    constructor ()
      ensures visibleCards == {}
    {
      visibleCards := {};
    }

    /**
     * The effect that runs on a new batch: nothing happens for an empty batch;
     * otherwise a copy of the set is updated entry by entry and stored.
     */
    method OnEntries(entries: seq<Entry>) returns (updated: bool)
      modifies this
      ensures updated <==> |entries| > 0
      ensures visibleCards == ApplyBatch(old(visibleCards), entries)
    {
      if |entries| == 0 {
        return false;
      }
      var copy := visibleCards;
      var i := 0;
      while i < |entries|
        invariant 0 <= i <= |entries|
        invariant copy == ApplyBatch(visibleCards, entries[..i])
      {
        assert entries[..i + 1][..i] == entries[..i];
        if entries[i].isIntersecting {
          copy := copy + {entries[i].targetId};
        } else {
          copy := copy - {entries[i].targetId};
        }
        i := i + 1;
      }
      assert entries[..i] == entries;
      visibleCards := copy;
      updated := true;
    }
  }
}
