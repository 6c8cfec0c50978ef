/**
 * The tour section: an autoplaying slideshow of four images with one dot button
 * per slide, the list of tour dates whose "Details" buttons select a date for the
 * ticket modal, and a fade-in that is latched on once an observer entry reports
 * the section in view. The interval timer is modelled by a clock: the section
 * remembers when it was mounted and how many ticks have fired.
 */
module TourSection {
  import opened Wrappers
  import opened Observation
  import opened TourModal

  datatype Slide = Slide(url: string, alt: string)

  const SlideImages: seq<Slide> := [
    Slide("/TourSection/WhatsApp Image 2025-08-26 at 04.10.00.jpeg", "View from the concert crowd"),
    Slide("/TourSection/WhatsApp Image 2025-08-26 at 04.10.01 (1).jpeg", "Artist performing on stage"),
    Slide("/TourSection/WhatsApp Image 2025-08-26 at 04.10.01.jpeg", "Backstage view of the event"),
    Slide("/TourSection/WhatsApp Image 2025-08-26 at 04.10.20.jpeg", "Exterior of the concert venue")
  ]

  /** Milliseconds between two autoplay steps. */
  const AutoplayInterval: nat := 4000

  const TourDates: seq<TourDate> := [
    TourDate(1, "November 15, 2024", "The Warehouse", "New York, NY", [
      PriceTier("General Admission", "$75"),
      PriceTier("Mezzanine", "$120"),
      PriceTier("VIP Meet & Greet", "$250")]),
    TourDate(2, "December 2, 2024", "Black Box Theatre", "Los Angeles, CA", [
      PriceTier("Floor Standing", "$85"),
      PriceTier("Balcony Seated", "$135")]),
    TourDate(3, "January 10, 2025", "The Underground", "London, UK", [
      PriceTier("General Admission", "£60"),
      PriceTier("VIP Package", "£150")]),
    TourDate(4, "February 5, 2025", "The Fillmore", "San Francisco, CA", [
      PriceTier("General Admission", "$80"),
      PriceTier("Mezzanine", "$125"),
      PriceTier("VIP Table (4 seats)", "$600")])
  ]

  /** The list keys are unique: tour ids across the list, tier names within each date. */
  lemma TourDateKeysDistinct()
    ensures forall i, j :: 0 <= i < j < |TourDates| ==> TourDates[i].id != TourDates[j].id
    ensures forall t :: 0 <= t < |TourDates| ==>
      var p := TourDates[t].pricing;
      forall i, j :: 0 <= i < j < |p| ==> p[i].tier != p[j].tier
  {
    forall t | 0 <= t < |TourDates|
      ensures var p := TourDates[t].pricing;
        forall i, j :: 0 <= i < j < |p| ==> p[i].tier != p[j].tier
    {
      var p := TourDates[t].pricing;
      forall i, j | 0 <= i < j < |p| ensures p[i].tier != p[j].tier {
        assert |p[i].tier| != |p[j].tier| || p[i].tier[0] != p[j].tier[0];
      }
    }
  }

  // ---------------------------------------------------------------------------
  // The slideshow index

  /** JavaScript's `%` on integers: the remainder truncated toward zero, so it takes the sign of `a`. */
  function JsRem(a: int, b: int): int
    requires b > 0
  {
    if a >= 0 then a % b else -((-a) % b)
  }

  /** The autoplay step `(prevIndex + 1) % slideImages.length`. */
  function NextIndex(prev: int): int {
    JsRem(prev + 1, |SlideImages|)
  }

  /** The index after `n` autoplay steps from `i`. */
  function Steps(i: int, n: nat): int {
    if n == 0 then i else NextIndex(Steps(i, n - 1))
  }

  /** From a valid index the step wraps around the four slides and stays in range. */
  lemma NextIndexInRange(prev: int)
    requires 0 <= prev < |SlideImages|
    ensures 0 <= NextIndex(prev) < |SlideImages|
    ensures NextIndex(prev) == if prev == |SlideImages| - 1 then 0 else prev + 1
  {
  }

  /** From a valid index, `n` steps land on `(i + n) mod 4`. */
  lemma {:induction false} StepsWrap(i: int, n: nat)
    requires 0 <= i < |SlideImages|
    ensures Steps(i, n) == (i + n) % |SlideImages|
  {
    if n > 0 {
      StepsWrap(i, n - 1);
      assert |SlideImages| == 4;
      var prev := Steps(i, n - 1);
      assert prev == (i + n - 1) % 4 && prev >= 0;
      assert Steps(i, n) == (prev + 1) % 4;
      WrapStep(i + n - 1);
    }
  }

  /** Adding one after reducing modulo four is reducing after adding one. */
  lemma WrapStep(a: nat)
    ensures (a % 4 + 1) % 4 == (a + 1) % 4
  {
  }

  /** Four steps bring every valid index back to where it started, and no step leaves the range. */
  lemma FourStepsReturn(i: int, n: nat)
    requires 0 <= i < |SlideImages|
    ensures Steps(i, |SlideImages|) == i
    ensures 0 <= Steps(i, n) < |SlideImages|
  {
    StepsWrap(i, |SlideImages|);
    StepsWrap(i, n);
  }

  /** The class of slide `index`: opaque only for the current one. */
  function SlideClass(current: int, index: nat): string {
    if index == current then "opacity-100" else "opacity-0"
  }

  /** The class of dot `index`: highlighted only for the current one. */
  function DotClass(current: int, index: nat): string {
    if current == index then "bg-white" else "bg-gray-500"
  }

  function OpaqueSlides(current: int): set<nat> {
    set k: nat | k < |SlideImages| && SlideClass(current, k) == "opacity-100"
  }

  function HighlightedDots(current: int): set<nat> {
    set k: nat | k < |SlideImages| && DotClass(current, k) == "bg-white"
  }

  /**
   * For a valid index exactly one slide is opaque and exactly one dot is highlighted,
   * both the current one.
   */
  lemma ExactlyOneCurrent(current: int)
    requires 0 <= current < |SlideImages|
    ensures OpaqueSlides(current) == {current as nat}
    ensures HighlightedDots(current) == {current as nat}
  {
    assert "opacity-0" != "opacity-100";
    assert |"bg-gray-500"| != |"bg-white"|;
  }

  /** The latch condition of the fade-in: some entry in the batch is the section, intersecting. */
  function HasTourEntry(entries: seq<Entry>): bool {
    if |entries| == 0 then false
    else
      var e := entries[|entries| - 1];
      HasTourEntry(entries[..|entries| - 1]) || (e.targetId == "tour" && e.isIntersecting)
  }

  lemma {:induction false} HasTourEntryExact(entries: seq<Entry>)
    ensures HasTourEntry(entries) <==> exists k :: 0 <= k < |entries| && entries[k] == Entry("tour", true)
  {
    if |entries| > 0 {
      var n := |entries| - 1;
      HasTourEntryExact(entries[..n]);
      if HasTourEntry(entries[..n]) {
        var k :| 0 <= k < n && entries[..n][k] == Entry("tour", true);
        assert entries[k] == Entry("tour", true);
      }
      if exists k :: 0 <= k < |entries| && entries[k] == Entry("tour", true) {
        var k :| 0 <= k < |entries| && entries[k] == Entry("tour", true);
        if k < n {
          assert entries[..n][k] == Entry("tour", true);
        }
      }
    }
  }

  class TourSectionState {
    var currentIndex: int
    var selectedTour: Option<TourDate>
    var isVisible: bool
    /** When the interval was set up, the number of ticks it has fired, and the current time. */
    var mountedAt: int
    var ticksFired: nat
    var clock: int

    /** The index is a slide's, and the interval's next tick is still ahead. */
    predicate Valid()
      reads this
    {
      && 0 <= currentIndex < |SlideImages|
      && mountedAt + ticksFired * AutoplayInterval <= clock < mountedAt + (ticksFired + 1) * AutoplayInterval
    }

    constructor (now: int)
      ensures Valid()
      ensures currentIndex == 0 && selectedTour == None && !isVisible
      ensures mountedAt == now && ticksFired == 0 && clock == now
    {
      currentIndex := 0;
      selectedTour := None;
      isVisible := false;
      mountedAt := now;
      ticksFired := 0;
      clock := now;
    }

    /**
     * Time passes up to `now`: every interval tick due by then fires in turn and
     * advances the index one step; nothing else changes.
     */
    method AdvanceTime(now: int)
      requires Valid() && clock <= now
      modifies this
      ensures Valid()
      ensures clock == now && mountedAt == old(mountedAt) && ticksFired >= old(ticksFired)
      ensures currentIndex == Steps(old(currentIndex), ticksFired - old(ticksFired))
      ensures selectedTour == old(selectedTour) && isVisible == old(isVisible)
    {
      ghost var start := currentIndex;
      ghost var startTicks := ticksFired;
      while mountedAt + (ticksFired + 1) * AutoplayInterval <= now
        invariant ticksFired >= startTicks
        invariant mountedAt + ticksFired * AutoplayInterval <= now
        invariant currentIndex == Steps(start, ticksFired - startTicks)
        invariant 0 <= currentIndex < |SlideImages|
        invariant selectedTour == old(selectedTour) && isVisible == old(isVisible)
        invariant mountedAt == old(mountedAt)
        decreases now - mountedAt - ticksFired * AutoplayInterval
      {
        NextIndexInRange(currentIndex);
        currentIndex := NextIndex(currentIndex);
        ticksFired := ticksFired + 1;
      }
      clock := now;
    }

    /** `goToSlide(i)`: jumps to slide `i` and leaves the interval as it is. */
    method GoToSlide(slideIndex: int)
      modifies this`currentIndex
      ensures currentIndex == slideIndex
    {
      currentIndex := slideIndex;
    }

    /** A click on dot `k`, whose handler is `() => goToSlide(k)`, keeps the state valid and shows slide `k`. */
    method ClickDot(k: nat)
      requires Valid() && k < |SlideImages|
      modifies this`currentIndex
      ensures Valid() && currentIndex == k
    {
      GoToSlide(k);
    }

    /** `handleOpenModal(tour)`: selects the tour whatever was selected before. */
    method OpenModal(tour: TourDate)
      modifies this`selectedTour
      ensures selectedTour == Some(tour)
    {
      selectedTour := Some(tour);
    }

    /** `handleCloseModal()`. */
    method CloseModal()
      modifies this`selectedTour
      ensures selectedTour == None
    {
      selectedTour := None;
    }

    /**
     * A click on an element of the open modal: its `onClose` is `handleCloseModal`,
     * so the selection clears exactly on the backdrop and on the close button.
     */
    method ClickInModal(n: Node)
      requires selectedTour.Some?
      modifies this`selectedTour
      ensures selectedTour == (if n == Backdrop || CloseButton in Ancestry(n) then None else old(selectedTour))
    {
      ClickClosesExact(n);
      if ClickCloses(n) > 0 {
        CloseModal();
      }
    }

    /** The fade-in effect over a batch of entries: sets the latch on, never off. */
    method OnEntries(entries: seq<Entry>)
      modifies this`isVisible
      ensures isVisible == (old(isVisible) || HasTourEntry(entries))
    {
      var i := 0;
      while i < |entries|
        invariant 0 <= i <= |entries|
        invariant isVisible == (old(isVisible) || HasTourEntry(entries[..i]))
      {
        assert entries[..i + 1][..i] == entries[..i];
        if entries[i].targetId == "tour" && entries[i].isIntersecting {
          isVisible := true;
        }
        i := i + 1;
      }
      assert entries[..i] == entries;
    }
  }
}
