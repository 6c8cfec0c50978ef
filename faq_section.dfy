/**
 * The FAQ section: an accordion over four questions with at most one answer
 * open, and a contact form of four required fields whose submission shows a
 * confirmation, resets the fields and schedules the confirmation to be cleared
 * 3000 ms later. Scheduled clears are modelled as due times on a clock; a clear
 * is never cancelled by a later submission.
 */
module FaqSection {
  import opened Wrappers

  datatype Faq = Faq(question: string, answer: string)

  const Faqs: seq<Faq> := [
    Faq("How can I book The Blacks for a performance?",
      "For performance or event bookings, please reach out via our Booking Inquiry Form or email bookings@theblacks.com."),
    Faq("Where can I find info on The Blacks’ new releases?",
      "Check the Campaign/News section or follow us on Instagram, YouTube, and Spotify for real-time updates."),
    Faq("How can I reach your management team?",
      "Direct email: management@theblacks.com"),
    Faq("How to buy official merchandise?",
      "Visit the Store section on our website.")
  ]

  const Confirmation: string := "Message received, we’ll reach out soon ✨"

  /** Milliseconds from a submission to the clearing of its confirmation. */
  const ClearDelay: nat := 3000

  // ---------------------------------------------------------------------------
  // The accordion

  /** `openIndex === index ? null : index` */
  function Toggle(openIndex: Option<nat>, index: nat): Option<nat> {
    if openIndex == Some(index) then None else Some(index)
  }

  /** A toggle closes the open entry and opens any other, closing the one open before. */
  lemma ToggleCases(openIndex: Option<nat>, index: nat)
    ensures Toggle(openIndex, index) == None <==> openIndex == Some(index)
    ensures Toggle(openIndex, index) != None ==> Toggle(openIndex, index) == Some(index)
  {
  }

  /**
   * Toggling the same entry twice restores the state when nothing or that entry
   * was open; when another entry was open, the first toggle closed it, and the
   * accordion ends closed.
   */
  lemma ToggleTwice(openIndex: Option<nat>, index: nat)
    ensures openIndex == None || openIndex == Some(index) ==> Toggle(Toggle(openIndex, index), index) == openIndex
    ensures openIndex.Some? && openIndex != Some(index) ==> Toggle(Toggle(openIndex, index), index) == None
  {
  }

  /** The marker after question `index`. */
  function Marker(openIndex: Option<nat>, index: nat): string {
    if openIndex == Some(index) then "−" else "+"
  }

  /** `openIndex === index && <p>{faq.answer}</p>` */
  function AnswerShown(openIndex: Option<nat>, index: nat): bool {
    openIndex == Some(index)
  }

  function ShownAnswers(openIndex: Option<nat>): set<nat> {
    set k: nat | k < |Faqs| && AnswerShown(openIndex, k)
  }

  function MinusMarkers(openIndex: Option<nat>): set<nat> {
    set k: nat | k < |Faqs| && Marker(openIndex, k) == "−"
  }

  /**
   * At most one answer is shown, the open one, and exactly that entry carries
   * the minus marker; every other entry shows "+".
   */
  lemma AtMostOneAnswer(openIndex: Option<nat>)
    ensures ShownAnswers(openIndex) == (if openIndex.Some? && openIndex.value < |Faqs| then {openIndex.value} else {})
    ensures MinusMarkers(openIndex) == ShownAnswers(openIndex)
    ensures forall k: nat :: k < |Faqs| && !AnswerShown(openIndex, k) ==> Marker(openIndex, k) == "+"
  {
    assert "+" != "−";
  }

  // ---------------------------------------------------------------------------
  // The form

  datatype Field = Name | Phone | Email | Description

  datatype FormData = FormData(name: string, phone: string, email: string, description: string)

  const EmptyForm: FormData := FormData("", "", "", "")

  function Get(form: FormData, field: Field): string {
    match field
    case Name => form.name
    case Phone => form.phone
    case Email => form.email
    case Description => form.description
  }

  /** `{ ...formData, [field]: value }` */
  function WithField(form: FormData, field: Field, value: string): FormData {
    match field
    case Name => form.(name := value)
    case Phone => form.(phone := value)
    case Email => form.(email := value)
    case Description => form.(description := value)
  }

  /** A change updates the named field to the new value and keeps the other three. */
  lemma SetOnlyThatField(form: FormData, field: Field, value: string)
    ensures Get(WithField(form, field, value), field) == value
    ensures forall other :: other != field ==> Get(WithField(form, field, value), other) == Get(form, other)
  {
  }

  /** The browser submits only when every `required` field is filled in. */
  predicate AllFilled(form: FormData) {
    forall f: Field :: Get(form, f) != ""
  }

  /** The reset form has every field empty, so it cannot be submitted again as it is. */
  lemma EmptyFormBlank()
    ensures forall f: Field :: Get(EmptyForm, f) == ""
    ensures !AllFilled(EmptyForm)
  {
    assert Get(EmptyForm, Name) == "";
  }

  // ---------------------------------------------------------------------------
  // Scheduled clears

  /** Whether any scheduled clear is due by `now`. */
  function Due(pending: seq<int>, now: int): bool {
    if |pending| == 0 then false
    else Due(pending[..|pending| - 1], now) || pending[|pending| - 1] <= now
  }

  /** The scheduled clears still ahead of `now`, in scheduling order. */
  function Remaining(pending: seq<int>, now: int): seq<int> {
    if |pending| == 0 then []
    else
      var n := |pending| - 1;
      Remaining(pending[..n], now) + (if pending[n] <= now then [] else [pending[n]])
  }

  /**
   * A clear is due exactly when one of the scheduled times has come, and the
   * clears left waiting are exactly the scheduled ones still ahead.
   */
  lemma {:induction false} PendingExact(pending: seq<int>, now: int)
    ensures Due(pending, now) <==> exists k :: 0 <= k < |pending| && pending[k] <= now
    ensures forall t :: t in Remaining(pending, now) <==> t in pending && t > now
    ensures Due(pending, now) <==> |Remaining(pending, now)| < |pending|
  {
    if |pending| > 0 {
      var n := |pending| - 1;
      PendingExact(pending[..n], now);
      assert pending == pending[..n] + [pending[n]];
      if Due(pending[..n], now) {
        var k :| 0 <= k < n && pending[..n][k] <= now;
        assert pending[k] <= now;
      }
      if exists k :: 0 <= k < |pending| && pending[k] <= now {
        var k :| 0 <= k < |pending| && pending[k] <= now;
        if k < n {
          assert pending[..n][k] <= now;
        }
      }
      RemainingShorter(pending[..n], now);
    }
  }

  lemma {:induction false} RemainingShorter(pending: seq<int>, now: int)
    ensures |Remaining(pending, now)| <= |pending|
  {
    if |pending| > 0 {
      RemainingShorter(pending[..|pending| - 1], now);
    }
  }

  class FaqSectionState {
    var openIndex: Option<nat>
    var formData: FormData
    var message: string
    /** The due times of the clears scheduled and not yet fired, and the current time. */
    var pending: seq<int>
    var clock: int

    /** Every scheduled clear lies ahead of the clock. */
    predicate Valid()
      reads this
    {
      forall k :: 0 <= k < |pending| ==> pending[k] > clock
    }

    constructor (now: int)
      ensures Valid()
      ensures openIndex == None && formData == EmptyForm && message == ""
      ensures pending == [] && clock == now
    {
      openIndex := None;
      formData := EmptyForm;
      message := "";
      pending := [];
      clock := now;
    }

    /** `toggleFAQ(index)` */
    method ToggleFaq(index: nat)
      modifies this`openIndex
      ensures openIndex == Toggle(old(openIndex), index)
    {
      if openIndex == Some(index) {
        openIndex := None;
      } else {
        openIndex := Some(index);
      }
    }

    /** `handleChange`: the input named `field` now holds `value`. */
    method HandleChange(field: Field, value: string)
      modifies this`formData
      ensures formData == WithField(old(formData), field, value)
    {
      formData := WithField(formData, field, value);
    }

    /**
     * A press of "Send Message": the browser runs `handleSubmit` only when every
     * field is filled in; the handler shows the confirmation, resets the fields
     * and schedules a clear `ClearDelay` ms ahead.
     */
    method SubmitForm() returns (accepted: bool)
      requires Valid()
      modifies this`message, this`formData, this`pending
      ensures Valid()
      ensures accepted <==> AllFilled(old(formData))
      ensures accepted ==> message == Confirmation && formData == EmptyForm && pending == old(pending) + [clock + ClearDelay]
      ensures !accepted ==> message == old(message) && formData == old(formData) && pending == old(pending)
    {
      if !AllFilled(formData) {
        return false;
      }
      message := Confirmation;
      formData := EmptyForm;
      pending := pending + [clock + ClearDelay];
      accepted := true;
    }

    /** The timeout callback: `setMessage("")`. */
    method ClearMessage()
      modifies this`message
      ensures message == ""
    {
      message := "";
    }

    /**
     * Time passes up to `now`: every scheduled clear that is due fires, whatever
     * was submitted after it was scheduled, and the others stay scheduled.
     */
    method AdvanceTime(now: int)
      requires Valid() && clock <= now
      modifies this`message, this`pending, this`clock
      ensures Valid() && clock == now
      ensures pending == Remaining(old(pending), now)
      ensures message == if Due(old(pending), now) then "" else old(message)
    {
      var rest := [];
      var i := 0;
      while i < |pending|
        invariant 0 <= i <= |pending|
        invariant pending == old(pending)
        invariant rest == Remaining(pending[..i], now)
        invariant message == if Due(pending[..i], now) then "" else old(message)
      {
        assert pending[..i + 1][..i] == pending[..i];
        if pending[i] <= now {
          ClearMessage();
        } else {
          rest := rest + [pending[i]];
        }
        i := i + 1;
      }
      assert pending[..i] == pending;
      PendingExact(pending, now);
      forall k | 0 <= k < |rest| ensures rest[k] > now {
        assert rest[k] in rest;
      }
      pending := rest;
      clock := now;
    }
  }
}
