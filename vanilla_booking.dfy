/** script.js: the booking dialog of the static pages. The form is its
    named controls' values; the API outcome and whether local storage takes
    the fallback copy are passed in. */
module VanillaBooking {
  import opened Js
  import opened Records

  /** The service `<option>`s. They carry no `value` attribute, so each
      option's value is its text. */
  const OptionTexts: seq<string> := [
    "Fade / Taper (High & Low) - KES 700",
    "Twists - KES 1,500",
    "Cornrows - KES 1,500",
    "Finger Coils - KES 2,000"
  ]

  /** The controls `validateForm` looks at, in its order. */
  const RequiredControls: seq<string> := ["name", "date", "time"]

  const ConfirmLabel := "Confirm Booking"
  const SavingLabel := "Saving..."

  /** The form as first built and after `form.reset()`: empty inputs, the
      first option selected. */
  const DefaultControls: Payload := map["name" := "", "phone" := "", "email" := "", "service" := OptionTexts[0],
                                        "date" := "", "time" := "", "notes" := ""]

  /** `validateForm(form)`: each present control among name, date and time
      whose value is empty is outlined and makes the form invalid; a missing
      control is skipped and values are not trimmed. */
  method ValidateForm(controls: Payload) returns (ok: bool, flagged: seq<string>)
    ensures forall k :: k in flagged <==> k in RequiredControls && k in controls && controls[k] == ""
    ensures ok <==> forall k :: k in RequiredControls && k in controls ==> controls[k] != ""
  {
    ok, flagged := true, [];
    var fields := RequiredControls;
    var i := 0;
    while i < |fields|
      invariant 0 <= i <= |fields|
      invariant forall k :: k in flagged <==> k in fields[..i] && k in controls && controls[k] == ""
      invariant ok <==> flagged == []
    {
      assert fields[..i + 1] == fields[..i] + [fields[i]];
      var el := fields[i];
      if el in controls && controls[el] == "" {
        flagged := flagged + [el];
        ok := false;
      }
      i := i + 1;
    }
    assert fields[..i] == fields;
    if !ok {
      assert flagged[0] in flagged;
    }
  }

  /** The `booking` object: every form entry, then `createdAt`. */
  function BookingOf(controls: Payload, now: string): (b: Payload)
    ensures b.Keys == controls.Keys + {"createdAt"} && b["createdAt"] == now
    ensures forall k :: k in controls && k != "createdAt" ==> b[k] == controls[k]
  {
    controls["createdAt" := now]
  }

  /** When the three controls are present, the client check implies the
      server's create check. */
  lemma ValidatedBookingIsAccepted(controls: Payload, now: string)
    requires forall k :: k in RequiredControls ==> k in controls && controls[k] != ""
    ensures HasBookingFields(BookingOf(controls, now))
  {
    assert "name" in RequiredControls && "date" in RequiredControls && "time" in RequiredControls;
  }

  /** A form without a name control passes the client check and is refused
      by the server. */
  lemma MissingControlPassesOnlyClient()
    ensures var c := map["date" := "2025-01-01", "time" := "10:00"];
      (forall k :: k in RequiredControls && k in c ==> c[k] != "") && !HasBookingFields(BookingOf(c, "t"))
  {
  }

  /** `(o.textContent || '').trim().startsWith(title)` */
  predicate OptionMatches(text: string, title: string) {
    StartsWith(Trim(text), title)
  }

  /** The card preselection's match: the first option whose trimmed text
      starts with the card title. */
  function MatchOption(options: seq<string>, title: string): (r: Option<nat>)
    ensures r.Some? ==> r.value < |options| && OptionMatches(options[r.value], title)
    ensures r.Some? ==> forall j :: 0 <= j < r.value ==> !OptionMatches(options[j], title)
    ensures r.None? ==> forall j :: 0 <= j < |options| ==> !OptionMatches(options[j], title)
  {
    FindIndex(options, (o: string) => OptionMatches(o, title))
  }

  class Dialog {
    /** The overlay's `active` class. */
    var active: bool
    /** `modal._eventsAttached` */
    var eventsAttached: bool
    /** How many sets of click, keydown and submit listeners are wired. */
    var listenerSets: nat
    var controls: Payload
    var submitDisabled: bool
    var submitLabel: string
    /** The label `submitBooking` saved before showing "Saving...". */
    var originalLabel: string
    /** The booking of the request in flight. */
    var inFlight: Option<Payload>
    var formHidden: bool
    /** The booking the success box shows, if one is shown. */
    var successShown: Option<Payload>
    /** The `barber_bookings_v1` list in local storage. */
    var fallback: seq<Payload>

    ghost predicate Valid()
      reads this
    {
      && listenerSets == (if eventsAttached then 1 else 0)
      && (submitDisabled <==> inFlight.Some?)
      && (!submitDisabled ==> submitLabel == ConfirmLabel)
      && (submitDisabled ==> submitLabel == SavingLabel && originalLabel == ConfirmLabel)
      && (formHidden <==> successShown.Some?)
    }

    /** `ensureModal()` builds the markup; `stored` is what local storage
        already holds. */
    constructor (stored: seq<Payload>)
      ensures Valid()
      ensures !active && !eventsAttached && controls == DefaultControls
      ensures inFlight.None? && successShown.None? && fallback == stored
    {
      active, eventsAttached, listenerSets := false, false, 0;
      controls := DefaultControls;
      submitDisabled, submitLabel, originalLabel := false, ConfirmLabel, ConfirmLabel;
      inFlight, formHidden, successShown := None, false, None;
      fallback := stored;
    }

    /** `openModal()`: shows the dialog and calls `attachModalEvents`, whose
        guard wires the listeners on the first call only. */
    method Open() returns (wired: bool)
      requires Valid()
      modifies this
      ensures Valid()
      ensures active && eventsAttached && listenerSets == 1
      ensures wired <==> !old(eventsAttached)
      ensures controls == old(controls) && inFlight == old(inFlight) && successShown == old(successShown)
      ensures fallback == old(fallback) && submitDisabled == old(submitDisabled) && submitLabel == old(submitLabel)
    {
      active := true;
      wired := !eventsAttached;
      if wired {
        eventsAttached := true;
        listenerSets := listenerSets + 1;
      }
    }

    /** `closeModal`, from the backdrop, the close button or Cancel. The
        entered values stay. */
    method Dismiss()
      requires Valid()
      modifies this
      ensures Valid() && !active
      ensures controls == old(controls) && inFlight == old(inFlight) && successShown == old(successShown)
      ensures fallback == old(fallback) && eventsAttached == old(eventsAttached)
      ensures submitDisabled == old(submitDisabled) && submitLabel == old(submitLabel)
    {
      active := false;
    }

    /** The window `keydown` listener, once wired: Escape closes. */
    method KeyDown(key: string)
      requires Valid()
      modifies this
      ensures Valid()
      ensures active == (old(active) && !(eventsAttached && key == "Escape"))
      ensures controls == old(controls) && inFlight == old(inFlight) && successShown == old(successShown)
      ensures fallback == old(fallback) && eventsAttached == old(eventsAttached)
    {
      if eventsAttached && key == "Escape" {
        active := false;
      }
    }

    /** Typing into a control. */
    method Input(name: string, value: string)
      requires Valid() && name in controls
      modifies this
      ensures Valid()
      ensures controls == old(controls)[name := value]
      ensures active == old(active) && inFlight == old(inFlight) && successShown == old(successShown)
      ensures fallback == old(fallback) && eventsAttached == old(eventsAttached)
    {
      controls := controls[name := value];
    }

    /** `submitBooking` up to the request: an invalid form returns before
        anything else happens; a valid one disables the button, shows
        "Saving..." and sends the booking. The disabled button keeps a second
        submit from starting while one is in flight. */
    method Submit(now: string) returns (request: Option<Payload>)
      requires Valid() && eventsAttached && inFlight.None? && !formHidden
      modifies this
      ensures Valid()
      ensures var b := BookingOf(old(controls), now);
        (forall k :: k in RequiredControls && k in old(controls) ==> old(controls)[k] != "")
          ==> request == Some(b) && inFlight == Some(b) && submitDisabled && submitLabel == SavingLabel
      ensures !(forall k :: k in RequiredControls && k in old(controls) ==> old(controls)[k] != "")
          ==> request.None? && unchanged(this)
      ensures controls == old(controls) && active == old(active) && successShown == old(successShown)
      ensures fallback == old(fallback) && eventsAttached == old(eventsAttached)
    {
      var ok, _ := ValidateForm(controls);
      if !ok {
        return None;
      }
      originalLabel := submitLabel;
      submitDisabled := true;
      submitLabel := SavingLabel;
      var booking := BookingOf(controls, now);
      inFlight := Some(booking);
      request := inFlight;
    }

    /** The request settles: on API failure the booking is appended to the
        stored list (when storage accepts it); the success box shows the
        booking either way; the button is re-enabled with its old label. */
    method Settle(apiOk: bool, storageOk: bool)
      requires Valid() && inFlight.Some?
      modifies this
      ensures Valid()
      ensures fallback == (if !apiOk && storageOk then old(fallback) + [old(inFlight).value] else old(fallback))
      ensures successShown == old(inFlight) && formHidden
      ensures !submitDisabled && submitLabel == ConfirmLabel && inFlight.None?
      ensures controls == old(controls) && active == old(active) && eventsAttached == old(eventsAttached)
    {
      var booking := inFlight.value;
      if !apiOk && storageOk {
        fallback := fallback + [booking];
      }
      successShown := Some(booking);
      formHidden := true;
      submitDisabled := false;
      submitLabel := originalLabel;
      inFlight := None;
    }

    /** The success box's Done button: the form comes back, reset, and the
        dialog closes. */
    method Done()
      requires Valid() && successShown.Some?
      modifies this
      ensures Valid()
      ensures successShown.None? && !formHidden && controls == DefaultControls && !active
      ensures fallback == old(fallback) && eventsAttached == old(eventsAttached) && inFlight == old(inFlight)
    {
      formHidden := false;
      successShown := None;
      controls := DefaultControls;
      active := false;
    }

    /** A service card's click, once the dialog is open: the first option
        matching the card's title is selected; with no title or no match the
        selection stays. */
    method PreselectService(title: Field)
      requires Valid()
      modifies this
      ensures Valid()
      ensures var k := if Truthy(title) then MatchOption(OptionTexts, title.value) else None;
        controls == (if k.Some? then old(controls)["service" := OptionTexts[k.value]] else old(controls))
      ensures active == old(active) && inFlight == old(inFlight) && successShown == old(successShown)
      ensures fallback == old(fallback) && eventsAttached == old(eventsAttached)
    {
      if Truthy(title) {
        var k := MatchOption(OptionTexts, title.value);
        if k.Some? {
          controls := controls["service" := OptionTexts[k.value]];
        }
      }
    }
  }

  /** However the request ends, a validated submit leaves the button enabled
      with its label, shows the success box, and keeps every earlier stored
      booking in place. */
  method SubmitAndSettle(d: Dialog, now: string, apiOk: bool, storageOk: bool) returns (request: Option<Payload>)
    requires d.Valid() && d.eventsAttached && d.inFlight.None? && !d.formHidden
    modifies d
    ensures d.Valid() && !d.submitDisabled && d.submitLabel == ConfirmLabel
    ensures request.Some? ==> d.successShown == request
    ensures |d.fallback| >= |old(d.fallback)| && d.fallback[..|old(d.fallback)|] == old(d.fallback)
  {
    request := d.Submit(now);
    if request.Some? {
      d.Settle(apiOk, storageOk);
    }
  }
}
