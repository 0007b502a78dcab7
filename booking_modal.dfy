/** src/components/BookingModal.jsx: the React booking dialog. The parent
    owns `open` and `presetService` (props); the component owns `form`,
    `saving` and `success` (state). `onClose` is reported to the caller as a
    returned flag, since only the parent can close the dialog. */
module BookingModal {
  import opened Js
  import opened Records

  /** `SERVICES`, in the order of the select's options. */
  const Services: seq<string> := [
    "Fade / Taper (High & Low) - KES 700",
    "Twists - KES 1,500",
    "Cornrows - KES 1,500",
    "Finger Coils - KES 2,000"
  ]

  datatype Form = Form(
    name: string, phone: string, email: string, service: string,
    date: string, time: string, notes: string)

  /** `initialForm`: every text field empty, the service preset or the first one. */
  function InitialForm(preset: Field): (f: Form)
    ensures f.name == "" && f.phone == "" && f.email == "" && f.date == "" && f.time == "" && f.notes == ""
    ensures Truthy(preset) ==> f.service == preset.value
    ensures !Truthy(preset) ==> f.service == Services[0]
  {
    Form("", "", "", OrElse(preset, Services[0]), "", "", "")
  }

  /** `validate()` */
  predicate Validate(f: Form) {
    Trim(f.name) != "" && f.date != "" && f.time != ""
  }

  /** The form is valid exactly when the name holds a character that is not
      white space and the date and time are filled in. */
  lemma ValidateIff(f: Form)
    ensures Validate(f) <==> !AllSpace(f.name) && f.date != "" && f.time != ""
  {
    TrimEmptyIffAllSpace(f.name);
  }

  /** Phone, email, service and notes are not checked. */
  lemma ValidateIgnoresOptionalFields(f: Form, phone: string, email: string, service: string, notes: string)
    ensures Validate(f.(phone := phone, email := email, service := service, notes := notes)) == Validate(f)
  {
  }

  /** A freshly reset form cannot be submitted. */
  lemma InitialFormIsInvalid(preset: Field)
    ensures !Validate(InitialForm(preset))
  {
    TrimEmptyIffAllSpace("");
  }

  /** The `success` value: the submitted form, with `createdAt` when the API
      answered. */
  datatype Confirmation = Confirmation(form: Form, createdAt: Field)

  /** The JSON body sent: `{ ...form, createdAt }`. */
  function BookingPayload(c: Confirmation): (p: Payload)
    ensures "createdAt" in p <==> c.createdAt.Some?
  {
    var f := c.form;
    var fields := map["name" := f.name, "phone" := f.phone, "email" := f.email, "service" := f.service,
                      "date" := f.date, "time" := f.time, "notes" := f.notes];
    if c.createdAt.Some? then fields["createdAt" := c.createdAt.value] else fields
  }

  /** A form that passes `validate` passes the server's create check, and the
      stored booking holds the form's fields with `notes` as its comment and
      the client's `createdAt` dropped. */
  lemma ValidFormIsAccepted(f: Form, createdAt: string, id: Id, now: nat)
    requires Validate(f)
    ensures HasBookingFields(BookingPayload(Confirmation(f, Some(createdAt))))
    ensures NewBooking(BookingPayload(Confirmation(f, Some(createdAt))), id, now)
         == Booking(id, f.name, Some(f.phone), Some(f.email), Some(f.service), f.date, f.time, f.notes, now, now)
  {
    TrimEmptyIffAllSpace(f.name);
    var p := BookingPayload(Confirmation(f, Some(createdAt)));
    assert p["name"] == f.name && p["date"] == f.date && p["time"] == f.time;
    assert Get(p, "phone") == Some(f.phone) && Get(p, "email") == Some(f.email);
    assert Get(p, "service") == Some(f.service) && Get(p, "notes") == Some(f.notes);
    assert "comment" !in p;
    assert BookingComment(p) == f.notes;
  }

  /** The client check is stricter than the server's: a name of spaces is
      refused by `validate` but would pass the handler's truthiness check. */
  lemma BlankNamePassesOnlyServerCheck()
    ensures var f := Form(" ", "", "", Services[0], "2025-01-01", "10:00", "");
      !Validate(f) && HasBookingFields(BookingPayload(Confirmation(f, None)))
  {
    assert AllSpace(" ");
    TrimEmptyIffAllSpace(" ");
  }

  class Modal {
    var open: bool
    var presetService: Field
    var form: Form
    var saving: bool
    var success: Option<Confirmation>
    /** The confirmation a pending `submit` will show, with the form as it
        was when submitted. */
    var inFlight: Option<Confirmation>

    ghost predicate Valid()
      reads this
    {
      && (saving <==> inFlight.Some?)
      && (inFlight.Some? ==> Validate(inFlight.value.form) && inFlight.value.createdAt.Some?)
    }

    /** Whether anything is rendered (`if (!open) return null`). */
    predicate Rendered()
      reads this
    {
      open
    }

    /** Mounting: the state starts from `initialForm`; the open effect that
        runs on mount changes nothing further. */
    constructor (open0: bool, preset0: Field)
      ensures Valid()
      ensures open == open0 && presetService == preset0
      ensures form == InitialForm(preset0) && !saving && success.None? && inFlight.None?
    {
      open, presetService := open0, preset0;
      form := InitialForm(preset0);
      saving, success, inFlight := false, None, None;
    }

    /** A re-render with new props; the open effect runs when `open` or
        `presetService` changed and the dialog is open: it clears `success`
        and takes the preset as service, keeping the previous service when
        there is none. Every other field of the form is kept. */
    method ReceiveProps(open': bool, preset': Field)
      requires Valid()
      modifies this
      ensures Valid()
      ensures open == open' && presetService == preset'
      ensures saving == old(saving) && inFlight == old(inFlight)
      ensures open' && (open' != old(open) || preset' != old(presetService)) ==>
        success.None? && form == old(form).(service := OrElse(preset', old(form).service))
      ensures !(open' && (open' != old(open) || preset' != old(presetService))) ==>
        success == old(success) && form == old(form)
    {
      var changed := open' != open || preset' != presetService;
      open, presetService := open', preset';
      if changed && open' {
        success := None;
        form := form.(service := OrElse(preset', form.service));
      }
    }

    /** The inputs' `onChange` setters, while the form is shown. */
    method Change(f: Form)
      requires Valid() && Rendered() && success.None?
      modifies this
      ensures Valid()
      ensures form == f
      ensures open == old(open) && presetService == old(presetService)
      ensures saving == old(saving) && success == old(success) && inFlight == old(inFlight)
    {
      form := f;
    }

    /** `submit`, up to the awaited request. An invalid form sends nothing and
        changes nothing; a valid one sets `saving` and sends the form with
        `createdAt`. The submit button, disabled while saving, is the only way
        to submit. */
    method Submit(now: string) returns (request: Option<Payload>)
      requires Valid() && Rendered() && success.None? && !saving
      modifies this
      ensures Valid()
      ensures !Validate(old(form)) ==> request.None? && unchanged(this)
      ensures saving <==> Validate(old(form))
      ensures Validate(old(form)) ==>
        && inFlight == Some(Confirmation(old(form), Some(now)))
        && request == Some(BookingPayload(inFlight.value))
      ensures form == old(form) && success == old(success)
      ensures open == old(open) && presetService == old(presetService)
    {
      var sent := Confirmation(form, Some(now));
      if !Validate(sent.form) {
        return None;
      }
      saving, inFlight := true, Some(sent);
      request := Some(BookingPayload(sent));
    }

    /** The rest of `submit` once the request settles: success shows the sent
        payload, failure a plain copy of the form; either way `saving` ends. */
    method Settle(apiOk: bool)
      requires Valid() && inFlight.Some?
      modifies this
      ensures Valid()
      ensures !saving && inFlight.None?
      ensures apiOk ==> success == old(inFlight)
      ensures !apiOk ==> success == Some(old(inFlight).value.(createdAt := None))
      ensures form == old(form) && open == old(open) && presetService == old(presetService)
    {
      var sent := inFlight.value;
      success := Some(if apiOk then sent else sent.(createdAt := None));
      saving := false;
      inFlight := None;
    }

    /** `closeAndReset` (the Done button): clears `success`, restores
        `initialForm` for the current preset and calls `onClose`. */
    method CloseAndReset() returns (closeRequested: bool)
      requires Valid()
      modifies this
      ensures Valid()
      ensures closeRequested
      ensures success.None? && form == InitialForm(presetService)
      ensures open == old(open) && presetService == old(presetService)
      ensures saving == old(saving) && inFlight == old(inFlight)
    {
      success := None;
      form := InitialForm(presetService);
      closeRequested := true;
    }

    /** The window `keydown` listener, present only while open: Escape calls
        `onClose`. */
    method KeyDown(key: string) returns (closeRequested: bool)
      ensures closeRequested <==> open && key == "Escape"
    {
      closeRequested := open && key == "Escape";
    }
  }

  /** Whatever the API answers, a validated submit ends with `saving` false and
      a confirmation of the submitted form on screen. */
  method SubmitAndSettle(m: Modal, now: string, apiOk: bool) returns (request: Option<Payload>)
    requires m.Valid() && m.Rendered() && m.success.None? && !m.saving
    modifies m
    ensures m.Valid() && !m.saving
    ensures Validate(old(m.form)) ==> request.Some? && m.success.Some? && m.success.value.form == old(m.form)
    ensures !Validate(old(m.form)) ==> request.None? && m.success.None?
  {
    request := m.Submit(now);
    if request.Some? {
      m.Settle(apiOk);
    }
  }
}
