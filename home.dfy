/** src/pages/Home.jsx: the landing page's booking state (`open`,
    `presetService`), the service cards' prefixes and `openBooking`. */
module Home {
  import opened Js
  import opened BookingModal

  /** The cards' `serviceStartsWith` values, in display order. */
  const CardPrefixes: seq<string> := ["Fade / Taper", "Twists", "Cornrows", "Finger Coils"]

  /** How `startsWith` reads its argument: `null` is the string "null". */
  function ArgString(v: Field): string {
    if v.Some? then v.value else "null"
  }

  /** `SERVICES.find((x) => x.startsWith(prefix)) || null`: the first
      service with the prefix, or none. */
  function PresetFor(prefix: Field): (r: Field)
    ensures r.Some? ==> exists i :: 0 <= i < |Services| && r.value == Services[i] &&
                          StartsWith(Services[i], ArgString(prefix)) &&
                          forall j :: 0 <= j < i ==> !StartsWith(Services[j], ArgString(prefix))
    ensures r.None? <==> forall j :: 0 <= j < |Services| ==> !StartsWith(Services[j], ArgString(prefix))
  {
    var k := FindIndex(Services, (x: string) => StartsWith(x, ArgString(prefix)));
    var found: Field := if k.Some? then Some(Services[k.value]) else None;
    if Truthy(found) then found else None
  }

  /** A preset, when there is one, is one of the services. */
  lemma PresetIsAService(prefix: Field)
    ensures PresetFor(prefix).Some? ==> PresetFor(prefix).value in Services
  {
  }

  /** The "Book Now" buttons pass `null`: no service starts with "null", so
      there is no preset. */
  lemma BookNowHasNoPreset()
    ensures PresetFor(None) == None
  {
    assert Services[0][0] == 'F' && Services[1][0] == 'T' && Services[2][0] == 'C' && Services[3][0] == 'F';
    forall j | 0 <= j < |Services| ensures !StartsWith(Services[j], "null") {
      assert Services[j][..4][0] == Services[j][0];
    }
  }

  /** A prefix of two or more characters fixes the first two. */
  lemma StartsWithHead(s: string, p: string)
    requires |p| >= 2 && StartsWith(s, p)
    ensures s[..2] == p[..2]
  {
    assert s[..2] == s[..|p|][..2];
  }

  /** Each card's prefix belongs to exactly one service, the one in the same
      position, and that service becomes the preset. */
  lemma CardPrefixesPickOneService(i: nat)
    requires i < |CardPrefixes|
    ensures forall j :: 0 <= j < |Services| ==> (StartsWith(Services[j], CardPrefixes[i]) <==> j == i)
    ensures PresetFor(Some(CardPrefixes[i])) == Some(Services[i])
  {
    var p := CardPrefixes[i];
    assert Services[0][..2] == "Fa" && Services[1][..2] == "Tw" && Services[2][..2] == "Co" && Services[3][..2] == "Fi";
    assert CardPrefixes[0][..2] == "Fa" && CardPrefixes[1][..2] == "Tw" && CardPrefixes[2][..2] == "Co" && CardPrefixes[3][..2] == "Fi";
    assert StartsWith(Services[0], CardPrefixes[0]) && StartsWith(Services[1], CardPrefixes[1]);
    assert StartsWith(Services[2], CardPrefixes[2]) && StartsWith(Services[3], CardPrefixes[3]);
    forall j | 0 <= j < |Services| && StartsWith(Services[j], p) ensures j == i {
      StartsWithHead(Services[j], p);
    }
  }

  class HomePage {
    var open: bool
    var presetService: Field
    var modal: Modal

    /** The dialog is rendered with the page's `open` and `presetService`. */
    ghost predicate Valid()
      reads this, modal
    {
      modal.open == open && modal.presetService == presetService && modal.Valid()
    }

    constructor ()
      ensures Valid() && fresh(modal)
      ensures !open && presetService.None?
      ensures modal.form == InitialForm(None) && modal.success.None? && !modal.saving
    {
      open, presetService := false, None;
      modal := new Modal(false, None);
    }

    /** `openBooking(prefix)`: sets the preset to the matching service (or
        none) and opens the dialog, whose open effect then clears the last
        confirmation and takes the preset. */
    method OpenBooking(prefix: Field)
      requires Valid()
      modifies this, modal
      ensures Valid() && modal == old(modal)
      ensures open && presetService == PresetFor(prefix)
      ensures !old(open) ==>
        modal.success.None? && modal.form == old(modal.form).(service := OrElse(presetService, old(modal.form).service))
      ensures modal.saving == old(modal.saving)
    {
      var s := PresetFor(prefix);
      presetService := s;
      open := true;
      modal.ReceiveProps(open, presetService);
    }

    /** `onClose={() => setOpen(false)}`: the dialog disappears and keeps its
        state for the next opening. */
    method Close()
      requires Valid()
      modifies this, modal
      ensures Valid() && modal == old(modal)
      ensures !open && presetService == old(presetService)
      ensures modal.form == old(modal.form) && modal.success == old(modal.success)
      ensures modal.saving == old(modal.saving)
    {
      open := false;
      modal.ReceiveProps(open, presetService);
    }
  }
}
