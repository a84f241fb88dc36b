/** Stripping is undone by loading; what saving and reloading a profile keeps, and what it loses. */
module SecretRoundTrip {
  import opened Common
  import opened SecretSlots
  import opened Text

  // ---------------------------------------------------------------- records and maps of slots

  lemma SlotsUndone(e: Env, s: Slots)
    ensures SlotsFillable(e, SlotsStripped(e, s)) <==> SlotsFillable(e, s)
    ensures SlotsFillable(e, s) ==> SlotsFilled(e, SlotsStripped(e, s)) == SlotsFilled(e, s)
    ensures SlotsFillable(e, s) ==>
              SlotsFillable(e, SlotsFilled(e, s)) && SlotsFilled(e, SlotsFilled(e, s)) == SlotsFilled(e, s)
  {
    FillUndoesStrip(e, s.access);
    FillUndoesStrip(e, s.refresh);
    FillUndoesStrip(e, s.password);
    FillUndoesStrip(e, s.client);
    FillUndoesStrip(e, s.spClient);
  }

  lemma MapUndone(e: Env, m: map<string, Slots>)
    ensures MapFillable(e, MapStripped(e, m)) <==> MapFillable(e, m)
    ensures MapFillable(e, m) ==> MapFilled(e, MapStripped(e, m)) == MapFilled(e, m)
    ensures MapFillable(e, m) ==>
              MapFillable(e, MapFilled(e, m)) && MapFilled(e, MapFilled(e, m)) == MapFilled(e, m)
  {
    forall k | k in m
      ensures SlotsFillable(e, MapStripped(e, m)[k]) <==> SlotsFillable(e, m[k])
      ensures SlotsFillable(e, m[k]) ==> SlotsFilled(e, MapStripped(e, m)[k]) == SlotsFilled(e, m[k])
      ensures SlotsFillable(e, m[k]) ==>
                SlotsFillable(e, SlotsFilled(e, m[k])) && SlotsFilled(e, SlotsFilled(e, m[k])) == SlotsFilled(e, m[k])
    {
      SlotsUndone(e, m[k]);
    }
    if MapFillable(e, MapStripped(e, m)) {
      forall k | k in m ensures SlotsFillable(e, m[k]) {
        assert k in MapStripped(e, m);
      }
    }
  }

  lemma OptionUndone(e: Env, s: Option<Slot>)
    ensures OptionFillable(e, OptionStripped(e, s)) <==> OptionFillable(e, s)
    ensures OptionFillable(e, s) ==> OptionFilled(e, OptionStripped(e, s)) == OptionFilled(e, s)
    ensures OptionFillable(e, s) ==>
              OptionFillable(e, OptionFilled(e, s)) && OptionFilled(e, OptionFilled(e, s)) == OptionFilled(e, s)
  {
    if s.Some? { FillUndoesStrip(e, s.value); }
  }

  lemma OneUndone(e: Env, o: One)
    ensures var t := One(SlotsStripped(e, o.own), MapStripped(e, o.credentials));
            && (OneFillable(e, t) <==> OneFillable(e, o))
            && (OneFillable(e, o) ==> SlotsFilled(e, t.own) == SlotsFilled(e, o.own))
            && (OneFillable(e, o) ==> MapFilled(e, t.credentials) == MapFilled(e, o.credentials))
    ensures OneFillable(e, o) ==>
              var f := One(SlotsFilled(e, o.own), MapFilled(e, o.credentials));
              OneFillable(e, f) && SlotsFilled(e, f.own) == f.own && MapFilled(e, f.credentials) == f.credentials
  {
    SlotsUndone(e, o.own);
    MapUndone(e, o.credentials);
  }

  /** `s` is `c` stripped, but for the shared section, which both have as `c`'s. */
  lemma RestUndone(e: Env, c: Config)
    ensures var s := Strip(e, c).(serverApi := c.serverApi);
            && (RestFillable(e, s) <==> RestFillable(e, c))
            && (RestFillable(e, c) ==> RestFilled(e, s) == RestFilled(e, c))
    ensures RestFillable(e, c) ==>
              RestFillable(e, RestFilled(e, c)) && RestFilled(e, RestFilled(e, c)) == RestFilled(e, c)
  {
    if c.one.Some? { OneUndone(e, c.one.value); }
    if c.api.Some? { FillUndoesStrip(e, c.api.value.secret); }
    if c.server.Some? { FillTextUndoesStrip(e, c.server.value.secret); }
    if c.sql.Some? {
      OptionUndone(e, c.sql.value.controller);
      OptionUndone(e, c.sql.value.ui);
    }
    OptionUndone(e, c.mongo);
  }

  // ---------------------------------------------------------------- strip, then load

  /** Sections that a load derives are not touched by stripping before it. */
  lemma DerivedAlike(e: Env, c: Config)
    requires SharedFillable(e, c)
    ensures SharedFillable(e, Strip(e, c))
    ensures var d := Derive(WithSharedFilled(e, c));
            var s := Derive(WithSharedFilled(e, Strip(e, c)));
            && s.serverApi == d.serverApi
            && s.one == Strip(e, d).one && s.sql == Strip(e, d).sql && s.mongo == Strip(e, d).mongo
            && s.api == (if c.api.Some? then Strip(e, d).api else d.api)
            && s.server == (if c.server.Some? then Strip(e, d).server else d.server)
  {
    if c.serverApi.Some? { FillTextUndoesStrip(e, c.serverApi.value.secret); }
  }

  /**
  Loading a stripped profile gives, slot by slot or as an error, exactly what
  loading it unstripped gives: for dead, unreadable, malformed, blank and
  disagreeing references alike.
  */
  lemma LoadUndoesStrip(e: Env, c: Config)
    ensures Load(e, Strip(e, c)) == Load(e, c)
  {
    if c.serverApi.Some? { FillTextUndoesStrip(e, c.serverApi.value.secret); }
    if SharedFillable(e, c) {
      DerivedAlike(e, c);
      var d := Derive(WithSharedFilled(e, c));
      var s := Derive(WithSharedFilled(e, Strip(e, c)));
      RestUndone(e, d);
      RestUndone(e, s);
      assert Strip(e, s).(serverApi := s.serverApi) == Strip(e, d).(serverApi := d.serverApi) by { StripTwice(e, d); }
    }
  }

  lemma StripTwice(e: Env, c: Config)
    ensures Strip(e, Strip(e, c)) == Strip(e, c)
  {
    if c.one.Some? {
      var m := c.one.value.credentials;
      assert MapStripped(e, MapStripped(e, m)) == MapStripped(e, m);
    }
  }

  /** Loading a loaded profile changes nothing, so it can be saved and loaded again. */
  lemma LoadIsIdempotent(e: Env, c: Config)
    requires Load(e, c).Ok?
    ensures Load(e, Load(e, c).value) == Load(e, c)
  {
    var d := Derive(WithSharedFilled(e, c));
    var l := RestFilled(e, d);
    RestUndone(e, d);
    if c.serverApi.Some? { FillTextUndoesStrip(e, c.serverApi.value.secret); }
    assert Derive(WithSharedFilled(e, l)) == l;
  }

  // ---------------------------------------------------------------- what is dropped

  /** The reference yields exactly this value. */
  predicate Provides(e: Env, reference: Option<string>, value: string) {
    reference.Some? && !AllWhitespace(reference.value) && ResolveRef(e, reference.value) == Ok(Some(value))
  }

  predicate SlotSaved(e: Env, before: Slot, after: Slot) {
    && after.reference == before.reference
    && after.value ==
       if before.value.Some? && Provides(e, before.reference, before.value.value) then None else before.value
  }

  predicate TextSaved(e: Env, before: TextSlot, after: TextSlot) {
    && after.reference == before.reference
    && after.text == if Provides(e, before.reference, before.text) then "" else before.text
  }

  predicate SlotsSaved(e: Env, before: Slots, after: Slots) {
    && SlotSaved(e, before.access, after.access)
    && SlotSaved(e, before.refresh, after.refresh)
    && SlotSaved(e, before.password, after.password)
    && SlotSaved(e, before.client, after.client)
    && SlotSaved(e, before.spClient, after.spClient)
  }

  predicate OptionSaved(e: Env, before: Option<Slot>, after: Option<Slot>) {
    (after.Some? <==> before.Some?) && (before.Some? && after.Some? ==> SlotSaved(e, before.value, after.value))
  }

  predicate OneSaved(e: Env, before: Option<One>, after: Option<One>) {
    && (after.Some? <==> before.Some?)
    && (before.Some? && after.Some? ==>
          && SlotsSaved(e, before.value.own, after.value.own)
          && after.value.credentials.Keys == before.value.credentials.Keys
          && forall k | k in before.value.credentials ::
               SlotsSaved(e, before.value.credentials[k], after.value.credentials[k]))
  }

  predicate ApiSaved(e: Env, before: Option<Api>, after: Option<Api>) {
    && (after.Some? <==> before.Some?)
    && (before.Some? && after.Some? ==>
          && after.value == before.value.(secret := after.value.secret)
          && SlotSaved(e, before.value.secret, after.value.secret))
  }

  predicate ServerSaved(e: Env, before: Option<Server>, after: Option<Server>) {
    && (after.Some? <==> before.Some?)
    && (before.Some? && after.Some? ==>
          && after.value == before.value.(secret := after.value.secret)
          && TextSaved(e, before.value.secret, after.value.secret))
  }

  predicate SharedSaved(e: Env, before: Option<ServerApi>, after: Option<ServerApi>) {
    && (after.Some? <==> before.Some?)
    && (before.Some? && after.Some? ==>
          after.value.clientId == before.value.clientId && TextSaved(e, before.value.secret, after.value.secret))
  }

  predicate SqlSaved(e: Env, before: Option<SqlServer>, after: Option<SqlServer>) {
    && (after.Some? <==> before.Some?)
    && (before.Some? && after.Some? ==>
          && OptionSaved(e, before.value.controller, after.value.controller)
          && OptionSaved(e, before.value.ui, after.value.ui))
  }

  lemma SlotIsSaved(e: Env, s: Slot)
    ensures SlotSaved(e, s, Stripped(e, s))
  {
    if s.reference.Some? { BlankExactlyWhen(s.reference.value); }
  }

  lemma TextIsSaved(e: Env, s: TextSlot)
    ensures TextSaved(e, s, StrippedText(e, s))
  {
    if s.reference.Some? { BlankExactlyWhen(s.reference.value); }
  }

  lemma SlotsAreSaved(e: Env, s: Slots)
    ensures SlotsSaved(e, s, SlotsStripped(e, s))
  {
    SlotIsSaved(e, s.access);
    SlotIsSaved(e, s.refresh);
    SlotIsSaved(e, s.password);
    SlotIsSaved(e, s.client);
    SlotIsSaved(e, s.spClient);
  }

  lemma OneIsSaved(e: Env, c: Config)
    ensures OneSaved(e, c.one, Strip(e, c).one)
  {
    if c.one.Some? {
      var m := c.one.value.credentials;
      SlotsAreSaved(e, c.one.value.own);
      forall k | k in m ensures SlotsSaved(e, m[k], MapStripped(e, m)[k]) { SlotsAreSaved(e, m[k]); }
    }
  }

  lemma OptionIsSaved(e: Env, s: Option<Slot>)
    ensures OptionSaved(e, s, OptionStripped(e, s))
  {
    if s.Some? { SlotIsSaved(e, s.value); }
  }

  /**
  In every section a value is dropped exactly if its reference yields that very
  value, and nothing else changes.
  */
  lemma StripDropsExactlyProvided(e: Env, c: Config)
    ensures var s := Strip(e, c);
            && OneSaved(e, c.one, s.one) && ApiSaved(e, c.api, s.api) && ServerSaved(e, c.server, s.server)
            && SharedSaved(e, c.serverApi, s.serverApi) && SqlSaved(e, c.sql, s.sql) && OptionSaved(e, c.mongo, s.mongo)
  {
    OneIsSaved(e, c);
    if c.api.Some? { SlotIsSaved(e, c.api.value.secret); }
    if c.server.Some? { TextIsSaved(e, c.server.value.secret); }
    if c.serverApi.Some? { TextIsSaved(e, c.serverApi.value.secret); }
    if c.sql.Some? {
      OptionIsSaved(e, c.sql.value.controller);
      OptionIsSaved(e, c.sql.value.ui);
    }
    OptionIsSaved(e, c.mongo);
  }

  // ---------------------------------------------------------------- what is filled

  /** `value` is what loading reads through the reference: an unreadable keyring gives nothing. */
  predicate ReadsThrough(e: Env, reference: string, value: Option<string>) {
    var r := ResolveRef(e, reference);
    r == Ok(value) || (r == Err(KeyringUnreadable) && value == None)
  }

  predicate SlotLoaded(e: Env, before: Slot, after: Slot) {
    && after.reference == before.reference
    && (before.value.Some? || before.reference.None? ==> after.value == before.value)
    && (before.value.None? && before.reference.Some? ==> ReadsThrough(e, before.reference.value, after.value))
  }

  /** An empty text counts as absent, and nothing read leaves it empty. */
  predicate TextLoaded(e: Env, before: TextSlot, after: TextSlot) {
    && after.reference == before.reference
    && (before.text != "" || before.reference.None? ==> after.text == before.text)
    && (before.text == "" && before.reference.Some? ==>
          || ReadsThrough(e, before.reference.value, Some(after.text))
          || (ReadsThrough(e, before.reference.value, None) && after.text == ""))
  }

  predicate SlotsLoaded(e: Env, before: Slots, after: Slots) {
    && SlotLoaded(e, before.access, after.access)
    && SlotLoaded(e, before.refresh, after.refresh)
    && SlotLoaded(e, before.password, after.password)
    && SlotLoaded(e, before.client, after.client)
    && SlotLoaded(e, before.spClient, after.spClient)
  }

  predicate OptionLoaded(e: Env, before: Option<Slot>, after: Option<Slot>) {
    (after.Some? <==> before.Some?) && (before.Some? && after.Some? ==> SlotLoaded(e, before.value, after.value))
  }

  predicate OneLoaded(e: Env, before: Option<One>, after: Option<One>) {
    && (after.Some? <==> before.Some?)
    && (before.Some? && after.Some? ==>
          && SlotsLoaded(e, before.value.own, after.value.own)
          && after.value.credentials.Keys == before.value.credentials.Keys
          && forall k | k in before.value.credentials ::
               SlotsLoaded(e, before.value.credentials[k], after.value.credentials[k]))
  }

  predicate SharedLoaded(e: Env, before: Option<ServerApi>, after: Option<ServerApi>) {
    && (after.Some? <==> before.Some?)
    && (before.Some? && after.Some? ==>
          after.value.clientId == before.value.clientId && TextLoaded(e, before.value.secret, after.value.secret))
  }

  /** A section that is written out has its secret filled; otherwise it is a copy of the loaded shared one. */
  predicate ApiLoaded(e: Env, before: Option<Api>, shared: Option<ServerApi>, after: Option<Api>) {
    if before.Some? then
      && after.Some? && after.value == before.value.(secret := after.value.secret)
      && SlotLoaded(e, before.value.secret, after.value.secret)
    else if shared.Some? then
      var s := shared.value;
      after == Some(Api(Some(s.clientId), Slot(Some(s.secret.text), s.secret.reference), true))
    else after == None
  }

  predicate ServerLoaded(e: Env, before: Option<Server>, shared: Option<ServerApi>, after: Option<Server>) {
    if before.Some? then
      && after.Some? && after.value == before.value.(secret := after.value.secret)
      && TextLoaded(e, before.value.secret, after.value.secret)
    else if shared.Some? then after == Some(Server(shared.value.clientId, shared.value.secret, true))
    else after == None
  }

  predicate SqlLoaded(e: Env, before: Option<SqlServer>, after: Option<SqlServer>) {
    && (after.Some? <==> before.Some?)
    && (before.Some? && after.Some? ==>
          && OptionLoaded(e, before.value.controller, after.value.controller)
          && OptionLoaded(e, before.value.ui, after.value.ui))
  }

  predicate Loaded(e: Env, before: Config, after: Config) {
    && OneLoaded(e, before.one, after.one) && SharedLoaded(e, before.serverApi, after.serverApi)
    && ApiLoaded(e, before.api, after.serverApi, after.api)
    && ServerLoaded(e, before.server, after.serverApi, after.server)
    && SqlLoaded(e, before.sql, after.sql) && OptionLoaded(e, before.mongo, after.mongo)
  }

  /** The slot is empty, and its reference has none of the three forms. */
  predicate Malformed(e: Env, empty: bool, reference: Option<string>) {
    empty && reference.Some? && ResolveRef(e, reference.value) == Err(InvalidReference)
  }

  predicate SlotMalformed(e: Env, s: Slot) {
    Malformed(e, s.value.None?, s.reference)
  }

  predicate TextMalformed(e: Env, s: TextSlot) {
    Malformed(e, s.text == "", s.reference)
  }

  predicate SlotsMalformed(e: Env, s: Slots) {
    || SlotMalformed(e, s.access) || SlotMalformed(e, s.refresh) || SlotMalformed(e, s.password)
    || SlotMalformed(e, s.client) || SlotMalformed(e, s.spClient)
  }

  predicate OptionMalformed(e: Env, s: Option<Slot>) {
    s.Some? && SlotMalformed(e, s.value)
  }

  /** Somewhere in the profile an empty slot has a malformed reference. */
  predicate AnyMalformed(e: Env, c: Config) {
    || (c.one.Some? && (SlotsMalformed(e, c.one.value.own)
                        || exists k | k in c.one.value.credentials :: SlotsMalformed(e, c.one.value.credentials[k])))
    || (c.api.Some? && SlotMalformed(e, c.api.value.secret))
    || (c.server.Some? && TextMalformed(e, c.server.value.secret))
    || (c.serverApi.Some? && TextMalformed(e, c.serverApi.value.secret))
    || (c.sql.Some? && (OptionMalformed(e, c.sql.value.controller) || OptionMalformed(e, c.sql.value.ui)))
    || OptionMalformed(e, c.mongo)
  }

  lemma SlotIsLoaded(e: Env, s: Slot)
    ensures Fillable(e, s) <==> !SlotMalformed(e, s)
    ensures Fillable(e, s) ==> SlotLoaded(e, s, Filled(e, s))
  {
  }

  lemma TextIsLoaded(e: Env, s: TextSlot)
    ensures FillableText(e, s) <==> !TextMalformed(e, s)
    ensures FillableText(e, s) ==> TextLoaded(e, s, FilledText(e, s))
  {
  }

  lemma SlotsAreLoaded(e: Env, s: Slots)
    ensures SlotsFillable(e, s) <==> !SlotsMalformed(e, s)
    ensures SlotsFillable(e, s) ==> SlotsLoaded(e, s, SlotsFilled(e, s))
  {
    SlotIsLoaded(e, s.access);
    SlotIsLoaded(e, s.refresh);
    SlotIsLoaded(e, s.password);
    SlotIsLoaded(e, s.client);
    SlotIsLoaded(e, s.spClient);
  }

  lemma MapIsLoaded(e: Env, m: map<string, Slots>)
    ensures MapFillable(e, m) <==> !exists k | k in m :: SlotsMalformed(e, m[k])
    ensures MapFillable(e, m) ==> forall k | k in m :: SlotsLoaded(e, m[k], MapFilled(e, m)[k])
  {
    forall k | k in m
      ensures SlotsFillable(e, m[k]) <==> !SlotsMalformed(e, m[k])
      ensures SlotsFillable(e, m[k]) ==> SlotsLoaded(e, m[k], SlotsFilled(e, m[k]))
    {
      SlotsAreLoaded(e, m[k]);
    }
  }

  lemma OptionIsLoaded(e: Env, s: Option<Slot>)
    ensures OptionFillable(e, s) <==> !OptionMalformed(e, s)
    ensures OptionFillable(e, s) ==> OptionLoaded(e, s, OptionFilled(e, s))
  {
    if s.Some? { SlotIsLoaded(e, s.value); }
  }

  /** The rest of a profile whose shared section is loaded already. */
  lemma RestIsLoaded(e: Env, c: Config)
    ensures RestFillable(e, c) ==>
              var l := RestFilled(e, c);
              && OneLoaded(e, c.one, l.one) && SqlLoaded(e, c.sql, l.sql) && OptionLoaded(e, c.mongo, l.mongo)
              && (c.api.Some? ==> ApiLoaded(e, c.api, None, l.api)) && (c.api.None? ==> l.api.None?)
              && (c.server.Some? ==> ServerLoaded(e, c.server, None, l.server)) && (c.server.None? ==> l.server.None?)
              && l.serverApi == c.serverApi
    ensures RestFillable(e, c) <==> !AnyMalformed(e, c.(serverApi := None))
  {
    if c.one.Some? {
      SlotsAreLoaded(e, c.one.value.own);
      MapIsLoaded(e, c.one.value.credentials);
    }
    if c.api.Some? { SlotIsLoaded(e, c.api.value.secret); }
    if c.server.Some? { TextIsLoaded(e, c.server.value.secret); }
    if c.sql.Some? {
      OptionIsLoaded(e, c.sql.value.controller);
      OptionIsLoaded(e, c.sql.value.ui);
    }
    OptionIsLoaded(e, c.mongo);
  }

  /**
  A load fails exactly if some empty slot has a malformed reference. Otherwise
  every value that is written is kept, every empty slot gets what its reference
  yields, and missing server sections are copies of the shared one.
  */
  lemma LoadFillsExactly(e: Env, c: Config)
    ensures if AnyMalformed(e, c) then Load(e, c) == Err(InvalidReference)
            else Load(e, c).Ok? && Loaded(e, c, Load(e, c).value)
  {
    if c.serverApi.Some? {
      TextIsLoaded(e, c.serverApi.value.secret);
      FillTextUndoesStrip(e, c.serverApi.value.secret);
    }
    if SharedFillable(e, c) { RestIsLoaded(e, Derive(WithSharedFilled(e, c))); }
  }

  // ---------------------------------------------------------------- through the file

  /** The section that would be written can be read again. */
  predicate SectionReadable(e: Env, c: Config) {
    Chosen(c).Some? ==> FillableText(e, Chosen(c).value.secret)
  }

  /** Stripping before choosing the section makes no difference to what is read back. */
  lemma SectionReadsBack(e: Env, c: Config)
    ensures Chosen(Strip(e, c)).Some? <==> Chosen(c).Some?
    ensures Chosen(c).Some? ==>
              var s, t := Chosen(Strip(e, c)).value, Chosen(c).value;
              && s.clientId == t.clientId
              && (FillableText(e, s.secret) <==> FillableText(e, t.secret))
              && (FillableText(e, t.secret) ==> FilledText(e, s.secret) == FilledText(e, t.secret))
  {
    if c.serverApi.Some? {
      FillTextUndoesStrip(e, c.serverApi.value.secret);
    } else if c.server.Some? {
      FillTextUndoesStrip(e, c.server.value.secret);
    }
  }

  /** The profile read back, when it can be read. */
  lemma ReadBack(e: Env, c: Config)
    requires Load(e, c) == Ok(c)
    ensures Load(e, Saved(e, c)).Ok? <==> SectionReadable(e, c)
    ensures SectionReadable(e, c) ==>
              var r := Load(e, Saved(e, c)).value;
              && r.one == c.one
              && r.sql == (if Chosen(c).Some? then c.sql else None)
              && r.mongo == (if Chosen(c).Some? then c.mongo else None)
              && (Chosen(c).None? ==> r.serverApi.None? && r.api.None? && r.server.None?)
              && (Chosen(c).Some? ==> ReadsAs(e, r, Chosen(c).value))
  {
    SectionReadsBack(e, c);
    LoadedIsFilled(e, c);
    RestUndone(e, c);
    var v := Saved(e, c);
    if SectionReadable(e, c) {
      var d := Derive(WithSharedFilled(e, v));
      assert v.one == Strip(e, c).one;
      if v.serverApi.Some? { FillTextUndoesStrip(e, v.serverApi.value.secret); }
      PartsFillable(e, c, d);
    }
  }

  /** All three representations of the server secret read back as `section`. */
  ghost predicate ReadsAs(e: Env, r: Config, section: ServerApi)
    requires FillableText(e, section.secret)
  {
    var secret := FilledText(e, section.secret);
    && r.serverApi == Some(section.(secret := secret))
    && r.api == Some(Api(Some(section.clientId), Slot(Some(secret.text), secret.reference), true))
    && r.server == Some(Server(section.clientId, secret, true))
  }

  lemma LoadedIsFilled(e: Env, c: Config)
    requires Load(e, c) == Ok(c)
    ensures RestFillable(e, c) && RestFilled(e, c) == c
    ensures c.serverApi.Some? ==> c.api.Some? && c.server.Some?
    ensures SharedFillable(e, c) && WithSharedFilled(e, c) == c
  {
    var d := Derive(WithSharedFilled(e, c));
    RestUndone(e, d);
    assert c.serverApi == d.serverApi;
  }

  /** `d` has the stripped slots of the loaded `c`, and derived server sections. */
  lemma PartsFillable(e: Env, c: Config, d: Config)
    requires RestFillable(e, c) && RestFilled(e, c) == c
    requires d.one == Strip(e, c).one
    requires d.sql.None? || d.sql == Strip(e, c).sql
    requires d.mongo.None? || d.mongo == Strip(e, c).mongo
    requires d.api.Some? ==> d.api.value.secret.value.Some?
    requires d.server.Some? ==> FillableText(e, d.server.value.secret)
    ensures RestFillable(e, d)
    ensures var r := RestFilled(e, d);
            && r.one == c.one && r.api == d.api && r.serverApi == d.serverApi
            && (d.server.Some? ==> r.server == Some(d.server.value.(secret := FilledText(e, d.server.value.secret))))
            && (d.server.None? ==> r.server.None?)
            && r.sql == (if d.sql.Some? then c.sql else None)
            && r.mongo == (if d.mongo.Some? then c.mongo else None)
  {
    if c.one.Some? { OneUndone(e, c.one.value); }
    if c.sql.Some? {
      OptionUndone(e, c.sql.value.controller);
      OptionUndone(e, c.sql.value.ui);
    }
    OptionUndone(e, c.mongo);
  }

  /**
  A saved profile can be loaded again exactly when the server section written
  for it can be read. Then the Alteryx One credentials are always kept, and the
  storage passwords exactly when there was a section, because storage is written
  inside it.
  */
  lemma SaveAndReloadKeepExactlyWhen(e: Env, f: Config)
    requires Load(e, f).Ok?
    ensures var c := Load(e, f).value;
            var back := Load(e, Saved(e, c));
            && (back.Ok? <==> SectionReadable(e, c))
            && (back.Ok? ==> back.value.one == c.one)
            && (back.Ok? ==>
                  (back.value.sql == c.sql && back.value.mongo == c.mongo
                   <==> Chosen(c).Some? || (c.sql.None? && c.mongo.None?)))
  {
    LoadIsIdempotent(e, f);
    ReadBack(e, Load(e, f).value);
  }

  /** Equal but for the mark of a derived section, which is not written. */
  predicate SameApi(a: Option<Api>, b: Option<Api>) {
    (a.Some? <==> b.Some?) && (a.Some? ==> a.value.clientId == b.value.clientId && a.value.secret == b.value.secret)
  }

  predicate SameServer(a: Option<Server>, b: Option<Server>) {
    (a.Some? <==> b.Some?) && (a.Some? ==> a.value.key == b.value.key && a.value.secret == b.value.secret)
  }

  predicate HasId(a: Api) {
    a.clientId.Some? && a.clientId.value != ""
  }

  /** An empty value is written as an absent one, so a reference fills it on reload. */
  predicate Refills(e: Env, s: Slot) {
    && s.value == Some("") && s.reference.Some?
    && var r := ResolveForLoad(e, s.reference.value);
       r.Ok? && r.value.Some? && r.value.value != ""
  }

  /**
  The API section survives if there is a section to write and it says the same:
  the shared one if there is one, the API's own if it has a client id, and the
  server's otherwise.
  */
  predicate ApiIsWritten(e: Env, c: Config) {
    if c.api.None? then Chosen(c).None?
    else
      var a := c.api.value;
      if c.serverApi.Some? then
        var shared := c.serverApi.value;
        a.clientId == Some(shared.clientId) && a.secret == Slot(Some(shared.secret.text), shared.secret.reference)
      else if HasId(a) then a.secret.value.Some? && !Refills(e, a.secret)
      else
        && c.server.Some? && a.clientId == Some("") && c.server.value.key == ""
        && a.secret == Slot(Some(c.server.value.secret.text), c.server.value.secret.reference)
  }

  predicate ServerIsWritten(e: Env, c: Config) {
    if c.server.None? then Chosen(c).None?
    else
      var s := c.server.value;
      if c.serverApi.Some? then s.key == c.serverApi.value.clientId && s.secret == c.serverApi.value.secret
      else if c.api.Some? && HasId(c.api.value) then
        var secret := c.api.value.secret;
        && c.api.value.clientId == Some(s.key) && s.secret.reference == secret.reference
        && Some(s.secret.text) ==
           (if Refills(e, secret) then ResolveForLoad(e, secret.reference.value).value
            else if secret.value.Some? then secret.value
            else Some(""))
      else true
  }

  /** Exactly when each form of the server section survives a save and a reload. */
  lemma ServerSectionsKeptExactlyWhen(e: Env, f: Config)
    requires Load(e, f).Ok?
    ensures var c := Load(e, f).value;
            var back := Load(e, Saved(e, c));
            back.Ok? ==>
              && (SameApi(back.value.api, c.api) <==> ApiIsWritten(e, c))
              && (SameServer(back.value.server, c.server) <==> ServerIsWritten(e, c))
              && (back.value.serverApi == c.serverApi <==> c.serverApi.Some? || Chosen(c).None?)
  {
    var c := Load(e, f).value;
    LoadIsIdempotent(e, f);
    LoadedIsFilled(e, c);
    ReadBack(e, c);
  }

  /**
  A written-out API secret survives exactly when the section that is written
  holds it: one written next to a shared section is lost unless the two agree,
  and one without a client id unless the server's key is the same secret.
  */
  lemma ApiSecretKeptExactlyWhen(e: Env, f: Config, secret: string)
    requires Load(e, f).Ok? && Load(e, Saved(e, Load(e, f).value)).Ok?
    requires var c := Load(e, f).value; c.api.Some? && c.api.value.secret.value == Some(secret)
    ensures var c := Load(e, f).value;
            var api := Load(e, Saved(e, c)).value.api;
            api.Some? && api.value.secret.value == Some(secret) <==>
              if c.serverApi.Some? then c.serverApi.value.secret.text == secret
              else if HasId(c.api.value) then !Refills(e, c.api.value.secret)
              else c.server.Some? && c.server.value.secret.text == secret
  {
    var c := Load(e, f).value;
    LoadIsIdempotent(e, f);
    LoadedIsFilled(e, c);
    ReadBack(e, c);
  }

  // ---------------------------------------------------------------- the check before a save

  /** What one form of the secret resolves to; an unresolvable one proves nothing. */
  function Candidate(e: Env, text: string, reference: Option<string>): Option<string> {
    if text != "" then Some(text)
    else if reference.None? then None
    else
      var r := ResolveRef(e, reference.value);
      if r.Ok? then r.value else None
  }

  predicate Differ(a: Option<string>, b: Option<string>) {
    a.Some? && b.Some? && a != b
  }

  /** Two forms that the user wrote resolve to different values; derived sections do not count. */
  predicate MixedSecrets(e: Env, c: Config) {
    var shared := if c.serverApi.Some? then
                    Candidate(e, c.serverApi.value.secret.text, c.serverApi.value.secret.reference)
                  else None;
    var api := if c.api.Some? && !c.api.value.derived then
                 var a := c.api.value.secret;
                 Candidate(e, if a.value.Some? then a.value.value else "", a.reference)
               else None;
    var server := if c.server.Some? && !c.server.value.derived then
                    Candidate(e, c.server.value.secret.text, c.server.value.secret.reference)
                  else None;
    Differ(shared, api) || Differ(shared, server) || Differ(api, server)
  }

  /** A form with this text and reference says `value`: its text, or else what its reference yields. */
  predicate Says(e: Env, text: string, reference: Option<string>, value: string) {
    if text != "" then value == text else reference.Some? && ResolveRef(e, reference.value) == Ok(Some(value))
  }

  /** One of the sections the user wrote says that this is the secret. */
  predicate Claimed(e: Env, c: Config, value: string) {
    || (c.serverApi.Some? && Says(e, c.serverApi.value.secret.text, c.serverApi.value.secret.reference, value))
    || (c.api.Some? && !c.api.value.derived
        && Says(e, if c.api.value.secret.value.Some? then c.api.value.secret.value.value else "",
                c.api.value.secret.reference, value))
    || (c.server.Some? && !c.server.value.derived
        && Says(e, c.server.value.secret.text, c.server.value.secret.reference, value))
  }

  /** The forms are mixed exactly if two of them say different things. */
  lemma MixedSecretsExactlyWhen(e: Env, c: Config)
    ensures MixedSecrets(e, c) <==> exists x, y | Claimed(e, c, x) && Claimed(e, c, y) :: x != y
  {
    var shared := if c.serverApi.Some? then
                    Candidate(e, c.serverApi.value.secret.text, c.serverApi.value.secret.reference)
                  else None;
    var api := if c.api.Some? && !c.api.value.derived then
                 Candidate(e, if c.api.value.secret.value.Some? then c.api.value.secret.value.value else "",
                           c.api.value.secret.reference)
               else None;
    var server := if c.server.Some? && !c.server.value.derived then
                    Candidate(e, c.server.value.secret.text, c.server.value.secret.reference)
                  else None;
    if MixedSecrets(e, c) {
      var (x, y) := if Differ(shared, api) then (shared, api)
                    else if Differ(shared, server) then (shared, server) else (api, server);
      assert Claimed(e, c, x.value) && Claimed(e, c, y.value) && x.value != y.value;
    }
  }

  /**
  A save is refused when the forms are mixed, which the check decides without the
  profile's `.env`. Past it, a written-out API secret next to a shared section is
  lost exactly when the shared secret is empty.
  */
  lemma CheckedApiSecretLostExactlyWhen(e: Env, f: Config, secret: string)
    requires Load(e, f).Ok? && Load(e, Saved(e, Load(e, f).value)).Ok?
    requires var c := Load(e, f).value;
             && c.serverApi.Some? && c.api.Some? && !c.api.value.derived
             && c.api.value.secret.value == Some(secret) && secret != ""
             && !MixedSecrets(e.(files := map[]), c)
    ensures var c := Load(e, f).value;
            var api := Load(e, Saved(e, c)).value.api;
            !(api.Some? && api.value.secret.value == Some(secret)) <==> c.serverApi.value.secret.text == ""
  {
    ApiSecretKeptExactlyWhen(e, f, secret);
  }

  /**
  With a shared server section in the file and no other written out, the whole
  profile is read back as it was saved, derived sections included.
  */
  lemma SharedProfileRoundTrips(e: Env, f: Config)
    requires f.serverApi.Some? && f.api.None? && f.server.None?
    requires Load(e, f).Ok?
    ensures Load(e, Saved(e, Load(e, f).value)) == Load(e, f)
  {
    var c := Load(e, f).value;
    LoadIsIdempotent(e, f);
    FillTextUndoesStrip(e, f.serverApi.value.secret);
    LoadedIsFilled(e, c);
    ReadBack(e, c);
  }

  /**
  A profile can lose its database password by being saved, and a written-out API
  secret can be lost to an empty shared section.
  */
  lemma SavingCanLose(e: Env)
    ensures var c := Config(None, None, None, None, None, Some(Slot(Some("pw"), None)));
            Load(e, c) == Ok(c) && Load(e, Saved(e, c)) == Ok(c.(mongo := None))
    ensures var f := Config(None, Some(Api(Some("id"), Slot(Some("s"), None), false)), None,
                            Some(ServerApi("id", TextSlot("", None))), None, None);
            && Load(e, f).Ok?
            && Load(e, f).value.api.value.secret.value == Some("s")
            && var back := Load(e, Saved(e, Load(e, f).value));
               back.Ok? && back.value.api.Some? && back.value.api.value.secret.value == Some("")
  {
  }
}
