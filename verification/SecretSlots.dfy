/**
The secret slots of a profile: loading fills an empty slot from its reference,
saving drops a value its reference provides.
*/
module SecretSlots {
  import opened Common
  import opened Text

  // ---------------------------------------------------------------- references

  datatype ReadError = KeyringUnreadable | InvalidReference

  datatype KeyringRead = Entry(value: string) | NoEntry | NoStore | Unreadable

  /** What references are read from: `.env` files, the process, the OS keyring. */
  datatype Env = Env(files: map<string, string>, process: map<string, string>, keyring: string -> KeyringRead)

  function After(s: string, prefix: string): Option<string> {
    if prefix <= s then Some(s[|prefix|..]) else None
  }

  function NonBlank(m: map<string, string>, name: string): Option<string> {
    if name in m && !Blank(m[name]) then Some(m[name]) else None
  }

  function ResolveRef(e: Env, reference: string): Result<Option<string>, ReadError> {
    var literal, name, account := After(reference, "inline:"), After(reference, "env:"), After(reference, "keyring:");
    if literal.Some? then Ok(literal)
    else if name.Some? then
      var fromFile := NonBlank(e.files, name.value);
      Ok(if fromFile.Some? then fromFile else NonBlank(e.process, name.value))
    else if account.Some? then
      match e.keyring(account.value)
      case Entry(value) => Ok(Some(value))
      case NoEntry => Ok(None)
      case NoStore => Ok(None)
      case Unreadable => Err(KeyringUnreadable)
    else Err(InvalidReference)
  }

  /** What a source gives for a name: nothing if there is no entry, or only white space. */
  predicate Gives(source: map<string, string>, name: string, value: Option<string>) {
    if name in source && !AllWhitespace(source[name]) then value == Some(source[name])
    else value == None
  }

  lemma NonBlankGives(source: map<string, string>, name: string)
    ensures Gives(source, name, NonBlank(source, name))
  {
    if name in source { BlankExactlyWhen(source[name]); }
  }

  /** An `env:` reference yields what the `.env` files give; only when they give nothing, what the process gives. */
  lemma FileOverridesProcess(e: Env, name: string, fromFile: Option<string>, fromProcess: Option<string>)
    requires Gives(e.files, name, fromFile) && Gives(e.process, name, fromProcess)
    ensures ResolveRef(e, "env:" + name) == Ok(if fromFile.Some? then fromFile else fromProcess)
  {
    NonBlankGives(e.files, name);
    NonBlankGives(e.process, name);
    assert ("env:" + name)[4..] == name && ("env:" + name)[0] == 'e';
  }

  lemma InlineIsLiteral(e: Env, value: string)
    ensures ResolveRef(e, "inline:" + value) == Ok(Some(value))
  {
    assert ("inline:" + value)[7..] == value;
  }

  /** A `keyring:` reference yields the entry; a missing entry or keyring is no error, an unreadable one is. */
  lemma KeyringIsRead(e: Env, account: string)
    ensures match e.keyring(account)
            case Entry(value) => ResolveRef(e, "keyring:" + account) == Ok(Some(value))
            case NoEntry => ResolveRef(e, "keyring:" + account) == Ok(None)
            case NoStore => ResolveRef(e, "keyring:" + account) == Ok(None)
            case Unreadable => ResolveRef(e, "keyring:" + account) == Err(KeyringUnreadable)
  {
    assert ("keyring:" + account)[8..] == account && ("keyring:" + account)[0] == 'k';
  }

  /** Every other reference is refused. */
  lemma OtherReferencesAreInvalid(e: Env, reference: string)
    ensures ResolveRef(e, reference) == Err(InvalidReference) <==>
              !("inline:" <= reference) && !("env:" <= reference) && !("keyring:" <= reference)
  {
  }

  /** While loading, an unreadable keyring leaves the slot empty instead of failing. */
  function ResolveForLoad(e: Env, reference: string): Result<Option<string>, ReadError> {
    var r := ResolveRef(e, reference);
    if r == Err(KeyringUnreadable) then Ok(None) else r
  }

  // ---------------------------------------------------------------- one slot

  datatype Slot = Slot(value: Option<string>, reference: Option<string>)

  /** A slot whose field is a plain string: empty means absent. */
  datatype TextSlot = TextSlot(text: string, reference: Option<string>)

  predicate Fillable(e: Env, s: Slot) {
    s.value.Some? || s.reference.None? || ResolveForLoad(e, s.reference.value).Ok?
  }

  function Filled(e: Env, s: Slot): Slot
    requires Fillable(e, s)
  {
    if s.value.None? && s.reference.Some? then s.(value := ResolveForLoad(e, s.reference.value).value) else s
  }

  predicate FillableText(e: Env, s: TextSlot) {
    s.text != "" || s.reference.None? || ResolveForLoad(e, s.reference.value).Ok?
  }

  function FilledText(e: Env, s: TextSlot): TextSlot
    requires FillableText(e, s)
  {
    if s.text == "" && s.reference.Some? then
      var v := ResolveForLoad(e, s.reference.value).value;
      if v.Some? then s.(text := v.value) else s
    else s
  }

  /** The reference yields exactly this value. */
  predicate Covers(e: Env, reference: Option<string>, value: Option<string>) {
    && reference.Some? && !Blank(reference.value)
    && var r := ResolveRef(e, reference.value);
       r.Ok? && r.value.Some? && r.value == value
  }

  function Stripped(e: Env, s: Slot): Slot {
    if Covers(e, s.reference, s.value) then s.(value := None) else s
  }

  function StrippedText(e: Env, s: TextSlot): TextSlot {
    if Covers(e, s.reference, Some(s.text)) then s.(text := "") else s
  }

  lemma FillUndoesStrip(e: Env, s: Slot)
    ensures Fillable(e, Stripped(e, s)) <==> Fillable(e, s)
    ensures Fillable(e, s) ==> Filled(e, Stripped(e, s)) == Filled(e, s)
    ensures Fillable(e, s) ==> Fillable(e, Filled(e, s)) && Filled(e, Filled(e, s)) == Filled(e, s)
  {
  }

  lemma FillTextUndoesStrip(e: Env, s: TextSlot)
    ensures FillableText(e, StrippedText(e, s)) <==> FillableText(e, s)
    ensures FillableText(e, s) ==> FilledText(e, StrippedText(e, s)) == FilledText(e, s)
    ensures FillableText(e, s) ==>
              FillableText(e, FilledText(e, s)) && FilledText(e, FilledText(e, s)) == FilledText(e, s)
  {
  }

  // ---------------------------------------------------------------- a profile's slots

  /** Access token, refresh token, workspace password and the two client secrets. */
  datatype Slots = Slots(access: Slot, refresh: Slot, password: Slot, client: Slot, spClient: Slot)

  datatype One = One(own: Slots, credentials: map<string, Slots>)

  datatype Api = Api(clientId: Option<string>, secret: Slot, derived: bool)

  datatype Server = Server(key: string, secret: TextSlot, derived: bool)

  datatype ServerApi = ServerApi(clientId: string, secret: TextSlot)

  datatype SqlServer = SqlServer(controller: Option<Slot>, ui: Option<Slot>)

  datatype Config = Config(
    one: Option<One>, api: Option<Api>, server: Option<Server>, serverApi: Option<ServerApi>,
    sql: Option<SqlServer>, mongo: Option<Slot>)

  predicate SlotsFillable(e: Env, s: Slots) {
    && Fillable(e, s.access) && Fillable(e, s.refresh) && Fillable(e, s.password)
    && Fillable(e, s.client) && Fillable(e, s.spClient)
  }

  function SlotsFilled(e: Env, s: Slots): Slots
    requires SlotsFillable(e, s)
  {
    Slots(Filled(e, s.access), Filled(e, s.refresh), Filled(e, s.password), Filled(e, s.client), Filled(e, s.spClient))
  }

  function SlotsStripped(e: Env, s: Slots): Slots {
    Slots(Stripped(e, s.access), Stripped(e, s.refresh), Stripped(e, s.password),
          Stripped(e, s.client), Stripped(e, s.spClient))
  }

  predicate MapFillable(e: Env, m: map<string, Slots>) {
    forall k | k in m :: SlotsFillable(e, m[k])
  }

  function MapFilled(e: Env, m: map<string, Slots>): map<string, Slots>
    requires MapFillable(e, m)
  {
    map k | k in m :: SlotsFilled(e, m[k])
  }

  function MapStripped(e: Env, m: map<string, Slots>): map<string, Slots> {
    map k | k in m :: SlotsStripped(e, m[k])
  }

  predicate OneFillable(e: Env, o: One) {
    SlotsFillable(e, o.own) && MapFillable(e, o.credentials)
  }

  predicate OptionFillable(e: Env, s: Option<Slot>) {
    s.Some? ==> Fillable(e, s.value)
  }

  function OptionFilled(e: Env, s: Option<Slot>): Option<Slot>
    requires OptionFillable(e, s)
  {
    if s.Some? then Some(Filled(e, s.value)) else None
  }

  function OptionStripped(e: Env, s: Option<Slot>): Option<Slot> {
    if s.Some? then Some(Stripped(e, s.value)) else None
  }

  // ---------------------------------------------------------------- loading

  /** The shared server section stands for both `api` and `server` unless they are written out. */
  function Derive(c: Config): Config {
    if c.serverApi.None? then c
    else
      var shared := c.serverApi.value;
      c.(api := if c.api.Some? then c.api
                else Some(Api(Some(shared.clientId), Slot(Some(shared.secret.text), shared.secret.reference), true)),
         server := if c.server.Some? then c.server
                   else Some(Server(shared.clientId, shared.secret, true)))
  }

  predicate SharedFillable(e: Env, c: Config) {
    c.serverApi.Some? ==> FillableText(e, c.serverApi.value.secret)
  }

  function WithSharedFilled(e: Env, c: Config): Config
    requires SharedFillable(e, c)
  {
    if c.serverApi.None? then c
    else c.(serverApi := Some(c.serverApi.value.(secret := FilledText(e, c.serverApi.value.secret))))
  }

  predicate RestFillable(e: Env, c: Config) {
    && (c.one.Some? ==> OneFillable(e, c.one.value))
    && (c.api.Some? ==> Fillable(e, c.api.value.secret))
    && (c.server.Some? ==> FillableText(e, c.server.value.secret))
    && (c.sql.Some? ==> OptionFillable(e, c.sql.value.controller) && OptionFillable(e, c.sql.value.ui))
    && OptionFillable(e, c.mongo)
  }

  function RestFilled(e: Env, c: Config): Config
    requires RestFillable(e, c)
  {
    Config(
      if c.one.None? then None
      else Some(One(SlotsFilled(e, c.one.value.own), MapFilled(e, c.one.value.credentials))),
      if c.api.None? then None else Some(c.api.value.(secret := Filled(e, c.api.value.secret))),
      if c.server.None? then None else Some(c.server.value.(secret := FilledText(e, c.server.value.secret))),
      c.serverApi,
      if c.sql.None? then None
      else Some(SqlServer(OptionFilled(e, c.sql.value.controller), OptionFilled(e, c.sql.value.ui))),
      OptionFilled(e, c.mongo))
  }

  function Load(e: Env, c: Config): Result<Config, ReadError> {
    if !SharedFillable(e, c) then Err(InvalidReference)
    else
      var d := Derive(WithSharedFilled(e, c));
      if RestFillable(e, d) then Ok(RestFilled(e, d)) else Err(InvalidReference)
  }

  // ---------------------------------------------------------------- saving

  function Strip(e: Env, c: Config): Config {
    Config(
      if c.one.None? then None
      else Some(One(SlotsStripped(e, c.one.value.own), MapStripped(e, c.one.value.credentials))),
      if c.api.None? then None else Some(c.api.value.(secret := Stripped(e, c.api.value.secret))),
      if c.server.None? then None else Some(c.server.value.(secret := StrippedText(e, c.server.value.secret))),
      if c.serverApi.None? then None
      else Some(c.serverApi.value.(secret := StrippedText(e, c.serverApi.value.secret))),
      if c.sql.None? then None
      else Some(SqlServer(OptionStripped(e, c.sql.value.controller), OptionStripped(e, c.sql.value.ui))),
      OptionStripped(e, c.mongo))
  }

  /** The one server section the file has room for. */
  function Chosen(c: Config): Option<ServerApi> {
    if c.serverApi.Some? then c.serverApi
    else if c.api.Some? && c.api.value.clientId.Some? && c.api.value.clientId.value != "" then
      var a := c.api.value;
      Some(ServerApi(a.clientId.value,
                     TextSlot(if a.secret.value.Some? then a.secret.value.value else "", a.secret.reference)))
    else if c.server.Some? then Some(ServerApi(c.server.value.key, c.server.value.secret))
    else None
  }

  /** What a saved profile reads back as: storage is written inside the server section. */
  function Saved(e: Env, c: Config): Config {
    var s := Strip(e, c);
    var section := Chosen(s);
    Config(s.one, None, None, section,
           if section.Some? then s.sql else None, if section.Some? then s.mongo else None)
  }

  // ---------------------------------------------------------------- the loader's code

  method ResolveRefForLoad(e: Env, reference: string) returns (r: Result<Option<string>, ReadError>)
    ensures r == ResolveForLoad(e, reference)
  {
    var read := ResolveRef(e, reference);
    if read.Err? && read.error.KeyringUnreadable? { return Ok(None); }
    return read;
  }

  method FillSlot(e: Env, s: Slot) returns (ok: bool, r: Slot)
    ensures ok == Fillable(e, s) && (ok ==> r == Filled(e, s))
  {
    r := s;
    if s.value.None? && s.reference.Some? {
      var v := ResolveRefForLoad(e, s.reference.value);
      if v.Err? { return false, s; }
      r := s.(value := v.value);
    }
    ok := true;
  }

  method FillSlots(e: Env, s: Slots) returns (ok: bool, r: Slots)
    ensures ok == SlotsFillable(e, s) && (ok ==> r == SlotsFilled(e, s))
  {
    r := s;
    var slot;
    ok, slot := FillSlot(e, s.access);
    if !ok { return; }
    r := r.(access := slot);
    ok, slot := FillSlot(e, s.refresh);
    if !ok { return; }
    r := r.(refresh := slot);
    ok, slot := FillSlot(e, s.password);
    if !ok { return; }
    r := r.(password := slot);
    ok, slot := FillSlot(e, s.client);
    if !ok { return; }
    r := r.(client := slot);
    ok, slot := FillSlot(e, s.spClient);
    if !ok { return; }
    r := r.(spClient := slot);
  }

  method FillOption(e: Env, s: Option<Slot>) returns (ok: bool, r: Option<Slot>)
    ensures ok == OptionFillable(e, s) && (ok ==> r == OptionFilled(e, s))
  {
    if s.None? { return true, None; }
    var slot;
    ok, slot := FillSlot(e, s.value);
    r := Some(slot);
  }

  /** Fill the credential records one by one; the first bad reference stops the load. */
  method FillCredentials(e: Env, m: map<string, Slots>) returns (ok: bool, r: map<string, Slots>)
    ensures ok == MapFillable(e, m) && (ok ==> r == MapFilled(e, m))
  {
    r := m;
    var todo := m.Keys;
    while todo != {}
      invariant todo <= m.Keys && r.Keys == m.Keys
      invariant forall k | k in todo :: r[k] == m[k]
      invariant forall k | k in m && k !in todo :: SlotsFillable(e, m[k]) && r[k] == SlotsFilled(e, m[k])
      decreases todo
    {
      var k :| k in todo;
      var filled;
      ok, filled := FillSlots(e, r[k]);
      if !ok { return; }
      r := r[k := filled];
      todo := todo - {k};
    }
    ok := true;
  }

  method FillText(e: Env, s: TextSlot) returns (ok: bool, r: TextSlot)
    ensures ok == FillableText(e, s) && (ok ==> r == FilledText(e, s))
  {
    r := s;
    if s.text == "" && s.reference.Some? {
      var v := ResolveRefForLoad(e, s.reference.value);
      if v.Err? { return false, s; }
      if v.value.Some? { r := s.(text := v.value.value); }
    }
    ok := true;
  }

  method WithServerApiOverrides(e: Env, c: Config) returns (r: Result<Config, ReadError>)
    ensures r == if SharedFillable(e, c) then Ok(Derive(WithSharedFilled(e, c))) else Err(InvalidReference)
  {
    var d := c;
    if c.serverApi.Some? {
      var ok, secret := FillText(e, c.serverApi.value.secret);
      if !ok { return Err(InvalidReference); }
      var shared := c.serverApi.value.(secret := secret);
      d := d.(serverApi := Some(shared));
      if d.api.None? {
        d := d.(api := Some(Api(Some(shared.clientId), Slot(Some(secret.text), secret.reference), true)));
      }
      if d.server.None? { d := d.(server := Some(Server(shared.clientId, secret, true))); }
    }
    return Ok(d);
  }

  method ResolveOne(e: Env, one: Option<One>) returns (ok: bool, r: Option<One>)
    ensures ok == (one.Some? ==> OneFillable(e, one.value))
    ensures ok ==> r == if one.None? then None
                        else Some(One(SlotsFilled(e, one.value.own), MapFilled(e, one.value.credentials)))
  {
    if one.None? { return true, None; }
    var own, credentials;
    r := one;
    ok, own := FillSlots(e, one.value.own);
    if !ok { return; }
    ok, credentials := FillCredentials(e, one.value.credentials);
    if !ok { return; }
    r := Some(One(own, credentials));
  }

  method ResolveSecretRefs(e: Env, c: Config) returns (r: Result<Config, ReadError>)
    ensures r == if RestFillable(e, c) then Ok(RestFilled(e, c)) else Err(InvalidReference)
  {
    var d := c;
    var ok, one := ResolveOne(e, c.one);
    if !ok { return Err(InvalidReference); }
    d := d.(one := one);
    if c.api.Some? {
      var slot;
      ok, slot := FillSlot(e, c.api.value.secret);
      if !ok { return Err(InvalidReference); }
      d := d.(api := Some(c.api.value.(secret := slot)));
    }
    if c.server.Some? {
      var text;
      ok, text := FillText(e, c.server.value.secret);
      if !ok { return Err(InvalidReference); }
      d := d.(server := Some(c.server.value.(secret := text)));
    }
    if c.sql.Some? {
      var controller, ui;
      ok, controller := FillOption(e, c.sql.value.controller);
      if !ok { return Err(InvalidReference); }
      ok, ui := FillOption(e, c.sql.value.ui);
      if !ok { return Err(InvalidReference); }
      d := d.(sql := Some(SqlServer(controller, ui)));
    }
    var mongo;
    ok, mongo := FillOption(e, c.mongo);
    if !ok { return Err(InvalidReference); }
    return Ok(d.(mongo := mongo));
  }

  method FinalizeLoadedConfig(e: Env, c: Config) returns (r: Result<Config, ReadError>)
    ensures r == Load(e, c)
  {
    r := WithServerApiOverrides(e, c);
    if r.Ok? { r := ResolveSecretRefs(e, r.value); }
  }

  // ---------------------------------------------------------------- the saver's code

  method ClearCredentials(e: Env, m: map<string, Slots>) returns (r: map<string, Slots>)
    ensures r == MapStripped(e, m)
  {
    r := m;
    var todo := m.Keys;
    while todo != {}
      invariant todo <= m.Keys && r.Keys == m.Keys
      invariant forall k | k in todo :: r[k] == m[k]
      invariant forall k | k in m && k !in todo :: r[k] == SlotsStripped(e, m[k])
      decreases todo
    {
      var k :| k in todo;
      r := r[k := SlotsStripped(e, r[k])];
      todo := todo - {k};
    }
  }

  method StripValuesCoveredByRefs(e: Env, c: Config) returns (r: Config)
    ensures r == Strip(e, c)
  {
    r := c;
    if c.one.Some? {
      var credentials := ClearCredentials(e, c.one.value.credentials);
      r := r.(one := Some(One(SlotsStripped(e, c.one.value.own), credentials)));
    }
    if c.api.Some? { r := r.(api := Some(c.api.value.(secret := Stripped(e, c.api.value.secret)))); }
    if c.server.Some? && Covers(e, c.server.value.secret.reference, Some(c.server.value.secret.text)) {
      r := r.(server := Some(c.server.value.(secret := c.server.value.secret.(text := ""))));
    }
    if c.serverApi.Some? && Covers(e, c.serverApi.value.secret.reference, Some(c.serverApi.value.secret.text)) {
      r := r.(serverApi := Some(c.serverApi.value.(secret := c.serverApi.value.secret.(text := ""))));
    }
    if c.sql.Some? {
      r := r.(sql := Some(SqlServer(OptionStripped(e, c.sql.value.controller), OptionStripped(e, c.sql.value.ui))));
    }
    r := r.(mongo := OptionStripped(e, c.mongo));
  }
}
