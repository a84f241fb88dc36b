/** The identity a credential is bound to, and the text its keyring account is derived from. */
module CredentialBinding {
  import opened Common
  import opened Text
  import AuthJournal

  const VERSION := 1
  const MAX_FIELD := 512

  datatype Binding = Binding(
    version: nat, account: string, issuer: string, region: string, baseUrl: string,
    workspaceId: Option<string>, workspaceGid: Option<string>)

  datatype BindingError = UnsupportedVersion(version: nat) | EmptyField(name: string) | FieldTooLong(name: string)

  function CheckField(name: string, value: string): Option<BindingError> {
    if Blank(value) then Some(EmptyField(name))
    else if ByteLen(value) > MAX_FIELD then Some(FieldTooLong(name))
    else None
  }

  function CheckOptional(name: string, value: Option<string>): Option<BindingError> {
    if value.Some? then CheckField(name, value.value) else None
  }

  function First(a: Option<BindingError>, b: Option<BindingError>): Option<BindingError> {
    if a.Some? then a else b
  }

  /** The first error found, in the order the fields are checked. */
  function Validate(b: Binding): Option<BindingError> {
    if b.version != VERSION then Some(UnsupportedVersion(b.version))
    else
      First(CheckField("account", b.account),
      First(CheckField("issuer", b.issuer),
      First(CheckField("region", b.region),
      First(CheckField("base_url", b.baseUrl),
      First(CheckOptional("workspace_id", b.workspaceId),
            CheckOptional("workspace_gid", b.workspaceGid))))))
  }

  /** Neither blank nor longer than 512 bytes. */
  predicate FieldFits(value: string) {
    !AllWhitespace(value) && ByteLen(value) <= 512
  }

  predicate OptionalFits(value: Option<string>) {
    value.Some? ==> FieldFits(value.value)
  }

  lemma FieldFitsExactlyWhen(name: string, value: string)
    ensures CheckField(name, value).None? <==> FieldFits(value)
    ensures AllWhitespace(value) ==> CheckField(name, value) == Some(EmptyField(name))
    ensures !AllWhitespace(value) && ByteLen(value) > 512 ==> CheckField(name, value) == Some(FieldTooLong(name))
  {
    BlankExactlyWhen(value);
  }

  /** The error names the field that does not fit, and says how. */
  predicate Blames(error: BindingError, name: string, value: string) {
    if AllWhitespace(value) then error == EmptyField(name) else error == FieldTooLong(name)
  }

  /**
  A binding is valid exactly if its version is 1 and every field it has fits;
  otherwise the error is about the version, or about the first field that does not fit.
  */
  lemma ValidExactlyWhen(b: Binding)
    ensures match Validate(b)
            case None =>
              && b.version == 1 && FieldFits(b.account) && FieldFits(b.issuer) && FieldFits(b.region)
              && FieldFits(b.baseUrl) && OptionalFits(b.workspaceId) && OptionalFits(b.workspaceGid)
            case Some(error) =>
              if b.version != 1 then error == UnsupportedVersion(b.version)
              else if !FieldFits(b.account) then Blames(error, "account", b.account)
              else if !FieldFits(b.issuer) then Blames(error, "issuer", b.issuer)
              else if !FieldFits(b.region) then Blames(error, "region", b.region)
              else if !FieldFits(b.baseUrl) then Blames(error, "base_url", b.baseUrl)
              else if !OptionalFits(b.workspaceId) then Blames(error, "workspace_id", b.workspaceId.value)
              else !OptionalFits(b.workspaceGid) && Blames(error, "workspace_gid", b.workspaceGid.value)
  {
    FieldFitsExactlyWhen("account", b.account);
    FieldFitsExactlyWhen("issuer", b.issuer);
    FieldFitsExactlyWhen("region", b.region);
    FieldFitsExactlyWhen("base_url", b.baseUrl);
    if b.workspaceId.Some? { FieldFitsExactlyWhen("workspace_id", b.workspaceId.value); }
    if b.workspaceGid.Some? { FieldFitsExactlyWhen("workspace_gid", b.workspaceGid.value); }
  }

  function Trimmed(value: Option<string>): string {
    if value.Some? then Trim(value.value) else ""
  }

  function Component(value: Option<string>): string {
    var v := Trimmed(value);
    Decimal(ByteLen(v)) + ":" + v
  }

  const TAGS: seq<string> :=
    [";account=", ";issuer=", ";region=", ";base_url=", ";workspace_id=", ";workspace_gid="]

  function Values(b: Binding): seq<Option<string>> {
    [Some(b.account), Some(b.issuer), Some(b.region), Some(b.baseUrl), b.workspaceId, b.workspaceGid]
  }

  function Tagged(tags: seq<string>, values: seq<Option<string>>): string
    requires |tags| == |values|
    decreases |tags|
  {
    if tags == [] then "" else tags[0] + (Component(values[0]) + Tagged(tags[1..], values[1..]))
  }

  /** `v1;account=3:...;issuer=...`: each field after its tag and its length in bytes. */
  function Canonical(b: Binding): string {
    "v" + (Decimal(b.version) + Tagged(TAGS, Values(b)))
  }

  predicate BindingMatches(expected: Binding, actual: Binding) {
    Validate(expected).None? && Validate(actual).None? && Canonical(expected) == Canonical(actual)
  }

  // ---------------------------------------------------------------- decoding

  /** The text of a canonical form, read back: what a component was, and what follows it. */
  datatype Parsed<T> = Parsed(value: T, rest: string)

  function Expect(s: string, literal: string): Option<string> {
    if literal <= s then Some(s[|literal|..]) else None
  }

  function ParseNat(s: string): Option<Parsed<nat>> {
    var n := DigitPrefix(s);
    if n == 0 then None else Some(Parsed(Value(s[..n]), s[n..]))
  }

  /** The prefix of `s` that is `n` bytes long, if characters end there. */
  function TakeBytes(s: string, n: nat): Option<Parsed<string>>
    decreases |s|
  {
    if n == 0 then Some(Parsed("", s))
    else if s == "" || Utf8Len(s[0]) > n then None
    else
      match TakeBytes(s[1..], n - Utf8Len(s[0]))
      case None => None
      case Some(p) => Some(Parsed([s[0]] + p.value, p.rest))
  }

  function ParseField(s: string, tag: string): Option<Parsed<string>> {
    match Expect(s, tag)
    case None => None
    case Some(afterLabel) =>
      match ParseNat(afterLabel)
      case None => None
      case Some(len) =>
        match Expect(len.rest, ":")
        case None => None
        case Some(body) => TakeBytes(body, len.value)
  }

  function ParseFields(s: string, tags: seq<string>): Option<Parsed<seq<string>>>
    decreases |tags|
  {
    if tags == [] then Some(Parsed([], s))
    else
      match ParseField(s, tags[0])
      case None => None
      case Some(p) =>
        match ParseFields(p.rest, tags[1..])
        case None => None
        case Some(q) => Some(Parsed([p.value] + q.value, q.rest))
  }

  datatype Identity = Identity(version: nat, fields: seq<string>)

  function Decode(s: string): Option<Identity> {
    match Expect(s, "v")
    case None => None
    case Some(afterV) =>
      match ParseNat(afterV)
      case None => None
      case Some(version) =>
        match ParseFields(version.rest, TAGS)
        case None => None
        case Some(p) => if p.rest == "" then Some(Identity(version.value, p.value)) else None
  }

  /** The fields an identity consists of. */
  function Fields(values: seq<Option<string>>): seq<string> {
    seq(|values|, i requires 0 <= i < |values| => Trimmed(values[i]))
  }

  lemma ExpectOf(literal: string, rest: string)
    ensures Expect(literal + rest, literal) == Some(rest)
  {
    assert (literal + rest)[|literal|..] == rest;
  }

  lemma ParseNatOfDecimal(n: nat, rest: string)
    requires rest != "" && !IsDigit(rest[0])
    ensures ParseNat(Decimal(n) + rest) == Some(Parsed(n, rest))
  {
    DigitPrefixOfDecimal(n, rest);
    ValueOfDecimal(n);
    assert (Decimal(n) + rest)[..|Decimal(n)|] == Decimal(n);
    assert (Decimal(n) + rest)[|Decimal(n)|..] == rest;
  }

  lemma {:induction false} TakeBytesOfText(s: string, rest: string)
    ensures TakeBytes(s + rest, ByteLen(s)) == Some(Parsed(s, rest))
    decreases |s|
  {
    if s == "" {
      assert s + rest == rest;
    } else {
      assert (s + rest)[0] == s[0] && (s + rest)[1..] == s[1..] + rest;
      TakeBytesOfText(s[1..], rest);
      assert [s[0]] + s[1..] == s;
    }
  }

  lemma ParseFieldOfComponent(tag: string, value: Option<string>, rest: string)
    ensures ParseField(tag + (Component(value) + rest), tag) == Some(Parsed(Trimmed(value), rest))
  {
    var v := Trimmed(value);
    var digits := Decimal(ByteLen(v));
    ExpectOf(tag, Component(value) + rest);
    assert Component(value) + rest == digits + (":" + (v + rest));
    ParseNatOfDecimal(ByteLen(v), ":" + (v + rest));
    ExpectOf(":", v + rest);
    TakeBytesOfText(v, rest);
  }

  lemma {:induction false} ParseFieldsOfTagged(tags: seq<string>, values: seq<Option<string>>)
    requires |tags| == |values|
    ensures ParseFields(Tagged(tags, values), tags) == Some(Parsed(Fields(values), ""))
    decreases |tags|
  {
    if tags != [] {
      ParseFieldsOfTagged(tags[1..], values[1..]);
      FirstFieldOfTagged(tags, values);
      FieldsInOrder(values);
    } else {
      assert Fields(values) == [];
    }
  }

  lemma FirstFieldOfTagged(tags: seq<string>, values: seq<Option<string>>)
    requires |tags| == |values| > 0
    ensures ParseField(Tagged(tags, values), tags[0])
         == Some(Parsed(Trimmed(values[0]), Tagged(tags[1..], values[1..])))
  {
    var rest := Tagged(tags[1..], values[1..]);
    assert Tagged(tags, values) == tags[0] + (Component(values[0]) + rest);
    ParseFieldOfComponent(tags[0], values[0], rest);
  }

  lemma FieldsInOrder(values: seq<Option<string>>)
    requires values != []
    ensures Fields(values) == [Trimmed(values[0])] + Fields(values[1..])
  {
  }

  /** Every binding can be read back from its canonical form, whatever its fields contain. */
  lemma DecodeCanonical(b: Binding)
    ensures Decode(Canonical(b)) == Some(Identity(b.version, Fields(Values(b))))
  {
    var tail := Tagged(TAGS, Values(b));
    ExpectOf("v", Decimal(b.version) + tail);
    TaggedStartsWithTag(TAGS, Values(b));
    ParseNatOfDecimal(b.version, tail);
    ParseFieldsOfTagged(TAGS, Values(b));
  }

  /** `;tag=`, the length of the value in bytes, `:` and the value, before `rest`. */
  function Field(tag: string, value: string, rest: string): string {
    tag + (Decimal(ByteLen(value)) + ":" + value + rest)
  }

  lemma FieldOfTagged(tag: string, value: Option<string>, tags: seq<string>, values: seq<Option<string>>)
    requires |tags| == |values|
    ensures Tagged([tag] + tags, [value] + values) == Field(tag, Trimmed(value), Tagged(tags, values))
  {
    assert ([tag] + tags)[1..] == tags && ([value] + values)[1..] == values;
  }

  /** The text is a field with this tag and value, before `rest`, and reads back as it. */
  predicate HasField(s: string, tag: string, value: string, rest: string) {
    s == Field(tag, value, rest) && ParseField(s, tag) == Some(Parsed(value, rest))
  }

  /** What stands from the `i`-th tag on. */
  function From(b: Binding, i: nat): string
    requires i <= 6
  {
    Tagged(TAGS[i..], Values(b)[i..])
  }

  lemma TagHasField(b: Binding, i: nat, tag: string, value: Option<string>)
    requires i < 6 && TAGS[i] == tag && Values(b)[i] == value
    ensures HasField(From(b, i), tag, Trimmed(value), From(b, i + 1))
  {
    var tags, values := TAGS[i + 1..], Values(b)[i + 1..];
    assert TAGS[i..] == [tag] + tags && Values(b)[i..] == [value] + values;
    FieldOfTagged(tag, value, tags, values);
    ParseFieldOfComponent(tag, value, Tagged(tags, values));
    assert tag + (Component(value) + Tagged(tags, values)) == Field(tag, Trimmed(value), Tagged(tags, values));
  }

  predicate HasRequired(b: Binding, account: string, issuer: string, region: string, baseUrl: string, id: string) {
    && HasField(account, ";account=", Trim(b.account), issuer)
    && HasField(issuer, ";issuer=", Trim(b.issuer), region)
    && HasField(region, ";region=", Trim(b.region), baseUrl)
    && HasField(baseUrl, ";base_url=", Trim(b.baseUrl), id)
  }

  predicate HasOptional(b: Binding, id: string, gid: string) {
    && HasField(id, ";workspace_id=", if b.workspaceId.Some? then Trim(b.workspaceId.value) else "", gid)
    && HasField(gid, ";workspace_gid=", if b.workspaceGid.Some? then Trim(b.workspaceGid.value) else "", "")
  }

  lemma RequiredFields(b: Binding)
    ensures HasRequired(b, From(b, 0), From(b, 1), From(b, 2), From(b, 3), From(b, 4))
  {
    TagHasField(b, 0, ";account=", Some(b.account));
    TagHasField(b, 1, ";issuer=", Some(b.issuer));
    TagHasField(b, 2, ";region=", Some(b.region));
    TagHasField(b, 3, ";base_url=", Some(b.baseUrl));
  }

  lemma CanonicalStart(b: Binding)
    ensures Canonical(b) == "v" + Decimal(b.version) + From(b, 0)
  {
    assert TAGS[0..] == TAGS && Values(b)[0..] == Values(b);
    assert "v" + (Decimal(b.version) + From(b, 0)) == "v" + Decimal(b.version) + From(b, 0);
  }

  lemma OptionalFields(b: Binding)
    ensures HasOptional(b, From(b, 4), From(b, 5))
  {
    TagHasField(b, 4, ";workspace_id=", b.workspaceId);
    TagHasField(b, 5, ";workspace_gid=", b.workspaceGid);
  }

  /**
  The canonical form field by field: behind each tag stand the length and the
  trimmed text of the field it names, and nothing for an optional field without
  a value. The text from each tag on reads back as that field.
  */
  lemma EachTagHasItsField(b: Binding)
    returns (account: string, issuer: string, region: string, baseUrl: string, id: string, gid: string)
    ensures Canonical(b) == "v" + Decimal(b.version) + account
    ensures HasRequired(b, account, issuer, region, baseUrl, id) && HasOptional(b, id, gid)
  {
    account, issuer, region, baseUrl := From(b, 0), From(b, 1), From(b, 2), From(b, 3);
    id, gid := From(b, 4), From(b, 5);
    RequiredFields(b);
    OptionalFields(b);
    CanonicalStart(b);
  }

  lemma TaggedStartsWithTag(tags: seq<string>, values: seq<Option<string>>)
    requires |tags| == |values| && tags != [] && tags[0] != ""
    ensures Tagged(tags, values) != "" && Tagged(tags, values)[0] == tags[0][0]
  {
  }

  predicate SameIdentity(a: Binding, b: Binding) {
    && a.version == b.version
    && Trim(a.account) == Trim(b.account) && Trim(a.issuer) == Trim(b.issuer)
    && Trim(a.region) == Trim(b.region) && Trim(a.baseUrl) == Trim(b.baseUrl)
    && SameOptional(a.workspaceId, b.workspaceId) && SameOptional(a.workspaceGid, b.workspaceGid)
  }

  predicate SameOptional(a: Option<string>, b: Option<string>) {
    (a.Some? <==> b.Some?) && (a.Some? && b.Some? ==> Trim(a.value) == Trim(b.value))
  }

  /** Two bindings match exactly when both are valid and agree on every trimmed field. */
  lemma BindingMatchesExactly(a: Binding, b: Binding)
    ensures BindingMatches(a, b) <==> Validate(a).None? && Validate(b).None? && SameIdentity(a, b)
  {
    if BindingMatches(a, b) { MatchingAgree(a, b); }
    if SameIdentity(a, b) { SameComponents(TAGS, Values(a), Values(b)); }
  }

  lemma MatchingAgree(a: Binding, b: Binding)
    requires BindingMatches(a, b)
    ensures SameIdentity(a, b)
  {
    DecodeCanonical(a);
    DecodeCanonical(b);
    SameFields(a, b);
  }

  lemma SameFields(a: Binding, b: Binding)
    requires Validate(a).None? && Validate(b).None?
    requires a.version == b.version && Fields(Values(a)) == Fields(Values(b))
    ensures SameIdentity(a, b)
  {
    forall i | 0 <= i < 6 ensures Trimmed(Values(a)[i]) == Trimmed(Values(b)[i]) {
      assert Fields(Values(a))[i] == Fields(Values(b))[i];
    }
    assert Trimmed(Values(a)[0]) == Trimmed(Values(b)[0]) && Trimmed(Values(a)[1]) == Trimmed(Values(b)[1]);
    assert Trimmed(Values(a)[2]) == Trimmed(Values(b)[2]) && Trimmed(Values(a)[3]) == Trimmed(Values(b)[3]);
    assert Trimmed(Values(a)[4]) == Trimmed(Values(b)[4]) && Trimmed(Values(a)[5]) == Trimmed(Values(b)[5]);
  }

  lemma {:induction false} SameComponents(tags: seq<string>, a: seq<Option<string>>, b: seq<Option<string>>)
    requires |tags| == |a| == |b|
    requires forall i | 0 <= i < |a| :: Trimmed(a[i]) == Trimmed(b[i])
    ensures Tagged(tags, a) == Tagged(tags, b)
    decreases |tags|
  {
    if tags != [] { SameComponents(tags[1..], a[1..], b[1..]); }
  }

  // ---------------------------------------------------------------- keyring accounts

  function SafeChar(c: char): char {
    if IsDigit(c) || 'a' <= c <= 'z' || 'A' <= c <= 'Z' || c == '.' || c == '_' || c == '-' then c else '_'
  }

  function SafeField(field: string): string {
    seq(|field|, i requires 0 <= i < |field| => SafeChar(field[i]))
  }

  /** A name of plain characters is kept; in any other name only the other characters are replaced. */
  lemma SafeFieldReplacesOnlyUnsafe(field: string)
    ensures |SafeField(field)| == |field|
    ensures forall i | 0 <= i < |field| ::
              SafeField(field)[i] == if IsSafe(field[i]) then field[i] else '_'
    ensures (forall c | c in field :: IsSafe(c)) <==> (SafeField(field) == field)
  {
    if SafeField(field) == field {
      forall c | c in field ensures IsSafe(c) {
        var i :| 0 <= i < |field| && field[i] == c;
        assert SafeField(field)[i] == c;
      }
    }
  }

  predicate IsSafe(c: char) {
    '0' <= c <= '9' || 'a' <= c <= 'z' || 'A' <= c <= 'Z' || c == '.' || c == '_' || c == '-'
  }

  /** The account name `v<version>/<digest>-<field>`, kept in its three parts. */
  datatype Account = Account(version: nat, fingerprint: AuthJournal.Digest, field: string)

  function FingerprintInput(namespace: Option<string>, b: Binding): string {
    if namespace.Some? then "namespace=" + (namespace.value + (";binding=" + Canonical(b))) else Canonical(b)
  }

  function KeyringAccount(namespace: Option<string>, b: Binding, field: string): Account {
    Account(b.version, AuthJournal.Sha256(FingerprintInput(namespace, b)), SafeField(field))
  }

  predicate Plain(namespace: Option<string>) {
    namespace.Some? ==> ';' !in namespace.value
  }

  function FirstSemicolon(s: string): nat {
    if s == "" || s[0] == ';' then 0 else 1 + FirstSemicolon(s[1..])
  }

  lemma {:induction false} SemicolonAfter(x: string, r: string)
    requires ';' !in x && r != "" && r[0] == ';'
    ensures FirstSemicolon(x + r) == |x|
  {
    if x == "" {
      assert x + r == r;
    } else {
      assert (x + r)[1..] == x[1..] + r;
      SemicolonAfter(x[1..], r);
    }
  }

  /** A name without semicolons can be told from what follows its first one. */
  lemma SplitAtSemicolon(x: string, y: string, r: string, s: string)
    requires ';' !in x && ';' !in y
    requires r != "" && r[0] == ';' && s != "" && s[0] == ';'
    requires x + r == y + s
    ensures x == y && r == s
  {
    SemicolonAfter(x, r);
    SemicolonAfter(y, s);
    assert (x + r)[..|x|] == x && (y + s)[..|y|] == y;
    assert (x + r)[|x|..] == r && (y + s)[|y|..] == s;
  }

  lemma SameBehind(front: string, x: string, y: string)
    requires front + x == front + y
    ensures x == y
  {
    assert x == (front + x)[|front|..] && y == (front + y)[|front|..];
  }

  /** A namespace is told from a binding by the first letter. */
  lemma NamespaceShows(m: Option<string>, a: Binding)
    ensures FingerprintInput(m, a) != "" && (m.Some? <==> FingerprintInput(m, a)[0] == 'n')
  {
  }

  lemma SameNamespaces(m: string, x: string, n: string, y: string)
    requires ';' !in m && ';' !in n
    requires "namespace=" + (m + (";binding=" + x)) == "namespace=" + (n + (";binding=" + y))
    ensures m == n && x == y
  {
    SameBehind("namespace=", m + (";binding=" + x), n + (";binding=" + y));
    SplitAtSemicolon(m, n, ";binding=" + x, ";binding=" + y);
    SameBehind(";binding=", x, y);
  }

  lemma SameInputs(m: Option<string>, a: Binding, n: Option<string>, b: Binding)
    requires Plain(m) && Plain(n) && FingerprintInput(m, a) == FingerprintInput(n, b)
    ensures m == n && Canonical(a) == Canonical(b)
  {
    NamespaceShows(m, a);
    NamespaceShows(n, b);
    if m.Some? { SameNamespaces(m.value, Canonical(a), n.value, Canonical(b)); }
  }

  /** Accounts coincide only for one namespace, one identity and one safe field name. */
  lemma AccountsSeparate(m: Option<string>, a: Binding, f: string, n: Option<string>, b: Binding, g: string)
    requires Plain(m) && Plain(n)
    requires Validate(a).None? && Validate(b).None?
    ensures KeyringAccount(m, a, f) == KeyringAccount(n, b, g) <==>
              m == n && SameIdentity(a, b) && SafeField(f) == SafeField(g)
  {
    BindingMatchesExactly(a, b);
    if KeyringAccount(m, a, f) == KeyringAccount(n, b, g) {
      SameInputs(m, a, n, b);
    }
  }
}
