/** Declarative regression specifications and when they can be generated (full_hunt/regression.py). */
module RegressionSpec {
  import opened Wrappers
  import opened Collections

  // ----- Documents -----

  /** The keys inside a document's values: those with a meaning, and any other. */
  datatype Field = Version | Fingerprint | LocalOnly | NoExternalRedirects | Nondestructive | NoCredentialGuessing
                 | RedactSecrets | Named(text: string)

  datatype Json = Null | Bool(b: bool) | Int(n: int) | Float(r: real) | Str(s: string) | Arr(items: seq<Json>)
    | Obj(fields: map<Field, Json>)

  /** The patterns left abstract: safe ids, hashes, forbidden keys, active text, and which other keys end in `_id`. */
  datatype Patterns = Patterns(safeId: string -> bool, hash: string -> bool, forbidden: string -> bool,
                               active: string -> bool, endsInId: string -> bool)

  predicate Forbidden(x: Patterns, k: Field) {
    k.Named? && x.forbidden(k.text)
  }

  predicate IdKey(x: Patterns, k: Field) {
    k.Named? && x.endsInId(k.text)
  }

  predicate SafeString(x: Patterns, j: Json) {
    j.Str? && x.safeId(j.s)
  }

  /** `_reject_active_content` accepts the document. */
  predicate Inert(x: Patterns, j: Json) {
    match j
    case Obj(fields) => forall k | k in fields ::
      !Forbidden(x, k) && Inert(x, fields[k]) && (IdKey(x, k) ==> SafeString(x, fields[k]))
    case Arr(items) => forall i | 0 <= i < |items| :: Inert(x, items[i])
    case Str(s) => !x.active(s)
    case _ => true
  }

  /** A specification as a dictionary: the value of each of its keys, `Null` for an absent one, and any other keys. */
  datatype Document = Document(
    schemaVersion: Json, targetId: Json, candidateId: Json, rootCauseId: Json, scenarioId: Json,
      requiredCapabilities: Json,
    sourceAssertions: Json, controlExpectation: Json, probeExpectation: Json, invariant_: Json, requestBudget: Json,
    safetyPolicy: Json, knownAffected: Json, knownFixed: Json, generatedFromEvidence: Json, others: map<Field, Json>)

  datatype Reference = Reference(version: string, fingerprint: string)

  datatype Spec = Spec(
    target: string, candidate: string, rootCause: string, scenario: string,
    capabilities: seq<string>, assertions: set<Field>,
    control: map<Field, Json>, probe: map<Field, Json>, invariant_: map<Field, Json>,
    budget: int, policy: set<Field>,
    knownAffected: seq<Reference>, knownFixed: seq<Reference>, evidence: seq<string>)

  // ----- Reading -----

  function At(j: Json, k: Field): Json {
    if j.Obj? && k in j.fields then j.fields[k] else Null
  }

  predicate SafeStrings(x: Patterns, j: Json) {
    j.Arr? && j.items != [] && forall i | 0 <= i < |j.items| :: SafeString(x, j.items[i])
  }

  function Texts(items: seq<Json>): (r: seq<string>)
    requires forall i | 0 <= i < |items| :: items[i].Str?
    ensures |r| == |items| && forall i | 0 <= i < |r| :: r[i] == items[i].s
  {
    seq(|items|, i requires 0 <= i < |items| => items[i].s)
  }

  /** A capability list repeats nothing. */
  predicate Capabilities(x: Patterns, j: Json) {
    SafeStrings(x, j) && |Elements(j.items)| == |j.items|
  }

  /** Every value is `True`. */
  predicate AllTrue(j: Json) {
    j.Obj? && forall k | k in j.fields :: j.fields[k] == Bool(true)
  }

  predicate Assertions(x: Patterns, j: Json) {
    AllTrue(j) && j.fields != map[] && forall k | k in j.fields :: k.Named? ==> x.safeId(k.text)
  }

  predicate Policy(j: Json) {
    AllTrue(j) && {LocalOnly, NoExternalRedirects, Nondestructive, NoCredentialGuessing, RedactSecrets} <= j.fields.Keys
  }

  predicate Declarative(x: Patterns, j: Json) {
    j.Obj? && j.fields != map[] && Inert(x, j)
  }

  predicate IsReference(x: Patterns, j: Json) {
    At(j, Version).Str? && At(j, Fingerprint).Str? && x.hash(At(j, Fingerprint).s)
  }

  predicate ReferenceList(x: Patterns, j: Json) {
    j.Arr? && forall i | 0 <= i < |j.items| :: IsReference(x, j.items[i])
  }

  function ReferenceOf(x: Patterns, j: Json): Reference
    requires IsReference(x, j)
  {
    Reference(At(j, Version).s, At(j, Fingerprint).s)
  }

  function References(x: Patterns, items: seq<Json>): (r: seq<Reference>)
    requires forall i | 0 <= i < |items| :: IsReference(x, items[i])
    ensures |r| == |items|
    ensures forall i | 0 <= i < |r| :: r[i] == ReferenceOf(x, items[i])
  {
    seq(|items|, i requires 0 <= i < |items| => ReferenceOf(x, items[i]))
  }

  predicate InertId(x: Patterns, j: Json) {
    Inert(x, j) && SafeString(x, j)
  }

  predicate ScalarsIn(x: Patterns, d: Document) {
    && d.schemaVersion == Int(1)
    && InertId(x, d.targetId) && InertId(x, d.candidateId) && InertId(x, d.rootCauseId) && InertId(x, d.scenarioId)
    && d.requestBudget.Int? && 1 <= d.requestBudget.n <= 12
  }

  predicate ListsIn(x: Patterns, d: Document) {
    && Inert(x, d.requiredCapabilities) && Capabilities(x, d.requiredCapabilities)
    && Inert(x, d.generatedFromEvidence) && SafeStrings(x, d.generatedFromEvidence)
    && Inert(x, d.knownAffected) && ReferenceList(x, d.knownAffected)
    && Inert(x, d.knownFixed) && ReferenceList(x, d.knownFixed)
  }

  predicate FlagsIn(x: Patterns, d: Document) {
    && Inert(x, d.sourceAssertions) && Assertions(x, d.sourceAssertions)
    && Inert(x, d.safetyPolicy) && Policy(d.safetyPolicy)
  }

  predicate MappingsIn(x: Patterns, d: Document) {
    Declarative(x, d.controlExpectation) && Declarative(x, d.probeExpectation) && Declarative(x, d.invariant_)
  }

  /** Every key has what it should, and nothing in the document is active content. */
  predicate Readable(x: Patterns, d: Document) {
    ScalarsIn(x, d) && ListsIn(x, d) && FlagsIn(x, d) && MappingsIn(x, d) && Inert(x, Obj(d.others))
  }

  /** `from_dict`. */
  function FromDict(x: Patterns, d: Document): Option<Spec> {
    if !Readable(x, d) then None
    else
      Some(Spec(d.targetId.s, d.candidateId.s, d.rootCauseId.s, d.scenarioId.s,
                Texts(d.requiredCapabilities.items), d.sourceAssertions.fields.Keys,
                d.controlExpectation.fields, d.probeExpectation.fields, d.invariant_.fields,
                d.requestBudget.n, d.safetyPolicy.fields.Keys,
                References(x, d.knownAffected.items), References(x, d.knownFixed.items),
                  Texts(d.generatedFromEvidence.items)))
  }

  // ----- Writing -----

  function Strings(s: seq<string>): (r: seq<Json>)
    ensures |r| == |s| && forall i | 0 <= i < |r| :: r[i] == Str(s[i])
  {
    seq(|s|, i requires 0 <= i < |s| => Str(s[i]))
  }

  function Flags(keys: set<Field>): Json {
    Obj(map k | k in keys :: Bool(true))
  }

  function ReferenceDict(r: Reference): Json {
    Obj(map[Version := Str(r.version), Fingerprint := Str(r.fingerprint)])
  }

  function ReferenceDicts(s: seq<Reference>): (r: seq<Json>)
    ensures |r| == |s| && forall i | 0 <= i < |r| :: r[i] == ReferenceDict(s[i])
  {
    seq(|s|, i requires 0 <= i < |s| => ReferenceDict(s[i]))
  }

  /** `to_dict`. */
  function ToDict(s: Spec): Document {
    Document(Int(1), Str(s.target), Str(s.candidate), Str(s.rootCause), Str(s.scenario), Arr(Strings(s.capabilities)),
             Flags(s.assertions), Obj(s.control), Obj(s.probe), Obj(s.invariant_), Int(s.budget), Flags(s.policy),
             Arr(ReferenceDicts(s.knownAffected)), Arr(ReferenceDicts(s.knownFixed)), Arr(Strings(s.evidence)), map[])
  }

  // ----- Reading back what was written -----

  predicate SafeText(x: Patterns, s: string) {
    x.safeId(s) && !x.active(s)
  }

  predicate SafeTexts(x: Patterns, s: seq<string>) {
    s != [] && forall i | 0 <= i < |s| :: SafeText(x, s[i])
  }

  predicate SafeReferences(x: Patterns, s: seq<Reference>) {
    forall i | 0 <= i < |s| :: !x.active(s[i].version) && !x.active(s[i].fingerprint) && x.hash(s[i].fingerprint)
  }

  predicate SafeKeys(x: Patterns, keys: set<Field>) {
    forall k | k in keys :: !Forbidden(x, k) && !IdKey(x, k)
  }

  predicate FlagsValid(x: Patterns, s: Spec) {
    && SafeKeys(x, s.assertions) && s.assertions != {}
    && (forall k | k in s.assertions :: k.Named? ==> x.safeId(k.text))
    && SafeKeys(x, s.policy) && {LocalOnly, NoExternalRedirects, Nondestructive, NoCredentialGuessing, RedactSecrets}
      <= s.policy
  }

  predicate Mappings(x: Patterns, s: Spec) {
    Declarative(x, Obj(s.control)) && Declarative(x, Obj(s.probe)) && Declarative(x, Obj(s.invariant_))
  }

  /** What a specification must satisfy to be one. */
  ghost predicate Valid(x: Patterns, s: Spec) {
    && SafeText(x, s.target) && SafeText(x, s.candidate) && SafeText(x, s.rootCause) && SafeText(x, s.scenario)
    && 1 <= s.budget <= 12
    && SafeTexts(x, s.capabilities) && Distinct(s.capabilities) && SafeTexts(x, s.evidence)
    && SafeReferences(x, s.knownAffected) && SafeReferences(x, s.knownFixed)
    && FlagsValid(x, s) && Mappings(x, s)
  }

  lemma StringsRead(x: Patterns, s: seq<string>)
    ensures Inert(x, Arr(Strings(s))) && SafeStrings(x, Arr(Strings(s))) <==> SafeTexts(x, s)
    ensures Texts(Strings(s)) == s
    ensures Distinct(Strings(s)) <==> Distinct(s)
  {
    var items := Strings(s);
    if SafeTexts(x, s) {
      forall i | 0 <= i < |items| ensures Inert(x, items[i]) && SafeString(x, items[i]) {
        assert SafeText(x, s[i]);
      }
    }
    if Inert(x, Arr(items)) && SafeStrings(x, Arr(items)) {
      forall i | 0 <= i < |s| ensures SafeText(x, s[i]) {
        assert Inert(x, items[i]) && SafeString(x, items[i]);
      }
    }
    if Distinct(items) {
      forall i, j | 0 <= i < j < |s| ensures s[i] != s[j] {
        assert items[i] != items[j];
      }
    }
  }

  lemma FlagsRead(x: Patterns, keys: set<Field>)
    ensures Inert(x, Flags(keys)) <==> SafeKeys(x, keys)
    ensures AllTrue(Flags(keys)) && Flags(keys).fields.Keys == keys && (Flags(keys).fields == map[] <==> keys == {})
  {
    var m := Flags(keys).fields;
    assert forall k | k in m :: m[k] == Bool(true) && Inert(x, m[k]) && !SafeString(x, m[k]);
    if keys != {} {
      var k :| k in keys;
      assert k in m;
    }
  }

  lemma ReferencesRead(x: Patterns, s: seq<Reference>)
    ensures Inert(x, Arr(ReferenceDicts(s))) && ReferenceList(x, Arr(ReferenceDicts(s))) <==> SafeReferences(x, s)
    ensures ReferenceList(x, Arr(ReferenceDicts(s))) ==> References(x, ReferenceDicts(s)) == s
  {
    var items := ReferenceDicts(s);
    forall i | 0 <= i < |s|
      ensures At(items[i], Version) == Str(s[i].version) && At(items[i], Fingerprint) == Str(s[i].fingerprint)
      ensures Inert(x, items[i]) <==> !x.active(s[i].version) && !x.active(s[i].fingerprint)
      ensures IsReference(x, items[i]) <==> x.hash(s[i].fingerprint)
    {
      ReferenceRead(x, s[i]);
    }
  }

  lemma ReferenceRead(x: Patterns, r: Reference)
    ensures At(ReferenceDict(r), Version) == Str(r.version) && At(ReferenceDict(r), Fingerprint) == Str(r.fingerprint)
    ensures Inert(x, ReferenceDict(r)) <==> !x.active(r.version) && !x.active(r.fingerprint)
  {
    var m := ReferenceDict(r).fields;
    assert m.Keys == {Version, Fingerprint};
    assert Inert(x, m[Version]) <==> !x.active(r.version);
    assert Inert(x, m[Fingerprint]) <==> !x.active(r.fingerprint);
  }

  predicate ScalarsReadable(x: Patterns, s: Spec) {
    && Inert(x, Str(s.target)) && SafeString(x, Str(s.target)) && Inert(x, Str(s.candidate))
      && SafeString(x, Str(s.candidate))
    && Inert(x, Str(s.rootCause)) && SafeString(x, Str(s.rootCause)) && Inert(x, Str(s.scenario))
      && SafeString(x, Str(s.scenario))
    && 1 <= s.budget <= 12
  }

  lemma ScalarsRead(x: Patterns, s: Spec)
    ensures ScalarsReadable(x, s) <==> SafeText(x, s.target) && SafeText(x, s.candidate) && SafeText(x, s.rootCause)
                                       && SafeText(x, s.scenario) && 1 <= s.budget <= 12
  {
  }

  predicate ListsReadable(x: Patterns, s: Spec) {
    && Inert(x, Arr(Strings(s.capabilities))) && Capabilities(x, Arr(Strings(s.capabilities)))
    && Inert(x, Arr(Strings(s.evidence))) && SafeStrings(x, Arr(Strings(s.evidence)))
    && Inert(x, Arr(ReferenceDicts(s.knownAffected))) && ReferenceList(x, Arr(ReferenceDicts(s.knownAffected)))
    && Inert(x, Arr(ReferenceDicts(s.knownFixed))) && ReferenceList(x, Arr(ReferenceDicts(s.knownFixed)))
  }

  lemma ListsRead(x: Patterns, s: Spec)
    ensures ListsReadable(x, s)
            <==> SafeTexts(x, s.capabilities) && Distinct(s.capabilities) && SafeTexts(x, s.evidence)
                 && SafeReferences(x, s.knownAffected) && SafeReferences(x, s.knownFixed)
  {
    StringsRead(x, s.capabilities);
    ElementsSize(Strings(s.capabilities));
    StringsRead(x, s.evidence);
    ReferencesRead(x, s.knownAffected);
    ReferencesRead(x, s.knownFixed);
  }

  predicate FlagsReadable(x: Patterns, s: Spec) {
    && Inert(x, Flags(s.assertions)) && Assertions(x, Flags(s.assertions)) && Inert(x, Flags(s.policy))
      && Policy(Flags(s.policy))
  }

  lemma BothFlagsRead(x: Patterns, s: Spec)
    ensures FlagsReadable(x, s) <==> FlagsValid(x, s)
  {
    FlagsRead(x, s.assertions);
    FlagsRead(x, s.policy);
  }

  lemma WrittenScalars(x: Patterns, s: Spec)
    ensures ScalarsIn(x, ToDict(s)) <==> ScalarsReadable(x, s)
  {
  }

  lemma WrittenLists(x: Patterns, s: Spec)
    ensures ListsIn(x, ToDict(s)) <==> ListsReadable(x, s)
  {
  }

  lemma WrittenFlags(x: Patterns, s: Spec)
    ensures FlagsIn(x, ToDict(s)) <==> FlagsReadable(x, s)
    ensures MappingsIn(x, ToDict(s)) <==> Mappings(x, s)
  {
  }

  lemma WrittenOthers(x: Patterns, s: Spec)
    ensures Inert(x, Obj(ToDict(s).others))
  {
    var none: map<Field, Json> := map[];
    assert Inert(x, Obj(none));
  }

  lemma WrittenReadable(x: Patterns, s: Spec)
    ensures Readable(x, ToDict(s))
            <==> ScalarsReadable(x, s) && ListsReadable(x, s) && FlagsReadable(x, s) && Mappings(x, s)
  {
    WrittenScalars(x, s);
    WrittenLists(x, s);
    WrittenFlags(x, s);
    WrittenOthers(x, s);
  }

  lemma WrittenRead(x: Patterns, s: Spec)
    requires Readable(x, ToDict(s))
    ensures FromDict(x, ToDict(s)) == Some(s)
  {
    FlagsRead(x, s.assertions);
    FlagsRead(x, s.policy);
    StringsRead(x, s.capabilities);
    StringsRead(x, s.evidence);
    ReferencesRead(x, s.knownAffected);
    ReferencesRead(x, s.knownFixed);
  }

  /** A specification written out reads back as itself exactly when it is valid, and otherwise not at all. */
  lemma RoundTrip(x: Patterns, s: Spec)
    ensures FromDict(x, ToDict(s)) == if Valid(x, s) then Some(s) else None
  {
    ScalarsRead(x, s);
    ListsRead(x, s);
    BothFlagsRead(x, s);
    WrittenReadable(x, s);
    if Readable(x, ToDict(s)) {
      WrittenRead(x, s);
    }
  }

  lemma TextsValid(x: Patterns, j: Json)
    requires Inert(x, j) && SafeStrings(x, j)
    ensures SafeTexts(x, Texts(j.items)) && (Distinct(j.items) ==> Distinct(Texts(j.items)))
  {
    var s := Texts(j.items);
    forall i | 0 <= i < |s| ensures SafeText(x, s[i]) {
      assert Inert(x, j.items[i]) && SafeString(x, j.items[i]);
    }
    if Distinct(j.items) {
      forall i, k | 0 <= i < k < |s| ensures s[i] != s[k] {
        assert j.items[i] != j.items[k];
        assert SafeString(x, j.items[i]) && SafeString(x, j.items[k]);
      }
    }
  }

  lemma ReferencesValid(x: Patterns, j: Json)
    requires Inert(x, j) && ReferenceList(x, j)
    ensures SafeReferences(x, References(x, j.items))
  {
    forall i | 0 <= i < |j.items|
      ensures !x.active(ReferenceOf(x, j.items[i]).version) && !x.active(ReferenceOf(x, j.items[i]).fingerprint)
    {
      assert Inert(x, j.items[i]) && IsReference(x, j.items[i]);
      assert Inert(x, j.items[i].fields[Version]) && Inert(x, j.items[i].fields[Fingerprint]);
    }
  }

  lemma KeysValid(x: Patterns, j: Json)
    requires Inert(x, j) && AllTrue(j)
    ensures SafeKeys(x, j.fields.Keys)
  {
  }

  /** Whatever document a specification was read from, it is valid. */
  lemma ReadIsValid(x: Patterns, d: Document)
    requires FromDict(x, d).Some?
    ensures Valid(x, FromDict(x, d).value)
  {
    TextsValid(x, d.requiredCapabilities);
    ElementsSize(d.requiredCapabilities.items);
    TextsValid(x, d.generatedFromEvidence);
    KeysValid(x, d.sourceAssertions);
    KeysValid(x, d.safetyPolicy);
    ReferencesValid(x, d.knownAffected);
    ReferencesValid(x, d.knownFixed);
  }

  /** What is read can be written and read again. */
  lemma ReadTwice(x: Patterns, d: Document)
    requires FromDict(x, d).Some?
    ensures FromDict(x, ToDict(FromDict(x, d).value)) == FromDict(x, d)
  {
    ReadIsValid(x, d);
    RoundTrip(x, FromDict(x, d).value);
  }

  lemma ReadWell(x: Patterns, d: Document)
    ensures var read := FromDict(x, d); read.Some? ==> Valid(x, read.value) && FromDict(x, ToDict(read.value)) == read
  {
    if FromDict(x, d).Some? {
      ReadIsValid(x, d);
      ReadTwice(x, d);
    }
  }

  /** A specification lists the references of the document it was read from. */
  lemma ReadReferences(x: Patterns, d: Document, affected: seq<Reference>, fixed: seq<Reference>)
    requires d.knownAffected == Arr(ReferenceDicts(affected)) && d.knownFixed == Arr(ReferenceDicts(fixed))
    ensures var s := FromDict(x, d);
            s.Some? ==> && s.value.knownAffected == affected && s.value.knownFixed == fixed
                        && Str(s.value.candidate) == d.candidateId && Str(s.value.rootCause) == d.rootCauseId
                        && Str(s.value.scenario) == d.scenarioId
  {
    ReferencesRead(x, affected);
    ReferencesRead(x, fixed);
  }

  // ----- What is read and written, key by key -----

  /** A value and every value anywhere inside it. */
  ghost function Parts(j: Json): set<Json> {
    match j
    case Arr(items) => {j} + set i, p | 0 <= i < |items| && p in Parts(items[i]) :: p
    case Obj(fields) => {j} + set k, p | k in fields && p in Parts(fields[k]) :: p
    case _ => {j}
  }

  /** No active text, no forbidden key, and nothing but a safe id under a key that names one. */
  ghost predicate Harmless(x: Patterns, p: Json) {
    match p
    case Str(s) => !x.active(s)
    case Obj(fields) => forall k | k in fields :: HarmlessKey(x, k, fields[k])
    case _ => true
  }

  ghost predicate HarmlessKey(x: Patterns, k: Field, v: Json) {
    match k
    case Named(text) => !x.forbidden(text) && (x.endsInId(text) ==> v.Str? && x.safeId(v.s))
    case _ => true
  }

  ghost predicate Passive(x: Patterns, j: Json) {
    forall p | p in Parts(j) :: Harmless(x, p)
  }

  lemma {:induction false} InertMeans(x: Patterns, j: Json)
    ensures Inert(x, j) <==> Passive(x, j)
  {
    match j
    case Arr(items) =>
      forall i | 0 <= i < |items| ensures Inert(x, items[i]) <==> Passive(x, items[i]) {
        InertMeans(x, items[i]);
      }
      PassiveList(x, items);
    case Obj(fields) =>
      forall k | k in fields ensures Inert(x, fields[k]) <==> Passive(x, fields[k]) {
        InertMeans(x, fields[k]);
      }
      FieldsMean(x, fields);
    case _ =>
      assert j in Parts(j);
  }

  lemma FieldsMean(x: Patterns, fields: map<Field, Json>)
    requires forall k | k in fields :: Inert(x, fields[k]) <==> Passive(x, fields[k])
    ensures Inert(x, Obj(fields)) <==> Passive(x, Obj(fields))
  {
    PassiveFields(x, fields);
    FieldsHarmless(x, fields);
    if Passive(x, Obj(fields)) {
      forall k | k in fields
        ensures !Forbidden(x, k) && Inert(x, fields[k]) && (IdKey(x, k) ==> SafeString(x, fields[k]))
      {
        assert Passive(x, fields[k]);
      }
    } else if Harmless(x, Obj(fields)) {
      var k :| k in fields && !Passive(x, fields[k]);
      assert !Inert(x, fields[k]);
    }
  }

  lemma FieldsHarmless(x: Patterns, fields: map<Field, Json>)
    ensures Harmless(x, Obj(fields))
            <==> forall k | k in fields :: !Forbidden(x, k) && (IdKey(x, k) ==> SafeString(x, fields[k]))
  {
    forall k | k in fields
      ensures HarmlessKey(x, k, fields[k]) <==> !Forbidden(x, k) && (IdKey(x, k) ==> SafeString(x, fields[k]))
    {
      match k
      case Named(text) =>
      case _ =>
    }
  }

  lemma PassiveList(x: Patterns, items: seq<Json>)
    ensures Passive(x, Arr(items)) <==> forall i | 0 <= i < |items| :: Passive(x, items[i])
  {
    var whole := Parts(Arr(items));
    if forall i | 0 <= i < |items| :: Passive(x, items[i]) {
      forall p | p in whole ensures Harmless(x, p) {
        if p != Arr(items) {
          var i :| 0 <= i < |items| && p in Parts(items[i]);
        }
      }
    }
    if Passive(x, Arr(items)) {
      forall i, p | 0 <= i < |items| && p in Parts(items[i]) ensures Harmless(x, p) {
        assert p in whole;
      }
    }
  }

  lemma PassiveFields(x: Patterns, fields: map<Field, Json>)
    ensures Passive(x, Obj(fields))
            <==> Harmless(x, Obj(fields)) && forall k | k in fields :: Passive(x, fields[k])
  {
    var whole := Parts(Obj(fields));
    assert Obj(fields) in whole;
    if Harmless(x, Obj(fields)) && forall k | k in fields :: Passive(x, fields[k]) {
      forall p | p in whole ensures Harmless(x, p) {
        if p != Obj(fields) {
          var k :| k in fields && p in Parts(fields[k]);
        }
      }
    }
    if Passive(x, Obj(fields)) {
      forall k | k in fields ensures Passive(x, fields[k]) {
        forall p | p in Parts(fields[k]) ensures Harmless(x, p) {
          assert p in whole;
        }
      }
    }
  }

  ghost predicate IdRead(x: Patterns, j: Json, s: string) {
    j == Str(s) && x.safeId(s)
  }

  /** A nonempty list of safe ids. */
  ghost predicate IdsRead(x: Patterns, j: Json, s: seq<string>) {
    && j.Arr? && |s| == |j.items| && |s| > 0
    && forall i | 0 <= i < |s| :: j.items[i] == Str(s[i]) && x.safeId(s[i])
  }

  /** A mapping of these keys, every one of them true. */
  ghost predicate TrueRead(j: Json, keys: set<Field>) {
    j.Obj? && forall k :: (k in j.fields <==> k in keys) && (k in keys ==> j.fields[k] == Bool(true))
  }

  ghost predicate MappingRead(j: Json, m: map<Field, Json>) {
    j == Obj(m) && |m| > 0
  }

  ghost predicate ReferencesAre(x: Patterns, j: Json, s: seq<Reference>) {
    && j.Arr? && |s| == |j.items|
    && forall i | 0 <= i < |s| :: ReferenceIs(x, j.items[i], s[i])
  }

  /** A version, and a fingerprint that is a hash; other keys are dropped. */
  ghost predicate ReferenceIs(x: Patterns, j: Json, r: Reference) {
    && j.Obj? && Version in j.fields && Fingerprint in j.fields && j.fields[Version] == Str(r.version)
    && j.fields[Fingerprint] == Str(r.fingerprint) && x.hash(r.fingerprint)
  }

  ghost predicate AllPassive(x: Patterns, d: Document) {
    && Passive(x, d.targetId) && Passive(x, d.candidateId) && Passive(x, d.rootCauseId) && Passive(x, d.scenarioId)
    && Passive(x, d.requiredCapabilities) && Passive(x, d.sourceAssertions) && Passive(x, d.controlExpectation)
    && Passive(x, d.probeExpectation) && Passive(x, d.invariant_) && Passive(x, d.safetyPolicy)
    && Passive(x, d.knownAffected) && Passive(x, d.knownFixed) && Passive(x, d.generatedFromEvidence)
    && Passive(x, Obj(d.others))
  }

  ghost predicate ListsAre(x: Patterns, d: Document, s: Spec) {
    && IdsRead(x, d.requiredCapabilities, s.capabilities)
    && (forall i, k | 0 <= i < k < |s.capabilities| :: s.capabilities[i] != s.capabilities[k])
    && IdsRead(x, d.generatedFromEvidence, s.evidence)
    && ReferencesAre(x, d.knownAffected, s.knownAffected) && ReferencesAre(x, d.knownFixed, s.knownFixed)
  }

  ghost predicate FlagsAre(x: Patterns, d: Document, s: Spec) {
    && TrueRead(d.sourceAssertions, s.assertions) && |s.assertions| > 0
    && (forall text :: Named(text) in s.assertions ==> x.safeId(text))
    && TrueRead(d.safetyPolicy, s.policy) && LocalOnly in s.policy && NoExternalRedirects in s.policy
    && Nondestructive in s.policy && NoCredentialGuessing in s.policy && RedactSecrets in s.policy
  }

  ghost predicate ScalarsAre(x: Patterns, d: Document, s: Spec) {
    && d.schemaVersion == Int(1) && IdRead(x, d.targetId, s.target) && IdRead(x, d.candidateId, s.candidate)
    && IdRead(x, d.rootCauseId, s.rootCause) && IdRead(x, d.scenarioId, s.scenario)
    && d.requestBudget == Int(s.budget) && 0 < s.budget < 13
  }

  ghost predicate MappingsAre(d: Document, s: Spec) {
    && MappingRead(d.controlExpectation, s.control) && MappingRead(d.probeExpectation, s.probe)
    && MappingRead(d.invariant_, s.invariant_)
  }

  /** Each key of a document and what it says in the specification. */
  ghost predicate Reads(x: Patterns, d: Document, s: Spec) {
    AllPassive(x, d) && ScalarsAre(x, d, s) && ListsAre(x, d, s) && FlagsAre(x, d, s) && MappingsAre(d, s)
  }

  lemma EachPassive(x: Patterns, d: Document)
    ensures AllPassive(x, d) <==>
              && Inert(x, d.targetId) && Inert(x, d.candidateId) && Inert(x, d.rootCauseId) && Inert(x, d.scenarioId)
              && Inert(x, d.requiredCapabilities) && Inert(x, d.sourceAssertions) && Inert(x, d.controlExpectation)
              && Inert(x, d.probeExpectation) && Inert(x, d.invariant_) && Inert(x, d.safetyPolicy)
              && Inert(x, d.knownAffected) && Inert(x, d.knownFixed) && Inert(x, d.generatedFromEvidence)
              && Inert(x, Obj(d.others))
  {
    forall j ensures Inert(x, j) <==> Passive(x, j) {
      InertMeans(x, j);
    }
  }

  lemma IdsMean(x: Patterns, j: Json)
    ensures SafeStrings(x, j) ==> IdsRead(x, j, Texts(j.items))
    ensures forall s :: IdsRead(x, j, s) ==> SafeStrings(x, j) && s == Texts(j.items)
  {
    forall s | IdsRead(x, j, s) ensures SafeStrings(x, j) && s == Texts(j.items) {
      assert forall i | 0 <= i < |j.items| :: SafeString(x, j.items[i]);
    }
    if SafeStrings(x, j) {
      assert forall i | 0 <= i < |j.items| :: SafeString(x, j.items[i]);
    }
  }

  lemma CapabilitiesMean(x: Patterns, j: Json, s: seq<string>)
    requires SafeStrings(x, j) && s == Texts(j.items)
    ensures Capabilities(x, j) <==> forall i, k | 0 <= i < k < |s| :: s[i] != s[k]
  {
    ElementsSize(j.items);
    forall i | 0 <= i < |s| ensures j.items[i] == Str(s[i]) {
      assert SafeString(x, j.items[i]);
    }
    if Distinct(j.items) {
      forall i, k | 0 <= i < k < |s| ensures s[i] != s[k] {
        assert j.items[i] != j.items[k];
      }
    }
  }

  lemma TrueMeans(j: Json)
    ensures AllTrue(j) ==> TrueRead(j, j.fields.Keys)
    ensures forall keys :: TrueRead(j, keys) ==> AllTrue(j) && keys == j.fields.Keys
  {
    forall keys | TrueRead(j, keys) ensures AllTrue(j) && keys == j.fields.Keys {
    }
  }

  lemma ReferencesMean(x: Patterns, j: Json)
    ensures ReferenceList(x, j) ==> ReferencesAre(x, j, References(x, j.items))
    ensures forall s :: ReferencesAre(x, j, s) ==> ReferenceList(x, j) && s == References(x, j.items)
  {
    if ReferenceList(x, j) {
      forall i | 0 <= i < |j.items| ensures ReferenceIs(x, j.items[i], References(x, j.items)[i]) {
        assert IsReference(x, j.items[i]);
      }
    }
    forall s | ReferencesAre(x, j, s) ensures ReferenceList(x, j) && s == References(x, j.items) {
      forall i | 0 <= i < |s| ensures IsReference(x, j.items[i]) && s[i] == ReferenceOf(x, j.items[i]) {
        assert ReferenceIs(x, j.items[i], s[i]);
      }
    }
  }

  lemma ScalarsMean(x: Patterns, d: Document, s: Spec)
    ensures (d.schemaVersion == Int(1) && SafeString(x, d.targetId) && SafeString(x, d.candidateId)
             && SafeString(x, d.rootCauseId) && SafeString(x, d.scenarioId)
             && d.requestBudget.Int? && 1 <= d.requestBudget.n <= 12
             && s.target == d.targetId.s && s.candidate == d.candidateId.s && s.rootCause == d.rootCauseId.s
             && s.scenario == d.scenarioId.s && s.budget == d.requestBudget.n)
            <==> ScalarsAre(x, d, s)
  {
  }

  lemma ListsMean(x: Patterns, d: Document, s: Spec)
    ensures (Capabilities(x, d.requiredCapabilities) && SafeStrings(x, d.generatedFromEvidence)
             && ReferenceList(x, d.knownAffected) && ReferenceList(x, d.knownFixed)
             && s.capabilities == Texts(d.requiredCapabilities.items)
             && s.evidence == Texts(d.generatedFromEvidence.items)
             && s.knownAffected == References(x, d.knownAffected.items)
             && s.knownFixed == References(x, d.knownFixed.items))
            <==> ListsAre(x, d, s)
  {
    IdsMean(x, d.requiredCapabilities);
    IdsMean(x, d.generatedFromEvidence);
    ReferencesMean(x, d.knownAffected);
    ReferencesMean(x, d.knownFixed);
    if SafeStrings(x, d.requiredCapabilities) && s.capabilities == Texts(d.requiredCapabilities.items) {
      CapabilitiesMean(x, d.requiredCapabilities, s.capabilities);
    }
  }

  lemma FlagsMean(x: Patterns, d: Document, s: Spec)
    ensures (Assertions(x, d.sourceAssertions) && Policy(d.safetyPolicy)
             && s.assertions == d.sourceAssertions.fields.Keys && s.policy == d.safetyPolicy.fields.Keys)
            <==> FlagsAre(x, d, s)
  {
    TrueMeans(d.sourceAssertions);
    TrueMeans(d.safetyPolicy);
    if d.sourceAssertions.Obj? && s.assertions == d.sourceAssertions.fields.Keys {
      assert d.sourceAssertions.fields != map[] <==> |s.assertions| > 0 by {
        if |s.assertions| > 0 {
          var k :| k in s.assertions;
          assert k in d.sourceAssertions.fields;
        }
      }
    }
  }

  lemma MappingsMean(d: Document, s: Spec)
    ensures (d.controlExpectation.Obj? && d.controlExpectation.fields != map[] && d.probeExpectation.Obj?
             && d.probeExpectation.fields != map[] && d.invariant_.Obj? && d.invariant_.fields != map[]
             && s.control == d.controlExpectation.fields && s.probe == d.probeExpectation.fields
             && s.invariant_ == d.invariant_.fields)
            <==> MappingsAre(d, s)
  {
    forall m: map<Field, Json> ensures m != map[] <==> |m| > 0 {
      if m != map[] {
        assert exists k :: k in m;
        assert m.Keys != {};
        assert |m.Keys| == |m|;
      }
    }
  }

  /** A document reads as a specification exactly when each of its keys says what that specification says. */
  lemma ReadsExactly(x: Patterns, d: Document, s: Spec)
    ensures FromDict(x, d) == Some(s) <==> Reads(x, d, s)
  {
    EachPassive(x, d);
    ScalarsMean(x, d, s);
    ListsMean(x, d, s);
    FlagsMean(x, d, s);
    MappingsMean(d, s);
  }

  /** A specification is written with every key saying what it says, and no other keys. */
  lemma WritesEach(x: Patterns, s: Spec)
    requires Valid(x, s)
    ensures Reads(x, ToDict(s), s) && ToDict(s).others == map[]
  {
    RoundTrip(x, s);
    ReadsExactly(x, ToDict(s), s);
  }
}
