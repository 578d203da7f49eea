/** A dependency declared by a target of the project spec: which kind of
    thing it refers to, the reference itself, and the flags that steer
    embedding, code signing and linking. Decoded from, and encoded to, one
    JSON dictionary. */
module Dependencies {
  import opened Wrappers
  import opened Json

  /** The four kinds of reference; only `Carthage` carries extra data. */
  datatype DependencyType =
    | Target
    | Framework
    | Carthage(findFrameworks: Option<bool>)
    | Sdk

  /** The declared dependency. The Swift field `type` is called `kind` here.
      It is a value type whose equality is field by field: Dafny's `==` on
      this datatype compares every field, including `findFrameworks` inside
      `kind`, and compares `reference` as a sequence of characters. */
  datatype Dependency = Dependency(
    kind: DependencyType,
    reference: string,
    embed: Option<bool>,
    codeSign: Option<bool>,
    removeHeaders: bool,
    link: Option<bool>,
    implicit: bool,
    weakLink: bool)

  /** The one error the decoder raises; it carries the offending document. */
  datatype SpecParsingError = InvalidDependency(document: Document)

  /** The memberwise initialiser. It has no `removeHeaders` parameter, so
      that field always keeps its default, true. */
  function Make(kind: DependencyType, reference: string,
                embed: Option<bool> := None, codeSign: Option<bool> := None,
                link: Option<bool> := None, implicit: bool := false,
                weakLink: bool := false): (d: Dependency)
    ensures d.removeHeaders
    ensures d.kind == kind && d.reference == reference
    ensures d.embed == embed && d.codeSign == codeSign && d.link == link
    ensures d.implicit == implicit && d.weakLink == weakLink
  {
    Dependency(kind, reference, embed, codeSign, true, link, implicit, weakLink)
  }

  /** What `hash(into:)` feeds the hasher: the reference and nothing else. */
  function HashKey(d: Dependency): (k: string)
    ensures k == d.reference
  {
    d.reference
  }

  /** The dictionary key that names each kind. */
  function KindKey(kind: DependencyType): string {
    match kind
    case Target => "target"
    case Framework => "framework"
    case Carthage(_) => "carthage"
    case Sdk => "sdk"
  }

  /** The kind keys in the order the decoder tries them. */
  const KindKeys: seq<string> := ["target", "framework", "carthage", "sdk"]

  /** Every key the decoder looks at; anything else in a document is ignored. */
  const RecognisedKeys: set<string> :=
    {"target", "framework", "carthage", "sdk", "findFrameworks",
     "embed", "codeSign", "link", "removeHeaders", "implicit", "weak"}

  // ---------------------------------------------------------------------
  // Decoding
  // ---------------------------------------------------------------------

  /** The first-match-wins search for the kind: `target`, then `framework`,
      then `carthage` (which alone also reads `findFrameworks`), then `sdk`. */
  function ResolveKind(doc: Document): (r: Option<(DependencyType, string)>)
    ensures r.None? <==>
      GetString(doc, "target").None? && GetString(doc, "framework").None? &&
      GetString(doc, "carthage").None? && GetString(doc, "sdk").None?
    ensures r.Some? ==> GetString(doc, KindKey(r.value.0)) == Some(r.value.1)
    ensures r.Some? && r.value.0.Carthage? ==>
      r.value.0.findFrameworks == GetBool(doc, "findFrameworks")
  {
    if GetString(doc, "target").Some? then
      Some((Target, GetString(doc, "target").value))
    else if GetString(doc, "framework").Some? then
      Some((Framework, GetString(doc, "framework").value))
    else if GetString(doc, "carthage").Some? then
      Some((Carthage(GetBool(doc, "findFrameworks")), GetString(doc, "carthage").value))
    else if GetString(doc, "sdk").Some? then
      Some((Sdk, GetString(doc, "sdk").value))
    else
      None
  }

  /** `init(jsonDictionary:)`: resolve the kind or fail, then read each flag
      leniently, keeping the field's default when the key is missing or does
      not hold a boolean. */
  function Decode(doc: Document): (r: Result<Dependency, SpecParsingError>)
    ensures r.Failure? ==> r.error == InvalidDependency(doc)
  {
    match ResolveKind(doc)
    case None => Failure(InvalidDependency(doc))
    case Some((kind, reference)) =>
      Success(Dependency(
        kind, reference,
        GetBool(doc, "embed"),
        GetBool(doc, "codeSign"),
        GetBool(doc, "removeHeaders").GetOr(true),
        GetBool(doc, "link"),
        GetBool(doc, "implicit").GetOr(false),
        GetBool(doc, "weak").GetOr(false)))
  }

  /** Reference definition of the priority search: the first of `keys`, in
      order, whose value in `doc` is a string. */
  function FirstStringKey(doc: Document, keys: seq<string>): (r: Option<string>)
    ensures r.None? <==> forall i | 0 <= i < |keys| :: GetString(doc, keys[i]).None?
    ensures r.Some? ==> r.value in keys && GetString(doc, r.value).Some?
  {
    if keys == [] then None
    else if GetString(doc, keys[0]).Some? then Some(keys[0])
    else FirstStringKey(doc, keys[1..])
  }

  /** The key chosen by `FirstStringKey` comes no later than any key that
      holds a string. */
  lemma {:induction false} FirstStringKeyIsFirst(doc: Document, keys: seq<string>, i: nat)
    requires i < |keys| && GetString(doc, keys[i]).Some?
    ensures FirstStringKey(doc, keys).Some?
    ensures FirstStringKey(doc, keys).value in keys[..i + 1]
  {
    if GetString(doc, keys[0]).None? {
      FirstStringKeyIsFirst(doc, keys[1..], i - 1);
      assert keys[1..][..i] == keys[1..i + 1];
    }
  }

  /** Decoding fails exactly when the priority search finds no kind key; on
      success the kind is the one named by the first key holding a string,
      and the reference is that string. */
  lemma DecodeFollowsKeyPriority(doc: Document)
    ensures Decode(doc).Failure? <==> FirstStringKey(doc, KindKeys).None?
    ensures Decode(doc).Success? ==>
      var d := Decode(doc).value;
      FirstStringKey(doc, KindKeys) == Some(KindKey(d.kind)) &&
      doc[KindKey(d.kind)] == JString(d.reference)
  {
    KindKeySearch(doc);
  }

  /** The priority search over the four kind keys, unrolled. */
  lemma KindKeySearch(doc: Document)
    ensures FirstStringKey(doc, KindKeys) ==
      if GetString(doc, "target").Some? then Some("target")
      else if GetString(doc, "framework").Some? then Some("framework")
      else if GetString(doc, "carthage").Some? then Some("carthage")
      else if GetString(doc, "sdk").Some? then Some("sdk")
      else None
  {
    var rest := ["framework", "carthage", "sdk"];
    assert KindKeys[1..] == rest && rest[1..] == ["carthage", "sdk"];
    assert rest[1..][1..] == ["sdk"] && ["sdk"][1..] == [];
    if GetString(doc, "target").None? {
      assert FirstStringKey(doc, KindKeys) == FirstStringKey(doc, rest);
      if GetString(doc, "framework").None? {
        assert FirstStringKey(doc, rest) == FirstStringKey(doc, ["carthage", "sdk"]);
        if GetString(doc, "carthage").None? {
          assert FirstStringKey(doc, ["carthage", "sdk"]) == FirstStringKey(doc, ["sdk"]);
        }
      }
    }
  }

  /** A string under `target` wins, whatever `framework`, `carthage` or
      `sdk` hold. */
  lemma DecodeTargetWins(doc: Document, s: string)
    requires "target" in doc && doc["target"] == JString(s)
    ensures Decode(doc).Success?
    ensures Decode(doc).value.kind == Target && Decode(doc).value.reference == s
  {
  }

  /** Decoding fails, carrying the input document, exactly when none of the
      four kind keys holds a string. */
  lemma DecodeFailsIff(doc: Document)
    ensures Decode(doc).Failure? <==>
      forall k | k in KindKeys :: k !in doc || !doc[k].JString?
    ensures Decode(doc).Failure? ==> Decode(doc) == Failure(InvalidDependency(doc))
  {
    DecodeFollowsKeyPriority(doc);
  }

  /** For a `carthage` dependency `findFrameworks` is the boolean lookup,
      so a missing or non-boolean value gives an unset flag, not false. */
  lemma DecodeFindFrameworks(doc: Document)
    requires Decode(doc).Success? && Decode(doc).value.kind.Carthage?
    ensures Decode(doc).value.kind.findFrameworks == GetBool(doc, "findFrameworks")
    ensures Decode(doc).value.kind.findFrameworks.None? <==>
      "findFrameworks" !in doc || !doc["findFrameworks"].JBool?
  {
  }

  /** `findFrameworks` is read only in the `carthage` branch: for the other
      kinds, removing it from the document changes nothing. */
  lemma DecodeIgnoresFindFrameworks(doc: Document)
    requires Decode(doc).Success? && !Decode(doc).value.kind.Carthage?
    ensures Decode(doc - {"findFrameworks"}) == Decode(doc)
  {
    var rest := doc - {"findFrameworks"};
    assert GetString(rest, "target") == GetString(doc, "target");
    assert GetString(rest, "framework") == GetString(doc, "framework");
    assert GetString(rest, "carthage") == GetString(doc, "carthage");
    assert GetString(rest, "sdk") == GetString(doc, "sdk");
    assert ResolveKind(rest) == ResolveKind(doc);
  }

  /** After a successful decode each flag holds its default unless the
      document holds a boolean for it. */
  lemma DecodeFlagDefaults(doc: Document)
    requires Decode(doc).Success?
    ensures Decode(doc).value.embed == GetBool(doc, "embed")
    ensures Decode(doc).value.codeSign == GetBool(doc, "codeSign")
    ensures Decode(doc).value.link == GetBool(doc, "link")
    ensures !Decode(doc).value.removeHeaders <==>
      "removeHeaders" in doc && doc["removeHeaders"] == JBool(false)
    ensures Decode(doc).value.implicit <==>
      "implicit" in doc && doc["implicit"] == JBool(true)
    ensures Decode(doc).value.weakLink <==>
      "weak" in doc && doc["weak"] == JBool(true)
  {
  }

  /** Lenient parsing: two documents that agree on the recognised keys
      decode alike, whatever else they hold. */
  lemma DecodeIgnoresUnrecognisedKeys(doc: Document, other: Document)
    requires forall k | k in RecognisedKeys :: (k in doc <==> k in other)
    requires forall k | k in RecognisedKeys && k in doc :: doc[k] == other[k]
    ensures Decode(doc).Success? <==> Decode(other).Success?
    ensures Decode(doc).Success? ==> Decode(doc).value == Decode(other).value
  {
    forall k | k in RecognisedKeys
      ensures GetString(doc, k) == GetString(other, k)
      ensures GetBool(doc, k) == GetBool(other, k)
    {
    }
    assert ResolveKind(doc) == ResolveKind(other);
  }

  // ---------------------------------------------------------------------
  // Encoding
  // ---------------------------------------------------------------------

  /** The JSON form of an optional flag: nothing when it is unset. */
  function OptionalBool(flag: Option<bool>): Option<JValue> {
    if flag.Some? then Some(JBool(flag.value)) else None
  }

  /** What the encoder writes under `key`, if anything: a flag only when it
      differs from its default (an optional one only when set),
      `findFrameworks` only for `carthage`, and the reference under the one
      key that names the kind. */
  function EncodedValue(d: Dependency, key: string): Option<JValue> {
    if key == "removeHeaders" then (if d.removeHeaders then None else Some(JBool(false)))
    else if key == "implicit" then (if d.implicit then Some(JBool(true)) else None)
    else if key == "weak" then (if d.weakLink then Some(JBool(true)) else None)
    else if key == "embed" then OptionalBool(d.embed)
    else if key == "codeSign" then OptionalBool(d.codeSign)
    else if key == "link" then OptionalBool(d.link)
    else if key == "findFrameworks" then
      (if d.kind.Carthage? then OptionalBool(d.kind.findFrameworks) else None)
    else if key == KindKey(d.kind) then Some(JString(d.reference))
    else None
  }

  /** `toJSONDictionary()` as a value: the document holding exactly the
      entries `EncodedValue` writes. */
  function Encode(d: Dependency): (r: Document)
    ensures r.Keys <= RecognisedKeys
    ensures KindKey(d.kind) in r && r[KindKey(d.kind)] == JString(d.reference)
  {
    map key | key in RecognisedKeys && EncodedValue(d, key).Some? :: EncodedValue(d, key).value
  }

  /** Exactly one kind key is written, the one chosen by the kind, mapped to
      the reference; `findFrameworks` only for a `carthage` kind that sets it. */
  lemma EncodeWritesOneKindKey(d: Dependency)
    ensures KindKey(d.kind) in Encode(d)
    ensures Encode(d)[KindKey(d.kind)] == JString(d.reference)
    ensures forall k | k in KindKeys && k != KindKey(d.kind) :: k !in Encode(d)
    ensures "findFrameworks" in Encode(d) <==>
      d.kind.Carthage? && d.kind.findFrameworks.Some?
    ensures "findFrameworks" in Encode(d) ==>
      Encode(d)["findFrameworks"] == JBool(d.kind.findFrameworks.value)
  {
  }

  /** Economy: a flag is written only when it differs from its default (an
      optional one only when set), and then with its value. */
  lemma EncodeIsEconomical(d: Dependency)
    ensures "removeHeaders" in Encode(d) <==> !d.removeHeaders
    ensures "implicit" in Encode(d) <==> d.implicit
    ensures "weak" in Encode(d) <==> d.weakLink
    ensures "embed" in Encode(d) <==> d.embed.Some?
    ensures "codeSign" in Encode(d) <==> d.codeSign.Some?
    ensures "link" in Encode(d) <==> d.link.Some?
    ensures "removeHeaders" in Encode(d) ==> Encode(d)["removeHeaders"] == JBool(false)
    ensures "implicit" in Encode(d) ==> Encode(d)["implicit"] == JBool(true)
    ensures "weak" in Encode(d) ==> Encode(d)["weak"] == JBool(true)
    ensures "embed" in Encode(d) ==> Encode(d)["embed"] == JBool(d.embed.value)
    ensures "codeSign" in Encode(d) ==> Encode(d)["codeSign"] == JBool(d.codeSign.value)
    ensures "link" in Encode(d) ==> Encode(d)["link"] == JBool(d.link.value)
    ensures Encode(d).Keys <= RecognisedKeys
  {
  }

  /** A dependency with every flag at its default encodes to the single
      kind entry. */
  lemma EncodeDefaultsIsOneKey(d: Dependency)
    requires d.removeHeaders && !d.implicit && !d.weakLink
    requires d.embed.None? && d.codeSign.None? && d.link.None?
    requires d.kind.Carthage? ==> d.kind.findFrameworks.None?
    ensures Encode(d) == map[KindKey(d.kind) := JString(d.reference)]
    ensures |Encode(d)| == 1
  {
    EncodeIsEconomical(d);
    EncodeWritesOneKindKey(d);
    assert Encode(d).Keys == {KindKey(d.kind)};
  }

  /** Decoding an encoding gives back a structurally equal dependency,
      `findFrameworks` included, and hence one with the same hash key. */
  lemma RoundTrip(d: Dependency)
    ensures Decode(Encode(d)) == Success(d)
    ensures HashKey(Decode(Encode(d)).value) == HashKey(d)
  {
    EncodedKindIsResolved(d);
    EncodedFlagsAreRead(d);
  }

  /** The kind search over an encoding finds the dependency's own kind and
      reference, since no other kind key is written. */
  lemma EncodedKindIsResolved(d: Dependency)
    ensures ResolveKind(Encode(d)) == Some((d.kind, d.reference))
  {
    EncodeWritesOneKindKey(d);
    assert "target" in KindKeys && "framework" in KindKeys && "carthage" in KindKeys;
  }

  /** The flag lookups over an encoding give back the dependency's flags,
      defaults included. */
  lemma EncodedFlagsAreRead(d: Dependency)
    ensures GetBool(Encode(d), "embed") == d.embed
    ensures GetBool(Encode(d), "codeSign") == d.codeSign
    ensures GetBool(Encode(d), "link") == d.link
    ensures GetBool(Encode(d), "removeHeaders").GetOr(true) == d.removeHeaders
    ensures GetBool(Encode(d), "implicit").GetOr(false) == d.implicit
    ensures GetBool(Encode(d), "weak").GetOr(false) == d.weakLink
  {
    EncodeIsEconomical(d);
  }

  // ---------------------------------------------------------------------
  // Equality and hashing
  // ---------------------------------------------------------------------

  /** Hashing agrees with equality, and two dependencies share a hash key
      exactly when they share a reference. */
  lemma HashKeyByReference(d: Dependency, e: Dependency)
    ensures d == e ==> HashKey(d) == HashKey(e)
    ensures HashKey(d) == HashKey(e) <==> d.reference == e.reference
  {
  }

  /** Hashing is coarser than equality: dependencies that differ only in a
      flag are unequal yet hash alike. */
  lemma HashKeyCoarserThanEquality(reference: string)
    ensures Make(Target, reference) != Make(Target, reference, embed := Some(true))
    ensures HashKey(Make(Target, reference)) == HashKey(Make(Target, reference, embed := Some(true)))
  {
  }
}
