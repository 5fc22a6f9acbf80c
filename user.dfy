/**
 * A VEuPathDB user as the OAuth2 client library sees it: four identity
 * fields fixed by the bearer token, seven mutable profile fields, the
 * static table of six user-property descriptors that drives bulk
 * population from a JSON payload, the display-name formatter, and
 * id-only equality and hashing.
 */
module UserModel {
  import opened Wrappers
  import opened JavaLang

  // ---------------------------------------------------------------------
  // Profile fields as a value

  /** The profile field that a property descriptor's getter/setter pair reaches. */
  datatype Field = Username | FirstName | MiddleName | LastName | Organization | Interests

  /** The seven mutable fields of a user; `None` is Java's `null`. */
  datatype Profile = Profile(
    email: Option<string>,
    username: Option<string>,
    firstName: Option<string>,
    middleName: Option<string>,
    lastName: Option<string>,
    organization: Option<string>,
    interests: Option<string>)
  {
    /** What the descriptor's getter returns. */
    function Get(f: Field): Option<string> {
      match f
      case Username => username
      case FirstName => firstName
      case MiddleName => middleName
      case LastName => lastName
      case Organization => organization
      case Interests => interests
    }

    /** The profile after the descriptor's setter stores `v`. */
    function With(f: Field, v: Option<string>): (p: Profile)
      ensures p.Get(f) == v
      ensures forall g :: g != f ==> p.Get(g) == Get(g)
      ensures p.email == email
    {
      match f
      case Username => this.(username := v)
      case FirstName => this.(firstName := v)
      case MiddleName => this.(middleName := v)
      case LastName => this.(lastName := v)
      case Organization => this.(organization := v)
      case Interests => this.(interests := v)
    }
  }

  /** The profile of a freshly constructed user: every field null. */
  const NoProfile: Profile := Profile(None, None, None, None, None, None, None)

  /** Two profiles with the same email and the same six property fields are equal. */
  lemma ProfileExtensionality(p: Profile, q: Profile)
    requires p.email == q.email
    requires forall f :: p.Get(f) == q.Get(f)
    ensures p == q
  {
    assert p.Get(Username) == q.Get(Username);
    assert p.Get(FirstName) == q.Get(FirstName);
    assert p.Get(MiddleName) == q.Get(MiddleName);
    assert p.Get(LastName) == q.Get(LastName);
    assert p.Get(Organization) == q.Get(Organization);
    assert p.Get(Interests) == q.Get(Interests);
  }

  // ---------------------------------------------------------------------
  // The user-property table

  /**
   * A user-property descriptor: internal name, display label, serialization
   * key, three flags whose meaning is defined by the UserProperty type (not
   * part of this model) and carried through unchanged, and the field its
   * getter/setter pair reaches.
   */
  datatype UserProperty = UserProperty(
    name: string,
    displayLabel: string,
    serializationKey: string,
    flagA: bool,
    flagB: bool,
    flagC: bool,
    accessor: Field)

  /** The internal name of the property whose getter/setter reaches `f`. */
  function PropertyName(f: Field): string {
    match f
    case Username => "username"
    case FirstName => "firstName"
    case MiddleName => "middleName"
    case LastName => "lastName"
    case Organization => "organization"
    case Interests => "interests"
  }

  // The six descriptors of `createUserPropertyDefs`, in the order listed.
  const UsernameProperty: UserProperty :=
    UserProperty("username", "Username", "username", false, false, false, Username)
  const FirstNameProperty: UserProperty :=
    UserProperty("firstName", "First Name", "first_name", true, true, false, FirstName)
  const MiddleNameProperty: UserProperty :=
    UserProperty("middleName", "Middle Name", "middle_name", false, true, false, MiddleName)
  const LastNameProperty: UserProperty :=
    UserProperty("lastName", "Last Name", "last_name", true, true, false, LastName)
  const OrganizationProperty: UserProperty :=
    UserProperty("organization", "Organization", "organization", true, true, false, Organization)
  const InterestsProperty: UserProperty :=
    UserProperty("interests", "Interests", "interests", false, false, true, Interests)

  const PropertyList: seq<UserProperty> := [
    UsernameProperty, FirstNameProperty, MiddleNameProperty,
    LastNameProperty, OrganizationProperty, InterestsProperty]

  predicate DistinctNames(props: seq<UserProperty>) {
    forall i, j :: 0 <= i < j < |props| ==> props[i].name != props[j].name
  }

  /**
   * `Collectors.toMap(UserProperty::getName, x -> x)`: the descriptors keyed
   * by name; `None` is the IllegalStateException thrown on a duplicate name.
   */
  function ToMapByName(props: seq<UserProperty>): (r: Option<map<string, UserProperty>>)
    ensures r.Some? ==> |r.value| == |props|
  {
    if props == [] then Some(map[])
    else
      var rest := ToMapByName(props[1..]);
      if rest.None? || props[0].name in rest.value then None
      else Some(rest.value[props[0].name := props[0]])
  }

  /**
   * Collecting succeeds exactly when the names are distinct, and then every
   * descriptor is stored under its own name and nothing else is stored.
   */
  lemma ToMapByNameCorrect(props: seq<UserProperty>)
    ensures ToMapByName(props).Some? <==> DistinctNames(props)
    ensures ToMapByName(props).Some? ==> var m := ToMapByName(props).value;
      && (forall i :: 0 <= i < |props| ==> props[i].name in m && m[props[i].name] == props[i])
      && (forall k :: k in m ==> m[k] in props && m[k].name == k)
  {
    ToMapByNameSucceeds(props);
    ToMapByNameContents(props);
  }

  lemma {:induction false} ToMapByNameContents(props: seq<UserProperty>)
    ensures ToMapByName(props).Some? ==> var m := ToMapByName(props).value;
      && (forall i :: 0 <= i < |props| ==> props[i].name in m && m[props[i].name] == props[i])
      && (forall k :: k in m ==> m[k] in props && m[k].name == k)
  {
    if props != [] {
      var tail := props[1..];
      ToMapByNameContents(tail);
      assert forall i :: 0 < i < |props| ==> props[i] == tail[i - 1];
    }
  }

  lemma {:induction false} ToMapByNameSucceeds(props: seq<UserProperty>)
    ensures ToMapByName(props).Some? <==> DistinctNames(props)
  {
    if props != [] {
      var tail := props[1..];
      ToMapByNameSucceeds(tail);
      ToMapByNameContents(tail);
      assert forall i :: 0 < i < |props| ==> props[i] == tail[i - 1];
      var rest := ToMapByName(tail);
      if rest.Some? && props[0].name in rest.value {
        var j :| 0 <= j < |tail| && tail[j] == rest.value[props[0].name];
        assert props[j + 1].name == props[0].name;
      }
    }
  }

  /** Collecting the listed descriptors succeeds, one descriptor per name. */
  lemma PropertyListCollects()
    ensures ToMapByName(PropertyList) == Some(map[
      "username" := UsernameProperty, "firstName" := FirstNameProperty,
      "middleName" := MiddleNameProperty, "lastName" := LastNameProperty,
      "organization" := OrganizationProperty, "interests" := InterestsProperty])
  {
    var l6 := [InterestsProperty];
    var l5 := [OrganizationProperty] + l6;
    var l4 := [LastNameProperty] + l5;
    var l3 := [MiddleNameProperty] + l4;
    var l2 := [FirstNameProperty] + l3;
    assert PropertyList == [UsernameProperty] + l2;
    assert l6[1..] == [] && l5[1..] == l6 && l4[1..] == l5 && l3[1..] == l4 && l2[1..] == l3;
    assert ([UsernameProperty] + l2)[1..] == l2;
    var m6 := map["interests" := InterestsProperty];
    assert ToMapByName(l6) == Some(m6);
    var m5 := m6["organization" := OrganizationProperty];
    assert ToMapByName(l5) == Some(m5);
    var m4 := m5["lastName" := LastNameProperty];
    assert ToMapByName(l4) == Some(m4);
    var m3 := m4["middleName" := MiddleNameProperty];
    assert ToMapByName(l3) == Some(m3);
    var m2 := m3["firstName" := FirstNameProperty];
    assert ToMapByName(l2) == Some(m2);
    var m1 := m2["username" := UsernameProperty];
    assert ToMapByName(PropertyList) == Some(m1);
    TableLiteralsAgree();
  }

  /** The table written key by key from the last descriptor back equals the literal listed in order. */
  lemma TableLiteralsAgree()
    ensures map["interests" := InterestsProperty]["organization" := OrganizationProperty]
      ["lastName" := LastNameProperty]["middleName" := MiddleNameProperty]
      ["firstName" := FirstNameProperty]["username" := UsernameProperty]
      == map[
      "username" := UsernameProperty, "firstName" := FirstNameProperty,
      "middleName" := MiddleNameProperty, "lastName" := LastNameProperty,
      "organization" := OrganizationProperty, "interests" := InterestsProperty]
  {
    var m1 := map["interests" := InterestsProperty]["organization" := OrganizationProperty]
      ["lastName" := LastNameProperty]["middleName" := MiddleNameProperty]
      ["firstName" := FirstNameProperty]["username" := UsernameProperty];
    var listed := map[
      "username" := UsernameProperty, "firstName" := FirstNameProperty,
      "middleName" := MiddleNameProperty, "lastName" := LastNameProperty,
      "organization" := OrganizationProperty, "interests" := InterestsProperty];
    assert m1.Keys == listed.Keys;
    assert forall k :: k in listed ==> m1[k] == listed[k];
  }

  /** `createUserPropertyDefs`: the six descriptors, each stored under its own name. */
  function CreateUserPropertyDefs(): (r: map<string, UserProperty>)
    ensures r == map[
      "username" := UsernameProperty, "firstName" := FirstNameProperty,
      "middleName" := MiddleNameProperty, "lastName" := LastNameProperty,
      "organization" := OrganizationProperty, "interests" := InterestsProperty]
  {
    PropertyListCollects();
    ToMapByName(PropertyList).value
  }

  /** `User.USER_PROPERTIES`. */
  const UserProperties: map<string, UserProperty> := CreateUserPropertyDefs()

  /**
   * The table has six entries; each is stored under its own name, and its
   * getter/setter pair reaches the field that carries that name.
   */
  lemma UserPropertiesWellFormed()
    ensures |UserProperties| == 6
    ensures forall k :: k in UserProperties ==>
      UserProperties[k].name == k && PropertyName(UserProperties[k].accessor) == k
    ensures forall f :: PropertyName(f) in UserProperties && UserProperties[PropertyName(f)].accessor == f
  {
    var keys := {"username", "firstName", "middleName", "lastName", "organization", "interests"};
    assert UserProperties.Keys == keys;
    assert |keys| == 6;
    forall k | k in UserProperties
      ensures UserProperties[k].name == k && PropertyName(UserProperties[k].accessor) == k
    {
      assert k in keys;
    }
    forall f: Field
      ensures PropertyName(f) in UserProperties && UserProperties[PropertyName(f)].accessor == f
    {
      match f
      case Username =>
      case FirstName =>
      case MiddleName =>
      case LastName =>
      case Organization =>
      case Interests =>
    }
  }

  /** No two descriptors in the table share a getter/setter pair. */
  lemma AccessorsDistinct(p: UserProperty, q: UserProperty)
    requires p in UserProperties.Values && q in UserProperties.Values
    requires p.accessor == q.accessor
    ensures p == q
  {
    var k1 :| k1 in UserProperties && UserProperties[k1] == p;
    var k2 :| k2 in UserProperties && UserProperties[k2] == q;
  }

  // ---------------------------------------------------------------------
  // setPropertyValues, as a function on profiles

  /** `json.optString(key, null)` on a payload of strings. */
  function OptString(json: map<string, string>, key: string): (r: Option<string>)
    ensures r.Some? <==> key in json
    ensures r.Some? ==> r.value == json[key]
  {
    if key in json then Some(json[key]) else None
  }

  /**
   * The profile after setPropertyValues: the email is kept and each of the
   * six property fields gets the payload's value under its property name.
   */
  function ApplyPayload(p: Profile, json: map<string, string>): (r: Profile)
    ensures r.email == p.email
    ensures forall f :: r.Get(f) == OptString(json, PropertyName(f))
  {
    Profile(p.email,
      OptString(json, "username"), OptString(json, "firstName"), OptString(json, "middleName"),
      OptString(json, "lastName"), OptString(json, "organization"), OptString(json, "interests"))
  }

  /** Every descriptor in the table writes the payload value found under the descriptor's name. */
  lemma ApplyPayloadFollowsTable(p: Profile, json: map<string, string>, prop: UserProperty)
    requires prop in UserProperties.Values
    ensures ApplyPayload(p, json).Get(prop.accessor) == OptString(json, prop.name)
  {
    var k :| k in UserProperties && UserProperties[k] == prop;
    assert PropertyName(prop.accessor) == prop.name;
  }

  /** The serialization key plays no part: a payload keyed by "first_name" leaves the first name null. */
  lemma ApplyPayloadIgnoresSerializationKey(p: Profile)
    ensures ApplyPayload(p, map["first_name" := "Jane"]).firstName == None
    ensures ApplyPayload(p, map["firstName" := "Jane"]).firstName == Some("Jane")
  {
  }

  /** Earlier profile values do not survive, except the email. */
  lemma ApplyPayloadForgetsPrior(p: Profile, q: Profile, json: map<string, string>)
    requires p.email == q.email
    ensures ApplyPayload(p, json) == ApplyPayload(q, json)
  {
  }

  lemma ApplyPayloadIdempotent(p: Profile, json: map<string, string>)
    ensures ApplyPayload(ApplyPayload(p, json), json) == ApplyPayload(p, json)
  {
  }

  /** A payload without any of the six names clears all six fields. */
  lemma ApplyPayloadClears(p: Profile, json: map<string, string>)
    requires forall f :: PropertyName(f) !in json
    ensures ApplyPayload(p, json) == NoProfile.(email := p.email)
  {
    assert PropertyName(Username) !in json && PropertyName(FirstName) !in json;
    assert PropertyName(MiddleName) !in json && PropertyName(LastName) !in json;
    assert PropertyName(Organization) !in json && PropertyName(Interests) !in json;
  }

  /** A payload holding only an organization sets it and clears the other five. */
  lemma ApplyPayloadOrganizationOnly(p: Profile)
    ensures ApplyPayload(p, map["organization" := "Acme"])
         == NoProfile.(email := p.email, organization := Some("Acme"))
  {
  }

  // ---------------------------------------------------------------------
  // Display name

  const GuestLabel: string := "Guest User"

  /** `formatNamePart`: nothing for a null or empty part, else a space and the trimmed part. */
  function FormatNamePart(part: Option<string>): (r: string)
    ensures part.None? || part.value == "" ==> r == ""
    ensures part.Some? && part.value != "" ==> |r| > 0 && r[0] == ' ' && r[1..] == Trim(part.value)
  {
    if part.None? || part.value == "" then "" else " " + Trim(part.value)
  }

  /** `getDisplayName` on the values its getters return. */
  function DisplayNameOf(guest: bool, first: Option<string>, middle: Option<string>, last: Option<string>): (r: string)
    ensures guest ==> r == GuestLabel
    ensures IsTrimmed(r)
  {
    if guest then GuestLabel
    else
      var joined := FormatNamePart(first) + FormatNamePart(middle) + FormatNamePart(last);
      Trim(joined)
  }

  /** A word: non-empty, with no trim character at either end. */
  predicate IsWord(s: string) {
    s != "" && IsTrimmed(s)
  }

  /** A part that is present and non-empty but made only of trim characters. */
  predicate IsBlankPart(part: Option<string>) {
    part.Some? && part.value != "" && Trim(part.value) == ""
  }

  /** The trimmed words that the non-empty parts contribute, in order. */
  function NameWords(parts: seq<Option<string>>): seq<string> {
    if parts == [] then []
    else if parts[0].None? || parts[0].value == "" then NameWords(parts[1..])
    else [Trim(parts[0].value)] + NameWords(parts[1..])
  }

  /** The words separated by single spaces. */
  function JoinWithSpaces(words: seq<string>): string {
    if |words| == 0 then ""
    else if |words| == 1 then words[0]
    else words[0] + " " + JoinWithSpaces(words[1..])
  }

  /** The concatenation of the formatted parts. */
  function FormattedParts(parts: seq<Option<string>>): string {
    if parts == [] then "" else FormatNamePart(parts[0]) + FormattedParts(parts[1..])
  }

  lemma {:induction false} NameWordsAreWords(parts: seq<Option<string>>)
    requires forall i :: 0 <= i < |parts| ==> !IsBlankPart(parts[i])
    ensures forall i :: 0 <= i < |NameWords(parts)| ==> IsWord(NameWords(parts)[i])
  {
    if parts != [] {
      var rest := parts[1..];
      assert forall i :: 0 <= i < |rest| ==> rest[i] == parts[i + 1];
      NameWordsAreWords(rest);
      if !(parts[0].None? || parts[0].value == "") {
        var w := Trim(parts[0].value);
        assert !IsBlankPart(parts[0]);
        assert IsWord(w);
        assert NameWords(parts) == [w] + NameWords(rest);
      }
    }
  }

  lemma {:induction false} JoinWithSpacesTrimmed(words: seq<string>)
    requires forall i :: 0 <= i < |words| ==> IsWord(words[i])
    ensures IsTrimmed(JoinWithSpaces(words))
    ensures |words| > 0 ==> |JoinWithSpaces(words)| > 0 && JoinWithSpaces(words)[0] == words[0][0]
  {
    if |words| > 1 {
      var tail := words[1..];
      assert forall i :: 0 <= i < |tail| ==> tail[i] == words[i + 1];
      JoinWithSpacesTrimmed(tail);
      var j := JoinWithSpaces(tail);
      var whole := JoinWithSpaces(words);
      assert whole == (words[0] + " ") + j;
      assert whole[|whole| - 1] == j[|j| - 1];
      assert whole[0] == words[0][0];
    }
  }

  lemma {:induction false} FormattedPartsJoin(parts: seq<Option<string>>)
    ensures FormattedParts(parts) == SpacedWords(NameWords(parts))
  {
    if parts != [] {
      var tail := parts[1..];
      FormattedPartsJoin(tail);
      var rest := NameWords(tail);
      assert FormattedParts(parts) == FormatNamePart(parts[0]) + FormattedParts(tail);
      if parts[0].None? || parts[0].value == "" {
        assert NameWords(parts) == rest;
      } else {
        var w := Trim(parts[0].value);
        assert NameWords(parts) == [w] + rest;
        SpacedWordsCons(w, rest);
      }
    }
  }

  /** What the formatted parts of some words add up to: each word behind one space. */
  function SpacedWords(words: seq<string>): string {
    if words == [] then "" else " " + JoinWithSpaces(words)
  }

  lemma SpacedWordsCons(w: string, rest: seq<string>)
    ensures SpacedWords([w] + rest) == " " + w + SpacedWords(rest)
  {
    if rest != [] {
      JoinOfCons(w, rest);
    } else {
      assert [w] + rest == [w];
    }
  }

  lemma JoinOfCons(w: string, rest: seq<string>)
    requires rest != []
    ensures JoinWithSpaces([w] + rest) == w + " " + JoinWithSpaces(rest)
  {
    assert ([w] + rest)[1..] == rest;
  }

  /** The three parts of `getDisplayName` as a list. */
  lemma FormattedThree(first: Option<string>, middle: Option<string>, last: Option<string>)
    ensures FormattedParts([first, middle, last]) == FormatNamePart(first) + FormatNamePart(middle) + FormatNamePart(last)
  {
    var x, y, z := FormatNamePart(first), FormatNamePart(middle), FormatNamePart(last);
    FormattedCons(last, []);
    assert [last] + [] == [last];
    assert FormattedParts([last]) == z + "";
    FormattedCons(middle, [last]);
    assert [middle] + [last] == [middle, last];
    FormattedCons(first, [middle, last]);
    assert [first] + [middle, last] == [first, middle, last];
    ConcatAssociates(x, y, z);
  }

  lemma ConcatAssociates(x: string, y: string, z: string)
    ensures x + (y + (z + "")) == x + y + z
  {
    assert z + "" == z;
  }

  lemma FormattedCons(part: Option<string>, rest: seq<Option<string>>)
    ensures FormattedParts([part] + rest) == FormatNamePart(part) + FormattedParts(rest)
  {
    assert ([part] + rest)[1..] == rest;
  }

  /** Words behind single spaces trim to the words joined by single spaces. */
  lemma TrimSpacedWords(words: seq<string>)
    requires forall i :: 0 <= i < |words| ==> IsWord(words[i])
    ensures Trim(SpacedWords(words)) == JoinWithSpaces(words)
  {
    JoinWithSpacesTrimmed(words);
    var j := JoinWithSpaces(words);
    if words != [] {
      assert SpacedWords(words) == " " + j + "";
      TrimUnique(" ", j, "");
    } else {
      assert SpacedWords(words) == "" + "" + "";
      TrimUnique("", "", "");
    }
  }

  /**
   * For a non-guest whose parts are null, empty or carry a word, the display
   * name is the trimmed words joined by single spaces: no double space
   * and no space at either end.
   */
  lemma DisplayNameJoinsWords(first: Option<string>, middle: Option<string>, last: Option<string>)
    requires !IsBlankPart(first) && !IsBlankPart(middle) && !IsBlankPart(last)
    ensures DisplayNameOf(false, first, middle, last) == JoinWithSpaces(NameWords([first, middle, last]))
  {
    var parts := [first, middle, last];
    FormattedThree(first, middle, last);
    FormattedPartsJoin(parts);
    NameWordsAreWords(parts);
    TrimSpacedWords(NameWords(parts));
  }

  lemma WordTrimsToItself(s: string)
    requires IsWord(s)
    ensures Trim(s) == s && !IsBlankPart(Some(s))
  {
    assert "" + s + "" == s;
    TrimUnique("", s, "");
  }

  /** With no middle name, first and last name are separated by exactly one space. */
  lemma DisplayNameWithoutMiddle(first: string, last: string)
    requires IsWord(first) && IsWord(last)
    ensures DisplayNameOf(false, Some(first), None, Some(last)) == first + " " + last
  {
    WordTrimsToItself(first);
    WordTrimsToItself(last);
    DisplayNameJoinsWords(Some(first), None, Some(last));
    var parts := [Some(first), None, Some(last)];
    assert parts[1..] == [None, Some(last)] && parts[1..][1..] == [Some(last)] && [Some(last)][1..] == [];
    assert NameWords([Some(last)]) == [last] + NameWords([]);
    assert NameWords([None, Some(last)]) == NameWords([Some(last)]);
    assert NameWords(parts) == [first] + NameWords([None, Some(last)]);
    assert [first, last][1..] == [last];
  }

  /** No name parts at all gives the empty string. */
  lemma DisplayNameAllNull()
    ensures DisplayNameOf(false, None, None, None) == ""
  {
    TrimUnique("", "", "");
  }

  /**
   * A middle name made only of trim characters is not treated as missing: it
   * still contributes its space, so "Jane", " ", "Doe" gives "Jane  Doe".
   */
  lemma DisplayNameBlankMiddle(first: string, middle: string, last: string)
    requires IsWord(first) && IsWord(last) && IsBlankPart(Some(middle))
    ensures DisplayNameOf(false, Some(first), Some(middle), Some(last)) == first + "  " + last
  {
    var inner := first + "  " + last;
    BlankMiddleParts(first, middle, last);
    assert inner[0] == first[0] && inner[|inner| - 1] == last[|last| - 1];
    TrimUnique(" ", inner, "");
  }

  lemma BlankMiddleParts(first: string, middle: string, last: string)
    requires IsWord(first) && IsWord(last) && IsBlankPart(Some(middle))
    ensures FormatNamePart(Some(first)) + FormatNamePart(Some(middle)) + FormatNamePart(Some(last))
         == " " + (first + "  " + last) + ""
  {
    WordTrimsToItself(first);
    WordTrimsToItself(last);
    assert FormatNamePart(Some(middle)) == " ";
    assert FormatNamePart(Some(first)) == " " + first;
    assert FormatNamePart(Some(last)) == " " + last;
  }

  // ---------------------------------------------------------------------
  // Construction from ID-token claims

  /** A value of the decoded token's JSON object. */
  datatype JsonValue = JString(s: string) | JBool(b: bool) | JNumber(n: int) | JNull | JOther

  /** Why a claim could not be read; each is an exception in the source. */
  datatype ClaimError =
    | NotFound(key: string)            // JSONObject.get: no such key
    | NotAString(key: string)          // JSONObject.getString: value is not a string
    | NotABoolean(key: string)         // JSONObject.getBoolean: neither a boolean nor "true"/"false"
    | NumberFormat(text: string)       // Long.valueOf: not a decimal long

  /** The four identity values the token supplies. */
  datatype Identity = Identity(userId: Long, isGuest: bool, signature: string, stableId: string)

  /** Claim names: `IdTokenFields.X.name()` for the four constants read. */
  const SubClaim: string := "sub"
  const IsGuestClaim: string := "is_guest"
  const SignatureClaim: string := "signature"
  const PreferredUsernameClaim: string := "preferred_username"

  /** `json.getString(key)`. */
  function GetString(json: map<string, JsonValue>, key: string): (r: Result<string, ClaimError>)
    ensures r.Success? <==> key in json && json[key].JString?
    ensures r.Success? ==> json[key] == JString(r.value)
    ensures r.Failure? ==> r.error == (if key in json then NotAString(key) else NotFound(key))
  {
    if key !in json then Failure(NotFound(key))
    else if json[key].JString? then Success(json[key].s)
    else Failure(NotAString(key))
  }

  function LowerAscii(c: char): char {
    if 'A' <= c <= 'Z' then (c as int + 32) as char else c
  }

  /** `s.equalsIgnoreCase(lower)` for an all-lower-case ASCII word `lower`. */
  predicate EqualsIgnoreCase(s: string, lower: string) {
    |s| == |lower| && forall i :: 0 <= i < |s| ==> LowerAscii(s[i]) == lower[i]
  }

  /** `json.getBoolean(key)`: a boolean, or a string equal to "true"/"false" ignoring case. */
  function GetBoolean(json: map<string, JsonValue>, key: string): (r: Result<bool, ClaimError>)
    ensures key !in json ==> r == Failure(NotFound(key))
    ensures key in json && json[key].JBool? ==> r == Success(json[key].b)
    ensures key in json && (json[key].JNumber? || json[key].JNull? || json[key].JOther?) ==> r == Failure(NotABoolean(key))
    ensures key in json && json[key].JString? ==>
      r == if EqualsIgnoreCase(json[key].s, "false") then Success(false)
           else if EqualsIgnoreCase(json[key].s, "true") then Success(true)
           else Failure(NotABoolean(key))
  {
    if key !in json then Failure(NotFound(key))
    else match json[key]
      case JBool(b) => Success(b)
      case JString(s) =>
        if EqualsIgnoreCase(s, "false") then Success(false)
        else if EqualsIgnoreCase(s, "true") then Success(true)
        else Failure(NotABoolean(key))
      case _ => Failure(NotABoolean(key))
  }

  /**
   * The arguments `User(JSONObject)` passes to the primitive constructor,
   * evaluated left to right: the first claim that fails decides the error.
   */
  function IdentityFromClaims(json: map<string, JsonValue>): (r: Result<Identity, ClaimError>)
    ensures r.Success? ==> SubClaim in json && IsGuestClaim in json && SignatureClaim in json && PreferredUsernameClaim in json
    ensures r.Success? ==> json[SignatureClaim] == JString(r.value.signature)
    ensures r.Success? ==> json[PreferredUsernameClaim] == JString(r.value.stableId)
    ensures r.Success? ==> json[SubClaim].JString? && ParseLong(json[SubClaim].s) == Some(r.value.userId)
    ensures r.Success? ==> GetBoolean(json, IsGuestClaim) == Success(r.value.isGuest)
    ensures (GetString(json, SubClaim).Success? && ParseLong(GetString(json, SubClaim).value).Some?
             && GetBoolean(json, IsGuestClaim).Success? && GetString(json, SignatureClaim).Success?
             && GetString(json, PreferredUsernameClaim).Success?) ==> r.Success?
  {
    match GetString(json, SubClaim)
    case Failure(e) => Failure(e)
    case Success(sub) =>
      match ParseLong(sub)
      case None => Failure(NumberFormat(sub))
      case Some(id) =>
        match GetBoolean(json, IsGuestClaim)
        case Failure(e) => Failure(e)
        case Success(guest) =>
          match GetString(json, SignatureClaim)
          case Failure(e) => Failure(e)
          case Success(signature) =>
            match GetString(json, PreferredUsernameClaim)
            case Failure(e) => Failure(e)
            case Success(stableId) => Success(Identity(id, guest, signature, stableId))
  }

  /** The claims an issuer would put in a token for this identity. */
  function ClaimsFor(id: Identity): map<string, JsonValue> {
    map[SubClaim := JString(DecimalString(id.userId as int)),
        IsGuestClaim := JBool(id.isGuest),
        SignatureClaim := JString(id.signature),
        PreferredUsernameClaim := JString(id.stableId)]
  }

  /** Reading the claims of an identity gives the identity back. */
  lemma ClaimsRoundTrip(id: Identity)
    ensures IdentityFromClaims(ClaimsFor(id)) == Success(id)
  {
    LongRoundTrip(id.userId);
  }

  /** A token without a signature claim never yields a user. */
  lemma MissingSignatureFails(json: map<string, JsonValue>)
    requires SignatureClaim !in json
    ensures IdentityFromClaims(json).Failure?
    ensures GetString(json, SubClaim).Success? && ParseLong(GetString(json, SubClaim).value).Some?
            && GetBoolean(json, IsGuestClaim).Success?
            ==> IdentityFromClaims(json).error == NotFound(SignatureClaim)
  {
  }

  // ---------------------------------------------------------------------
  // The user entity

  class User {
    // immutable fields supplied by the bearer token
    const userId: Long
    const isGuest: bool
    const signature: Option<string>
    const stableId: Option<string>

    // mutable fields that a subclass may fetch on demand
    var email: Option<string>
    var username: Option<string>
    var firstName: Option<string>
    var middleName: Option<string>
    var lastName: Option<string>
    var organization: Option<string>
    var interests: Option<string>

    /** The mutable fields as one value. */
    ghost function Snapshot(): Profile
      reads this
    {
      Profile(email, username, firstName, middleName, lastName, organization, interests)
    }

    /** The primitive constructor: identity as given, every profile field null. */
    constructor (userId: Long, isGuest: bool, signature: Option<string>, stableId: Option<string>)
      ensures this.userId == userId && this.isGuest == isGuest
      ensures this.signature == signature && this.stableId == stableId
      ensures Snapshot() == NoProfile
    {
      this.userId := userId;
      this.isGuest := isGuest;
      this.signature := signature;
      this.stableId := stableId;
      email, username, firstName, middleName := None, None, None, None;
      lastName, organization, interests := None, None, None;
    }

    /** `User(JSONObject)`: a user built from the token's claims, or the claim error. */
    static method FromJson(json: map<string, JsonValue>) returns (r: Result<User, ClaimError>)
      ensures r.Success? <==> IdentityFromClaims(json).Success?
      ensures r.Failure? ==> r.error == IdentityFromClaims(json).error
      ensures r.Success? ==> fresh(r.value) && r.value.Snapshot() == NoProfile
      ensures r.Success? ==> var id := IdentityFromClaims(json).value;
        && r.value.userId == id.userId && r.value.isGuest == id.isGuest
        && r.value.signature == Some(id.signature) && r.value.stableId == Some(id.stableId)
    {
      match IdentityFromClaims(json)
      case Failure(e) =>
        r := Failure(e);
      case Success(id) =>
        var u := new User(id.userId, id.isGuest, Some(id.signature), Some(id.stableId));
        r := Success(u);
    }

    // identity getters

    method GetUserId() returns (id: Long)
      ensures id == userId
    {
      id := userId;
    }

    method IsGuest() returns (guest: bool)
      ensures guest == isGuest
    {
      guest := isGuest;
    }

    method GetSignature() returns (s: Option<string>)
      ensures s == signature
    {
      s := signature;
    }

    method GetStableId() returns (s: Option<string>)
      ensures s == stableId
    {
      s := stableId;
    }

    /** The lazy-fetch hook; the base class has nothing to fetch. */
    method FetchUserInfo()
      ensures unchanged(this)
    {
    }

    // profile getters: each runs the hook, then returns its field

    method GetEmail() returns (v: Option<string>)
      ensures v == email
    {
      FetchUserInfo();
      v := email;
    }

    method GetUsername() returns (v: Option<string>)
      ensures v == username
    {
      FetchUserInfo();
      v := username;
    }

    method GetFirstName() returns (v: Option<string>)
      ensures v == firstName
    {
      FetchUserInfo();
      v := firstName;
    }

    method GetMiddleName() returns (v: Option<string>)
      ensures v == middleName
    {
      FetchUserInfo();
      v := middleName;
    }

    method GetLastName() returns (v: Option<string>)
      ensures v == lastName
    {
      FetchUserInfo();
      v := lastName;
    }

    method GetOrganization() returns (v: Option<string>)
      ensures v == organization
    {
      FetchUserInfo();
      v := organization;
    }

    method GetInterests() returns (v: Option<string>)
      ensures v == interests
    {
      FetchUserInfo();
      v := interests;
    }

    // profile setters: each stores one field and returns this user

    method SetEmail(v: Option<string>) returns (self: User)
      modifies this
      ensures self == this
      ensures Snapshot() == old(Snapshot()).(email := v)
    {
      email := v;
      self := this;
    }

    method SetUsername(v: Option<string>) returns (self: User)
      modifies this
      ensures self == this
      ensures Snapshot() == old(Snapshot()).With(Username, v)
    {
      username := v;
      self := this;
    }

    method SetFirstName(v: Option<string>) returns (self: User)
      modifies this
      ensures self == this
      ensures Snapshot() == old(Snapshot()).With(FirstName, v)
    {
      firstName := v;
      self := this;
    }

    method SetMiddleName(v: Option<string>) returns (self: User)
      modifies this
      ensures self == this
      ensures Snapshot() == old(Snapshot()).With(MiddleName, v)
    {
      middleName := v;
      self := this;
    }

    method SetLastName(v: Option<string>) returns (self: User)
      modifies this
      ensures self == this
      ensures Snapshot() == old(Snapshot()).With(LastName, v)
    {
      lastName := v;
      self := this;
    }

    method SetOrganization(v: Option<string>) returns (self: User)
      modifies this
      ensures self == this
      ensures Snapshot() == old(Snapshot()).With(Organization, v)
    {
      organization := v;
      self := this;
    }

    method SetInterests(v: Option<string>) returns (self: User)
      modifies this
      ensures self == this
      ensures Snapshot() == old(Snapshot()).With(Interests, v)
    {
      interests := v;
      self := this;
    }

    /** `userProp.setValue(this, value)`: the descriptor's setter applied to this user. */
    method SetValue(prop: UserProperty, value: Option<string>)
      modifies this
      ensures Snapshot() == old(Snapshot()).With(prop.accessor, value)
    {
      var self: User;
      match prop.accessor
      case Username => self := SetUsername(value);
      case FirstName => self := SetFirstName(value);
      case MiddleName => self := SetMiddleName(value);
      case LastName => self := SetLastName(value);
      case Organization => self := SetOrganization(value);
      case Interests => self := SetInterests(value);
    }

    /**
     * `setPropertyValues`: runs every descriptor's setter with the payload's
     * value under the descriptor's name. The descriptors are visited in an
     * arbitrary order, as a hash map's values are; the outcome is the same
     * for every order.
     */
    method SetPropertyValues(json: map<string, string>)
      modifies this
      ensures Snapshot() == ApplyPayload(old(Snapshot()), json)
    {
      ghost var start := Snapshot();
      var remaining := UserProperties.Values;
      while remaining != {}
        invariant remaining <= UserProperties.Values
        invariant email == start.email
        invariant forall p :: p in UserProperties.Values ==>
          Snapshot().Get(p.accessor) == if p in remaining then start.Get(p.accessor) else OptString(json, p.name)
        decreases remaining
      {
        var prop :| prop in remaining;
        ghost var before := Snapshot();
        SetValue(prop, OptString(json, prop.name));
        forall p | p in UserProperties.Values && p != prop
          ensures Snapshot().Get(p.accessor) == before.Get(p.accessor)
        {
          if p.accessor == prop.accessor {
            AccessorsDistinct(p, prop);
          }
        }
        remaining := remaining - {prop};
      }
      forall f
        ensures Snapshot().Get(f) == ApplyPayload(start, json).Get(f)
      {
        var p := UserProperties[PropertyName(f)];
        ApplyPayloadFollowsTable(start, json, p);
      }
      ProfileExtensionality(Snapshot(), ApplyPayload(start, json));
    }

    /** `getDisplayName`. */
    function DisplayName(): (r: string)
      reads this
      ensures isGuest ==> r == GuestLabel
      ensures IsTrimmed(r)
    {
      DisplayNameOf(isGuest, firstName, middleName, lastName)
    }

    /** `toString`: "User #", the id, " - ", the email (or "null"). */
    function ToString(): (r: string)
      reads this
      ensures "User #" <= r
      ensures email.Some? ==> |email.value| < |r| && r[|r| - |email.value|..] == email.value
      ensures email.None? ==> 4 < |r| && r[|r| - 4..] == "null"
    {
      UserLine(userId, email)
    }

    /** `hashCode`: the Java hash of the id's decimal rendering. */
    function HashCode(): (h: Int32)
      ensures (h as int - PolynomialHash(DecimalString(userId as int))) % TwoTo32 == 0
    {
      StringHashCode(DecimalString(userId as int))
    }

    /** `equals`: another User with the same id. */
    function Equals(obj: object?): (eq: bool)
      ensures !(obj is User) ==> !eq
      ensures obj is User ==> (eq <==> (obj as User).userId == userId)
    {
      obj is User && (obj as User).userId == userId
    }
  }

  // ---------------------------------------------------------------------
  // Properties of the user entity

  /** Equality is decided by the id alone, whatever the profiles hold. */
  lemma EqualsIffSameId(u: User, v: User)
    ensures u.Equals(v) <==> u.userId == v.userId
  {
  }

  /** Equality is an equivalence on users. */
  lemma EqualsEquivalence(u: User, v: User, w: User)
    ensures u.Equals(u)
    ensures u.Equals(v) ==> v.Equals(u)
    ensures u.Equals(v) && v.Equals(w) ==> u.Equals(w)
  {
  }

  /** Equal users have equal hash codes. */
  lemma EqualsConsistentWithHashCode(u: User, v: User)
    requires u.Equals(v)
    ensures u.HashCode() == v.HashCode()
  {
  }

  /** A guest's display name is the guest label whatever the profile holds. */
  lemma GuestDisplayName(u: User)
    requires u.isGuest
    ensures u.DisplayName() == GuestLabel
  {
  }

  /** A prefix without spaces is recovered from "prefix - rest". */
  lemma {:induction false} SpaceFreePrefix(p: string, x: string, q: string, y: string)
    requires forall i :: 0 <= i < |p| ==> p[i] != ' '
    requires forall i :: 0 <= i < |q| ==> q[i] != ' '
    requires p + " - " + x == q + " - " + y
    ensures p == q
  {
    var s := p + " - " + x;
    if |p| < |q| {
      SeparatorAt(p, x, q, y);
      assert false;
    } else if |q| < |p| {
      SeparatorAt(q, y, p, x);
      assert false;
    }
    assert p == s[..|p|];
    assert q == (q + " - " + y)[..|q|];
  }

  /** In "p - x", position |p| holds the separator's space; in "q - y", a character of q. */
  lemma SeparatorAt(p: string, x: string, q: string, y: string)
    requires |p| < |q|
    ensures (p + " - " + x)[|p|] == ' '
    ensures (q + " - " + y)[|p|] == q[|p|]
  {
  }

  /** The string form names the user's id: equal strings mean equal ids. */
  lemma ToStringDeterminesId(u: User, v: User)
    requires u.ToString() == v.ToString()
    ensures u.userId == v.userId
  {
    UserLineDeterminesId(u.userId, u.email, v.userId, v.email);
  }

  /** The email as `toString` prints it: the string, or "null". */
  function EmailText(email: Option<string>): string {
    if email.None? then "null" else email.value
  }

  /** "User #", the id, " - ", the email (or "null"). */
  function UserLine(id: Long, email: Option<string>): string {
    "User #" + DecimalString(id as int) + " - " + EmailText(email)
  }

  lemma UserLineDeterminesId(m: Long, e: Option<string>, n: Long, f: Option<string>)
    requires UserLine(m, e) == UserLine(n, f)
    ensures m == n
  {
    var p, q := DecimalString(m as int), DecimalString(n as int);
    var x, y := EmailText(e), EmailText(f);
    var prefix := "User #";
    var s, t := p + " - " + x, q + " - " + y;
    assert UserLine(m, e) == prefix + s;
    assert UserLine(n, f) == prefix + t;
    assert s == (prefix + s)[|prefix|..];
    assert t == (prefix + t)[|prefix|..];
    SpaceFreePrefix(p, x, q, y);
    DecimalStringInjective(m, n);
  }
}
