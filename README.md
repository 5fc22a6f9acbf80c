# VEuPathDB OAuth2 user entity and login-page redirect rules, in Dafny

This project models two pieces of the EuPathDB OAuth2 server:

- The client library's `User` entity. A user has four identity fields, fixed when the bearer token is read: id, guest flag, signature and stable id. It also has seven nullable profile fields, which may be set later: email, username, first, middle and last name, organization and interests.
  - A static table of six user-property descriptors drives bulk population of the profile from a JSON payload.
  - The display name is assembled from the trimmed name parts, or is "Guest User" for guests.
  - Equality and hashing look at the id alone.
- The login page's script. From the `redirectUri` query parameter of the page that sent the user, it derives three things: the base URL of that site's web application, the URL that "cancel" goes back to, and the project whose logo is shown.

Files:

- `wrappers.dfy`: `Option` (Java's `null`, JavaScript's `undefined`) and `Result` (a thrown exception).
- `java_lang.dfy`: the bits of `java.lang` the entity relies on:
  - 64-bit `long` and 32-bit `int`;
  - `String.trim`, which strips characters up to U+0020 from both ends;
  - `String.valueOf(long)` and `Long.valueOf(String)`;
  - `String.hashCode`, with explicit 32-bit wrap-around.
- `user.dfy`: the `User` class and what it depends on:
  - the profile as a value (`Profile`), with a `Field` enumeration standing for each descriptor's getter/setter pair;
  - the descriptor table, built through a model of `Collectors.toMap`;
  - `setPropertyValues`;
  - the display name;
  - `User(JSONObject)`, over a map of claim values;
  - `equals`, `hashCode` and `toString`.
- `login_form.dfy`: JavaScript's `substring`, `indexOf` and `split`, then `getWebappName`, then the `baseUrl`/`cancelUrl`/`project` rules as pure functions over a parsed URL.

How the class is modelled:

- The identity fields are `const`, so they cannot change after construction.
- Each property setter states the whole new state as `Snapshot() == old(Snapshot()).With(field, v)` and returns `this`; `SetEmail`, whose field has no descriptor, states `Snapshot() == old(Snapshot()).(email := v)`.
- `setPropertyValues` walks the table's values in an arbitrary order, as a hash map's value view does. Its postcondition ties the new state to the function `ApplyPayload`, so the outcome is the same for every iteration order.

Where the code and its documentation differ, the model follows the code. The property descriptors document a serialization key (`first_name`, `middle_name`, `last_name`), but `setPropertyValues` looks each value up under the descriptor's internal name (`firstName`, …). `ApplyPayloadIgnoresSerializationKey` states this.

Inputs of the login-page model:

- The URL parser, `parseURL`, is not part of this model. It is a parameter of `LinksFor`.
- The `redirectUrl` parameter reaches the model already URI-decoded.
- A missing `redirectUri` is `None`.

## Model

| member | source | states |
|---|---|---|
| UserModel.User.constructor | Client/src/main/java/org/gusdb/oauth2/client/veupathdb/User.java:47-52 | the identity fields hold exactly the arguments, and all seven profile fields are null |
| UserModel.User.GetUserId | Client/src/main/java/org/gusdb/oauth2/client/veupathdb/User.java:69-71 | returns the id given at construction (a `const`, so it never changes) |
| UserModel.User.IsGuest | Client/src/main/java/org/gusdb/oauth2/client/veupathdb/User.java:73-75 | returns the guest flag given at construction |
| UserModel.User.GetSignature | Client/src/main/java/org/gusdb/oauth2/client/veupathdb/User.java:77-79 | returns the signature given at construction |
| UserModel.User.GetStableId | Client/src/main/java/org/gusdb/oauth2/client/veupathdb/User.java:81-83 | returns the stable id given at construction |
| UserModel.User.FetchUserInfo | Client/src/main/java/org/gusdb/oauth2/client/veupathdb/User.java:85-87 | the base hook changes nothing |
| UserModel.User.GetEmail | Client/src/main/java/org/gusdb/oauth2/client/veupathdb/User.java:89-92 | runs the hook and returns the email field |
| UserModel.User.GetUsername | Client/src/main/java/org/gusdb/oauth2/client/veupathdb/User.java:99-102 | runs the hook and returns the username field |
| UserModel.User.GetFirstName | Client/src/main/java/org/gusdb/oauth2/client/veupathdb/User.java:109-112 | runs the hook and returns the first-name field |
| UserModel.User.GetMiddleName | Client/src/main/java/org/gusdb/oauth2/client/veupathdb/User.java:119-122 | runs the hook and returns the middle-name field |
| UserModel.User.GetLastName | Client/src/main/java/org/gusdb/oauth2/client/veupathdb/User.java:129-132 | runs the hook and returns the last-name field |
| UserModel.User.GetOrganization | Client/src/main/java/org/gusdb/oauth2/client/veupathdb/User.java:139-142 | runs the hook and returns the organization field |
| UserModel.User.GetInterests | Client/src/main/java/org/gusdb/oauth2/client/veupathdb/User.java:149-152 | runs the hook and returns the interests field |
| UserModel.User.SetEmail | Client/src/main/java/org/gusdb/oauth2/client/veupathdb/User.java:94-97 | returns this user; the email becomes `v` and every other field is unchanged |
| UserModel.User.SetUsername | Client/src/main/java/org/gusdb/oauth2/client/veupathdb/User.java:104-107 | returns this user; the username becomes `v` and every other field is unchanged |
| UserModel.User.SetFirstName | Client/src/main/java/org/gusdb/oauth2/client/veupathdb/User.java:114-117 | returns this user; the first name becomes `v` and every other field is unchanged |
| UserModel.User.SetMiddleName | Client/src/main/java/org/gusdb/oauth2/client/veupathdb/User.java:124-127 | returns this user; the middle name becomes `v` and every other field is unchanged |
| UserModel.User.SetLastName | Client/src/main/java/org/gusdb/oauth2/client/veupathdb/User.java:134-137 | returns this user; the last name becomes `v` and every other field is unchanged |
| UserModel.User.SetOrganization | Client/src/main/java/org/gusdb/oauth2/client/veupathdb/User.java:144-147 | returns this user; the organization becomes `v` and every other field is unchanged |
| UserModel.User.SetInterests | Client/src/main/java/org/gusdb/oauth2/client/veupathdb/User.java:154-157 | returns this user; the interests become `v` and every other field is unchanged |
| UserModel.Profile.With | Client/src/main/java/org/gusdb/oauth2/client/veupathdb/User.java:94-157 | a setter's effect on the profile: the chosen field reads back `v`, the other fields and the email are unchanged |
| UserModel.ProfileExtensionality | Client/src/main/java/org/gusdb/oauth2/client/veupathdb/User.java:39-45 | the email and the six property fields make up the whole profile |
| UserModel.ToMapByName | Client/src/main/java/org/gusdb/oauth2/client/veupathdb/User.java:29 | `Collectors.toMap` by name; when it succeeds the map has one entry per descriptor |
| UserModel.ToMapByNameCorrect | Client/src/main/java/org/gusdb/oauth2/client/veupathdb/User.java:29 | collecting by name succeeds exactly when the names are distinct (otherwise it throws); each descriptor is stored under its name, and nothing else is stored |
| UserModel.PropertyListCollects | Client/src/main/java/org/gusdb/oauth2/client/veupathdb/User.java:21-29 | collecting the six listed descriptors succeeds, with one entry per internal name |
| UserModel.CreateUserPropertyDefs | Client/src/main/java/org/gusdb/oauth2/client/veupathdb/User.java:20-30 | the table maps `username`, `firstName`, `middleName`, `lastName`, `organization` and `interests` to descriptors with the listed labels, serialization keys and flags |
| UserModel.UserPropertiesWellFormed | Client/src/main/java/org/gusdb/oauth2/client/veupathdb/User.java:18-29 | `USER_PROPERTIES` has six entries; each key is its descriptor's name, and the descriptor's getter/setter reaches the field of that name; every property field has a descriptor |
| UserModel.AccessorsDistinct | Client/src/main/java/org/gusdb/oauth2/client/veupathdb/User.java:22-27 | no two descriptors share a getter/setter pair |
| UserModel.OptString | Client/src/main/java/org/gusdb/oauth2/client/veupathdb/User.java:65 | `optString(key, null)` is the payload's value when the key is present, and null otherwise |
| UserModel.ApplyPayload | Client/src/main/java/org/gusdb/oauth2/client/veupathdb/User.java:63-67 | the profile after `setPropertyValues`: the email is kept, and each of the six property fields holds the payload value under its property's internal name, or null when there is none |
| UserModel.User.SetValue | Client/src/main/java/org/gusdb/oauth2/client/veupathdb/User.java:65 | a descriptor's setter stores the value in that descriptor's field only |
| UserModel.User.SetPropertyValues | Client/src/main/java/org/gusdb/oauth2/client/veupathdb/User.java:63-67 | for every order of visiting the descriptors, the new profile is `ApplyPayload` of the old one |
| UserModel.ApplyPayloadFollowsTable | Client/src/main/java/org/gusdb/oauth2/client/veupathdb/User.java:64-65 | every descriptor's field receives the payload value under the descriptor's internal name |
| UserModel.ApplyPayloadIgnoresSerializationKey | Client/src/main/java/org/gusdb/oauth2/client/veupathdb/User.java:63-67 | a value under `first_name` leaves the first name null; a value under `firstName` sets it |
| UserModel.ApplyPayloadForgetsPrior | Client/src/main/java/org/gusdb/oauth2/client/veupathdb/User.java:63-67 | the six property fields after the call depend only on the payload; earlier values do not survive, except the email |
| UserModel.ApplyPayloadIdempotent | Client/src/main/java/org/gusdb/oauth2/client/veupathdb/User.java:63-67 | applying the same payload twice is the same as applying it once |
| UserModel.ApplyPayloadClears | Client/src/main/java/org/gusdb/oauth2/client/veupathdb/User.java:65 | a payload with none of the six names clears all six fields and keeps the email |
| UserModel.ApplyPayloadOrganizationOnly | Client/src/main/java/org/gusdb/oauth2/client/veupathdb/User.java:63-67 | a payload holding only `organization` sets it and clears the other five |
| UserModel.FormatNamePart | Client/src/main/java/org/gusdb/oauth2/client/veupathdb/User.java:171-173 | a null or empty part gives ""; anything else gives a space followed by the trimmed part |
| UserModel.DisplayNameOf | Client/src/main/java/org/gusdb/oauth2/client/veupathdb/User.java:164-169 | a guest gets "Guest User"; the result never starts or ends with a trim character |
| UserModel.User.DisplayName | Client/src/main/java/org/gusdb/oauth2/client/veupathdb/User.java:164-169 | the display name of this user's guest flag and name fields |
| UserModel.GuestDisplayName | Client/src/main/java/org/gusdb/oauth2/client/veupathdb/User.java:165 | a guest's display name is "Guest User", whatever the profile holds |
| UserModel.FormattedPartsJoin | Client/src/main/java/org/gusdb/oauth2/client/veupathdb/User.java:164-173 | the concatenated formatted parts are a leading space and then the trimmed non-empty parts, separated by single spaces (nothing when there is no such part) |
| UserModel.NameWordsAreWords | Client/src/main/java/org/gusdb/oauth2/client/veupathdb/User.java:172 | a part that is not blank trims to a non-empty string with no trim character at either end |
| UserModel.JoinWithSpacesTrimmed | Client/src/main/java/org/gusdb/oauth2/client/veupathdb/User.java:168 | words joined by single spaces are left alone by the final trim |
| UserModel.DisplayNameJoinsWords | Client/src/main/java/org/gusdb/oauth2/client/veupathdb/User.java:164-173 | for a non-guest with no blank part, the display name is the trimmed non-empty parts joined by single spaces |
| UserModel.DisplayNameWithoutMiddle | Client/src/main/java/org/gusdb/oauth2/client/veupathdb/User.java:164-173 | a first and last name that are non-empty and already trimmed, with no middle name, give `first + " " + last` |
| UserModel.DisplayNameAllNull | Client/src/main/java/org/gusdb/oauth2/client/veupathdb/User.java:164-173 | a non-guest with no name parts has the empty display name |
| UserModel.DisplayNameBlankMiddle | Client/src/main/java/org/gusdb/oauth2/client/veupathdb/User.java:166-172 | a middle name made only of whitespace still adds a space: `first + "  " + last` |
| UserModel.WordTrimsToItself | Client/src/main/java/org/gusdb/oauth2/client/veupathdb/User.java:172 | a part with no trim character at either end is left alone by trim |
| UserModel.GetString | Client/src/main/java/org/gusdb/oauth2/client/veupathdb/User.java:56-59 | succeeds exactly on a string claim; otherwise the error says whether the claim was missing or was not a string |
| UserModel.GetBoolean | Client/src/main/java/org/gusdb/oauth2/client/veupathdb/User.java:57 | a boolean claim is returned; a string claim gives false or true when it equals "false" or "true" ignoring case, and an error otherwise; a missing claim, a number, JSON null or any other value is an error |
| UserModel.IdentityFromClaims | Client/src/main/java/org/gusdb/oauth2/client/veupathdb/User.java:54-61 | on success the id is `sub` parsed as a `long`, the guest flag is `is_guest` read as a boolean, and the signature and stable id are the `signature` and `preferred_username` strings; conversely, when all four claims can be read the construction succeeds |
| UserModel.ClaimsRoundTrip | Client/src/main/java/org/gusdb/oauth2/client/veupathdb/User.java:54-61 | reading the claims written for an identity gives that identity back |
| UserModel.MissingSignatureFails | Client/src/main/java/org/gusdb/oauth2/client/veupathdb/User.java:58 | without a `signature` claim no user is built; the error names that claim once the earlier claims have been read |
| UserModel.User.FromJson | Client/src/main/java/org/gusdb/oauth2/client/veupathdb/User.java:54-61 | yields a fresh user with the claimed identity and an empty profile exactly when the claims can be read, and the claims' error otherwise |
| UserModel.User.HashCode | Client/src/main/java/org/gusdb/oauth2/client/veupathdb/User.java:180-183 | the hash agrees, modulo 2^32, with the polynomial hash of the id's decimal string, so it depends on the id alone |
| UserModel.User.Equals | Client/src/main/java/org/gusdb/oauth2/client/veupathdb/User.java:185-191 | an object that is not a User (or is null) is not equal; a User is equal exactly when its id is this user's id |
| UserModel.User.ToString | Client/src/main/java/org/gusdb/oauth2/client/veupathdb/User.java:176-178 | starts with "User #" and ends with the email, or with "null" when there is none |
| UserModel.EqualsIffSameId | Client/src/main/java/org/gusdb/oauth2/client/veupathdb/User.java:185-191 | two users are equal exactly when their ids are equal, whatever their profiles |
| UserModel.EqualsEquivalence | Client/src/main/java/org/gusdb/oauth2/client/veupathdb/User.java:185-191 | equality is reflexive, symmetric and transitive |
| UserModel.EqualsConsistentWithHashCode | Client/src/main/java/org/gusdb/oauth2/client/veupathdb/User.java:180-191 | equal users have equal hash codes |
| UserModel.ToStringDeterminesId | Client/src/main/java/org/gusdb/oauth2/client/veupathdb/User.java:176-178 | two users with the same string form have the same id |
| UserModel.UserLineDeterminesId | Client/src/main/java/org/gusdb/oauth2/client/veupathdb/User.java:177 | the line "User #id - email" determines the id |
| UserModel.SpaceFreePrefix | Client/src/main/java/org/gusdb/oauth2/client/veupathdb/User.java:177 | a prefix without spaces is recovered from `prefix + " - " + rest` |
| JavaLang.TrimDecomposes | Client/src/main/java/org/gusdb/oauth2/client/veupathdb/User.java:164-173 | trim removes only trim characters, and only at the ends |
| JavaLang.TrimUnique | Client/src/main/java/org/gusdb/oauth2/client/veupathdb/User.java:164-173 | trimming a trimmed string surrounded by trim characters gives that string |
| JavaLang.TrimIdempotent | Client/src/main/java/org/gusdb/oauth2/client/veupathdb/User.java:168 | trimming twice is trimming once |
| JavaLang.Digits | Client/src/main/java/org/gusdb/oauth2/client/veupathdb/User.java:176-183 | a natural number's decimal digits: non-empty, digits only, no leading zero |
| JavaLang.DecimalString | Client/src/main/java/org/gusdb/oauth2/client/veupathdb/User.java:176-183 | `String.valueOf(long)` starts with '-' exactly for negative values and otherwise holds only digits |
| JavaLang.ParseLong | Client/src/main/java/org/gusdb/oauth2/client/veupathdb/User.java:56 | `Long.valueOf` accepts only an optional sign followed by digits, and the sign is '-' for a negative result |
| JavaLang.LongRoundTrip | Client/src/main/java/org/gusdb/oauth2/client/veupathdb/User.java:54-61 | parsing the decimal string of a `long` gives it back |
| JavaLang.DecimalStringInjective | Client/src/main/java/org/gusdb/oauth2/client/veupathdb/User.java:176-183 | distinct ids have distinct decimal strings |
| JavaLang.Trim | Client/src/main/java/org/gusdb/oauth2/client/veupathdb/User.java:168-172 | `trim`'s result has no trim character at either end and is no longer than its input |
| JavaLang.Wrap32 | Client/src/main/java/org/gusdb/oauth2/client/veupathdb/User.java:182 | the 32-bit truncation is congruent to its argument modulo 2^32 |
| JavaLang.StringHashCode | Client/src/main/java/org/gusdb/oauth2/client/veupathdb/User.java:182 | `String.hashCode` with 32-bit wrap-around agrees with the unbounded polynomial hash modulo 2^32 |
| LoginForm.Clamp | EuPathDB/src/main/resources/assets/js/eupath-login-form.js:43 | a `substring` index below 0 becomes 0, one past the length becomes the length, and one inside is left alone |
| LoginForm.Substring | EuPathDB/src/main/resources/assets/js/eupath-login-form.js:43 | in-range indices give the slice between them in either order; a negative start counts as 0 and an end past the string as its length; never longer than the string |
| LoginForm.SubstringClamps | EuPathDB/src/main/resources/assets/js/eupath-login-form.js:43 | `substring` of any indices is `substring` of the indices clamped into [0, length] |
| LoginForm.IndexOf | EuPathDB/src/main/resources/assets/js/eupath-login-form.js:44 | -1 exactly when the character is absent; otherwise the position of its first occurrence |
| LoginForm.Split | EuPathDB/src/main/resources/assets/js/eupath-login-form.js:13 | `split('.')` gives at least one piece |
| LoginForm.SplitPiecesLackSeparator | EuPathDB/src/main/resources/assets/js/eupath-login-form.js:13 | no piece of `split('.')` contains '.' |
| LoginForm.JoinSplit | EuPathDB/src/main/resources/assets/js/eupath-login-form.js:13 | joining the pieces of a split with the separator gives the string back |
| LoginForm.SplitJoin | EuPathDB/src/main/resources/assets/js/eupath-login-form.js:13 | splitting a join of separator-free pieces gives the pieces back |
| LoginForm.SecondToLast | EuPathDB/src/main/resources/assets/js/eupath-login-form.js:17 | `parts[parts.length - 2]` is defined exactly when there are two or more parts, and is then one of the parts before the last |
| LoginForm.GetWebappName | EuPathDB/src/main/resources/assets/js/eupath-login-form.js:42-49 | the name has no '/'; it is a prefix of the path without its first character, and is followed there by '/' or by nothing |
| LoginForm.GetWebappNameUnique | EuPathDB/src/main/resources/assets/js/eupath-login-form.js:42-49 | the name is exactly the text after the first character up to the next '/', or all of it when there is no further '/' |
| LoginForm.DropFirst | EuPathDB/src/main/resources/assets/js/eupath-login-form.js:43 | `substring(1)` of "" is ""; of anything else, the string without its first character |
| LoginForm.ProjectOfLabels | EuPathDB/src/main/resources/assets/js/eupath-login-form.js:13-18 | for a host of two or more labels, the project is the second-to-last label, or `eupathdb` when that label is `globus` or `globusgenomics` |
| LoginForm.ProjectOf | EuPathDB/src/main/resources/assets/js/eupath-login-form.js:13-18 | no project exactly when the host has fewer than two labels; a project is never `globus` or `globusgenomics`, and is `eupathdb` or one of the host's labels |
| LoginForm.LinksFor | EuPathDB/src/main/resources/assets/js/eupath-login-form.js:4-19 | without a redirect URI, or with an empty one: base URL `http://eupathdb.org/eupathdb`, cancel URL the base URL, project `eupathdb`; otherwise base URL protocol + "//" + host + "/" + web-application name, cancel URL the decoded `redirectUrl` parameter or else the base URL, and the project of the host |
| LoginForm.ProjectOfDotlessHost | EuPathDB/src/main/resources/assets/js/eupath-login-form.js:13-17 | a host without '.' has no project (`undefined`) |
| LoginForm.ProjectHasNoDot | EuPathDB/src/main/resources/assets/js/eupath-login-form.js:13-18 | a project never contains '.' |

## Left out

- The jQuery and DOM work of the login page is left out: the register and reset-password links, the cancel button's `window.location`, the header logo and the status messages (eupath-login-form.js lines 1, 21-38). This is presentation and status-message selection (a conditional lookup in a table of three messages), not the derivation of the links.
- `getUrlParams`, `parseURL` and `decodeURIComponent` are not part of this model. The parser is a function parameter, the decoded `redirectUrl` is a field of its result, and a `decodeURIComponent` that throws is not modelled.
- A host without a '.' makes the page read `hostParts[-1]`. The model gives `undefined` (`None`) as the project; the DOM lookup it then feeds is left out.
- `optString`'s coercion of non-string JSON values (numbers, booleans, JSON null) is not modelled: the payload of `setPropertyValues` is a map of strings.
- Subclasses that override `fetchUserInfo` to fetch over the network are left out; only the base no-op hook is modelled.
- Concurrency is left out: the model is single-threaded, with no races on the mutable fields.
- The three boolean flags of each descriptor are carried through with the listed values. Their meaning belongs to the `UserProperty` type, which is not part of this model.
- UserModel.GetBoolean: its case folding is ASCII-only, whereas Java's `equalsIgnoreCase` also folds other letters.
- JavaLang.ParseLong: accepts ASCII digits only, whereas `Long.valueOf` also accepts other Unicode decimal digits.
- JavaLang.StringHashCode: a Dafny `char` is a Unicode scalar value, so a character outside the Basic Multilingual Plane is hashed as one unit with its full code point, where Java hashes its two UTF-16 surrogate units; the hash is faithful only for strings within the Basic Multilingual Plane.
- LoginForm.DropFirst: a Dafny `char` is a Unicode scalar value, while JavaScript strings are UTF-16 code units. For a path starting with a character outside the Basic Multilingual Plane, `substring(1)` keeps a lone low surrogate that the model drops, and `GetWebappName` then differs. A pathname from a parsed URL starts with '/' and percent-encodes non-ASCII text, so such a path does not reach this code.
- The exact exception types and messages of org.json and `Long.valueOf` are reduced to the `ClaimError` cases.
- `IdTokenFields` is not part of this model: the claim names are taken as `sub`, `is_guest`, `signature` and `preferred_username`.
