# spsostrov-libsso in Dafny

A model of the client library for the single sign-on gateway of SPŠ Ostrov
(`titan.spsostrov.cz/ssogw`). A web application logs a user in in two phases.
First the browser is redirected to the gateway. The redirect URL carries a
`service` argument: the application's back URL, base64-encoded and then
urlencoded. The gateway sends the browser back with a `ticket`. In the second
phase the library sends the ticket and the same back URL to the gateway's check
URL. The gateway answers with `key:value` lines, which are parsed into an
attribute map. A user record is built from that map. It classifies the
organisational unit (`ou_simple`) as teacher or student, and for students
derives the field of study, the class and the study entry year.

The library exists in two revisions, and both are modelled:

- the namespaced `SPSOstrov\SSO\SSO` and `SSOUser` (`lib/classes/`). These are
  the modules `SSO` and `SSOUser`.
- the older global `SSO` and `SSOUser` (`lib/`). These are the modules
  `LegacySSO` and `LegacySSOUser`.

In the older revision, the back-URL resolution, the `detectMyUrl*` helpers, the
redirect and check URLs, `doRedirect`, `getDefaultToken` and the constructor are
the same text as in the namespaced one (`lib/SSO.php:13-17,46-49,56-74,76-88,125-163`).
They are modelled once, in `SSO`, and `LegacySSO` uses them from there. What
differs is:

- the key pattern of the response parser: `[a-z]+` against `[a-z_]+`;
- the user record: seven known keys, no `ou_name`, no unit classification;
- the explicit `isTokenAvailable`.

Modules:

- `Common`: `Option`.
- `Php`: the PHP builtins the core relies on, with their edge cases:
  - `explode` and `implode`;
  - `trim`;
  - `explode` with limit 2, as `SplitFirst`;
  - `strpos`;
  - `strtok`;
  - POSIX `dirname`;
  - ASCII `strtoupper`;
  - strict `in_array`.
- `Encoding`:
  - PHP's form-style `urlencode`, and the `urldecode` on the gateway's side;
  - base64 as in section 4 of RFC 4648, with its decoder.
- `Attributes`:
  - the attribute map `array<string, string[]>`;
  - `array_pop`;
  - `extractKey`, which takes its key out of the map passed by reference;
  - the PHP values `asArray` returns.
- `Response`:
  - `parseSSOResponseToArray` as an imperative loop over the lines, proved
    against a functional specification `ResponseData`;
  - the parser's properties.
- `SSOUser` and `LegacySSOUser`:
  - the user record;
  - its constructor, as a method that threads the map through one
    `extractKey` after another;
  - the derived data.
- `SSO` and `LegacySSO`:
  - the request context;
  - back-URL resolution;
  - gateway URL assembly, and what the gateway reads back from it;
  - the login flow.

The ambient state becomes explicit:

- `$_GET` and `$_SERVER` are the value `Request`.
- `date("Y")` is the parameter `currentYear`.
- The HTTP fetch of the check URL is the parameter `fetch`. It returns `Failed` or `Body(text)`.
- `header` + `exit` is the outcome `Redirected(location)`.
- `canonizePath` is a caller-supplied function with no properties. It is called but not defined in the library.

Two quirks of the code are reproduced, not corrected:

- `strpos` is called with its arguments swapped. So the delimiter after a gateway URL is `&` only for the URLs "" and "?". It is `?` for every other URL, even one that already has a query (`SSO.DelimiterQuirk`).
- A relative back URL gets no scheme or host, and `/x` has the directory `//`.

## Model

| member | source | states |
|---|---|---|
| `Php.Explode` | lib/classes/SSO.php:149 | `explode` gives at least one piece, and no piece contains the separator |
| `Php.ExplodeWithoutSeparator` | lib/classes/SSO.php:149 | a string without the separator explodes into just itself |
| `Php.ExplodeConcat` | lib/classes/SSO.php:149 | exploding `a + sep + b` gives the pieces of `a` followed by those of `b` |
| `Php.ImplodeExplode` | lib/classes/SSO.php:149 | joining the pieces again with the separator gives back the input: no text is lost when splitting into lines |
| `Php.ExplodeImplode` | lib/classes/SSO.php:149 | exploding the join of separator-free pieces gives back those pieces |
| `Php.Trim` | lib/classes/SSO.php:150 | the trimmed line neither starts nor ends with a space, tab, `\n`, `\r`, NUL or vertical tab |
| `Php.TrimSlice` | lib/classes/SSO.php:150 | the trimmed line is a contiguous slice of the line, and only trim chars are cut off on either side |
| `Php.TrimKeepsChars` | lib/classes/SSO.php:150 | every char of the trimmed line occurs in the line |
| `Php.TrimUnchanged` | lib/classes/SSO.php:150 | a line that neither starts nor ends with a trim char is unchanged |
| `Php.TrimPadded` | lib/classes/SSO.php:150 | trimming a text padded on both sides with trim chars gives the text |
| `Php.SplitFirst` | lib/classes/SSO.php:154-157 | `explode(":", $record, 2)` has two parts exactly when the line contains `:`; then the first part has no `:`, and the parts joined by `:` give back the line |
| `Php.SplitFirstAt` | lib/classes/SSO.php:154 | when the text before a separator has no separator itself, the split is exactly there |
| `Php.StrPos` | lib/classes/SSO.php:112 | `strpos` gives the first position where the needle occurs, or none when it occurs nowhere; an empty needle occurs at 0 |
| `Php.StrTok` | lib/classes/SSO.php:208 | `strtok` is false exactly when the string consists of delimiters only; otherwise a non-empty token without the delimiter, equal to the prefix before the first delimiter when the string does not start with one |
| `Php.Dirname` | lib/classes/SSO.php:201 | `dirname` drops the last segment: "" only for "", "." for a single unrooted segment, "/" for a rooted path of at most one segment, and otherwise a proper prefix that is followed in the path by slashes, the last non-empty segment and only trailing slashes |
| `Php.DirnameOfRootedFile` | lib/classes/SSO.php:200-201 | for a rooted path not ending in `/`, the directory and `/` are the path up to its last segment, which is all that follows after a run of slashes |
| `Php.DirnameOfNestedPath` | lib/classes/SSO.php:201 | `dirname("/a/b/c")` is "/a/b" |
| `Php.StrToUpper` | lib/classes/SSOUser.php:165 | same length; lower-case ASCII letters are raised by 32 and every other char is kept |
| `Php.InArray` | lib/classes/SSOUser.php:100 | `in_array` holds exactly when the value is an element of the list |
| `Encoding.UrlEncode` | lib/classes/SSO.php:117-118 | `urlencode` output uses only letters, digits, `-_.`, `%` and `+`, and is between one and three times as long as the input |
| `Encoding.UrlEncodeUnreserved` | lib/classes/SSO.php:117 | a string of letters, digits and `-_.` is its own encoding, as `service` and `ticket` are |
| `Encoding.UrlDecodeEncode` | lib/classes/SSO.php:118 | decoding the encoding of any byte string gives it back |
| `Encoding.Base64Encode` | lib/classes/SSO.php:111 | `base64_encode` output is 4·⌈n/3⌉ long and consists of base64 digits and `=` only |
| `Encoding.Base64DecodeEncode` | lib/classes/SSO.php:111 | decoding the base64 text of any byte string gives it back |
| `Attributes.Values` | lib/classes/SSOUser.php:238 | no contract: `$data[$key] ?? []`, used by `ExtractKey` and the constructor lemmas |
| `Attributes.ArrayPop` | lib/classes/SSOUser.php:240 | `array_pop` is null exactly for the empty list, and otherwise its last element |
| `Attributes.ExtractKey` | lib/classes/SSOUser.php:236-241 | the key is removed from the map and nothing else is; a scalar key gives the last of its values (null when absent), a multi-valued key its whole list (`[]` when absent) |
| `Attributes.OptionalString` | lib/classes/SSOUser.php:221-226 | a `?string` field becomes PHP null exactly when it is null, and otherwise the string |
| `Response.KeyMatches` | lib/classes/SSO.php:158 | no contract: the anchored key pattern, with `$` also before a final `\n`; see `KeyMatchesWithoutNewline` |
| `Response.KeyMatchesWithoutNewline` | lib/classes/SSO.php:158 | for a key without `\n`, the anchored key pattern matches exactly when the key is non-empty and made of the pattern's chars (`$` may also match before a final newline) |
| `Response.ParseLine` | lib/classes/SSO.php:150-161 | a kept line is, once trimmed, the key, `:` and the value, and the key has no `:`; a key from a line without `\n` matches the pattern; a line that is blank once trimmed, or has no `:`, gives nothing |
| `Response.ParseLineKeeps` | lib/classes/SSO.php:150-161 | a line whose trimmed text is a matching key, `:` and a value is kept as exactly that key and value |
| `Response.PaddedRecord` | lib/classes/SSO.php:150-161 | a record with whitespace around it, such as the `\r` of a CRLF line end or leading blanks, is kept as its key and value |
| `Response.KeyInLine` | lib/classes/SSO.php:158 | a key that matches, taken from a line without `\n`, is a key of the pattern |
| `Response.Pairs` | lib/classes/SSO.php:149-161 | at most one record per line; every record's key matches the pattern |
| `Response.Collect` | lib/classes/SSO.php:162-165 | no key of the collected map has an empty list |
| `Response.CollectKeys` | lib/classes/SSO.php:162-165 | a key is in the map only if some record has it |
| `Response.CollectValues` | lib/classes/SSO.php:162-165 | the list of each key is its records' values in input order |
| `Response.ValuesOfAppend` | lib/classes/SSO.php:165 | the values of a key over two runs of records are those of the first run followed by those of the second |
| `Response.PairsAppend` | lib/classes/SSO.php:149 | the records of two runs of lines are those of the first run followed by those of the second |
| `Response.ResponseData` | lib/classes/SSO.php:146-168 | every key of the parsed map is non-empty and made of the pattern's chars (`a`–`z` and `_`, or `a`–`z` only), and every list is non-empty |
| `Response.ResponseValues` | lib/classes/SSO.php:149-165 | each key's list is the values of its records, in input order |
| `Response.SameValues` | lib/classes/SSO.php:162-165 | two maps without empty lists are equal when every key has the same values in both |
| `Response.ConcatValues` | lib/classes/SSO.php:149-165 | for each key, parsing `A + "\n" + B` gives A's values followed by B's |
| `Response.ResponseConcat` | lib/classes/SSO.php:149-165 | parsing `A + "\n" + B` gives the merge of the two maps: the keys of both, with B's values after A's |
| `Response.SkippedLine` | lib/classes/SSO.php:150-157 | a line that is blank once trimmed, or has no `:`, adds nothing to the result |
| `Response.SingleLine` | lib/classes/SSO.php:149-165 | a text of one line gives that line's record alone, or the empty map |
| `Response.ParseLineSplitsAtFirstColon` | lib/classes/SSO.php:154-161 | `key:value` with a valid key is split at the first `:`; the key is not trimmed again, and later `:` stay in the value |
| `Response.RecordSplitsAtFirstColon` | lib/classes/SSO.php:154-161 | the one-line response `key:value` parses to the key with the single value `value`, whatever `:` the value holds |
| `Response.CollectStep` | lib/classes/SSO.php:149-165 | one more line changes the map by that line's record and no more |
| `Response.AddRecord` | lib/classes/SSO.php:162-165 | the `isset`/append step adds the line's value at the end of its key's list, creating the list when needed, and leaves the map unchanged for a dropped line |
| `Response.ParseSSOResponseToArray` | lib/classes/SSO.php:146-168 | the `foreach` over the lines computes the parsed map `ResponseData` |
| `SSOUser.StudentMatch` | lib/classes/SSOUser.php:146-148 | no contract: the student pattern `^(.)([0-9]{2})(.)(.?)$`; see `SSOUser.User.IsStudent` |
| `SSOUser.StudentCore` | lib/classes/SSOUser.php:11 | a unit without `\n` is matched as a whole |
| `SSOUser.TwoDigitValue` | lib/classes/SSOUser.php:177 | `(int)` of the two year digits is below 100 |
| `SSOUser.EntryYear` | lib/classes/SSOUser.php:177-190 | a two-digit year gives a year congruent to it mod 100 within [Y−99, Y+1], the latest such year unless Y ends in 99; a larger number is kept when it is past 2000 and null otherwise |
| `SSOUser.EntryYearOfCurrentYear` | lib/classes/SSOUser.php:178-185 | the current year's own two digits give the current year |
| `SSOUser.EntryYearExamples` | lib/classes/SSOUser.php:178-185 | with Y = 2025: 99 → 1999, 21 → 2021, 26 → 2026, 27 → 1927 |
| `SSOUser.EntryYearCenturyEnd` | lib/classes/SSOUser.php:178-185 | in a year ending in 99, the digits 00 give Y−99, not the coming Y+1 |
| `SSOUser.User.HasGroup` | lib/classes/SSOUser.php:98-101 | `hasGroup(g)` holds exactly when `g` is one of the groups |
| `SSOUser.User.IsTeacher` | lib/classes/SSOUser.php:138-141 | teacher exactly when the unit is "ucitele"; a teacher is never a student |
| `SSOUser.User.IsStudent` | lib/classes/SSOUser.php:146-149 | a missing unit is no student; for a unit without `\n`, a student exactly when it has 4 or 5 chars and its 2nd and 3rd are digits |
| `SSOUser.User.OUStudentField` | lib/classes/SSOUser.php:243-249 | a group exists exactly for students: group 1 is the unit's first char, group 2 its two year digits |
| `SSOUser.User.FieldOfStudy` | lib/classes/SSOUser.php:162-166 | for a student, the upper-cased first char of the unit, and null otherwise |
| `SSOUser.User.StudyEntryYear` | lib/classes/SSOUser.php:171-191 | for a student, a year congruent to the year digits mod 100 within [Y−99, Y+1], and null otherwise |
| `SSOUser.User.Class` | lib/classes/SSOUser.php:154-157 | `ou_name` for a student, null otherwise |
| `SSOUser.User.AsArray` | lib/classes/SSOUser.php:216-234 | exactly the fourteen keys of `asArray`: `isStudent` and `isTeacher` are the classification, `otherData` the residual map |
| `SSOUser.AsArrayIdentity` | lib/classes/SSOUser.php:219-222 | `login`, `name` and `groups` are the user's values, `groupName` its group name or null |
| `SSOUser.AsArrayOptionalFields` | lib/classes/SSOUser.php:223-226 | `email`, `authBy`, `ouSimple` and `ouName` are the fields, each null where the field is null |
| `SSOUser.AsArrayDerived` | lib/classes/SSOUser.php:229-231 | `fieldOfStudy`, `class` and `studyEntryYear` are the getters' results, null where they are null |
| `SSOUser.StudentDataPresent` | lib/classes/SSOUser.php:154-191 | field of study, entry year and class are all present for a student and all null otherwise |
| `SSOUser.FromAttributes` | lib/classes/SSOUser.php:46-57 | no contract: what the constructor builds, or its TypeError; see `ConstructedFields` |
| `SSOUser.Profile` | lib/classes/SSOUser.php:50-57 | no contract: the fields after `login` and `name`; see `ConstructedFields` and `ExtractProfile` |
| `SSOUser.ConstructedFields` | lib/classes/SSOUser.php:46-57 | the constructor fails exactly when `login` or `name` has no value; otherwise each scalar field is the last value of its key, `groups` is the whole `group` list, `groupName` is the last `group_name` value, except that a last value of "" becomes null, and `otherData` is the map without exactly the eight known keys, every other entry unchanged |
| `SSOUser.Construct` | lib/classes/SSOUser.php:46-59 | the field-by-field construction with `extractKey` gives the user described by `ConstructedFields` |
| `SSOUser.ExtractProfile` | lib/classes/SSOUser.php:50-57 | the assignments after `login` and `name` build the rest of the user from the map left after each `extractKey` |
| `SSOUser.ProfileAfterRemoval` | lib/classes/SSOUser.php:48-49 | removing `login` and `name` first leaves the other fields as they would be |
| `LegacySSOUser.User.HasGroup` | lib/SSOUser.php:87-90 | `hasGroup(g)` holds exactly when `g` is one of the groups |
| `LegacySSOUser.User.AsArray` | lib/SSOUser.php:139-148 | exactly the keys `login`, `name`, `groups`, `email`, `otherData`, with the user's values |
| `LegacySSOUser.FromAttributes` | lib/SSOUser.php:36-48 | no contract: what the constructor builds, or its TypeError; see `ConstructedFields` |
| `LegacySSOUser.Profile` | lib/SSOUser.php:40-46 | no contract: the fields after `login` and `name`; see `ConstructedFields` and `ExtractProfile` |
| `LegacySSOUser.ConstructedFields` | lib/SSOUser.php:36-48 | as in the namespaced revision, with seven known keys: `ou_name` stays in `otherData` |
| `LegacySSOUser.WithoutUnderscoreKeys` | lib/SSOUser.php:42-46 | a map without `_` in its keys gives no group name, auth-by or unit, and no `_` key in `otherData` |
| `LegacySSOUser.Construct` | lib/SSOUser.php:36-48 | the field-by-field construction gives the user described by `ConstructedFields` |
| `LegacySSOUser.ExtractProfile` | lib/SSOUser.php:40-46 | the assignments after `login` and `name` build the rest of the user from the map left after each `extractKey` |
| `LegacySSOUser.ProfileAfterRemoval` | lib/SSOUser.php:38-39 | removing `login` and `name` first leaves the other fields as they would be |
| `SSO.NewSSO` | lib/classes/SSO.php:27-31 | a null gateway or check URL selects the default one, and a given one is kept |
| `SSO.DefaultToken` | lib/classes/SSO.php:83-86 | the `ticket` query argument, and null exactly when there is none |
| `SSO.Scheme` | lib/classes/SSO.php:191-195 | `https://` exactly when `HTTPS` is "on", and `http://` otherwise |
| `SSO.MyUrlHost` | lib/classes/SSO.php:186-189 | the scheme followed by `HTTP_HOST` |
| `SSO.MyUrlPath` | lib/classes/SSO.php:206-209 | the path has no `?`; for a URI not starting with `?`, it is the non-empty part before the first `?` |
| `SSO.LastChar` | lib/classes/SSO.php:200 | `substr($s, -1)` is the last char, or "" for "" |
| `SSO.MyUrlDirPath` | lib/classes/SSO.php:197-204 | the directory always ends in `/`; a path ending in `/` is kept, any other becomes its `dirname` and `/` |
| `SSO.DirPathIsPrefix` | lib/classes/SSO.php:197-204 | for a rooted path not ending in `/`, the directory is the path up to its last segment (only slashes and that segment follow it), or "//" when the path is slashes and one segment |
| `SSO.DirPathOfFirstLevelPath` | lib/classes/SSO.php:199-202 | the request `/x?y=1` has the directory `//` |
| `SSO.RealBackUrl` | lib/classes/SSO.php:171-184 | four branches: an `http(s)://` URL is kept, a rooted path gets scheme and host, a null or "" one is this request's URL without its query, and a relative one is the directory plus the URL through `canonizePath` |
| `SSO.RealBackUrlIsFull` | lib/classes/SSO.php:171-195 | unless relative, the real back URL starts with `http://` or `https://`; from this server's own host, `https` exactly when `HTTPS` is "on" |
| `SSO.RealBackUrlIdempotent` | lib/classes/SSO.php:171-184 | resolving a resolved non-relative back URL again changes nothing |
| `SSO.Delimiter` | lib/classes/SSO.php:112 | no contract: `strpos("?", $url) === false ? '?' : '&'`; see `DelimiterQuirk` |
| `SSO.DelimiterQuirk` | lib/classes/SSO.php:112-125 | with the swapped `strpos` arguments, the delimiter is `&` exactly for the gateway URLs "" and "?" |
| `SSO.DelimiterOfUrlWithQuery` | lib/classes/SSO.php:112 | a gateway URL that already has a query still gets `?` |
| `SSO.ArgumentNamesArePlain` | lib/classes/SSO.php:12-13 | `service` and `ticket` consist of chars `urlencode` keeps |
| `SSO.PlainArgument` | lib/classes/SSO.php:117-118 | an argument with such a name is the name, `=` and the encoded value |
| `SSO.RedirectUrl` | lib/classes/SSO.php:109-120 | no contract: `getRedirectUrl`; see `RedirectUrlShape` and `RedirectUrlReadsBack` |
| `SSO.CheckUrl` | lib/classes/SSO.php:124-134 | no contract: the check URL; see `CheckUrlShape` and `CheckUrlReadsBack` |
| `SSO.CheckQuery` | lib/classes/SSO.php:127-133 | no contract: the two check arguments; see `CheckQueryReadsBack` |
| `SSO.RedirectUrlShape` | lib/classes/SSO.php:109-120 | the redirect URL is the gateway URL, the delimiter (`?` for any gateway URL longer than one char), `service=` and the urlencoded base64 of the real back URL |
| `SSO.CheckUrlShape` | lib/classes/SSO.php:124-134 | the check URL is the check gateway URL, its delimiter, the same `service=` argument, then `&ticket=` and the urlencoded token |
| `SSO.ParseArguments` | lib/classes/SSO.php:113-119 | the gateway reads one argument per `&`-separated piece |
| `SSO.ParseArgumentsAppend` | lib/classes/SSO.php:126-134 | the arguments of two runs of pieces are those of the first followed by those of the second |
| `SSO.Base64EncodeIsByteString` | lib/classes/SSO.php:111 | base64 text is a byte string |
| `SSO.ArgumentReadsBack` | lib/classes/SSO.php:117-118 | `name=urlencode(value)` has no `&` and reads back as the single argument (name, value) |
| `SSO.ServiceArgumentReadsBack` | lib/classes/SSO.php:117-118 | the service argument reads back as `service` with the base64 text of the back URL |
| `SSO.RedirectUrlReadsBack` | lib/classes/SSO.php:109-120 | the redirect URL starts with the gateway URL and delimiter; its query is exactly the `service` argument, whose value decodes back to the real back URL; for a gateway URL without `?`, the query is what follows the first `?` |
| `SSO.CheckQueryReadsBack` | lib/classes/SSO.php:126-134 | the check query reads back as `service` with the back URL's base64 text, then `ticket` with the token |
| `SSO.QueryConcat` | lib/classes/SSO.php:127 | joining two queries with `&` joins their argument lists |
| `SSO.CheckUrlReadsBack` | lib/classes/SSO.php:124-134 | the check URL starts with the check gateway URL and delimiter, and its query reads back as the back URL and the token |
| `SSO.UserOf` | lib/classes/SSO.php:140-143 | no contract: null without `login` or `name`, else the constructed user; see `AnswerCases` |
| `SSO.Answer` | lib/classes/SSO.php:139-143 | no contract: the user for a body; see `AnswerCases` |
| `SSO.Credentials` | lib/classes/SSO.php:135-143 | no contract: null for a failed fetch, else the user for the body; see `QuerySSOCheckUrl` |
| `SSO.AnswerCases` | lib/classes/SSO.php:139-143 | an answer gives a user exactly when its parsed map has `login` and `name`, and that user is what the constructor builds from the whole map |
| `SSO.QuerySSOCheckUrl` | lib/classes/SSO.php:122-144 | null when the fetch fails or the parsed answer lacks `login` or `name`; otherwise the user built from the parsed answer |
| `SSO.GetLoginCredentials` | lib/classes/SSO.php:69-76 | the given token, else the request's, is checked; null when there is neither |
| `SSO.DoRedirect` | lib/classes/SSO.php:95-100 | the redirect ends the request with the redirect URL as its location |
| `SSO.DoLogin` | lib/classes/SSO.php:38-45 | with a ticket in the request, the credentials for it; without one, the redirect to the gateway for this very URL |
| `SSO.DoLoginAsArray` | lib/classes/SSO.php:52-59 | `doLogin`, with the user given as its `asArray` and a null result kept null |
| `LegacySSO.IsTokenAvailable` | lib/SSO.php:46-54 | a token is available exactly when the request has a `ticket` |
| `LegacySSO.NoUnderscoreKeys` | lib/SSO.php:100-122 | no key of this revision's parsed map contains `_` |
| `LegacySSO.UserOf` | lib/SSO.php:94-97 | no contract: null without `login` or `name`, else the constructed user; see `AnswerCases` |
| `LegacySSO.Answer` | lib/SSO.php:93-97 | no contract: the user for a body, parsed with the `[a-z]+` keys; see `AnswerCases` |
| `LegacySSO.Credentials` | lib/SSO.php:89-97 | no contract: null for a failed fetch, else the user for the body; see `QuerySSOCheckUrl` |
| `LegacySSO.AnswerCases` | lib/SSO.php:93-97 | an answer gives a user exactly when its parsed map has `login` and `name`, and that user is what the constructor builds from the whole map |
| `LegacySSO.UnderscoreFieldsNull` | lib/SSO.php:112 | a user from this revision's parser never has a group name, an auth-by or a unit, and no `_` key in its other data |
| `LegacySSO.QuerySSOCheckUrl` | lib/SSO.php:76-98 | null when the fetch fails or the parsed answer lacks `login` or `name`; otherwise the user built from the parsed answer |
| `LegacySSO.GetLoginCredentials` | lib/SSO.php:37-44 | null when no token is given and none is in the request; otherwise the credentials for that token |
| `LegacySSO.DoLogin` | lib/SSO.php:28-35 | the credentials exactly when a token is available, the redirect otherwise |
| `LegacySSO.DoLoginAsArray` | lib/SSO.php:19-26 | `doLogin`, with the user given as its `asArray` and a null result kept null |

## Left out

- The HTTP request `@file_get_contents` is network I/O. The gateway's answer is the parameter `fetch`: `Failed` stands for `false`, `Body(text)` for a string.
- `header("Location: …")` followed by `exit` is the outcome `Redirected(location)`. Nothing after it runs, and no header is modelled.
- `$_GET` and `$_SERVER` are the explicit `Request` value, and `date("Y")` is the parameter `currentYear`.
- Every `$_GET` value is a string. The array-valued arguments PHP allows are not modelled.
- `canonizePath` is called on relative back URLs, but no file of the library defines it. Here it is a function supplied with the configuration, with no properties. No claim is made about canonical paths, and PHP's fatal error for the missing method is not modelled.
- `SSO.RealBackUrl`: a missing `HTTP_HOST` or `REQUEST_URI` reads as "". The warning PHP prints for it is not modelled.
- `SSO.MyUrlPath`: the `false` of `strtok` for a URI made of `?` only is read as "". The `string` return type converts it that way, but this is stated only for URIs that do not start with `?`.
- `SSOUser.User.HasGroup` uses strict membership. `in_array` without its strict flag compares loosely, which differs only for numeric strings such as "1" and "01".
- `LegacySSOUser.User.HasGroup`: strict membership as well, for the same reason.
- `Php.InArray`: models strict membership only; the loose comparison of `in_array` without its strict flag, used by both `hasGroup` methods, is not modelled.
- `new SSOUser($data)` with a missing `login` or `name` raises a TypeError in PHP. That is the outcome `TypeError(key)`. It cannot happen from `querySSOCheckUrl`, which checks both keys first.
- The attribute map holds lists of strings only, which is all the parser produces. Other PHP array values passed to the constructor by other callers are not modelled.
- Chars stand for bytes, and the round trips are stated for byte strings, whose chars are all below 256. A char above 255 has no byte meaning here: `base64_encode` reads it modulo 256, and `urlencode` writes it as `%` and the hex digits of its value modulo 256. There is no UTF-8 layer.
- PHP array key order is not modelled. Maps are unordered, so `asArray` and `otherData` are compared as maps.
- `SSOUser.User.AsArray` states the keys, the classification and `otherData`. The other entries are stated by `SSOUser.AsArrayIdentity`, `SSOUser.AsArrayOptionalFields` and `SSOUser.AsArrayDerived`, because one contract holding all fourteen entries is too costly to check.
- `strpos` follows PHP 8: an empty needle is found at position 0. This matters only for the gateway URL "".
- Both response patterns are matched by hand, not by a regular expression engine. The only PCRE rule that matters here is that `$` also matches before a final `\n`.
- The plain getters (`getLogin`, `getName`, `getGroups`, `getEmail`, `getGroupName`, `getAuthBy`, `getOUSimple`, `getOUName`, `getOtherData`) are the fields of the `User` datatypes.
- The HTML printers (`SSOUserPrinter`), `prettyPrint`, the test application and the `class_alias` file `lib/libsso.php` are not part of this model.
- `SSO::enableAliases()`, which the test application calls, is not part of this model either.
- `SSOUser.EntryYear` reproduces the code's one-century rule exactly. In a year ending in 99, the digits 00 give that century's year 00 and not the next year (`SSOUser.EntryYearCenturyEnd`). The `year > 2000` branch cannot be reached from `getStudyEntryYear`, whose year always has two digits, but it is modelled.
