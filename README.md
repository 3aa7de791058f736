# Simple3DViewer data handling, modelled in Dafny

This project models the application's own data handling in Simple3DViewer, a
small web app for uploading 3D design files to a cloud bucket, having them
translated for viewing, and searching the loaded model in a 3D viewer. It also
proves properties of that model. The vendor SDK, Express, the DOM and the
viewer are not modelled. They appear only as abstract collaborators.

The model has three parts:

- **Model search** (`wwwroot/js/search.js`, module `Search`):
  - A search term is trimmed and lower-cased. If it contains `:`, it is split
    into an attribute and a value.
  - Every node id of the instance tree is tested in order against its property
    list. The scan of a node stops at the first property that satisfies the
    query. The nested loop with its `break` is modelled as a method and proved
    against `MatchingIds`, a specification function.
  - `applySearchResults` changes the viewer's hidden set and its fit-to-view
    requests. `Viewer` is a class for this state.
  - `SearchBox` is a class for the live-search flag, which one button toggles.
    The flag decides whether typing or the Enter key starts a search.
  - `Text` models the JavaScript string built-ins used here: `trim`, ASCII
    `toLowerCase`, `includes` and `split` on one character.
- **Routes** (`routes/models.js`, module `Models`):
  - The model list maps each bucket object to `{name, urn}`.
  - The status report is built from a manifest, or is `{status: 'n/a'}` when
    there is no manifest.
  - The upload route checks for the file, uploads it, starts the translation,
    then responds.
- **Service layer** (`services/aps.js`, modules `Aps`, `Base64`, `Utf8`):
  - `urnify` turns the object id into UTF-8 bytes (`Buffer.from`), encodes
    them in base64 as in section 4 of RFC 4648, and deletes every `=`.
  - The `listObjects` pagination loop uses an abstract page oracle.
  - `getManifest` maps a 404 failure to null.
  - The SDK calls are a `Gateway` class. Each call's outcome is fixed by a
    constant function, and the calls that change remote state are appended to
    a call log.

The comment at routes/models.js:24 says that child-derivative messages are
collected. The code does not do this: at line 35 it computes
`messages.concat(child.messages || [])` and discards the result. The model
follows the code. `Models.ChildrenIgnored` and
`Models.ChildOnlyMessageDropped` prove that child messages never reach the
report.

The client (`wwwroot/main.js`) loads a model directly and never polls
translation status, so no polling loop is modelled.

## Model

| member | source | states |
|---|---|---|
| `Text.Trim` | wwwroot/js/search.js:55 | `String.prototype.trim`: leading and then trailing JavaScript whitespace and line terminators are removed. Its properties are the lemmas below. |
| `Text.TrimStartSpec` | wwwroot/js/search.js:55 | Removing leading whitespace keeps the suffix that starts at the first non-whitespace character. Everything removed is whitespace. |
| `Text.TrimEndSpec` | wwwroot/js/search.js:55 | Removing trailing whitespace keeps the prefix that ends at the last non-whitespace character. Everything removed is whitespace. |
| `Text.TrimIsInfix` | wwwroot/js/search.js:55 | `trim` returns a contiguous infix of its input that has only whitespace on either side of it. The result has no whitespace at either end. |
| `Text.TrimIdempotent` | wwwroot/js/search.js:55 | `trim` is idempotent: trimming its result again changes nothing. |
| `Text.Lower` | wwwroot/js/search.js:55 | Lower-casing keeps the length and maps each character through ASCII lower-casing. |
| `Text.LowerHasNoUpper` | wwwroot/js/search.js:88 | A lower-cased string has no upper-case letter. Upper-case letters move down by 32 and other characters are unchanged. |
| `Text.LowerIdempotent` | wwwroot/js/search.js:62 | Lower-casing the already lower-cased value again changes nothing. |
| `Text.Contains` | wwwroot/js/search.js:92 | `includes`: the pattern occurs at some position of the text. |
| `Text.ContainsEmpty` | wwwroot/js/search.js:97 | Every string includes the empty string. |
| `Text.Split` | wwwroot/js/search.js:60 | `split(':')` gives one more part than there are separators. No part contains the separator. Joining the parts with the separator gives back the input. |
| `Text.SplitHasSeveralParts` | wwwroot/js/search.js:59-60 | The term contains `:` exactly when splitting gives at least two parts, so `parts[1]` exists. |
| `Text.SplitAppend` | wwwroot/js/search.js:60 | A prefix without separators becomes the start of the first part, and the other parts are unchanged. |
| `Search.ParseQuery` | wwwroot/js/search.js:55-63 | The query a search term parses to. The term is trimmed and lower-cased. If it contains `:`, the attribute is the trimmed first segment and the value is the trimmed, lower-cased second segment. Otherwise there is no attribute and the value is the whole term. |
| `Search.HasAttribute` | wwwroot/js/search.js:91 | The attribute is truthy: present and not the empty string. |
| `Search.ParseWithoutColon` | wwwroot/js/search.js:55-57 | With no `:` in the trimmed, lower-cased term, there is no attribute and the value is the whole normalised term. |
| `Search.ParseWithColon` | wwwroot/js/search.js:59-63 | For a normalised term `a:v` or `a:v:…`, the attribute is `trim(a)` and the value is `trim(v)`. Everything from the second `:` on is ignored. |
| `Search.ParsedQueryIsNormal` | wwwroot/js/search.js:55-62 | The parsed value, and the attribute when there is one, have no whitespace at either end and no upper-case letter. |
| `Search.SearchWithoutColon` | wwwroot/js/search.js:96-100 | A term without `:` matches a node exactly when the node has a property whose lower-cased value contains the normalised term. |
| `Search.PropertyMatches` | wwwroot/js/search.js:87-101 | One property satisfies the query. With a truthy attribute, its trimmed name equals the attribute up to case and its lower-cased value includes the query value. Otherwise its lower-cased value includes the query value. |
| `Search.NodeMatches` | wwwroot/js/search.js:85-101 | A node matches when it has a property list and some property in it satisfies the query, which is the condition under which the loop pushes the id. |
| `Search.PropertyMatchesAttribute` | wwwroot/js/search.js:87-95 | With a non-empty lower-case attribute, a property satisfies the query exactly when its trimmed, lower-cased name equals the attribute and its lower-cased value contains the query value. |
| `Search.SearchWithAttribute` | wwwroot/js/search.js:87-95 | A term `a:v…` with a non-blank attribute matches a node exactly when some property has trimmed, lower-cased name `trim(a)` and a lower-cased value that contains `trim(v)`. |
| `Search.SearchWithBlankAttribute` | wwwroot/js/search.js:91-100 | A term like `":x"` gives the falsy attribute `""`. Names are then ignored, and the node matches when any property value contains `trim(v)`. |
| `Search.EmptyValueMatchesAll` | wwwroot/js/search.js:96-100 | With no attribute, an empty value matches exactly the nodes that have at least one property. |
| `Search.BlankSearchMatchesEveryNodeWithProperties` | wwwroot/js/search.js:82-109 | A blank search term finds exactly the enumerated nodes that have at least one property. |
| `Search.MatchingIdsSnoc` | wwwroot/js/search.js:82-107 | Handling one more enumerated node adds that node to the result exactly when it matches. |
| `Search.MatchingMembership` | wwwroot/js/search.js:82-109 | An id is in the result exactly when it was enumerated and its node matches. A node whose property list is absent never matches. |
| `Search.MatchingDistinct` | wwwroot/js/search.js:92-99 | If the enumeration has no repeated ids, neither does the result. Each node is pushed at most once. |
| `Search.MatchPositions` | wwwroot/js/search.js:82-109 | Each match sits at a position of the enumeration, and these positions strictly increase. The result is an order-preserving subsequence of the enumeration. |
| `Search.MatchPositionsComplete` | wwwroot/js/search.js:82-109 | Every enumerated position whose node matches is among the match positions. No match is left out. |
| `Search.GetMatchingElements` | wwwroot/js/search.js:54-110 | With no instance tree the result is `[]`. Otherwise the nested loop with `break` returns exactly `MatchingIds` of the enumerated ids and the parsed query. |
| `Search.Viewer.Hide` | wwwroot/js/search.js:126 | `hide` adds the given ids to the hidden set. |
| `Search.Viewer.Show` | wwwroot/js/search.js:129 | `show` removes the given ids from the hidden set. |
| `Search.Viewer.FitToView` | wwwroot/js/search.js:130 | `fitToView` records one more fit request for the given ids. |
| `Search.ApplySearchResults` | wwwroot/js/search.js:114-134 | With no instance tree nothing changes. Otherwise every enumerated node is hidden and the matches are shown again. The view is fitted to the matches only when there are some. |
| `Search.VisibleAreMatches` | wwwroot/js/search.js:126-133 | When the matches are enumerated nodes, the visible enumerated nodes afterwards are exactly the matches. That set is empty when there are no matches. |
| `Search.SearchModel` | wwwroot/js/search.js:48-51 | After a search, an enumerated node is visible exactly when it matches the parsed query. The view is fitted to the matches only when there are some. |
| `Search.StartsSearch` | wwwroot/js/search.js:33-43 | An input event starts a search when live search is on. A keypress starts one when live search is off and the key is Enter. |
| `Search.OneTriggerPerMode` | wwwroot/js/search.js:33-43 | In either mode, exactly one of typing and pressing Enter starts a search. Other keys never do. |
| `Search.SearchBox.constructor` | wwwroot/js/search.js:16-20 | Live search starts off. The button's label and class are those the page gives it. |
| `Search.SearchBox.ToggleLiveSearch` | wwwroot/js/search.js:23-28 | Each click negates the flag, and the flag always equals the parity of the clicks. The label reads "Live Search: ON" or "Live Search: OFF", and the button is "active" exactly when the flag is on. |
| `Search.SearchBox.OnInput` | wwwroot/js/search.js:33-37 | An input event searches the box's text exactly when live search is on. Otherwise the viewer is unchanged. A search leaves the viewer as `searchModel` does: with no instance tree nothing changes. Otherwise every enumerated node is hidden except the matches, other ids keep their state, and the view is fitted to the matches only when there are some. |
| `Search.SearchBox.OnKeyPress` | wwwroot/js/search.js:39-43 | A keypress searches exactly when live search is off and the key is Enter. Otherwise the viewer is unchanged. A search leaves the viewer as `searchModel` does: with no instance tree nothing changes. Otherwise every enumerated node is hidden except the matches, other ids keep their state, and the view is fitted to the matches only when there are some. |
| `Search.InitializeSearch` | wwwroot/js/search.js:4-20 | An undefined viewer wires up nothing. Otherwise a fresh search box starts with live search off, no clicks, and the button label and class the page gives. |
| `Base64.Encode` | services/aps.js:111 | `toString('base64')`: each group of three bytes becomes four characters of the alphabet of section 4 of RFC 4648. A final group of one or two bytes is padded with `==` or `=`. |
| `Base64.RemoveAll` | services/aps.js:111 | `replace(/=/g, '')`: the string without any `=`. |
| `Base64.EncodeDecode` | services/aps.js:111 | Decoding the padded base64 of section 4 of RFC 4648 gives back the original bytes. |
| `Base64.DecodeAfterQuantum` | services/aps.js:111 | A leading group of four unpadded characters decodes to its three bytes, in front of what the rest decodes to. |
| `Base64.EncodeDecodeOne` | services/aps.js:111 | A final single byte, encoded with `==` padding, decodes back to that byte. |
| `Base64.EncodeDecodeTwo` | services/aps.js:111 | A final pair of bytes, encoded with `=` padding, decodes back to those bytes. |
| `Base64.EncodeLength` | services/aps.js:111 | The padded encoding has four characters for every started group of three bytes. |
| `Utf8.Encode` | services/aps.js:111 | `Buffer.from(id)`: the UTF-8 bytes of each character, one to four per character, in order. |
| `Utf8.EncodeDecode` | services/aps.js:111 | Decoding the UTF-8 bytes that `Buffer.from` makes from an id gives back the id. |
| `Utf8.EncodeInjective` | services/aps.js:111 | Distinct ids have distinct UTF-8 bytes. |
| `Aps.Urnify` | services/aps.js:111 | `urnify(id)`: base64 of the UTF-8 bytes of the id, with every `=` removed. |
| `Aps.UrnifyBytesUnfold` | services/aps.js:111 | Each full group of three bytes contributes its four base64 characters unchanged, because `replace(/=/g, '')` only touches padding. |
| `Aps.UrnifyBytesTail` | services/aps.js:111 | A final group of one or two bytes gives two or three characters, with the padding removed. |
| `Aps.UrnifyAlphabet` | services/aps.js:111 | A URN contains no `=`, and every character is in the alphabet `A-Z a-z 0-9 + /` of section 4 of RFC 4648. |
| `Aps.UrnifyLength` | services/aps.js:111 | An n-byte input gives a URN of ceil(4n/3) characters. |
| `Aps.UrnifyRepad` | services/aps.js:111 | Padding the URN with `=` to a multiple of four characters restores the standard base64 encoding. |
| `Aps.PadAfterQuantum` | services/aps.js:111 | Re-padding leaves a complete leading group of four characters unchanged. |
| `Aps.UrnifyRoundTrip` | services/aps.js:111 | Re-padding and then base64-decoding a URN gives back the original bytes. |
| `Aps.UrnifyBytesInjective` | services/aps.js:111 | Distinct byte sequences never get the same URN. |
| `Aps.UrnifyInjective` | services/aps.js:111 | Distinct object ids never get the same URN. |
| `Aps.Gateway.GetManifest` | services/aps.js:95-107 | The manifest lookup for a URN, passed through `ManifestOutcome`. |
| `Aps.ManifestOutcome` | services/aps.js:97-106 | `getManifest` returns null exactly when the lookup failed with status 404. A found manifest is returned as is. Every other failure is passed on unchanged. |
| `Aps.HasNext` | services/aps.js:57 | The loop test `resp.next` is truthy: `next` is present and is not the empty string. |
| `Aps.Collect` | services/aps.js:55-62 | The listing from a cursor on: the first failed page request, or the items of each page in order up to the first page whose `next` is missing or empty. It is undefined when the pages do not end within the fuel. |
| `Aps.EmptyNextEndsListing` | services/aps.js:57 | A page whose `next` is `""` ends the listing with its own items, and no further page is requested. |
| `Aps.CollectStep` | services/aps.js:59-60 | A successful page request adds that page's items in front of whatever the following pages give. |
| `Aps.CollectChain` | services/aps.js:55-62 | Along a chain of pages, each answering the previous page's truthy `next` and the last having a missing or empty `next`, the listing is the concatenation of their items in page order. |
| `Aps.FetchAllPages` | services/aps.js:55-62 | The loop returns exactly `Collect` from the first page. That is the items of every page, in page order, up to the first page whose `next` is missing or empty. The first failed request is returned instead. |
| `Aps.Gateway.EnsureBucketExists` | services/aps.js:37-48 | The bucket check is recorded and returns its fixed outcome. |
| `Aps.Gateway.ListObjects` | services/aps.js:52-63 | The bucket check runs first, and its failure is returned. Otherwise the result is the full paginated listing. |
| `Aps.Gateway.UploadObject` | services/aps.js:66-71 | The bucket check runs first. If it succeeds, the upload is recorded and its outcome is returned. |
| `Aps.Gateway.TranslateObject` | services/aps.js:74-90 | The translation request is recorded with its URN and root file name, and returns its fixed outcome. |
| `Models.ToModelRecords` | routes/models.js:13-16 | The list has the same length and order as the objects. Each entry's `name` is the object's `objectKey` and its `urn` is `urnify(objectId)`. |
| `Models.DistinctIdsDistinctUrns` | routes/models.js:13-16 | Objects with distinct ids are listed under distinct URNs. |
| `Models.ListedUrnDecodes` | routes/models.js:15 | Re-padded and decoded, each listed URN gives back the UTF-8 bytes of its object's id. |
| `Models.ListModels` | routes/models.js:10-20 | The list route responds with the mapped listing. A failure of the bucket check or of a page request goes to `next`. |
| `Models.TopLevelMessages` | routes/models.js:29-37 | The messages of each top-level derivative in order, with a missing list read as empty. Children are not consulted, since the concatenation at line 35 is discarded. |
| `Models.TopLevelMessagesAppend` | routes/models.js:29-32 | The collected messages concatenate over the derivatives, in order. |
| `Models.TopLevelMessagesMembership` | routes/models.js:29-32 | A message is reported exactly when some top-level derivative lists it. A missing message list counts as empty. |
| `Models.ChildrenIgnored` | routes/models.js:33-37 | Derivatives that agree on their own messages give the same report, whatever their children are. |
| `Models.ChildOnlyMessageDropped` | routes/models.js:33-37 | For any list of derivatives, a message that no top-level derivative lists does not appear in the report, whatever the children list. |
| `Models.BuildStatusReport` | routes/models.js:28-43 | A missing manifest gives exactly `{status: 'n/a'}`. Otherwise `status` and `progress` are copied unchanged, and `messages` are the top-level messages in order. |
| `Models.ModelStatus` | routes/models.js:25-47 | A failed lookup goes to `next`. Otherwise the route responds with the status report of the manifest, or with `n/a` when there is none. |
| `Models.UploadModel` | routes/models.js:51-67 | Without `model-file` the response is 400 and nothing is called. Otherwise the upload comes before the translation. The translation receives `urnify(objectId)` and the `model-zip-entrypoint` field. The response's `urn` is the URN passed to the translation. Any failure goes to `next`. |

## Left out

- Token issuance (`getInternalToken`, `getViewerToken`, routes/auth.js) is left out. It is credential plumbing over the SDK and has no logic of its own.
- Server setup, static files (server.js), environment loading (config.js), viewer set-up (wwwroot/js/viewer.js) and page wiring (wwwroot/main.js) are left out. They are I/O and foreign-library calls.
- The bodies of `ensureBucketExists`, `uploadObject` and `translateObject` are left out. Each becomes an abstract gateway operation with a fixed outcome. The translation job's output settings (SVF2 format, 2D and 3D views, `compressedUrn`) are not modelled.
- Aps.Gateway.EnsureBucketExists: it returns the same outcome on every call. The real bucket check can fail once and then succeed after the bucket has been created.
- Aps.ManifestOutcome: a failure with no HTTP response is passed on unchanged. In the source, reading `err.axiosError.response.status` would throw a TypeError in its place.
- Aps.FetchAllPages: it requires the listing to end within a ghost number of pages. A listing whose `next` links never end would make the source loop forever.
- Aps.Gateway.ListObjects and Models.ListModels carry the same bounded-listing requirement, for the same reason. It applies only when the bucket check succeeds. When the check fails, no page is requested and the bucket error is returned whatever the pager does.
- Reading `startAt` from the `next` URL (services/aps.js:58) is left out. `next` is used directly as the cursor.
- Search.SearchBox.OnInput and Search.SearchBox.OnKeyPress run each search to completion inside the handler. In the source, search.js:35 and search.js:41 call `searchModel` without `await`. In live mode every keystroke therefore starts a search that overlaps the earlier ones, and the search that finishes last sets the visibility. That interleaving is not modelled.
- Promises, `await` and the viewer's `getProperties` callback are left out. Property lookup is a synchronous function. Within one search the lookups happen in turn, as in the source. The instance tree is read at search.js:69 and again at search.js:115. The model reads it once, as a constant of the viewer.
- Case mapping outside ASCII and `toString()` of non-string property values are left out. Property values are strings, and `toLowerCase` changes only `A-Z`.
- In the viewer, hiding a parent node also hides its children. That hierarchy is left out. `hide` and `show` act on a set of ids.
- JavaScript strings can contain lone surrogates. `Buffer.from` replaces each of these with U+FFFD, so `urnify` is not injective on them. Here ids are strings of Unicode scalar values.
- Express's `next(err)` error handler, `formidable`'s form parsing and the console logging are left out. A handler returns the response it sends or the error it passes on, and the parsed files and fields are maps.
