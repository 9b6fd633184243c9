# Roast-my-playlist pipeline, modelled in Dafny

This project models the deterministic logic of a small web application. The
application reads a listener's top artists and tracks, or the tracks of a
pasted playlist, from a music-streaming API. It sends the item names to a
language model, which "roasts" them, and shows the replies as cards. Two
pieces of logic are modelled as pure functions, with every network outcome
passed in as a value or as a function of what is sent:

- the page's `handleRoast` (`src/app/page.tsx`): the top-items status
  check, item shaping, playlist-id extraction, the names list, the check that
  the reply has `roasts`, and the merge of roasts back onto items;
- the roast endpoint's `POST` (`src/app/api/roast/route.ts`): the default for
  `names`, the prompt, the single fallback from the primary to the secondary
  provider, the empty-text check, code-fence stripping, parse-or-canned-payload,
  and the 500 error payload.

Modules, one per concept:

| file | module | contents |
|---|---|---|
| `wrappers.dfy` | `Wrappers` | `Option` |
| `http.dfy` | `Http` | `Response.ok`, status constants |
| `text.dfy` | `Text` | `includes`, `join`, global literal `replace`, `trim` |
| `fences.dfy` | `Fences` | code-fence stripping and its properties |
| `playlist_url.dfy` | `PlaylistUrl` | the playlist-id regular expression |
| `items.dfy` | `Items` | API entities, item shaping, the names list |
| `roast_data.dfy` | `RoastData` | the model's structured reply |
| `merge.dfy` | `Merge` | the fuzzy merge (`Reconcile`) |
| `handle_roast.dfy` | `HandleRoast` | the page's whole `handleRoast` |
| `roast_route.dfy` | `RoastRoute` | the endpoint's whole `POST` |
| `pipeline.dfy` | `Pipeline` | the page's names list as the endpoint's input |

Behaviour of the code worth knowing:

- Fences are removed everywhere in the text, not only around it: every
  "```json" is removed first, then every "```".
- Text that is non-empty but only whitespace is not an error. It is cleaned to
  "" and then fails to parse, so the canned payload is returned with status 200.
- The score is passed through as the reply carries it; nothing enforces the
  range 0-100, and it may be fractional (it is a `real` here).
- A 401 on the playlist request is a generic failure. Only the top-items
  requests lead to the session-expired alert.
- A roast with an empty name is contained in every item name, so it takes the
  first item's image.

## Model

| member | source | states |
|---|---|---|
| `Text.Includes` | src/app/page.tsx:339 | the empty pattern is always found, and a found pattern is no longer than the string |
| `Text.IncludesIsInfix` | src/app/page.tsx:339 | the left-to-right `includes` scan answers true exactly when the pattern occurs somewhere in the string |
| `Text.InfixTransitive` | src/app/page.tsx:339 | a substring of a substring is a substring |
| `Text.Join` | src/app/page.tsx:319 | joining nothing gives "" and one element gives that element; a non-empty join starts with the first element and ends with the last |
| `Text.JoinAppend` | src/app/page.tsx:319 | joining a concatenation is joining the parts with one separator between them, which with the one-element case determines `join` |
| `Text.JoinContainsEach` | src/app/page.tsx:319 | every joined element occurs verbatim in the joined string |
| `Text.RemoveAll` | src/app/api/roast/route.ts:195-196 | a global replace by "" never lengthens the text |
| `Text.RemoveAllDropsLeading` | src/app/api/roast/route.ts:195-196 | an occurrence at the head is removed and the scan carries on after it |
| `Text.RemoveAllKeepsPrefix` | src/app/api/roast/route.ts:195-196 | a prefix in which no occurrence starts is kept verbatim; with the previous law this determines the single leftmost-first pass on every input |
| `Text.RemoveAllAbsent` | src/app/api/roast/route.ts:195-196 | a global replace of a pattern that does not occur leaves the text unchanged |
| `Text.IsWhitespace` | src/app/api/roast/route.ts:197 | space, tab, newline and carriage return are whitespace; backticks and the JSON delimiters `{ } [ ] "` never are, so trimming cannot eat them |
| `Text.TrimStart` | src/app/api/roast/route.ts:197 | the result is the suffix that starts at the first non-whitespace character; everything dropped is whitespace |
| `Text.TrimEnd` | src/app/api/roast/route.ts:197 | the result is the prefix that ends at the last non-whitespace character; everything dropped is whitespace |
| `Text.Trim` | src/app/api/roast/route.ts:197 | the trimmed text neither starts nor ends with whitespace |
| `Text.TrimIsSlice` | src/app/api/roast/route.ts:197 | the trimmed text is a contiguous slice of the input with only whitespace before and after it |
| `Text.TrimKeepsAbsence` | src/app/api/roast/route.ts:197 | trimming cannot create an occurrence of a pattern |
| `Text.TrimIdempotent` | src/app/api/roast/route.ts:197 | trimming twice is trimming once |
| `Fences.StripFences` | src/app/api/roast/route.ts:194-197 | the cleaned text contains no "```" and has no leading or trailing whitespace |
| `Fences.NoFenceAfterRemoval` | src/app/api/roast/route.ts:196 | after every "```" is removed, no new "```" has been spliced together from the remaining pieces |
| `Fences.CleanTextIsFixed` | src/app/api/roast/route.ts:194-197 | text with no "```" and no surrounding whitespace is left unchanged by the clean-up |
| `Fences.StripFencesIdempotent` | src/app/api/roast/route.ts:194-197 | cleaning already-cleaned text changes nothing |
| `Fences.JsonFenceRemovalIsSinglePass` | src/app/api/roast/route.ts:195 | the removal is one pass: "```j```jsonson" becomes "```json", which is left in place |
| `Fences.StripFencedBlock` | src/app/api/roast/route.ts:194-197 | a reply wrapped in "```json" ... "```" is cleaned to its trimmed body when the body holds no backtick |
| `Fences.StripBlankText` | src/app/api/roast/route.ts:194-197 | text made only of whitespace is cleaned to "" |
| `PlaylistUrl.FirstMatchFrom` | src/app/page.tsx:296 | returns the leftmost index at or after the start where "playlist/" is followed by an alphanumeric, or None when there is no such index |
| `PlaylistUrl.AlnumPrefix` | src/app/page.tsx:296 | the greedy group: the longest alphanumeric prefix, with the next character (if any) not alphanumeric |
| `PlaylistUrl.ExtractPlaylistId` | src/app/page.tsx:296-302 | no id exactly when no "playlist/" is followed by an alphanumeric; an id is non-empty, alphanumeric, and is the maximal run right after the leftmost such "playlist/" |
| `PlaylistUrl.ExtractPlaylistIdUnique` | src/app/page.tsx:296-302 | conversely, any leftmost match with a maximal run after it is exactly the extracted id |
| `PlaylistUrl.MaximalRunIsAlnumPrefix` | src/app/page.tsx:296 | a maximal alphanumeric prefix is unique |
| `Items.FirstImageUrl` | src/app/page.tsx:285 | the image is the first image's URL when there is one, and "" otherwise |
| `Items.AlbumImageUrl` | src/app/page.tsx:289 | when the album's first image has a URL, that URL is the image, and a non-empty image always comes from there; no album gives "" |
| `Items.ArtistItem` | src/app/page.tsx:283-286 | an artist item keeps the artist's name; its image is the URL of the artist's first image whenever there is one, and a non-empty image always comes from there |
| `Items.TrackItem` | src/app/page.tsx:287-290 | a track item keeps the track's name; its image is the URL of its album's first image whenever there is one, and a non-empty image always comes from there |
| `Items.ItemImageMissing` | src/app/page.tsx:285-289 | an artist or track item has no image exactly when there is no non-empty first-image URL to take |
| `Items.PlaylistImageLikeTrackImage` | src/app/page.tsx:312-315 | a playlist item's image is the one user mode (line 289) gives a track with the same album |
| `Items.UserItems` | src/app/page.tsx:283-291 | user-mode items are all artist items, then all track items, each in API order |
| `Items.PlaylistItem` | src/app/page.tsx:312-315 | a playlist item exists exactly when the track is present and lists an artist; its name is the track name, " by ", and the first artist's name, and its image is the album's first image |
| `Items.PlaylistItems` | src/app/page.tsx:312-315 | one item per entry in API order, or a failure when any entry cannot be shaped |
| `Items.Names` | src/app/page.tsx:319 | one name per item, in item order |
| `Items.NamesList` | src/app/page.tsx:319 | no items give ""; otherwise the list starts with the first item's name |
| `Items.NamesListSmall` | src/app/page.tsx:319 | no items give "", one item gives its name |
| `Items.NamesListAppend` | src/app/page.tsx:319 | the names list of two item lists is their names lists joined by ", " |
| `Items.NamesListContainsEach` | src/app/page.tsx:319 | every item name occurs verbatim in the names list |
| `Merge.NamesMatch` | src/app/page.tsx:339 | the match holds exactly when either name is a substring of the other |
| `Merge.FindFrom` | src/app/page.tsx:339 | returns the first related item at or after the start, or None when no item from there on is related |
| `Merge.FirstMatch` | src/app/page.tsx:339 | returns the first related item in item order; None exactly when no item is related |
| `Merge.ImageFor` | src/app/page.tsx:339-343 | the image is exactly that of the first related item (even when it is ""), and "" when no item is related |
| `Merge.Reconcile` | src/app/page.tsx:337-345 | one card per roast in roast order, with the roast's name and text copied and the image looked up by name |
| `Merge.FirstRelatedItemDecides` | src/app/page.tsx:339-343 | the image is that of the first related item, even when it is "" and a later related item has one |
| `Merge.ReconcileAppend` | src/app/page.tsx:337-345 | merging a concatenation of roast lists merges each part |
| `Merge.EmptyRoastNameTakesFirstItem` | src/app/page.tsx:339 | a roast with an empty name takes the first item's image |
| `Merge.PlaylistItemRelatedToParts` | src/app/page.tsx:339 | a playlist item matches a roast named only after its track, or only after its first artist |
| `Merge.ExampleSubstringMatch` | src/app/page.tsx:339-343 | "Blinding Lights" picks up the image of "Blinding Lights by The Weeknd" |
| `Merge.ExampleFirstMatchWithoutImage` | src/app/page.tsx:339-343 | the search stops at a first match with no image |
| `HandleRoast.ClassifyTopItems` | src/app/page.tsx:271-278 | proceed exactly when both replies are ok; session expired exactly when either status is 401; otherwise a failure |
| `HandleRoast.CollectItems` | src/app/page.tsx:263-316 | user mode always issues both top-items requests and gathers the user items only when both are ok; a URL without an id halts with no request; a playlist is gathered only from an ok reply whose entries can all be shaped |
| `HandleRoast.HandleRoast` | src/app/page.tsx:253-356 | without a session nothing is requested; the roast request carries the names list of the gathered items; cards are shown exactly for an ok reply with `roasts`, and are those roasts merged with the items; every other outcome is the generic failure |
| `HandleRoast.InvalidUrlIssuesNoRequest` | src/app/page.tsx:296-301 | the invalid-URL alert happens exactly for a signed-in playlist run whose URL has no match, and then no request is issued |
| `HandleRoast.SessionExpiredOnlyFromTopItems` | src/app/page.tsx:271-278 | the session-expired alert happens exactly for a signed-in user-mode run with a 401 on a top-items reply |
| `HandleRoast.GatheringSendsNoRoast` | src/app/page.tsx:263-316 | gathering the items never calls the roast endpoint |
| `HandleRoast.RunRequestsExtendGathering` | src/app/page.tsx:319-325 | a run's requests are the gathering requests, plus one roast request exactly when a signed-in run gathered its items |
| `HandleRoast.RoastRequestCarriesNames` | src/app/page.tsx:319-325 | a roast request is issued only after items were gathered, is the last request, and carries their names list |
| `RoastRoute.NamesOrDefault` | src/app/api/roast/route.ts:12 | the names are never empty: a missing or empty value becomes "Unknown Music", any other value is kept |
| `RoastRoute.Prompt` | src/app/api/roast/route.ts:15-36 | the prompt is the fixed head, then the names verbatim, then the fixed tail |
| `RoastRoute.HasKey` | src/app/api/roast/route.ts:155 | an unset or empty key counts as missing; any other key is present |
| `RoastRoute.Generate` | src/app/api/roast/route.ts:135-186 | the primary is always asked first; a primary answer is used as-is; the secondary is asked, with the same prompt, exactly when the primary failed and a key is set; after a primary failure, an ok secondary reply with a JSON body produces its content (or "" when it has none), and text is produced only that way, so never without a key |
| `RoastRoute.Finish` | src/app/api/roast/route.ts:188-212 | status 500 exactly for empty text; otherwise 200 with the parsed cleaned text as-is, or the canned payload when it does not parse |
| `RoastRoute.Post` | src/app/api/roast/route.ts:7-223 | an unreadable body gives the 500 error with no provider call; otherwise the calls are those of the generation for the defaulted names, and the response is the error or the finished text |
| `RoastRoute.PostSendsOnePrompt` | src/app/api/roast/route.ts:146-171 | every provider call carries the one prompt built from the request's names, and those names occur in it |
| `RoastRoute.SecondaryOnlyAfterPrimaryFails` | src/app/api/roast/route.ts:138-157 | the secondary is called exactly when the primary failed and a key is set; a primary answer is finished as it is |
| `RoastRoute.ErrorStatusIff` | src/app/api/roast/route.ts:213-222 | status 500 exactly when the body is unreadable, no provider produced text, or the text is empty; a 500 always carries the fixed message; any other status is 200 |
| `RoastRoute.FallbackFailureIsError` | src/app/api/roast/route.ts:155-182 | after a primary failure, a missing key or a non-ok secondary reply gives the 500 error |
| `RoastRoute.SecondaryTextIsFinished` | src/app/api/roast/route.ts:177-212 | after a primary failure, with a key, an ok secondary reply carrying content has that content cleaned and parsed exactly as a primary answer would be |
| `RoastRoute.MissingContentIsError` | src/app/api/roast/route.ts:177-191 | an ok secondary reply whose content is missing, null or empty gives status 500 |
| `RoastRoute.ParseFailurePayloadShape` | src/app/api/roast/route.ts:204-209 | the canned payload has score 69 and exactly one roast, named "Error" |
| `RoastRoute.BlankOutputGetsCannedPayload` | src/app/api/roast/route.ts:189-209 | whitespace-only output is not an error; given that JSON parsing rejects "", it yields the canned payload with status 200 |
| `RoastRoute.FencedOutputIsParsed` | src/app/api/roast/route.ts:194-212 | output wrapped in a "```json" block is not an error and is parsed from its trimmed body; the canned payload is used only when that body does not parse |
| `Pipeline.ItemNamesReachPrompt` | src/app/api/roast/route.ts:12-36 | every item name in the names list the page posts occurs verbatim in the prompt the endpoint builds, default included |

## Left out

- The session token lifecycle (sign-in, expiry, refresh) lives in the
  authentication route and the session library. It is not part of this model.
- Rendering, themes, skeletons, the tilt-card rotation, reveal toggling and the
  parallax effect are presentation only.
- The network, `Promise.all`, the language-model SDK and the secondary HTTP
  call are inputs. The two top-items fetches run concurrently, but both replies
  are needed, so their order does not matter. Request URLs, page-size limits,
  headers and model names are not modelled; a request is recorded by its kind
  and payload only.
- `JSON.parse` is an input function from text to an optional value. No JSON
  parser is modelled, and JSON shapes are taken as already read into datatypes.
- The top-items and playlist replies are assumed to carry an `items` array
  with string names. The `TypeError` raised by a reply without `items`, or by a
  reply whose `json()` fails, is not modelled; both would end in the generic
  failure.
- On the page, a `roasts` value that is truthy but not an array, non-string
  roast names, and scores that are not numbers (missing, strings, objects)
  are not modelled; a numeric score, integral or not, is a `real`.
- At the endpoint, a truthy `names` value that is not a string is not modelled.
  `names` is either absent or a string.
- `alert`, `console` output and the loading, score and card state updates
  become outcome tags. The `finally` block always clears the loading flag after
  a session check, so the flag carries no information and is omitted.
- Characters are Unicode scalar values, while JavaScript strings are UTF-16
  code units. The fence patterns are ASCII. `includes` on item and roast
  names takes arbitrary patterns. On well-formed strings, containment by
  code units and containment by code points agree, because UTF-16 is
  self-synchronising: a surrogate pair is never split by a match of a
  well-formed pattern. Lone surrogates, which JSON text can carry in
  `\uD800`-style escapes, cannot be represented here.
- The wording of the prompt is a parameter. Only the fact that the names are
  embedded verbatim is modelled.
