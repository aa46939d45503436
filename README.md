# Notion to D3: a verified model of the converter component

The component `NotionToD3Converter` reads two Notion databases through a
proxy: one of circles, one of roles. It builds a three-level tree from them:
the root "Organização", one node per circle, and under each circle the roles
that name it. It then draws the tree as nested circles. Roles matching a live
search are filled with a highlight colour. Hovering a node shows a tooltip
whose responsibilities are a bullet list. Clicking a role opens its Notion
page.

This project models the decisions in that component and proves their
properties:

- Hierarchy: the records, the normalisation of circle identifiers
  (`parseInt`, NaN matches nothing), and the tree.
- Highlight: `matchesSearch` and the depth-keyed fill rule.
- Tooltip: `formatResponsibilities`.
- DeepLink: the address a role click opens.
- SubmitFlow: the form's state slots, local storage and the two sequential
  fetches. The class `NotionForm` has a field per state slot; the outcome of
  each proxy call is a parameter.
- `JsString` and `JsNumber`: the JavaScript built-ins the component relies on
  (`toLowerCase` on ASCII, `includes`, `trim`, `split`/`join`,
  `replace(/-/g, '')`, and `parseInt` as ECMAScript defines it).

The model follows the code where it departs from what the component itself
says to its user, in its help text (line 444) and in the message its catch
block sets (lines 374-376):

- The client itself refuses an empty credential (line 343). The proxy's
  fallback to the environment credential is therefore never reached from this
  form, although the help text on line 444 calls the field optional.
- A failed fetch does not leave the previous drawing untouched. On a second
  submit, if the roles fetch succeeds and the circles fetch fails, the new
  roles are drawn under the old circles. The form collapses again when the
  roles arrive (lines 63-67), and the alert holding the failure message sits
  inside the collapsed form (lines 411 and 486-492), so that message is hidden
  as well (`SubmitFlow.MixedTreeOnResubmit`).
- The message of a failed roles fetch is cleared by the circles fetch (see
  Findings).

Most rows of the table below name lemmas. This list says which function
defines each piece of the source that those lemmas are about:

- `Hierarchy.Normalize`: the `typeof`/`parseInt` normalisation of a circle id
  (lines 114-115). `Hierarchy.SameCircle` is the `===` comparison of two
  normalised ids (line 116).
- `Hierarchy.RolesUnder`: the `filter` and `map` that place roles under one
  circle (lines 112-126). `Hierarchy.BuildTree` is the `hierarchy`
  literal (lines 105-128).
- `JsNumber.ParseInt`: JavaScript's `parseInt` with no radix.
- `Highlight.MatchesSearch`: `matchesSearch` (lines 70-86).
- `Highlight.SearchFill`: the fill rule for one node (lines 181-186 and
  512-517). `Highlight.Restyle` applies it to every drawn node for the
  search box (lines 511-517).
- `Tooltip.FormatResponsibilities`: `formatResponsibilities` (lines 210-214).
- `DeepLink.RoleLink`: the address a role click opens (lines 311-315).
- `SubmitFlow.NotionForm`: the form's methods, one per handler (lines
  32-67 and 342-393).

## Model

| member | source | states |
|---|---|---|
| `Hierarchy.BuildTree` | components/NotionToD3Converter.tsx:105-128 | the root is named "Organização"; it has exactly one child per circle record, in input order; each child carries that record's name, id, purpose and responsibilities, and the roles placed under it |
| `Hierarchy.RolesUnderMembers` | components/NotionToD3Converter.tsx:112-126 | about `Hierarchy.RolesUnder`: a node is under a circle if and only if it is built from some role whose normalised circle id is a number equal to the circle's |
| `Hierarchy.RolesUnderAppend` | components/NotionToD3Converter.tsx:112-126 | about `Hierarchy.RolesUnder`: roles keep their input order: the roles placed from `a + b` are those placed from `a`, then those from `b` |
| `Hierarchy.RolesUnderSingle` | components/NotionToD3Converter.tsx:112-126 | about `Hierarchy.RolesUnder`: a single record yields its node exactly when its id matches, and nothing otherwise |
| `Hierarchy.UnmatchedRoleNotUnder` | components/NotionToD3Converter.tsx:112-117 | removing a role that does not match a circle leaves that circle's children unchanged |
| `Hierarchy.OrphanDropped` | components/NotionToD3Converter.tsx:112-117 | a role matching no circle, or whose id does not parse, appears nowhere: leaving it out of the input gives the same tree |
| `Hierarchy.RoleUnderEveryMatchingCircle` | components/NotionToD3Converter.tsx:107-117 | a role is repeated under every circle whose normalised id equals its own |
| `Hierarchy.RoleNodesCopyRecords` | components/NotionToD3Converter.tsx:118-126 | every role node has value 1 and copies name, id, purpose, responsibilities, assigned people and page id from a record that names its circle |
| `Hierarchy.NaNMatchesNothing` | components/NotionToD3Converter.tsx:114-116 | about `Hierarchy.SameCircle`: an id that parses to NaN equals no id, itself included |
| `Hierarchy.NumberMatchesItsText` | components/NotionToD3Converter.tsx:114-116 | about `Hierarchy.Normalize` and `Hierarchy.SameCircle`: a numeric circle id and its decimal text are the same circle |
| `Hierarchy.ExampleCoreLeadOrphan` | components/NotionToD3Converter.tsx:105-128 | circle "Core" (id "1"), role "Lead" (circle "1") and role "Orphan" (circle "9") give one circle holding only Lead |
| `Hierarchy.ParsesTo` | components/NotionToD3Converter.tsx:115 | about `Hierarchy.Normalize`: a string id that is the decimal text of `n` normalises to `n` |
| `JsNumber.ParseIntDecimal` | components/NotionToD3Converter.tsx:114-115 | about `JsNumber.ParseInt`: `parseInt` reads back the decimal text of any integer, followed by anything that cannot continue the number |
| `JsNumber.ParseSignedDecimal` | components/NotionToD3Converter.tsx:114-115 | the sign step `JsNumber.ParseSigned` reads back the decimal rendering of `n`, negative or not |
| `JsNumber.ParseIntAfterSpace` | components/NotionToD3Converter.tsx:114-115 | `JsNumber.ParseInt` skips any run of leading white space: white space, then the decimal text of `n`, then a tail that cannot continue it, reads as `n` |
| `JsNumber.ParseIntHex` | components/NotionToD3Converter.tsx:114-115 | three examples of a `0x`/`0X` prefix read in radix 16 up to the first non-digit: "0x1a" is 26, "-0XfF" is -255, and " 0x10g" is 16 |
| `JsNumber.HexDigitTable` | components/NotionToD3Converter.tsx:114-115 | in radix 16, the `k`-th character of "0123456789abcdef", and of "0123456789ABCDEF", has the value `k`, so letters of either case stand for 10 to 15 |
| `JsNumber.ParseIntPlus` | components/NotionToD3Converter.tsx:114-115 | a leading `+` is read and dropped: `+`, then the decimal text of `m`, then a tail that cannot continue the number, reads as `m` |
| `JsNumber.HexPair` | components/NotionToD3Converter.tsx:114-115 | after a hex prefix, two hex digits followed by a non-digit read as the first digit's value times 16 plus the second's |
| `JsString.TrimStartSkipsSpace` | components/NotionToD3Converter.tsx:114-115 | `trimStart` removes exactly a run of white space that ends before a character that is not white space |
| `JsNumber.ParseUnsignedDigits` | components/NotionToD3Converter.tsx:114-115 | without a sign, the decimal digits of `m` followed by such a tail read as `m` |
| `JsNumber.ParseIntNoDigit` | components/NotionToD3Converter.tsx:114-115 | about `JsNumber.ParseInt`: a string without any decimal digit parses to NaN |
| `JsNumber.ParseUnsignedNoDigit` | components/NotionToD3Converter.tsx:114-115 | without a leading decimal digit there is neither a hex prefix nor a digit, so the result is NaN |
| `JsNumber.DigitPrefixLength` | components/NotionToD3Converter.tsx:114-115 | the digit prefix `parseInt` reads is the longest one: every character in it is a digit of the radix and the next is not |
| `JsNumber.DigitsValueOfDigits` | components/NotionToD3Converter.tsx:114-115 | the value of the decimal digits of `n` is `n` |
| `JsNumber.DigitPrefixOfDigits` | components/NotionToD3Converter.tsx:114-115 | the digit prefix of a digit string followed by a non-digit is the whole digit string |
| `JsNumber.NoLeadingSpace` | components/NotionToD3Converter.tsx:114-115 | a string starting with `-`, `+` or a digit has no leading white space to skip |
| `JsNumber.Digits` | components/NotionToD3Converter.tsx:114-115 | the decimal text of a number is non-empty, all digits, and starts with `0` only for zero |
| `JsNumber.DigitValue` | components/NotionToD3Converter.tsx:114-115 | a character read as a digit of a radix has a value below that radix |
| `Highlight.MatchesSearchMeaning` | components/NotionToD3Converter.tsx:70-86 | about `Highlight.MatchesSearch`: the empty term matches nothing; any other term matches if and only if, ignoring ASCII case, it occurs in the name, the purpose, the responsibilities, or some assigned person's title; absent fields never match |
| `Highlight.FieldMeaning` | components/NotionToD3Converter.tsx:76-78 | a field matches if and only if it is present and the lower-cased term occurs in the lower-cased field |
| `Highlight.MatchesSearchIgnoresCase` | components/NotionToD3Converter.tsx:72-82 | about `Highlight.MatchesSearch`: two terms equal after lower-casing match the same roles |
| `Highlight.CaseVariantsMatchAlike` | components/NotionToD3Converter.tsx:72-82 | about `Highlight.MatchesSearch`: two terms of the same length whose characters agree pairwise up to ASCII case match the same roles |
| `Highlight.NameFindsItsRole` | components/NotionToD3Converter.tsx:76 | about `Highlight.MatchesSearch`: searching for a role's own non-empty name, in any case, matches it |
| `Highlight.SearchFillByDepth` | components/NotionToD3Converter.tsx:181-186 | about `Highlight.SearchFill`: depth 0 and depth 1 get their fixed colours whatever the term; a node is highlight-coloured if and only if it is a role that matches; a role that does not match gets the standard role colour |
| `Highlight.Restyle` | components/NotionToD3Converter.tsx:511-517 | the search box gives every drawn node a fill; a node gets the highlight colour if and only if it is a role matching the term; the root and the circles keep the colours of the first drawing; a role that does not match the term gets the standard role colour `#f3f4f6` |
| `Highlight.FillsDistinct` | components/NotionToD3Converter.tsx:181-186 | the highlight colour is none of the root, circle and role colours, so a highlighted node can be told apart |
| `Highlight.EmptyTermRestoresInitial` | components/NotionToD3Converter.tsx:156-186 | the empty term gives every node the colour of the first drawing, so every role gets the standard colour |
| `Highlight.RestyleForgetsHistory` | components/NotionToD3Converter.tsx:179-186 | the colours after a term depend on that term alone, so the same term applied twice gives the same colours as once |
| `Tooltip.FormatIsBulletList` | components/NotionToD3Converter.tsx:210-214 | about `Tooltip.FormatResponsibilities`: the formatter's output is one `<li>` per item of the text, in order, where the items are the `-`-separated pieces, trimmed, with blank pieces dropped |
| `Tooltip.ListItemsRender` | components/NotionToD3Converter.tsx:212-214 | filtering out blank pieces and then wrapping each trimmed piece gives the markup of the trimmed non-blank pieces |
| `Tooltip.EmptyTextHasNoItems` | components/NotionToD3Converter.tsx:211-214 | about `Tooltip.FormatResponsibilities`: the empty text formats to "", and the early return on it changes nothing |
| `Tooltip.BulletsAreClean` | components/NotionToD3Converter.tsx:212-213 | every item is non-empty, already trimmed and free of `-` |
| `Tooltip.ItemsAreClean` | components/NotionToD3Converter.tsx:212-213 | trimming pieces that hold no `-` gives items that are non-empty, trimmed and hold no `-` |
| `Tooltip.PieceIsClean` | components/NotionToD3Converter.tsx:212-213 | the trim of a non-blank piece without `-` is non-empty, trimmed and without `-` |
| `Tooltip.BulletsAround` | components/NotionToD3Converter.tsx:212-214 | the items of `a-b` are the items of `a` followed by the items of `b` |
| `Tooltip.ItemsAppend` | components/NotionToD3Converter.tsx:212-214 | the items of two sequences of pieces are the items of each, in order |
| `Tooltip.BulletsOfOnePiece` | components/NotionToD3Converter.tsx:212-213 | a text without `-` is one item, its trim, unless it is blank |
| `Tooltip.NonBlank` | components/NotionToD3Converter.tsx:212 | the filter keeps at most as many pieces as it is given |
| `DeepLink.RoleLinkShape` | components/NotionToD3Converter.tsx:311-315 | about `DeepLink.RoleLink`: a page is opened if and only if the page id is non-empty; the address is "https://www.notion.so/" followed by the page id with every `-` removed, which holds no `-`; its length is the base plus the page id's other characters |
| `DeepLink.RoleLinkKeepsGroups` | components/NotionToD3Converter.tsx:313 | about `DeepLink.RoleLink`: the dash-separated groups of a page id appear in the address in their order |
| `JsString.IncludesIsSubstring` | components/NotionToD3Converter.tsx:76-82 | `includes` holds if and only if the needle occurs at some offset of the string |
| `JsString.IncludesSelf` | components/NotionToD3Converter.tsx:76 | every string includes itself |
| `JsString.LowerSame` | components/NotionToD3Converter.tsx:72 | two strings lower-case to the same string if and only if they have the same length and agree character by character up to ASCII case, against an independent definition of case-insensitive equality |
| `JsString.LowerCharSame` | components/NotionToD3Converter.tsx:72 | two characters lower-case to the same character if and only if they are equal or the upper- and lower-case forms of one ASCII letter |
| `JsString.LowerChar` | components/NotionToD3Converter.tsx:72 | an upper-case ASCII letter becomes the lower-case letter at the same place in the alphabet; the result is never upper-case; any other character is kept |
| `JsString.LowerIdempotent` | components/NotionToD3Converter.tsx:72-82 | lower-casing twice is the same as lower-casing once |
| `JsString.TrimStartCutsSpace` | components/NotionToD3Converter.tsx:212-213 | the result is a suffix of the input, what was cut is all white space, and the result does not start with white space |
| `JsString.TrimEndCutsSpace` | components/NotionToD3Converter.tsx:212-213 | the result is a prefix of the input, what was cut is all white space, and the result does not end with white space |
| `JsString.TrimCutsSpace` | components/NotionToD3Converter.tsx:212-213 | `trim` returns a slice of the input with only white space cut from both ends, and the result neither starts nor ends with white space |
| `JsString.TrimIdempotent` | components/NotionToD3Converter.tsx:212-213 | trimming twice is the same as trimming once |
| `JsString.TrimKeepsCharacters` | components/NotionToD3Converter.tsx:212-213 | a trimmed string has only characters of the original |
| `JsString.TrimAllSpace` | components/NotionToD3Converter.tsx:212 | a string of white space only trims to the empty string |
| `JsString.TrimStartAllSpace` | components/NotionToD3Converter.tsx:212 | a string of white space only loses every character at the start |
| `JsString.Split` | components/NotionToD3Converter.tsx:212 | `split` returns at least one piece |
| `JsString.SplitPiecesFree` | components/NotionToD3Converter.tsx:212 | no piece of a split holds the separator |
| `JsString.SplitSep` | components/NotionToD3Converter.tsx:212 | a leading separator gives an empty first piece before the pieces of the rest |
| `JsString.SplitCons` | components/NotionToD3Converter.tsx:212 | a leading character other than the separator begins the first piece of the rest |
| `JsString.JoinSplit` | components/NotionToD3Converter.tsx:212 | joining the pieces of a split with the separator gives back the text |
| `JsString.SplitJoin` | components/NotionToD3Converter.tsx:212 | splitting a join of separator-free pieces gives back the pieces |
| `JsString.SplitAround` | components/NotionToD3Converter.tsx:212 | the pieces of `a + sep + b` are the pieces of `a`, then the pieces of `b` |
| `JsString.SplitWithoutSeparator` | components/NotionToD3Converter.tsx:212 | a text without the separator splits into itself alone |
| `JsString.RemoveAll` | components/NotionToD3Converter.tsx:313 | the result holds no `-`, is no longer than the input, and has only characters from it |
| `JsString.RemoveAllAppend` | components/NotionToD3Converter.tsx:313 | removing commutes with concatenation, so the kept characters stay in order |
| `JsString.RemoveAllLength` | components/NotionToD3Converter.tsx:313 | exactly the occurrences of `-` are dropped |
| `JsString.RemoveAllAbsent` | components/NotionToD3Converter.tsx:313 | a string without `-` is left as it is |
| `SubmitFlow.PersistThenRestore` | components/NotionToD3Converter.tsx:387-389 | after the three writes, reopening the page restores both database ids, and restores the credential unless it was empty; no other storage entry changes |
| `SubmitFlow.SubmitError` | components/NotionToD3Converter.tsx:343-379 | after a submit with both ids given, a message is left only for an empty credential or a failed circles fetch |
| `SubmitFlow.RolesFailureMessageLost` | components/NotionToD3Converter.tsx:349 | as written, a failed roles fetch followed by a successful circles fetch leaves no message |
| `SubmitFlow.IntendedSubmitError` | components/NotionToD3Converter.tsx:374-376 | a message is left if and only if the credential is empty or some fetch failed |
| `SubmitFlow.SubmitErrorDiffersOnlyThere` | components/NotionToD3Converter.tsx:382-393 | the written and the intended messages differ exactly when only the roles fetch failed |
| `SubmitFlow.NotionForm.constructor` | components/NotionToD3Converter.tsx:32-41 | every state slot starts empty, not loading, with no message and the form shown |
| `SubmitFlow.NotionForm.Restore` | components/NotionToD3Converter.tsx:44-51 | each of the three fields takes its stored value when that value is present and non-empty; nothing else changes |
| `SubmitFlow.NotionForm.Edit` | components/NotionToD3Converter.tsx:430-467 | typing sets the three input fields and nothing else |
| `SubmitFlow.NotionForm.ToggleForm` | components/NotionToD3Converter.tsx:400-407 | the button flips the collapsed flag and nothing else |
| `SubmitFlow.NotionForm.StoreBody` | components/NotionToD3Converter.tsx:56-67 | storing a body fills only its own slot; once both slots are set the tree of both is drawn and the form collapsed; message, requests, storage and fields are unchanged |
| `SubmitFlow.NotionForm.FetchDataFromNotion` | components/NotionToD3Converter.tsx:342-380 | with an empty credential only the message changes and no request is sent; otherwise one request is sent and the message is cleared; a body fills its slot, the tree is redrawn and the form collapsed once both slots are set; a failure sets the message and leaves the slot unchanged; loading ends false |
| `SubmitFlow.NotionForm.HandleFetchData` | components/NotionToD3Converter.tsx:382-393 | with either id empty, only the message changes: no storage write and no request; otherwise the three fields are stored and both fetches are made in order, whatever the first one did |
| `SubmitFlow.NotionForm.HandleFetchDataFixed` | components/NotionToD3Converter.tsx:382-393 | as intended: the circles fetch is skipped after a failed roles fetch, so every failure stays reported, and the form collapses once a fetch fills a slot while both slots hold data |
| `SubmitFlow.LostRolesFailure` | components/NotionToD3Converter.tsx:382-393 | a first submit whose roles fetch fails and whose circles fetch succeeds shows no message and draws no tree |
| `SubmitFlow.ReportedRolesFailure` | components/NotionToD3Converter.tsx:382-393 | the corrected flow shows the fetch-failure message in that case |
| `SubmitFlow.MixedTreeOnResubmit` | components/NotionToD3Converter.tsx:56-67 | on a second submit, made after reopening the form, whose circles fetch fails, the new roles are drawn under the circles of the first submit, the failure message is set, and the form ends collapsed, hiding it |

## Left out

- The d3 layout is not modelled: `d3.pack`, `d3.hierarchy().sum/sort`, radii and coordinates (lines 131-140). Neither is the `r < 20` label rule (line 174), which depends on those floats. This is floating-point work in an external library. In particular the model does not prove that a circle's weight is its number of roles.
- SVG and DOM construction, tooltip HTML and its position, hover strokes and the zoom transitions (lines 143-339) are not modelled. This is view wiring and animation. Only the fills, the responsibilities list and the role link are modelled.
- `app/api/notion/route.ts` (the HTTP proxy and its environment-credential fallback) is not part of this model. Each call's outcome is a parameter, and the request log records the body sent.
- `app/layout.tsx` and `app/page.tsx` hold no logic.
- The `Array.isArray` guard (lines 99-102) is not modelled, and neither is the shape of the raw Notion JSON. The model assumes records that are already flattened into arrays of typed records, and `SubmitFlow.Fits` takes a body to have the shape of the slot it fills. The shipped proxy does not provide that: `app/api/notion/route.ts` (lines 38-39) passes Notion's query response object through unchanged, which is not an array, so with that proxy the guard fires and nothing is drawn.
- `isUsingEnvKey` is not modelled: the component only ever sets it to false. The `searchTerm` state is not modelled either: it is never written, and the search box passes its own value. `updateHighlight` (lines 179-186) is never called; it applies the same rule as the search box, which `Highlight.SearchFill` models.
- Concurrency is not modelled: re-submitting while `loading` is true, renders between the two awaits, and the disabled button. Each method completes before the next one starts, so `loading` is seen only at rest (false).
- JsString.Lower: lower-cases ASCII letters only, not full Unicode case mapping.
- JsNumber.ParseIntDecimal: reads digits as an unbounded integer. It does not round beyond 2^53 as JavaScript numbers do.
- Hierarchy.NumberMatchesItsText: a numeric circle id is an integer. JavaScript's NaN and fractional numbers are not represented.
- Highlight.RestyleForgetsHistory: the d3 selection is modelled as a sequence of drawn nodes in any order, since d3 decides the order.

## Findings

| source | as written | input that shows it | evidently intended | confidence | as-written member | corrected member |
|---|---|---|---|---|---|---|
| components/NotionToD3Converter.tsx:349 | `handleFetchData` always makes the circles fetch, and that fetch starts with `setError(null)`, which clears the message the failed roles fetch set | credential and both ids non-empty; the roles fetch fails; the circles fetch succeeds | the failure stays reported, since the catch block sets a message for the user | not executed; high | SubmitFlow.LostRolesFailure | SubmitFlow.NotionForm.HandleFetchDataFixed |
