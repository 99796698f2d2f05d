# Showcase, modelled in Dafny

Showcase is a Telegram Mini App for curating NFT showcases on the TON
blockchain. This project models the parts of it that make decisions:

- **React front end** (`frontend-react/src`):
  - the collection grouper and the loading/error state of the collection screens;
  - the NFT selection screen of a showcase;
  - the tab and showcase navigator, with the create form, the export download and the tab dispatch;
  - the showcase list, the user search and the public profile screens.
- **Go back end** (`backend-go`):
  - the Telegram Mini App `initData` check;
  - wallet connection with its user upsert;
  - the cached TonAPI NFT fetch and its record transform;
  - the showcase create, list and export handlers.
- **Collage service** (`services-python/main.py`): the input guards and the grid layout.
- **Python back end** (`backend`): the connect upsert, the case-insensitive user search, the profile lookup, the cache-aside NFT policy, and `verify_wallet`.

The form of each file follows the form of the code it models:

- **React screens** become classes. Their fields are the `useState` variables, and their methods are the handlers.
  - An async handler is split at its `await`. One method runs up to the request; a second takes the request's outcome (`Response`: `RequestFailed` or `Received(data)`) and runs the `try`/`catch`/`finally` after it.
  - Render choices are functions of the fields.
- **Server handlers** become methods over a `Database` class.
  - Everything a handler receives from outside is a parameter: the decoded body, environment variables, HTTP replies, the clock, HMAC-SHA-256, and the TON Connect verifier.
- **Loops** stay loops, with invariants that tie them to a specification function: the grouping `reduce`, the data-check-string loop, the NFT transform, the image-URL loop, and the paste loop.

Files:

| file | models |
|---|---|
| wrappers.dfy | `Option`, `Response`, and distinctness and multiset helpers |
| nfts.dfy | the NFT and showcase records the front end reads, and JS truthiness |
| decimal.dfy | decimal digit strings, used by file names and `strconv` |
| grouping.dfy | `groupNftsByCollection`, including the key order of `Object.values` |
| collection_screens.dfy | the fetch state of `MyCollectionsScreen` / `MyNftsScreen` |
| selection.dfy | `AddNftsToShowcaseScreen` |
| create_form.dfy | `CreateShowcaseScreen` |
| navigator.dfy | `CollectionsTab`, `ShowcasesTab`, the export effects, `App` |
| showcase_list.dfy | `MyShowcasesScreen` |
| search_screen.dfy | `SearchScreen` |
| public_profile.dfy | `PublicProfileScreen` |
| telegram.dfy | `utils.ValidateInitData` |
| go_store.dfy | the GORM tables and lookups |
| go_handlers.dfy | `ConnectWallet`, `GetNfts` |
| go_showcases.dfy | `strconv`, `CreateShowcase`, `GetUserShowcases`, `ExportShowcase` |
| collage.dfy | `create_collage` |
| py_store.dfy | the SQLAlchemy `users` table and the NFT cache table |
| py_backend.dfy | `backend/main.py` |
| py_wallets.dfy | `backend/wallets.py` |

Some conventions used throughout:

- Sequences stand for database tables, in row order, so "first" means the lowest primary key.
- Go strings that are hashed or sorted are byte sequences (`Telegram.Bytes`).
- Other strings are `string`.

Where the prose documentation of the project and the code disagree, the model follows the code:

- **Collections never appear contiguously in a flat list.** The grouped collections, flattened, are not the input list when one collection's NFTs are interleaved with another's. What holds is that they are a permutation of it, with each collection in input order (`Grouping.GroupedKeepsEveryNft`).
- **Selection order.** The saved selection is the inventory-order initial selection followed by click order. It is not re-sorted into inventory order (`Selection.SaveKeepsClickOrderExample`).
- **Download URL cleanup.** In the export download the object URL is revoked only on the success path. If the click throws, nothing revokes it, because there is no `finally`.

## Model

| member | source | states |
|---|---|---|
| Grouping.GroupKeyNamesCollection | frontend-react/src/screens/MyCollectionsScreen.jsx:13 | the key is never empty, and it is "Uncategorized" exactly when the name is missing or empty, the collection name otherwise |
| Grouping.SplitKeysIsPermutation | frontend-react/src/screens/MyCollectionsScreen.jsx:23 | the array-index keys and the other keys together are the keys of the object |
| Grouping.InsertKeepsAscending | frontend-react/src/screens/MyCollectionsScreen.jsx:23 | inserting one index key keeps the index keys in ascending numeric order |
| Grouping.SortIsAscending | frontend-react/src/screens/MyCollectionsScreen.jsx:23 | `Object.values` lists array-index keys in ascending numeric order |
| Grouping.ObjectKeyOrderIsPermutation | frontend-react/src/screens/MyCollectionsScreen.jsx:23 | the property order is a permutation of the insertion order, and distinct keys stay distinct |
| Grouping.NoIndexKeysKeepOrder | frontend-react/src/screens/MyCollectionsScreen.jsx:23 | without array-index keys the property order is the insertion order |
| Grouping.FirstSeenFacts | frontend-react/src/screens/MyCollectionsScreen.jsx:14-19 | each key enters the accumulator once, and a key never inserted has no members |
| Grouping.GroupNftsByCollection | frontend-react/src/screens/MyCollectionsScreen.jsx:10-24 | the in-place `reduce` over the accumulator followed by `Object.values` throws (None) exactly when some NFT's key names a property inherited from `Object.prototype` ("constructor", "toString", "__proto__", …), and otherwise yields exactly `Grouped(nfts)` |
| Grouping.InheritedNameExample | frontend-react/src/screens/MyCollectionsScreen.jsx:13-20 | a collection named "constructor" makes the grouping throw; NFTs without a collection never do |
| Grouping.MembersFacts | frontend-react/src/screens/MyCollectionsScreen.jsx:20 | a collection holds exactly the input NFTs with its key, and is non-empty when the key occurs |
| Grouping.KeysOfCoversInput | frontend-react/src/screens/MyCollectionsScreen.jsx:13 | every NFT's key is among the inserted keys |
| Grouping.GroupedNamesDistinctNonEmpty | frontend-react/src/screens/MyCollectionsScreen.jsx:14-20 | collection names are pairwise distinct and every collection holds at least one NFT |
| Grouping.GroupedOrderFacts | frontend-react/src/screens/MyCollectionsScreen.jsx:12-23 | the listed names are distinct and are exactly the keys of the input NFTs |
| Grouping.GroupedPlacesEveryNft | frontend-react/src/screens/MyCollectionsScreen.jsx:13-20 | every input NFT is in the collection named by its key |
| Grouping.GroupedHoldsOnlyItsKey | frontend-react/src/screens/MyCollectionsScreen.jsx:13-20 | a collection holds only input NFTs that carry its name |
| Grouping.FlattenSnoc | frontend-react/src/screens/MyCollectionsScreen.jsx:20 | pushing one NFT adds exactly that NFT to the flattened collections |
| Grouping.FlattenOfEmpty | frontend-react/src/screens/MyCollectionsScreen.jsx:12 | collections over no NFTs flatten to nothing |
| Grouping.FlattenIsPermutation | frontend-react/src/screens/MyCollectionsScreen.jsx:12-22 | collections over distinct names covering all keys flatten to a permutation of the input |
| Grouping.GroupedKeepsEveryNft | frontend-react/src/screens/MyCollectionsScreen.jsx:12-23 | all collections together hold exactly the input NFTs (as a multiset), so the count is preserved |
| Grouping.GroupedEmptyIff | frontend-react/src/screens/MyCollectionsScreen.jsx:11 | there are no collections exactly when the list is missing or empty |
| Grouping.FirstPositionSnoc | frontend-react/src/screens/MyCollectionsScreen.jsx:14 | appending a key keeps the first occurrence of earlier keys and puts a new key last |
| Grouping.FirstSeenByFirstOccurrence | frontend-react/src/screens/MyCollectionsScreen.jsx:14-19 | keys enter the accumulator in the order of their first occurrence in the input |
| Grouping.GroupedInFirstSeenOrder | frontend-react/src/screens/MyCollectionsScreen.jsx:23 | without array-index names, collections appear in first-seen order of their names |
| Grouping.GroupedIndexNamesFirst | frontend-react/src/screens/MyCollectionsScreen.jsx:23 | collections whose name is an array index come before all others, in ascending numeric order |
| Grouping.GroupingExample | frontend-react/src/screens/MyNftsScreen.jsx:10-24 | two "X" NFTs and one unnamed NFT give [X: both, Uncategorized: the third] |
| CollectionScreens.ViewOf | frontend-react/src/screens/MyCollectionsScreen.jsx:56-69 | loading wins, then a truthy error, then the cards, and an empty list shows the placeholder; each view exactly under its condition |
| CollectionScreens.NftGroupsScreen.constructor | frontend-react/src/screens/MyCollectionsScreen.jsx:27-29 | starts with no collections, loading, no error |
| CollectionScreens.NftGroupsScreen.Mount | frontend-react/src/screens/MyCollectionsScreen.jsx:31-41 | a request is made exactly when the wallet address is truthy; otherwise loading stops with "Wallet address is not available." |
| CollectionScreens.NftGroupsScreen.Settle | frontend-react/src/screens/MyCollectionsScreen.jsx:41-50 | success stores the grouping of the response and clears the error; a failed request, or a grouping that throws on an inherited property name, sets the fetch error and keeps the collections; loading is false after every outcome |
| Selection.Addresses | frontend-react/src/screens/AddNftsToShowcaseScreen.jsx:102 | the addresses of a list, position by position |
| Selection.StoredAddresses | frontend-react/src/screens/AddNftsToShowcaseScreen.jsx:89 | the set of stored `nft_address` values, empty when `showcase_nfts` is missing |
| Selection.InitialSelectionIsStoredPart | frontend-react/src/screens/AddNftsToShowcaseScreen.jsx:90 | the initial selection is exactly the pool NFTs whose address is stored, in pool order |
| Selection.SubsequenceOfTail | frontend-react/src/screens/AddNftsToShowcaseScreen.jsx:90 | a subsequence of a list's tail is a subsequence of the list |
| Selection.InitialSelectionEmpty | frontend-react/src/screens/AddNftsToShowcaseScreen.jsx:89-90 | with no stored address in the pool the initial selection is empty |
| Selection.RemoveAddressFacts | frontend-react/src/screens/AddNftsToShowcaseScreen.jsx:104 | the filter drops every entry with the address and keeps the rest; an absent address changes nothing |
| Selection.AddressesMembership | frontend-react/src/screens/AddNftsToShowcaseScreen.jsx:102 | `some(item => item.address === a)` holds exactly when `a` is among the addresses |
| Selection.ToggleFlipsOneAddress | frontend-react/src/screens/AddNftsToShowcaseScreen.jsx:101-107 | a toggle flips whether the clicked address is selected and no other address |
| Selection.ToggleKeepsOthers | frontend-react/src/screens/AddNftsToShowcaseScreen.jsx:101-107 | the other entries keep their relative order |
| Selection.RemoveAddressIdempotent | frontend-react/src/screens/AddNftsToShowcaseScreen.jsx:104 | removing an address twice is removing it once |
| Selection.RemoveAddressAppend | frontend-react/src/screens/AddNftsToShowcaseScreen.jsx:104 | the filter distributes over concatenation |
| Selection.ToggleTwiceUnselected | frontend-react/src/screens/AddNftsToShowcaseScreen.jsx:101-107 | toggling an unselected NFT twice restores the exact list |
| Selection.ToggleTwiceSelected | frontend-react/src/screens/AddNftsToShowcaseScreen.jsx:101-107 | toggling a selected NFT twice moves it to the end |
| Selection.ToggleStaysInPool | frontend-react/src/screens/AddNftsToShowcaseScreen.jsx:100-122 | toggling a pool NFT keeps the selection inside the pool |
| Selection.AddNftsScreen.constructor | frontend-react/src/screens/AddNftsToShowcaseScreen.jsx:77-79 | starts with an empty pool and selection, loading |
| Selection.AddNftsScreen.Settle | frontend-react/src/screens/AddNftsToShowcaseScreen.jsx:84-95 | success sets the pool to `nfts` or [] and the selection to its stored part; failure keeps both; loading is false after either |
| Selection.AddNftsScreen.SelectNft | frontend-react/src/screens/AddNftsToShowcaseScreen.jsx:100-109 | a click on a pool NFT applies the toggle and keeps the selection within the pool |
| Selection.AddNftsScreen.Save | frontend-react/src/screens/AddNftsToShowcaseScreen.jsx:130 | hands over the selection as held, every entry from the pool |
| Selection.SaveAfterOneClickExample | frontend-react/src/screens/AddNftsToShowcaseScreen.jsx:89-107 | stored A plus a click on B saves [A, B] |
| Selection.SaveKeepsClickOrderExample | frontend-react/src/screens/AddNftsToShowcaseScreen.jsx:89-107 | stored B plus a click on A saves [B, A], not pool order |
| CreateForm.SubmitOutcomeOf | frontend-react/src/screens/CreateShowcaseScreen.jsx:66-74 | an alert exactly when the title is empty; otherwise `onSubmit` with the current title and description |
| CreateForm.UntrimmedTitleAccepted | frontend-react/src/screens/CreateShowcaseScreen.jsx:68 | a whitespace-only title is submitted |
| CreateForm.CreateShowcaseForm.constructor | frontend-react/src/screens/CreateShowcaseScreen.jsx:63-64 | title and description start empty |
| CreateForm.CreateShowcaseForm.EditTitle | frontend-react/src/screens/CreateShowcaseScreen.jsx:85 | the title becomes the typed value |
| CreateForm.CreateShowcaseForm.EditDescription | frontend-react/src/screens/CreateShowcaseScreen.jsx:91 | the description becomes the typed value |
| CreateForm.CreateShowcaseForm.Submit | frontend-react/src/screens/CreateShowcaseScreen.jsx:66-74 | `onSubmit` is called exactly when the title is non-empty |
| Navigator.CollectionsTab.constructor | frontend-react/src/App.jsx:35 | no collection selected |
| Navigator.CollectionsTab.Screen | frontend-react/src/App.jsx:36-43 | the detail screen exactly when a collection is selected, else the wallet's collections |
| Navigator.CollectionsTab.SelectCollection | frontend-react/src/App.jsx:42 | selects the clicked collection |
| Navigator.CollectionsTab.Back | frontend-react/src/App.jsx:39 | back clears the selection |
| Navigator.ScreenOf | frontend-react/src/App.jsx:82-88 | a selected showcase wins over any view, then the create form (disabled while submitting), then the list |
| Navigator.ShowcasesTab.constructor | frontend-react/src/App.jsx:47-49 | list view, no showcase, not submitting |
| Navigator.ShowcasesTab.OpenCreate | frontend-react/src/App.jsx:88 | "Create New" switches to the form |
| Navigator.ShowcasesTab.BackFromCreate | frontend-react/src/App.jsx:86 | back from the form returns to the list |
| Navigator.ShowcasesTab.SelectShowcase | frontend-react/src/App.jsx:82-83 | a selected showcase shows its detail screen |
| Navigator.ShowcasesTab.BackFromDetail | frontend-react/src/App.jsx:83 | back from the detail clears the selection |
| Navigator.ShowcasesTab.BeginCreate | frontend-react/src/App.jsx:51-55 | a submit while one is in flight issues no request; otherwise it marks one in flight and posts the title and description |
| Navigator.ShowcasesTab.FinishCreate | frontend-react/src/App.jsx:55-62 | success returns to the list; failure alerts and keeps the view; not submitting afterwards |
| Navigator.ExportFileNamesDiffer | frontend-react/src/App.jsx:71 | distinct showcases download under distinct `showcase-<id>-collage.png` names |
| Navigator.ExportEffects | frontend-react/src/App.jsx:65-80 | success creates the object URL, downloads under the showcase's name and revokes after the click; failure only alerts |
| Navigator.RenderContent | frontend-react/src/App.jsx:96-111 | no user gives the prompt; "showcases" the showcases tab; "market" and "profile" exactly their "Coming Soon" placeholders; "collections" and any unknown tab the collections tab |
| Navigator.App.constructor | frontend-react/src/App.jsx:93 | the initial tab is "collections" |
| Navigator.App.ChangeTab | frontend-react/src/App.jsx:93 | the active tab becomes the chosen one |
| ShowcaseList.ViewOf | frontend-react/src/screens/MyShowcasesScreen.jsx:61-78 | loading, then a truthy error, then the items; an empty list shows the placeholder |
| ShowcaseList.MyShowcasesScreen.constructor | frontend-react/src/screens/MyShowcasesScreen.jsx:35-37 | no showcases, loading, no error |
| ShowcaseList.MyShowcasesScreen.Mount | frontend-react/src/screens/MyShowcasesScreen.jsx:39-48 | a request exactly when the Telegram ID is truthy; otherwise "User ID is not available." |
| ShowcaseList.MyShowcasesScreen.Settle | frontend-react/src/screens/MyShowcasesScreen.jsx:46-56 | success stores the data or [] and clears the error; failure keeps the list and sets the error; loading is false after either |
| ShowcaseList.NullBodyShowsPlaceholder | frontend-react/src/screens/MyShowcasesScreen.jsx:49 | a null body shows "You haven't created any showcases yet." |
| SearchScreen.SearchPath | frontend-react/src/screens/SearchScreen.jsx:45 | the path is the fixed prefix followed by the query |
| SearchScreen.QueryNotEncoded | frontend-react/src/screens/SearchScreen.jsx:45 | every character of the query appears in the path as typed |
| SearchScreen.SearchUsersScreen.constructor | frontend-react/src/screens/SearchScreen.jsx:33-35 | empty query and results, not loading |
| SearchScreen.SearchUsersScreen.EditQuery | frontend-react/src/screens/SearchScreen.jsx:63 | the query becomes the typed value |
| SearchScreen.SearchUsersScreen.Submit | frontend-react/src/screens/SearchScreen.jsx:37-45 | an empty query clears the results with no request; otherwise the request is made and loading starts |
| SearchScreen.SearchUsersScreen.Settle | frontend-react/src/screens/SearchScreen.jsx:44-52 | success replaces the results; failure alerts and keeps them; loading is false after either |
| PublicProfile.Heading | frontend-react/src/screens/PublicProfileScreen.jsx:40 | the first name's profile, or "User's Profile" when it is missing |
| PublicProfile.Handle | frontend-react/src/screens/PublicProfileScreen.jsx:41 | `@username`, or "@No username" |
| PublicProfile.ProfileScreenOf | frontend-react/src/screens/PublicProfileScreen.jsx:27-46 | only the detail screen while a collection is selected; otherwise the profile over the user's own wallet |
| PublicProfile.PublicProfileScreen.constructor | frontend-react/src/screens/PublicProfileScreen.jsx:25 | no collection selected |
| PublicProfile.PublicProfileScreen.Press | frontend-react/src/screens/PublicProfileScreen.jsx:31-45 | "Back to Search" calls `onBack` and nothing else; picking selects; back clears |
| Js.OrText | frontend-react/src/screens/PublicProfileScreen.jsx:40-41 | `s \|\| fallback`: the value when truthy, else the fallback |
| Decimal.DigitChar | frontend-react/src/App.jsx:71 | a digit character of the given value |
| Decimal.NatToDecimal | frontend-react/src/App.jsx:71 | a non-empty digit string without a leading zero |
| Decimal.DecimalRoundTrip | frontend-react/src/App.jsx:71 | reading back the decimal text of n gives n |
| Decimal.DecimalInjective | frontend-react/src/App.jsx:71 | distinct numbers have distinct decimal text |
| Telegram.Ascii | backend-go/utils/telegram.go:21 | byte-for-byte encoding of an ASCII literal |
| Telegram.Get | backend-go/utils/telegram.go:21 | the first value of a key, "" when it is absent |
| Telegram.PartsAppend | backend-go/utils/telegram.go:27-33 | the loop's parts over two runs of keys are the concatenation |
| Telegram.PartsWithout | backend-go/utils/telegram.go:27-33 | removing one key removes exactly its part |
| Telegram.PartsPermutation | backend-go/utils/telegram.go:28 | any two visiting orders of the same keys give the same parts up to order |
| Telegram.PartsLength | backend-go/utils/telegram.go:27-33 | one part for every key except `hash` |
| Telegram.PartsCoverKeys | backend-go/utils/telegram.go:29-31 | every key other than `hash` contributes `k=v[0]` |
| Telegram.PartsComeFromKeys | backend-go/utils/telegram.go:29-31 | every part is `k=v[0]` for a key other than `hash` |
| Telegram.LexLeReflexive | backend-go/utils/telegram.go:34 | Go string order is reflexive |
| Telegram.LexLeTotal | backend-go/utils/telegram.go:34 | Go string order is total |
| Telegram.LexLeAntisymmetric | backend-go/utils/telegram.go:34 | Go string order is antisymmetric |
| Telegram.LexLeTransitive | backend-go/utils/telegram.go:34 | Go string order is transitive |
| Telegram.Insert | backend-go/utils/telegram.go:34 | insertion adds exactly one element |
| Telegram.SortStrings | backend-go/utils/telegram.go:34 | sorting is a permutation |
| Telegram.InsertKeepsSorted | backend-go/utils/telegram.go:34 | insertion into a sorted list keeps it sorted |
| Telegram.SortStringsSorted | backend-go/utils/telegram.go:34 | `sort.Strings` yields a sorted list |
| Telegram.SortedPermutationsEqual | backend-go/utils/telegram.go:34 | two sorted permutations of each other are equal |
| Telegram.JoinNewlines | backend-go/utils/telegram.go:35 | joining n newline-free parts gives a string with exactly n - 1 newlines |
| Telegram.Split | backend-go/utils/telegram.go:35 | not a model of this line, which joins: a reference inverse of that join (Go's `strings.Split` at one separator byte), used by `SplitJoinRoundTrip`; the result is never empty |
| Telegram.SplitWithoutSeparator | backend-go/utils/telegram.go:35 | a string without the separator splits into itself alone |
| Telegram.SplitAfterSeparator | backend-go/utils/telegram.go:35 | a separator followed by separator-free text adds exactly that text as the last piece |
| Telegram.SplitJoinRoundTrip | backend-go/utils/telegram.go:35 | splitting the joined newline-free parts at the newline gives back exactly the parts: one separator between neighbours, none leading or trailing |
| Telegram.HexEncode | backend-go/utils/telegram.go:43 | two lowercase hex digits per byte |
| Telegram.HexEncodeInjective | backend-go/utils/telegram.go:43 | distinct digests have distinct hex text |
| Telegram.EnumerationsArePermutations | backend-go/utils/telegram.go:28 | two map iterations visit the same keys up to order |
| Telegram.DataCheckStringOrderFree | backend-go/utils/telegram.go:28-35 | the data-check-string does not depend on map iteration order |
| Telegram.ValidateInitData | backend-go/utils/telegram.go:14-46 | a parse error, then a missing hash are errors; otherwise valid exactly when the hex HMAC of the sorted, joined parts under HMAC("WebAppData", botToken) equals `hash`, with a nil error |
| Telegram.UppercaseNeverHex | backend-go/utils/telegram.go:43 | no `hex.EncodeToString` output contains an uppercase hex digit |
| Telegram.UppercaseHashRejected | backend-go/utils/telegram.go:43-45 | a `hash` containing an uppercase hex digit never validates |
| Telegram.WholePartOrderExample | backend-go/utils/telegram.go:31-34 | keys "a" < "a1", yet the part "a1=z" sorts before "a=z" |
| GoStore.IndexOfTelegramId | backend-go/api/showcase_handlers.go:29 | the first row with that Telegram ID, none exactly when no row has it |
| GoStore.FindByStruct | backend-go/api/handlers.go:101 | the struct condition drops a zero Telegram ID, so 0 finds the first row of a non-empty table |
| GoStore.IndexOfShowcase | backend-go/api/showcase_handlers.go:84 | the showcase with that primary key, none exactly when absent |
| GoStore.Database.constructor | backend-go/models/user.go:5-11 | empty tables |
| GoHandlers.UpsertKeepsUsersValid | backend-go/api/handlers.go:100-115 | the upsert keeps primary keys below the next one and Telegram IDs unique |
| GoHandlers.UpsertStoresRequest | backend-go/api/handlers.go:100-115 | for a non-zero Telegram ID, the row found next holds the request's three fields, and other users are untouched |
| GoHandlers.UpsertCreatesUser | backend-go/api/handlers.go:102-109 | an unknown Telegram ID creates a row with all four fields |
| GoHandlers.ZeroTelegramIdOverwritesFirstUser | backend-go/api/handlers.go:101-114 | Telegram ID 0 overwrites the first row's wallet and keeps its Telegram ID |
| GoHandlers.SaveUser | backend-go/api/handlers.go:100-115 | the user table becomes the upsert, and showcases are untouched |
| GoHandlers.CheckConnect | backend-go/api/handlers.go:68-97 | 400 bad body, 500 no token, 400 validation error, 403 hash mismatch, 403 ID mismatch, in that order; no rejection exactly when every check passes |
| GoHandlers.ConnectWallet | backend-go/api/handlers.go:67-118 | the same rejections in the same order, with no write; success exactly when every check passes, and then the upsert |
| GoHandlers.ImageFallback | backend-go/api/handlers.go:159-168 | an empty image with previews becomes the last preview's URL, an empty image without previews stays empty, a non-empty image is kept; address, name, description and collection name are copied |
| GoHandlers.TransformItems | backend-go/api/handlers.go:157-170 | same length and order, each item transformed field by field |
| GoHandlers.NftCache.constructor | backend-go/api/handlers.go:20 | the cache starts empty |
| GoHandlers.GetNfts | backend-go/api/handlers.go:120-176 | a hit answers from the cache without TonAPI; a miss passes each TonAPI failure through with its status and caches only the transformed list of a parsed 200 |
| GoShowcases.ParseUint64 | backend-go/api/showcase_handlers.go:77 | an accepted value fits in 64 unsigned bits |
| GoShowcases.ParseInt64 | backend-go/api/showcase_handlers.go:50 | an accepted value fits in 64 signed bits |
| GoShowcases.ParseUint64RoundTrip | backend-go/api/showcase_handlers.go:77 | the decimal text of any 64-bit unsigned value parses back to it |
| GoShowcases.ParseInt64RoundTrip | backend-go/api/showcase_handlers.go:50 | the decimal text of any 64-bit signed value parses back to it |
| GoShowcases.ParseUint64Accepts | backend-go/api/showcase_handlers.go:77 | an accepted text is all digits and denotes the value |
| GoShowcases.SignExamples | backend-go/api/showcase_handlers.go:50-77 | signs are refused by `ParseUint`, accepted by `ParseInt`; "" and "-" are refused |
| GoShowcases.CreateShowcase | backend-go/api/showcase_handlers.go:15-46 | 400 exactly for a missing body, a zero Telegram ID or an empty title, with "Invalid request body: " followed by the binding error's text; 404 for an unknown user; 500 on a failed create; otherwise a new showcase of the user's ID with the request's title and description |
| GoShowcases.OwnedBy | backend-go/api/showcase_handlers.go:63 | exactly the showcases of the user |
| GoShowcases.NoShowcasesGivesEmptyArray | backend-go/api/showcase_handlers.go:68-72 | a user without showcases gets the empty array |
| GoShowcases.GetUserShowcases | backend-go/api/showcase_handlers.go:48-73 | 400 exactly for an unparsable ID; 404 for an unknown user; 500 "Failed to retrieve showcases" when the query fails; success exactly when both are found and the query works, answering the user's showcases |
| GoShowcases.ImageUrls | backend-go/api/showcase_handlers.go:94-97 | one URL per NFT, in order |
| GoShowcases.ExportShowcase | backend-go/api/showcase_handlers.go:75-120 | 400 bad ID, 404 missing showcase, 400 no NFTs, all before any request; the request carries the NFTs' images in order; 503 unreachable, 500 with details on a non-200, the PNG otherwise |
| Collage.CeilSqrtFrom | services-python/main.py:36 | counting up from a too-small start reaches the smallest g with g*g >= n |
| Collage.CeilSqrt | services-python/main.py:36 | `grid_dim` is the smallest g with g*g >= n |
| Collage.TileOf | services-python/main.py:50-56 | the tile of image i |
| Collage.GridDimFacts | services-python/main.py:36 | at least one image gives a positive grid with room for all of them |
| Collage.TileInsideCanvas | services-python/main.py:39-57 | every tile lies inside the `grid_dim*256 + (grid_dim-1)*10` canvas |
| Collage.TilesDisjoint | services-python/main.py:50-57 | the tiles of distinct images are separated by the gap |
| Collage.FailureDetail | services-python/main.py:30 | the detail is "Failed to process image at ", then the URL, then ": " and the exception text |
| Collage.FirstFailure | services-python/main.py:22-30 | the first position whose fetch fails, with every earlier position loading |
| Collage.PlaceImages | services-python/main.py:46-57 | the paste loop places every image at its tile; the `break` never fires |
| Collage.CreateCollage | services-python/main.py:17-63 | 400 for no URLs; 400 naming the URL at the first failing position, with its exception text; each position is fetched on its own, so duplicate URLs may end differently; never "No valid images"; otherwise the canvas and every image's tile |
| PyStore.FindUser | backend/main.py:34 | the row with that Telegram ID, none exactly when no row has it |
| PyStore.PyDatabase.constructor | backend/models.py:5-12 | empty tables |
| PyBackend.ConnectOrUpdateUser | backend/main.py:29-45 | a known Telegram ID gets new username and wallet, keeping id and first name; an unknown one gets a new row without first name; the stored row is returned |
| PyBackend.LikeTrailingPercent | backend/main.py:56 | `%` matches every string |
| PyBackend.LikePrefix | backend/main.py:56-57 | `q%` matches exactly the strings starting with q, ignoring ASCII case |
| PyBackend.LikeLeadingPercent | backend/main.py:56-57 | `%r` matches exactly when some suffix matches r |
| PyBackend.SearchPatternMatchesContainment | backend/main.py:56-57 | for a query without wildcards, `%q%` matches exactly the names containing q, ignoring ASCII case |
| PyBackend.UnderscoreMatchesAnyName | backend/main.py:56-57 | the query "_" matches every non-empty name |
| PyBackend.Matching | backend/main.py:57 | only users whose username matches |
| PyBackend.MatchingComplete | backend/main.py:57 | every matching user is included |
| PyBackend.SearchUsers | backend/main.py:48-58 | an empty query gives []; at most 20 users, each with a username matching `%q%` |
| PyBackend.SearchCompleteUnderLimit | backend/main.py:56-58 | with at most 20 users, every matching user is returned |
| PyBackend.GetUserProfile | backend/main.py:61-69 | 404 exactly for an unknown Telegram ID, else that user |
| PyBackend.NftsFor | backend/main.py:81-104 | a fresh row answers without the provider; fresh data is returned and stored in the wallet's row, which keeps its `cached_at` or, when new, is stamped `now`, with every other row unchanged; a failed provider answers with the stale row's data and leaves the table alone, or 503 without a row |
| PyBackend.StaleEntryStaysStale | backend/main.py:85-93 | a refreshed row keeps its insertion time, so a stale row keeps calling the provider |
| PyBackend.NewEntryFreshForAnHour | backend/main.py:85-96 | a new row answers alone for the next hour |
| PyBackend.WithDefault | backend/schemas.py:46-48 | a missing field takes the default, `null` stays `null`, a value is kept |
| PyBackend.ToNftItem | backend/schemas.py:44-48 | an item fails validation exactly when its `address` is missing or null |
| PyBackend.SerializeNfts | backend/main.py:72 | a failed item makes the answer FastAPI's 500; otherwise one item per input item |
| PyBackend.SerializeNftsItemwise | backend/main.py:72 | the answer is a 500 exactly when some item has no address; otherwise item i is the validated input item i |
| PyBackend.ValidationIsProjection | backend/schemas.py:44-48 | an item already in the response shape validates to itself |
| PyBackend.ProviderItemGetsDefaults | backend/schemas.py:46-48 | a TonAPI item, whose name and description sit under `metadata` while its previews are top-level, gets "Untitled NFT" and "No description available." and keeps its previews |
| PyBackend.GetUserNfts | backend/main.py:72-104 | 404 for an unknown user with no provider call; otherwise the cache-aside outcome for the user's wallet, sent through the `NftItem` response model, with the cache written even when that validation fails |
| PyBackend.GetUserNftsAsWritten | backend/main.py:75-80 | as shipped: 404 for an unknown user, and a 500 for every known user, because the cache lookup names a table class that does not exist |
| PyBackend.MissingCacheTableFailsKnownUser | backend/main.py:80-85 | a known user with a fresh, valid cache row gets that row from the intended handler but a 500 from the shipped one |
| PyWallets.VerifyWallet | backend/wallets.py:18-47 | 403 before any lookup or write when the init data is invalid; otherwise all three fields are overwritten or a new row is created, and "success" is returned |

## Left out

- **Network, database and file I/O become inputs:**
  - axios requests, TonAPI and collage HTTP calls, GORM and SQLAlchemy sessions;
  - PIL decode, resize and paste;
  - temporary files and `FileResponse`.
  - Their outcomes are parameters (`Response`, `TonApiReply`, `CollageReply`, `fetched`, `provided`, `bindError`, `createFails`, `findFails`). Commit failures other than these are not modelled.
- **Crypto, parsing and verification are inputs:**
  - HMAC-SHA-256 is the parameter `hmac`.
  - `url.ParseQuery` is its outcome plus the map's iteration order.
  - `json.Unmarshal` of the signed `user` field is `userIdOf`.
  - The TON Connect verifier in `verify_wallet` is the boolean `isValid`.
- Telegram.ValidateInitData: parse errors. Only whether `url.ParseQuery` fails is modelled, not which inputs make it fail.
- GoHandlers.ValidationMessage: the parse error's text. For initData that does not parse, the 400 reply is cut to the prefix "failed to parse initData: ". The wrapped `url.ParseQuery` error text that `err.Error()` appends is not modelled.
- **Time-based expiry of the Go `go-cache`.** `GetNfts` treats every stored entry as present. Clock reads in `get_user_nfts` are the parameter `now` in seconds.
- **The NFT cache table.** `backend/main.py` uses `models.NftCache`, but `backend/models.py` defines only `User`, `Showcase` and `ShowcaseNft`. As written, the lookup at `backend/main.py:80` raises `AttributeError`, so `get_user_nfts` answers 500 for every known user (`PyBackend.GetUserNftsAsWritten`, see "## Findings"). The rest of the model supplies the table the handler evidently means. Each row holds the data and the time it was inserted, and refreshing a row does not change that time, as the handler writes it.
- Collage.CeilSqrt: floating point. It replaces `math.ceil(math.sqrt(n))` with the exact integer ceiling square root. Floating-point rounding for very large n is not modelled.
- **Browser download mechanics.** `Blob`, object URLs and the synthetic link are abstract `BrowserEffect` events.
- **React scheduling:**
  - effect lifecycles, stale closures, and results arriving after unmount;
  - the remount forced by `key={view}`.
  - Each screen's effect is a `Mount` followed by at most one `Settle`.
- **Form plumbing.** `preventDefault` and the HTML `required` attribute of the title input are not modelled. Submission is modelled as `handleSubmit` running.
- **Inconsistent field names.** The Go showcase records have no json tags, while the front end reads `showcase_nfts` / `nft_address`. The model uses the front end's reading as its one record shape.
- **Presentation-only screens and plumbing:**
  - the detail screens, cards, header and bottom navigation;
  - the random price in `NftCard`;
  - the legacy `frontend/script.js`, `backend/getgems.py`, and the router, axios and build configuration.
- **Go's `int64` overflow of `TelegramID` in JSON binding.** Bodies that do not decode are the `None` body.
- PyBackend.SearchUsers: result order. The order of results is assumed to be table order, since the query has no `ORDER BY`.
- PyBackend.ToNftItem: type mismatches. Only missing and `null` fields are modelled. A field holding a value of the wrong JSON type, and previews lacking `url` or `resolution`, are assumed absent from the provider's data.
- PyBackend.Fold: case folding. Case-insensitive matching is modelled as ASCII folding, which is what SQLite's `LIKE` does. Other databases may fold more.

## Findings

| source | as written | input that shows it | evidently intended | confidence | as-written member | corrected member |
|---|---|---|---|---|---|---|
| backend/main.py:80 | `models.NftCache` is not defined in `backend/models.py`, so the lookup raises `AttributeError` and FastAPI answers 500 | any request for a user that exists, e.g. one whose wallet has a fresh cache row | a cache table keyed by wallet address, holding the NFT data and `cached_at` | high (read from the source text; not executed) | PyBackend.MissingCacheTableFailsKnownUser | PyBackend.GetUserNfts |
