# Bpress core, modelled in Dafny

Bpress is a Next.js blog. A language model writes the posts. Firestore
stores posts, comments and settings. Readers sign in to comment, and
administrators edit the blog's settings on three admin pages.

Most of the repository is glue around Firebase and OpenAI. This project
models the parts whose behaviour can be stated on its own:

- the slug builder;
- the decoder for Firestore's REST wire format and the published-posts
  pipeline built on it;
- the comment thread builder;
- the tag index;
- the comments, settings, posts, generate and subject-finder routes;
- the RSS feed;
- placeholder image URLs;
- the sidebar lists;
- the sign-in dialog;
- the load and save logic of the appearance, SEO and general-settings
  pages.

Every external call becomes a parameter or an input value:

- database snapshots and stored documents;
- the language model's reply;
- the clock;
- the ID-token verifier;
- `encodeURIComponent`, `toUTCString` and URL host-name parsing.

Writes are returned as values: the document a route or page would store,
and the collection as it stands after the write.

Modules follow the source files. Five helper modules define JavaScript's
built-in behaviour, within the limits listed under "Left out":

- `Wrappers`: Option and Result.
- `JsText`: JavaScript white space, `trim`, decimal text and `parseInt`.
- `Json`: JavaScript values, truthiness, `??`, `||`, `Number` and `String`.
- `Sorting`: the stable comparison sort, descending by an integer key.
- `Content`: the stored records and Firestore's `merge: true` write.

Three pieces work step by step in the source, and their models do the
same, each proved against a specification function:

- the decoder's map loop and the in-place sort of the fetched posts
  (`FirestoreRest.DecodePresent`, `FirestoreRest.FetchPublished`,
  `Sorting.SortInPlace` on an `array`);
- the two passes of `organizeComments` (`CommentThreads.OrganizeComments`);
- the counting dictionary of the tags page (`Tags.LoadTags`).

The sign-in dialog's state is a class whose methods update its fields.

## Model

| member | source | states |
|---|---|---|
| Slug.Lower | src/utils/slug.ts:3 | An ASCII capital becomes its lower-case letter; every other character is unchanged |
| Slug.Clean | src/utils/slug.ts:4 | The stripped text holds only a-z, 0-9, white space and `-`, and is never longer than the input |
| Slug.CleanAppend | src/utils/slug.ts:4 | Stripping works character by character: it distributes over concatenation |
| Slug.CleanOfKept | src/utils/slug.ts:4 | Text made only of kept characters is left as it is |
| Slug.SplitWs | src/utils/slug.ts:6 | Splitting always gives at least one piece, even for "" |
| Slug.SplitWsNoSpace | src/utils/slug.ts:6 | No piece of the split holds white space |
| Slug.SplitWsOfJoin | src/utils/slug.ts:6 | Splitting words joined by single spaces gives back exactly those words |
| Slug.JoinWith | src/utils/slug.ts:8 | Joining no words gives ""; joining one word gives that word |
| Slug.Take | src/utils/slug.ts:7 | `slice(0, n)` is a prefix of the words: n of them (or all) for n >= 0, and JavaScript's count-from-the-end length for negative n |
| Slug.CollapseHyphens | src/utils/slug.ts:8 | After collapsing, no two hyphens are adjacent; the characters come from the input, and the first character is kept |
| Slug.CollapseKeepsNonHyphens | src/utils/slug.ts:8 | Collapsing removes hyphens only: the non-hyphen characters are unchanged, in order |
| Slug.CollapseOfSingle | src/utils/slug.ts:8 | Text with no hyphen run is left as it is |
| Slug.Slugify | src/utils/slug.ts:1-9 | The slug holds only a-z, 0-9 and `-`, and never two hyphens in a row |
| Slug.NothingKept | src/utils/slug.ts:4-8 | Input with no ASCII letter, digit or hyphen (such as "" or "!!!") gives "" |
| Slug.SlugifyPadded | src/utils/slug.ts:4-6 | White space at either end of the input never changes the slug, so it never becomes a hyphen |
| Slug.SlugifyOfWords | src/utils/slug.ts:6-8 | For slug-ready words joined by spaces, the slug is the first `maxWords` of them, in order, joined by hyphens |
| Slug.SlugifyExtend | src/utils/slug.ts:6-7 | Once the input has more than `maxWords` words, text appended to it never changes the slug |
| Slug.SlugifyIdempotent | src/utils/slug.ts:2-8 | Slugifying a slug again, with the same word cap n >= 0, gives the same slug |
| JsText.TrimStart | src/utils/slug.ts:5 | The result is never longer than the input and starts with no white space |
| JsText.TrimStartSplits | src/utils/slug.ts:5 | Removes exactly the leading JavaScript white space: the result is a suffix of the input, and what it drops is all white space |
| JsText.TrimEnd | src/utils/slug.ts:5 | The result is never longer than the input and ends with no white space |
| JsText.TrimEndSplits | src/utils/slug.ts:5 | Removes exactly the trailing JavaScript white space: the result is a prefix of the input, and what it drops is all white space |
| JsText.Trim | src/utils/slug.ts:5 | The trimmed text has no white space at either end, and is empty exactly when the input is all white space |
| JsText.TrimOfTrimmed | src/utils/slug.ts:5 | Trimming text that has no white space at either end leaves it as it is |
| JsText.TrimPadded | src/utils/slug.ts:5 | Trimming ignores white space added at either end |
| JsText.NatToString | src/app/api/posts/route.ts:37 | A number's decimal text is non-empty, all digits, and has no leading zero |
| JsText.NatToStringValue | src/app/api/posts/route.ts:37 | The digits of that text denote the number |
| JsText.IntToString | src/app/api/posts/route.ts:37 | The text starts with `-` exactly when the integer is negative |
| JsText.DigitPrefix | src/app/admin/appearance/page.tsx:244 | The run of leading digits is all digits and never longer than the text |
| JsText.DigitPrefixSplits | src/app/admin/appearance/page.tsx:244 | The run is the longest one: it is a prefix of the text, and the character after it is not a digit |
| JsText.ParseInt | src/app/admin/appearance/page.tsx:244 | `parseInt` succeeds only when the text holds a digit |
| JsText.ParseIntOfIntToString | src/app/admin/appearance/page.tsx:244 | `parseInt` of an integer's decimal text is that integer |
| JsText.ParseIntPrefix | src/app/admin/appearance/page.tsx:244 | `parseInt` stops at the first non-digit after the number: text that follows is ignored |
| JsText.TextOr | src/app/admin/appearance/page.tsx:65 | JavaScript's logical or on optional text, with a fallback: an absent or empty value gives the fallback, any other value is kept |
| Json.Coalesce | src/app/api/settings/route.ts:41 | `a ?? b` is b exactly when a is null or undefined, and a otherwise |
| Json.OrElse | src/app/api/comments/route.ts:108 | JavaScript's logical or gives its left side when that is truthy, and its right side otherwise |
| Json.CoalesceVersusOrElse | src/app/api/comments/route.ts:108 | `??` and logical or differ exactly on a value that is defined but falsy (false, 0, NaN, "") |
| Json.Get | src/app/api/comments/route.ts:76 | Reading a property gives its value when an object has it, and `undefined` otherwise |
| Json.StringToNumber | src/services/firestoreRest.ts:23 | `Number(text)` is a number or NaN |
| Json.StringToNumberOfIntToString | src/services/firestoreRest.ts:23 | An integer's decimal text converts back to that integer |
| Json.ToNumber | src/app/feed.xml/route.ts:14 | `Number(v)` is a number or NaN, and a number is unchanged |
| Sorting.SortDesc | src/services/firestoreRest.ts:69 | The sorted list has the same length and is ordered by key, non-increasing |
| Sorting.SortDescPerm | src/services/firestoreRest.ts:69 | The sorted list is a permutation of the input |
| Sorting.SortDescStable | src/services/firestoreRest.ts:69 | The sort is stable: the elements with any one key keep their input order |
| Sorting.SumKeysSortDesc | src/app/tags/page.tsx:47 | Sorting by any key keeps the sum of any weight over the elements |
| Sorting.InsertStep | src/services/firestoreRest.ts:69 | One insertion step on the array puts element i into the sorted prefix and leaves the rest of the array alone |
| Sorting.SortInPlace | src/services/firestoreRest.ts:69 | Sorting the array in place leaves it holding the sorted permutation of its old contents |
| FirestoreRest.Decoded | src/services/firestoreRest.ts:21 | An absent value decodes to `undefined` |
| FirestoreRest.DecodePresent | src/services/firestoreRest.ts:26-32 | The decoder, with the source's loop over the map fields, computes the specified decoding |
| FirestoreRest.DecodeValue | src/services/firestoreRest.ts:20-36 | `decodeValue` on a present or absent value computes the specified decoding |
| FirestoreRest.DecodeEncode | src/services/firestoreRest.ts:22-34 | Every storable value comes back unchanged: strings, booleans, null, integers (sent as decimal text), arrays and maps |
| FirestoreRest.DecodeArray | src/services/firestoreRest.ts:26 | An array value decodes to an array of the same length, element i being value i decoded; absent `values` counts as [] |
| FirestoreRest.DecodeMap | src/services/firestoreRest.ts:27-32 | A map value decodes to an object with exactly its keys, each holding that field decoded; absent `fields` counts as {} |
| FirestoreRest.LastSegment | src/services/firestoreRest.ts:64 | The id is never longer than the document name; its exact extent is stated by the two lemmas below |
| FirestoreRest.LastSegmentSuffix | src/services/firestoreRest.ts:64 | The id is the suffix of the document name after its last `/`, or the whole name when it has none |
| FirestoreRest.LastSegmentNoSlash | src/services/firestoreRest.ts:64 | The id holds no `/` |
| FirestoreRest.DecodedFields | src/services/firestoreRest.ts:66 | Decoding a document's fields keeps exactly their keys |
| FirestoreRest.RecordOf | src/services/firestoreRest.ts:63-67 | A record's keys are the document's fields plus `id` |
| FirestoreRest.RecordId | src/services/firestoreRest.ts:64-67 | `id` is the name's last segment, unless a decoded field named `id` overrides it |
| FirestoreRest.RecordField | src/services/firestoreRest.ts:66-67 | Every field of the document appears in the record, decoded |
| FirestoreRest.Documents | src/services/firestoreRest.ts:60-62 | Keeping the rows that carry a document never gives more documents than rows |
| FirestoreRest.DocumentsCount | src/services/firestoreRest.ts:60-62 | Rows without a document are dropped, and each other row gives exactly one document |
| FirestoreRest.Records | src/services/firestoreRest.ts:63-68 | One record per document, in the same order |
| FirestoreRest.CreatedAtKey | src/services/firestoreRest.ts:69 | The sort key of a record: a missing or falsy `createdAt` counts as 0, and a number as itself |
| FirestoreRest.Published | src/services/firestoreRest.ts:38-71 | A missing project id is the only error. A non-OK response gives []. An OK response gives one record per document |
| FirestoreRest.DocumentRecord | src/services/firestoreRest.ts:63-67 | The field loop builds that document's record |
| FirestoreRest.BuildRecords | src/services/firestoreRest.ts:63-68 | The record loop fills a fresh array with one record per document, in order |
| FirestoreRest.FetchPublished | src/services/firestoreRest.ts:38-71 | The fetch with its record loop and in-place sort computes the specified published list. A missing project id is an error |
| FirestoreRest.PublishedSpec | src/services/firestoreRest.ts:58-69 | The published list has exactly one record per row with a document. It is sorted by `createdAt`, descending, with a missing or falsy value counted as 0, is a permutation of the records, and keeps input order among equal keys |
| FirestoreRest.NotOkIsEmpty | src/services/firestoreRest.ts:58 | A non-OK response gives [] |
| Content.ReplyJson | src/app/api/generate/route.ts:45-52 | A reply with no message content is parsed as `{}`; otherwise the parse result is taken as it is |
| Content.Over | src/app/admin/settings/page.tsx:47 | In a merge write, a written field replaces the stored one, and an unwritten field keeps it |
| Content.MergeSchedule | src/app/api/settings/route.ts:49 | The `schedule` map merges field by field; an unwritten schedule keeps the stored one |
| Content.MergeGeneral | src/app/api/settings/route.ts:49 | Merging into `settings/general`: each written field replaces the stored one, and each unwritten field keeps it |
| Content.MergeGeneralTwice | src/app/api/settings/route.ts:49 | Merging the same write twice gives the same document as merging it once |
| SettingsApi.OptionalString | src/app/api/settings/route.ts:16-18 | An optional string field accepts `undefined` or a string, and nothing else |
| SettingsApi.ParseFrequency | src/app/api/settings/route.ts:21 | `schedule.frequency` is accepted only when absent, "daily" or "weekly" |
| SettingsApi.ParseTime | src/app/api/settings/route.ts:22 | `schedule.time` is accepted only when absent, or shaped as two digits, a colon and two digits |
| SettingsApi.ParseSchedule | src/app/api/settings/route.ts:19-24 | An absent schedule is accepted as none; anything other than an object is rejected |
| SettingsApi.ParseUpdate | src/app/api/settings/route.ts:15-25 | A payload other than an object is rejected. An accepted update's frequency is daily or weekly, and its time is digit-shaped |
| SettingsApi.PickScheduled | src/app/api/settings/route.ts:45-46 | A schedule field is the update's value, else the stored value, else the default. With no stored schedule under a stored document, reading it throws (`None`) |
| SettingsApi.Merge | src/app/api/settings/route.ts:40-48 | Title, topic and prompt follow update, then stored, then "". The merge throws exactly when the stored document has no schedule and the update lacks a schedule field |
| SettingsApi.Put | src/app/api/settings/route.ts:33-54 | A non-JSON body or a schema failure answers 400 and writes nothing. A save stores the merge of the full settings into the stored document |
| SettingsApi.MergePrecedence | src/app/api/settings/route.ts:40-48 | Each merged field is the update's value if given, else the stored value, else its default: "", "daily" or "19:00" |
| SettingsApi.MissingScheduleRejected | src/app/api/settings/route.ts:45-53 | With no stored schedule, an update that omits `schedule.frequency` is answered 400 |
| SettingsApi.FrequencyChecked | src/app/api/settings/route.ts:21 | With a string frequency, the update is accepted exactly when the frequency is daily or weekly (and the other fields are valid) |
| SettingsApi.TimeHasNoRangeCheck | src/app/api/settings/route.ts:22 | "99:99" passes: the time check is only a shape check |
| SettingsApi.EmptyUpdateKeepsStored | src/app/api/settings/route.ts:41-46 | An empty update over a complete stored document returns those settings and stores the document unchanged |
| SettingsApi.SavedIsComplete | src/app/api/settings/route.ts:40-49 | After a save, the stored document is complete and holds exactly the returned settings |
| SettingsApi.PutIdempotent | src/app/api/settings/route.ts:40-49 | Applying the same update again to the saved document gives the same answer and the same document |
| PostsApi.StringArray | src/app/api/posts/route.ts:22 | `z.array(z.string())` accepts exactly arrays of strings, and keeps them element by element |
| PostsApi.OptionalString | src/app/api/posts/route.ts:20-21 | An optional string field accepts `undefined` or a string, and nothing else |
| PostsApi.ParsePlaceholder | src/app/api/posts/route.ts:18-24 | An absent body is accepted with no fields; a body other than an object is rejected |
| PostsApi.PlaceholderHtml | src/app/api/posts/route.ts:34 | The content starts with `<h1>` + title + `</h1>`, with the title unescaped |
| PostsApi.PlaceholderPost | src/app/api/posts/route.ts:31-45 | Missing fields take the placeholder defaults, and supplied ones are kept. The slug is `slugify(title + "-" + clock)`; status is published, images are empty, and createdAt is now |
| PostsApi.CreatePlaceholder | src/app/api/posts/route.ts:26-49 | A non-JSON body counts as `{}`, so every default applies. The route fails exactly when the schema rejects the body |
| PostsApi.SuppliedValuesKept | src/app/api/posts/route.ts:31-33 | Supplied values, even empty ones, are kept |
| PostsApi.NullBodyFails | src/app/api/posts/route.ts:29 | A JSON `null` body fails the schema |
| PostsApi.LongTitleLosesTimestamp | src/app/api/posts/route.ts:37 | A title of more than six words loses the timestamp from its slug |
| PostsApi.DeletePost | src/app/api/posts/route.ts:54-55 | DELETE answers 400 exactly when `id` is missing or empty; otherwise it deletes that id |
| PostsApi.PostsAfterDelete | src/app/api/posts/route.ts:55-56 | A 400 deletes nothing. A delete removes exactly that id and keeps every other post |
| GenerateApi.OptionalString | src/app/api/generate/route.ts:8-9 | An optional override accepts `undefined` or a string, and nothing else |
| GenerateApi.ParseGenerate | src/app/api/generate/route.ts:7-10 | A body other than an object fails the schema |
| GenerateApi.Choose | src/app/api/generate/route.ts:25-26 | The override if given (even ""), else the stored setting, else "" |
| GenerateApi.UserPrompt | src/app/api/generate/route.ts:33 | The user message is the base prompt followed by a blank line and `Topic: ` + topic |
| GenerateApi.PostFromReply | src/app/api/generate/route.ts:54-69 | The stored post takes the reply's title, with slug `slugify(title)`, and the reply's description and content. Tags default to []; status is published, images are [], and createdAt is now |
| GenerateApi.Generate | src/app/api/generate/route.ts:12-76 | A schema failure answers 500. A missing topic or base prompt answers 400 before the model is asked. A post is stored exactly when the reply parses, has a string title, and defines `meta_description` and `content`; every other reply answers 500 |
| GenerateApi.UndefinedFieldsRejected | src/app/api/generate/route.ts:60-74 | A reply holding only a title answers 500: the server-side write rejects the undefined description and content |
| GenerateApi.UnparseableBodyUsesSettings | src/app/api/generate/route.ts:14 | A body that is not JSON is treated as `{}` |
| GenerateApi.EmptyOverrideStops | src/app/api/generate/route.ts:25-29 | An empty override topic wins over the stored one, and stops the route with 400 |
| GenerateApi.SilentModelStoresNothing | src/app/api/generate/route.ts:45-54 | A reply without content is read as `{}`, which has no title: nothing is stored |
| SubjectFinder.TopicOf | src/app/api/subject-finder/route.ts:6 | The topic is accepted exactly when the body is an object whose `topic` is a non-empty string |
| SubjectFinder.RecentTitles | src/app/api/subject-finder/route.ts:13-16 | No more titles than posts, and none of them empty |
| SubjectFinder.TitleSource | src/app/api/subject-finder/route.ts:13-16 | Every listed title is the non-empty string `title` of some fetched post: missing and non-string titles are dropped |
| SubjectFinder.FindSubject | src/app/api/subject-finder/route.ts:8-39 | A bad body or topic answers 400 without asking the model. The model gets the topic and the recent titles. The answer is the model's JSON exactly when it parses |
| SubjectFinder.AtMostFourTitles | src/app/api/subject-finder/route.ts:13-16 | With the fetch limited to four rows, at most four titles reach the model |
| SubjectFinder.TitlesKept | src/app/api/subject-finder/route.ts:15-16 | Non-empty string titles are all kept, in fetched order |
| SubjectFinder.TitleMember | src/app/api/subject-finder/route.ts:15-16 | Every non-empty string title is among the recent titles |
| SubjectFinder.ReplyUnchecked | src/app/api/subject-finder/route.ts:33-35 | The model's JSON is returned without checking for `subject` or `contentPrompt`, even when it is `{}` |
| CommentsApi.AuthUid | src/app/api/comments/route.ts:17-33 | No bearer token means no user; with a token, the user is exactly the verifier's answer for it |
| CommentsApi.BeforeSplits | src/app/api/comments/route.ts:23 | The text before the first later occurrence of the marker: a prefix that contains no marker and ends at one or at the end |
| CommentsApi.BearerToken | src/app/api/comments/route.ts:17-23 | A token exists exactly when the header starts with the case-sensitive `Bearer ` prefix, and it is taken from the text after it |
| CommentsApi.BearerTokenWhole | src/app/api/comments/route.ts:23 | A token with no `Bearer ` inside it is read back whole |
| CommentsApi.ParseCreate | src/app/api/comments/route.ts:7-11 | A body is valid exactly when `postId` is non-empty, `content` has 1 to 1000 characters, and `parentId` is absent or a string |
| CommentsApi.PostIdReportedFirst | src/app/api/comments/route.ts:8 | An empty `postId` is the first error reported, whatever the content |
| CommentsApi.ContentTooLong | src/app/api/comments/route.ts:9 | 1001 characters of content give "Comment is too long" |
| CommentsApi.UserName | src/app/api/comments/route.ts:108 | The display name if truthy, else the email if truthy, else "Anonymous" |
| CommentsApi.NewComment | src/app/api/comments/route.ts:105-114 | The new comment has the token's uid, is approved, and createdAt is now. `parentId` is set only when non-empty. `userName` is displayName, else email, else "Anonymous" |
| CommentsApi.PostAnswer | src/app/api/comments/route.ts:68-133 | The checks run in order, each refusal stated with the checks before it passed: 401 without a user, 500 for a non-JSON body, 400 with the schema's first message, 404 "Post not found", 404 "User not found", 403 "Account is inactive", 404 "Parent comment not found". A comment is created exactly when every check passes, and the answer carries that comment |
| CommentsApi.CommentsAfter | src/app/api/comments/route.ts:116 | A refusal leaves the comments unchanged; a creation adds the comment under its id |
| CommentsApi.PostWritesOnlyOnSuccess | src/app/api/comments/route.ts:116-123 | On every failure the collection is unchanged. A success adds exactly one comment and keeps all the others |
| CommentsApi.ParentMayBelongToAnotherPost | src/app/api/comments/route.ts:98-103 | The parent must exist, but not necessarily under the same post |
| CommentsApi.Approved | src/app/api/comments/route.ts:50-54 | Only approved comments of the given post are returned |
| CommentsApi.GetComments | src/app/api/comments/route.ts:37-59 | A missing or empty `postId` answers 400. Otherwise the comments come sorted by createdAt, ascending |
| CommentsApi.ApprovedMember | src/app/api/comments/route.ts:50-58 | A comment is returned exactly when it belongs to the post and is approved |
| CommentsApi.GetCommentsContents | src/app/api/comments/route.ts:50-59 | The answer is a permutation of the filtered comments. It has exactly the approved comments of the post, and keeps snapshot order among equal times |
| CommentThreads.IdsWhere | src/components/CommentsSection.tsx:51-62 | The pass collects at most one id per comment |
| CommentThreads.NodesOf | src/components/CommentsSection.tsx:46-48 | Every node is stored under its own id |
| CommentThreads.CopyNodes | src/components/CommentsSection.tsx:46-48 | The first pass creates one node per comment id, each with an empty reply list |
| CommentThreads.OrganizeComments | src/components/CommentsSection.tsx:41-65 | After the second pass, every node's replies are its children, and the top level is the comments without a parent, both in input order |
| CommentThreads.Attach | src/components/CommentsSection.tsx:51-62 | One step of the second pass: the comment's id goes onto its parent's replies when the parent exists, onto the top level when it has no parent, and onto no other list |
| CommentThreads.ChildIdsStep | src/components/CommentsSection.tsx:51-58 | Each step of the second pass appends the comment to its parent's replies, and to no other list |
| CommentThreads.IdsWhereMember | src/components/CommentsSection.tsx:51-62 | An id is collected exactly when some comment with that id passes the test |
| CommentThreads.IdsWhereOrder | src/components/CommentsSection.tsx:57-60 | Collected ids keep their input order |
| CommentThreads.NodesMember | src/components/CommentsSection.tsx:46-48 | The map holds exactly the ids of the input comments |
| CommentThreads.NodeIsCopy | src/components/CommentsSection.tsx:47 | With distinct ids, each node is a copy of its comment |
| CommentThreads.TopLevelExactly | src/components/CommentsSection.tsx:54-61 | The top level is exactly the comments whose `parentId` is absent or empty |
| CommentThreads.ReplyAttached | src/components/CommentsSection.tsx:51-58 | A reply is attached to its parent, whether the parent comes before it or after it |
| CommentThreads.RepliesInOrder | src/components/CommentsSection.tsx:57 | Each parent's replies keep input order |
| CommentThreads.OrphanDropped | src/components/CommentsSection.tsx:55-58 | A comment whose parent is not in the list appears nowhere |
| CommentThreads.AtMostOnce | src/components/CommentsSection.tsx:46-62 | With distinct ids, every comment appears at most once in the forest |
| CommentDisplay.ShowMenu | src/components/CommentDisplay.tsx:28-30 | The menu is offered exactly when the viewer wrote the comment or is an admin, and it is not being edited |
| CommentDisplay.MenuForAdmins | src/components/CommentDisplay.tsx:188 | A signed-out viewer never gets the menu, an admin always does, and nobody gets it while editing |
| CommentDisplay.ShowReply | src/components/CommentDisplay.tsx:225 | Reply is offered exactly below depth 3 and when not editing |
| CommentDisplay.AgeOf | src/components/CommentDisplay.tsx:106-121 | Under 2 minutes is "just now". Then whole minutes (2-59), whole hours (1-23) and whole days (1-6). A week or more shows the date |
| CommentDisplay.AgeClasses | src/components/CommentDisplay.tsx:111-117 | Each age range gets its class: minutes, hours or days |
| CommentDisplay.FormatDate | src/components/CommentDisplay.tsx:106-121 | Ages under 2 minutes read "just now"; then "{m}m ago", "{h}h ago" or "{d}d ago" with the whole units `AgeOf` bounds; a week or more gives the locale date |
| CommentDisplay.FutureIsJustNow | src/components/CommentDisplay.tsx:111-113 | A future timestamp reads "just now" |
| CommentDisplay.EditToSend | src/components/CommentDisplay.tsx:35 | A blank edit is not sent; otherwise the trimmed, non-empty text is sent |
| Tags.CountOne | src/app/tags/page.tsx:32-36 | One tag of one post updates the dictionary as the tally of all occurrences so far |
| Tags.CountDoc | src/app/tags/page.tsx:29-38 | One post's tags update the dictionary as the tally of all occurrences so far |
| Tags.KeyRank | src/app/tags/page.tsx:41 | A key ranks above 0 exactly when it is an array index (canonical decimal text of 0 to 2^32 - 2) |
| Tags.EntryArray | src/app/tags/page.tsx:41-46 | The entries become the rows of the tally in own-key order: array-index names first, ascending, then the others in creation order |
| Tags.TagIndex | src/app/tags/page.tsx:41-47 | One row per entry, ordered by count, largest first |
| Tags.LoadTags | src/app/tags/page.tsx:26-47 | The counting loops, the entry list and the sort compute the tag index |
| Tags.NamesInMember | src/app/tags/page.tsx:32-34 | A tag name has an entry exactly when some post lists it |
| Tags.CountMatchesPosts | src/app/tags/page.tsx:33-36 | Each tag's count equals the length of its posts list, which lists the posts that name it |
| Tags.PostsFollowDocumentOrder | src/app/tags/page.tsx:28-39 | Each posts list follows document order |
| Tags.NonArrayIgnored | src/app/tags/page.tsx:30 | A post whose tags are missing or not an array contributes nothing |
| Tags.TagListedTwice | src/app/tags/page.tsx:31-37 | A post listing a tag twice counts 2 and appears twice |
| Tags.NamesOnce | src/app/tags/page.tsx:41-46 | Each tag name appears exactly once in the index |
| Tags.RowNameOccurs | src/app/tags/page.tsx:41-46 | Every row's name occurs in some post |
| Tags.OccurringNameHasRow | src/app/tags/page.tsx:32-34 | Every name that occurs has a row |
| Tags.IndexKeysFirst | src/app/tags/page.tsx:41 | In the entry list an array-index name comes after array-index names only, each smaller than it |
| Tags.OtherKeysInCreationOrder | src/app/tags/page.tsx:32-41 | Names that are not array indices keep first-seen order |
| Tags.IndexKeyListedFirst | src/app/tags/page.tsx:41-47 | A post tagged "b" then "7" shows "7" first: both count 1 and the sort is stable |
| Tags.TiesKeepKeyOrder | src/app/tags/page.tsx:47 | Among equal counts, rows keep the entries' own-key order |
| Tags.CountsSumToOccurrences | src/app/tags/page.tsx:28-39 | The counts sum to the number of tag entries over array-tagged posts |
| Feed.DateText | src/app/feed.xml/route.ts:14 | A time in the Date range is formatted by `toUTCString`; NaN gives "Invalid Date" |
| Feed.ItemOf | src/app/feed.xml/route.ts:8-16 | `link` and `guid` are both baseUrl + `/blog/` + slug. A missing description gives "", and a missing createdAt gives the current time |
| Feed.ItemsOf | src/app/feed.xml/route.ts:7-16 | One item per post, in order |
| Feed.Xmls | src/app/feed.xml/route.ts:7-16 | One `<item>` text per item, in order |
| Feed.BaseUrl | src/app/feed.xml/route.ts:5 | The site URL if set and non-empty, else `http://localhost:3000` |
| Feed.ChannelTitle | src/app/feed.xml/route.ts:22 | The host name of the site URL if one is set, else "AI Blog" |
| Feed.FeedXml | src/app/feed.xml/route.ts:19-27 | The document is the channel head, then the items joined by newlines, then the channel tail. It fails exactly when the project id is missing or the host name cannot be parsed |
| Feed.ParseItemXml | src/app/feed.xml/route.ts:8-16 | An item with plain values reads back from its `<item>` text |
| Feed.ParseItemsXml | src/app/feed.xml/route.ts:7-17 | Items joined by newlines read back as the same list |
| Feed.OneItemPerPost | src/app/feed.xml/route.ts:7-27 | The feed body reads back as exactly one item per published post, in order |
| Feed.UnescapedTitleIsAmbiguous | src/app/feed.xml/route.ts:10 | A title containing the CDATA terminator is not escaped: two different items give the same text |
| Feed.MissingFieldsFallBack | src/app/feed.xml/route.ts:12-14 | A post with only a slug and a title gets an empty description and the current time |
| Images.ImageText | src/services/images.ts:6 | An empty prompt at position i uses `Image {i+1}`; any other prompt is used as it is |
| Images.PlaceholderImages | src/services/images.ts:5-7 | At most 4 URLs, one for each of the first prompts, in order, each built from its text |
| Images.ReadPlaceholderUrl | src/services/images.ts:6 | A URL reads back as its width, height and encoded text |
| Images.DefaultSize | src/services/images.ts:5-6 | Width and height default to 1200 and 630, and the second empty prompt reads "Image 2" |
| Images.OnlyFirstFour | src/services/images.ts:6 | Prompts after the fourth never change the result |
| Sidebar.Others | src/components/BlogSidebar.tsx:27 | Filtering never gives more posts than it is given |
| Sidebar.OthersMember | src/components/BlogSidebar.tsx:27 | A post is kept exactly when it is in the list and is not the current one |
| Sidebar.OthersEmpty | src/components/BlogSidebar.tsx:27 | Nothing is kept exactly when every post is the current one |
| Sidebar.Featured | src/components/BlogSidebar.tsx:27 | The first 4 of the other posts (or all of them), in order |
| Sidebar.FeaturedNeverCurrent | src/components/BlogSidebar.tsx:27 | A featured post is one of the posts, and never the current one |
| Sidebar.ShownTags | src/components/BlogSidebar.tsx:131 | The first 8 tags, in order |
| Sidebar.ShownSections | src/components/BlogSidebar.tsx:76-122 | The featured section renders exactly when some post is not the current one; the tags section exactly when there are tags |
| Sidebar.OthersAppend | src/components/BlogSidebar.tsx:27 | The filter distributes over concatenation |
| Sidebar.LaterPostsIgnored | src/components/BlogSidebar.tsx:27 | Posts after four featured ones never change the list |
| Sidebar.CurrentPostReplaced | src/components/BlogSidebar.tsx:27 | The filter runs before the slice, so a current post among the first four is replaced by the fifth |
| Sidebar.OthersKeepsAll | src/components/BlogSidebar.tsx:27 | With no current post in the list, every post is kept |
| AuthModal.Toggle | src/components/AuthModal.tsx:68 | The mode always changes |
| AuthModal.ToggleTwice | src/components/AuthModal.tsx:67-70 | Switching twice restores the mode |
| AuthModal.ErrorMessage | src/components/AuthModal.tsx:44-54 | user-not-found and wrong-password share a message; the three other known codes each have their own; anything else is generic |
| AuthModal.OtherCodesAreGeneric | src/components/AuthModal.tsx:53 | An unknown code, or none, gives the generic message |
| AuthModal.Submission | src/components/AuthModal.tsx:30-38 | Login signs in. In register mode, a blank display name makes no call; otherwise sign-up gets the trimmed name |
| AuthModal.LoginIgnoresDisplayName | src/components/AuthModal.tsx:30-31 | Login ignores the display name |
| AuthModal.AuthModal.constructor | src/components/AuthModal.tsx:12-18 | The dialog opens in the given mode with empty fields, no error, not loading |
| AuthModal.AuthModal.SwitchMode | src/components/AuthModal.tsx:67-70 | Toggles the mode and clears the error; the typed values stay |
| AuthModal.AuthModal.ResetForm | src/components/AuthModal.tsx:60-65 | Clears email, password, display name and error; the mode stays |
| AuthModal.AuthModal.HandleSubmit | src/components/AuthModal.tsx:24-58 | A blank register name sets "Display name is required" and makes no call. Success closes the dialog and clears the form. Failure shows the code's message and keeps the form |
| Appearance.NumberOr | src/app/admin/appearance/page.tsx:72 | Logical or on a stored number, with a fallback: absent or 0 gives the fallback |
| Appearance.Load | src/app/admin/appearance/page.tsx:50-81 | Flags default to true only when absent. Text and numbers fall back when absent, empty or 0. The social links are replaced only when stored |
| Appearance.NothingStoredKeepsInitial | src/app/admin/appearance/page.tsx:27-44 | With nothing stored, the form is its initial state, including three disabled links |
| Appearance.StoredFalsyValues | src/app/admin/appearance/page.tsx:64-72 | A stored false is kept, while a stored "" or 0 falls back (postsPerPage 0 becomes 12) |
| Appearance.Save | src/app/admin/appearance/page.tsx:88-106 | `commentsEnabled` goes only to the general document, and the other ten fields only to the footer document |
| Appearance.MergeFooter | src/app/admin/appearance/page.tsx:106 | For each of the ten footer fields, a written value replaces the stored one, and an unwritten one keeps it |
| Appearance.SaveThenLoad | src/app/admin/appearance/page.tsx:64-106 | Loading after saving gives the form back, except empty texts and a 0 count come back as defaults |
| Appearance.ReloadedKeepsOrdinaryForms | src/app/admin/appearance/page.tsx:65-72 | A form with no empty text and no 0 count comes back unchanged |
| Appearance.Edited | src/app/admin/appearance/page.tsx:119 | An edit changes only its field of the link |
| Appearance.UpdateSocialLink | src/app/admin/appearance/page.tsx:117-121 | Only the entry at the index changes; the length and the other entries stay |
| Appearance.UpdateOutsideUnchanged | src/app/admin/appearance/page.tsx:118-120 | An index outside the list leaves it unchanged |
| Appearance.ParsePostsPerPage | src/app/admin/appearance/page.tsx:244 | NaN or 0 becomes 12, and any other parsed number is kept |
| Appearance.PostsPerPageUnbounded | src/app/admin/appearance/page.tsx:241-244 | Every non-zero number is accepted: the 6-50 bounds are not enforced |
| Seo.Load | src/app/admin/seo/page.tsx:36-58 | With nothing stored the form stays as it is. Each of the eight text fields falls back to "" (robotsTxt to the default rules) when absent or empty. The flags default to true only when absent |
| Seo.InitialIsFallback | src/app/admin/seo/page.tsx:20-29 | The initial values equal the fallbacks |
| Seo.StoredFalseKept | src/app/admin/seo/page.tsx:52-53 | A stored false is kept |
| Seo.Save | src/app/admin/seo/page.tsx:65-76 | The payload always carries all ten fields |
| Seo.MergeSeo | src/app/admin/seo/page.tsx:77 | For each of the ten fields, a written value replaces the stored one, and an unwritten one keeps it |
| Seo.SaveThenLoad | src/app/admin/seo/page.tsx:44-77 | Loading after saving gives the form back, except an empty robotsTxt comes back as the default |
| SettingsPage.Load | src/app/admin/settings/page.tsx:27-30 | `??` defaults: title and topic "", frequency "daily", time "19:00". Stored empty strings are kept |
| SettingsPage.NothingStoredKeepsInitial | src/app/admin/settings/page.tsx:7-11 | With nothing stored, the form is its initial state |
| SettingsPage.Save | src/app/admin/settings/page.tsx:42-46 | The payload is title, topic and schedule, with no base prompt and no comments flag |
| SettingsPage.SaveThenLoad | src/app/admin/settings/page.tsx:27-47 | Loading after saving reproduces the form exactly |
| SettingsPage.SaveKeepsOtherFields | src/app/admin/settings/page.tsx:47 | Saving keeps the stored base prompt and comments flag |
| SettingsPage.UnrecognisedFrequencyKept | src/app/admin/settings/page.tsx:29 | An unrecognised stored frequency is passed through unchecked |

## Left out

- Firebase and OpenAI calls are not modelled. Snapshots, stored documents, the model's reply, the token verifier and the clock are parameters, and writes are returned as values. The Firestore query filter, order and limit (status = published, 4, 10, 50) are part of the snapshot.
- `getDoc` or `setDoc` failures, `console` output, `alert`, the `saving`/`loading` spinners and React's batching of state updates are not modelled.
- `toLowerCase` is modelled on ASCII only. Other case mappings and Unicode normalisation are not.
- String lengths count code points, not UTF-16 code units. This matters for the 1000-character comment limit and for non-BMP characters.
- Numbers are integers or NaN. `doubleValue`, fractions, exponent and hexadecimal forms of `Number`, and fractional hours in `formatDate` are not modelled. Ages are integer milliseconds.
- `encodeURIComponent`, `toUTCString`, `toLocaleDateString` and URL host-name parsing are opaque function parameters.
- `JSON.stringify` of the subject-finder prompt and the fixed system prompts are not modelled. The model receives the topic and the title list as values.
- Zod's error texts are modelled only for the comment schema. The other schemas report just success or failure, and V8's exception messages are not modelled.
- The type assertions on stored documents are trusted. Pages read typed optional fields, so a stored value of the wrong type is not a case. The same holds for a stored `socialLinks` that is falsy but present.
- Object key order is modelled only where it shows: the tags dictionary, whose entries are listed array indices first in ascending order and the other names in creation order. Keys that clash with object-prototype names are not modelled, and plain maps are used instead.
- FirestoreRest.CreatedAtKey: a `createdAt` that converts to NaN counts as 0. The source's comparator then returns NaN, which the sort reads as "equal" to every key, so the source's order for such records is left to the implementation.
- Firestore document-id validity (a `/` in an id) is not modelled.
- The comment edit and delete requests are not modelled. Their server handler is not part of this model, and only the blank-edit guard is (`CommentDisplay.EditToSend`).
- Appearance.UpdateSocialLink: only the `enabled` and `url` edits the page makes are modelled. An edit of `platform` is not.
- GenerateApi.Generate: src/types/content.ts:10 declares a `draft` status, but the generate route stores `status: "published"` with `images: []` (src/app/api/generate/route.ts:58,68); the model follows the route.
- SubjectFinder.AtMostFourTitles: the four-post limit is the fetch limit, so it is stated for a response of at most four rows.
- The RSS reader `Feed.ParseItems` exists only to state that items read back. It is not part of the source. `Feed.ParseItemsXml` needs values free of the CDATA terminator and of `<`. `Feed.UnescapedTitleIsAmbiguous` shows what goes wrong without that.
