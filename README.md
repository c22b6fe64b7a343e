# Campus app notifications, comments, post dialogs and profile statistics in Dafny

A model of the client-side logic of a campus community Android app: the
notification centre (its view model, list rendering helpers and the
notification record), the comment dialog and like button, the three post
dialogs (marketplace listing, lost-and-found post, safety report) and the
profile drawer's statistics.

Modules, one per file:

- `Wrappers` — `Option`, `Result`, and how a missing exception message
  prints in a Kotlin string template ("null").
- `Numbers` — Kotlin `Int` wrap-around (`Wrap32`) and the decimal rendering of
  clock readings used as post ids.
- `Text` — ASCII `isBlank`, case folding, `equals(ignoreCase = true)`,
  `substringBefore`, and text built line by line with `appendLine`.
- `Notifications` — the notification record, its five kinds, and how a stored
  document becomes a record (defaults for missing fields, an unknown type name
  drops the document).
- `NotificationStore` — the class `NotificationViewModel` with its list,
  unread count and toast, changed in place by loading, the snapshot listener,
  mark-as-read, mark-all-as-read, delete and dismiss. Every method is proved
  against specification functions on sequences (`ParseAll`, `ReceiveAll`,
  `MarkFirstRead`, `AllRead`, `RemoveId`), and the lemmas beside them prove
  what the feed promises: the unread count always matches the list, ids stay
  unique, a record already listed is never added again, the listener's first
  snapshot re-delivering the loaded records changes nothing, and a snapshot of
  several new records puts them in front in reverse order.
- `NotificationComponents` — relative timestamps ("Just now", "5m ago", …),
  the unread badge, what a click and the overflow menu do, icon and colour per
  kind.
- `CommentComponents` — the class `CommentDialog` (load, delete, post) and
  the class `LikeButton` (like/unlike with 32-bit count, liker list), plus who
  may delete a comment.
- `Posts` — the feed post the dialogs create, its image link and id.
- `MarketplacePostDialog`, `LostAndFoundPostDialog`, `SafetyReportDialog` —
  one class per form, its field edits, the enabled rule of its submit button,
  the post text and the post handed to the feed; the marketplace price filter
  is proved equal to the regular expression it uses.
- `ProfileDrawer` — which fetched posts are the user's, their count, their
  total likes in 32-bit arithmetic, and the name shown.

Remote calls (Firestore reads and writes, storage upload, the like lookup)
are not made: their outcome is a parameter of the method that receives it
(`remoteOk`, a `Result`, an `Option`, a `SubmitOutcome`). The clock is a
`now` parameter, and the text `SimpleDateFormat` produces is a `dateText`
parameter.

## Model

| member | source | states |
|---|---|---|
| Numbers.Wrap32 | app/src/main/java/com/example/mobile_programming_project/ui/components/ProfileDrawer.kt:66-68 | Kotlin `Int` arithmetic: the result is a 32-bit value congruent to the input modulo 2^32, and equal to it when it is already in range |
| Numbers.WrapAddLeft | app/src/main/java/com/example/mobile_programming_project/ui/components/ProfileDrawer.kt:66-68 | wrapping a partial sum before adding the next term gives the same `Int` as wrapping once at the end |
| Numbers.NatToString | app/src/main/java/com/example/mobile_programming_project/ui/components/NotificationComponents.kt:278 | decimal text of a number: non-empty ASCII digits, one digit exactly below ten, and a leading '0' only for zero itself |
| Numbers.DecimalRoundTrip | app/src/main/java/com/example/mobile_programming_project/ui/components/MarketplacePostDialog.kt:136 | `Long.toString()` of a non-negative clock reading is read back as the same number |
| Text.SubstringBefore | app/src/main/java/com/example/mobile_programming_project/ui/components/ProfileDrawer.kt:60 | `substringBefore('@')`: a prefix of the input without the delimiter, the whole input when the delimiter is absent, and otherwise stopping just before its first occurrence |
| Text.SubstringBeforeAt | app/src/main/java/com/example/mobile_programming_project/ui/components/ProfileDrawer.kt:134 | for an address local@domain whose local part holds no '@', the part before '@' is the local part |
| Text.LowerSubstringBefore | app/src/main/java/com/example/mobile_programming_project/ui/components/ProfileDrawer.kt:60-62 | lower-casing commutes with cutting before a non-letter delimiter |
| Text.EqualsIgnoreCaseIsLowerEquality | app/src/main/java/com/example/mobile_programming_project/ui/components/ProfileDrawer.kt:60-62 | `equals(ignoreCase = true)` holds exactly when the lower-cased strings are equal |
| Text.LowerIdempotent | app/src/main/java/com/example/mobile_programming_project/ui/components/ProfileDrawer.kt:60-62 | lower-casing twice is lower-casing once |
| Text.Upper | app/src/main/java/com/example/mobile_programming_project/ui/components/LostandFoundPostDialog.kt:117 | `uppercase()` maps each ASCII lower-case letter to its own capital (32 code points back) and keeps every other character, with the length unchanged |
| Text.UpperKeepsLetters | app/src/main/java/com/example/mobile_programming_project/ui/components/LostandFoundPostDialog.kt:117 | upper-casing changes only case: the result equals the input ignoring case, and upper-casing again changes nothing |
| Text.SplitLinesOfLines | app/src/main/java/com/example/mobile_programming_project/ui/components/MarketplacePostDialog.kt:125-133 | text built with `appendLine` from lines that hold no line feed splits back into exactly those lines |
| Text.LinesLength | app/src/main/java/com/example/mobile_programming_project/ui/components/MarketplacePostDialog.kt:125-133 | text built with `appendLine` has one character per line more than the lines' lengths together, and ends in a line feed |
| Text.NotBlankHasVisibleChar | app/src/main/java/com/example/mobile_programming_project/ui/components/MarketplacePostDialog.kt:96-101 | `isNotBlank` holds exactly when some character is not whitespace, so the empty string is blank |
| Notifications.AllTypesComplete | app/src/main/java/com/example/mobile_programming_project/Notifications.kt:14-20 | there are exactly five notification kinds, each listed once |
| Notifications.ValueOf | app/src/main/java/com/example/mobile_programming_project/viewmodel/NotificationViewModel.kt:56-58 | `NotificationType.valueOf`: a result is the kind whose name is the input; names that are not kinds give no result (the source throws) |
| Notifications.ValueOfTypeName | app/src/main/java/com/example/mobile_programming_project/Notifications.kt:14-20 | every kind's name reads back as that kind |
| Notifications.NewNotification | app/src/main/java/com/example/mobile_programming_project/Notifications.kt:3-12 | the record built from the defaults: empty id, title and message, GENERAL, the current time, unread, no related post and no sender |
| Notifications.ParseDocument | app/src/main/java/com/example/mobile_programming_project/viewmodel/NotificationViewModel.kt:50-67 | a document is dropped exactly when it names a type that is not a kind; otherwise the record keeps the document's id |
| Notifications.ParseDocumentFields | app/src/main/java/com/example/mobile_programming_project/viewmodel/NotificationViewModel.kt:50-67 | field by field: a missing title or message is "", a missing type GENERAL, a missing timestamp the clock and a missing isRead false; every present field and the two optional fields are kept |
| Notifications.ParseStoredRecord | app/src/main/java/com/example/mobile_programming_project/viewmodel/NotificationViewModel.kt:52-63 | a record stored with all its fields is read back unchanged, whatever the clock |
| Notifications.ParseEmptyDocument | app/src/main/java/com/example/mobile_programming_project/viewmodel/NotificationViewModel.kt:52-63 | a document lacking every optional field reads as the default record under its id |
| Notifications.ParseAll | app/src/main/java/com/example/mobile_programming_project/viewmodel/NotificationViewModel.kt:50-67 | `mapNotNull` of the parse never yields more records than documents |
| Notifications.ParseAllMembers | app/src/main/java/com/example/mobile_programming_project/viewmodel/NotificationViewModel.kt:50-67 | every loaded record comes from a query document, and every parseable document contributes its record |
| Notifications.ParseAllAppend | app/src/main/java/com/example/mobile_programming_project/viewmodel/NotificationViewModel.kt:50-67 | the load keeps the query's (descending timestamp) order |
| Notifications.ParseAllKeepsAll | app/src/main/java/com/example/mobile_programming_project/viewmodel/NotificationViewModel.kt:50-67 | when no document names an unknown type, record i is the parse of document i and nothing is dropped |
| Notifications.ParseAllDistinctIds | app/src/main/java/com/example/mobile_programming_project/viewmodel/NotificationViewModel.kt:50-67 | distinct document ids give a list without duplicate ids |
| NotificationStore.UnreadMembers | app/src/main/java/com/example/mobile_programming_project/viewmodel/NotificationViewModel.kt:155 | `filter { !it.isRead }`: exactly the unread records of the list |
| NotificationStore.UnreadAppend | app/src/main/java/com/example/mobile_programming_project/viewmodel/NotificationViewModel.kt:155 | the unread filter keeps list order across concatenation |
| NotificationStore.UnreadCountIsPositionCount | app/src/main/java/com/example/mobile_programming_project/viewmodel/NotificationViewModel.kt:236-238 | `count { !it.isRead }` is the number of positions holding an unread record |
| NotificationStore.NoneUnread | app/src/main/java/com/example/mobile_programming_project/viewmodel/NotificationViewModel.kt:236-238 | a list with every record read has an unread count of 0 |
| NotificationStore.UniqueIdsCount | app/src/main/java/com/example/mobile_programming_project/viewmodel/NotificationViewModel.kt:108-113 | in a list without duplicate ids there are as many ids as records |
| NotificationStore.IndexOfFirst | app/src/main/java/com/example/mobile_programming_project/viewmodel/NotificationViewModel.kt:136 | `indexOfFirst`: -1 exactly when no record has the id, otherwise the first position holding it |
| NotificationStore.MarkFirstRead | app/src/main/java/com/example/mobile_programming_project/viewmodel/NotificationViewModel.kt:136-140 | only the first record with the id is marked read; every other record and every id is unchanged |
| NotificationStore.MarkFirstReadCount | app/src/main/java/com/example/mobile_programming_project/viewmodel/NotificationViewModel.kt:136-140 | marking a record read lowers the unread count by one exactly when it was unread |
| NotificationStore.AllRead | app/src/main/java/com/example/mobile_programming_project/viewmodel/NotificationViewModel.kt:164-168 | every record is marked read, in place |
| NotificationStore.AllReadCount | app/src/main/java/com/example/mobile_programming_project/viewmodel/NotificationViewModel.kt:164-169 | after marking all read the unread count is 0 and ids stay unique |
| NotificationStore.UnreadIds | app/src/main/java/com/example/mobile_programming_project/viewmodel/NotificationViewModel.kt:155-161 | one remote update is issued per unread record |
| NotificationStore.RemoveId | app/src/main/java/com/example/mobile_programming_project/viewmodel/NotificationViewModel.kt:188 | `removeIf { it.id == id }`: no record with the id remains |
| NotificationStore.RemoveIdMembers | app/src/main/java/com/example/mobile_programming_project/viewmodel/NotificationViewModel.kt:188 | the records left are exactly those whose id differs |
| NotificationStore.RemoveIdAppend | app/src/main/java/com/example/mobile_programming_project/viewmodel/NotificationViewModel.kt:188 | removal keeps the order of the other records |
| NotificationStore.RemoveAbsentId | app/src/main/java/com/example/mobile_programming_project/viewmodel/NotificationViewModel.kt:188 | removing an id that is not present changes nothing |
| NotificationStore.RemoveUniqueId | app/src/main/java/com/example/mobile_programming_project/viewmodel/NotificationViewModel.kt:188-189 | with unique ids, removal takes out exactly the one record with the id, and the unread count drops by one exactly when that record was unread |
| NotificationStore.RemoveIdKeepsIdsUnique | app/src/main/java/com/example/mobile_programming_project/viewmodel/NotificationViewModel.kt:188 | removal keeps ids unique |
| NotificationStore.AdmitKeepsIds | app/src/main/java/com/example/mobile_programming_project/viewmodel/NotificationViewModel.kt:108-113 | a new record is admitted at most once: ids stay unique, the id set gains the record's id, and a known id leaves list and toast untouched |
| NotificationStore.AdmitNew | app/src/main/java/com/example/mobile_programming_project/viewmodel/NotificationViewModel.kt:109-111 | an unknown record is put in front of the list and becomes the toast |
| NotificationStore.ReceiveStep | app/src/main/java/com/example/mobile_programming_project/viewmodel/NotificationViewModel.kt:90-120 | one change: only a parseable ADDED document changes anything, and then it is put in front of the list as the toast; ids stay unique |
| NotificationStore.AddedIdsMembers | app/src/main/java/com/example/mobile_programming_project/viewmodel/NotificationViewModel.kt:90-113 | an id is among a snapshot's added ids exactly when some change of the snapshot is a parseable ADDED document with that id |
| NotificationStore.ReceiveAllIds | app/src/main/java/com/example/mobile_programming_project/viewmodel/NotificationViewModel.kt:90-120 | a snapshot keeps ids unique and adds exactly the ids of its parseable ADDED documents |
| NotificationStore.ReceiveAllSize | app/src/main/java/com/example/mobile_programming_project/viewmodel/NotificationViewModel.kt:90-120 | after a snapshot the list has one record per distinct id seen |
| NotificationStore.ReceiveKnownIds | app/src/main/java/com/example/mobile_programming_project/viewmodel/NotificationViewModel.kt:108-113 | a snapshot whose parseable ADDED documents are all already listed changes nothing |
| NotificationStore.LoadedSnapshotAbsorbed | app/src/main/java/com/example/mobile_programming_project/viewmodel/NotificationViewModel.kt:39-122 | the listener's first snapshot, which re-delivers the loaded documents as ADDED, leaves the loaded list and the toast unchanged |
| NotificationStore.DuplicateAddedIgnored | app/src/main/java/com/example/mobile_programming_project/viewmodel/NotificationViewModel.kt:108-109 | an ADDED document whose id is listed is ignored |
| NotificationStore.ReceiveNew | app/src/main/java/com/example/mobile_programming_project/viewmodel/NotificationViewModel.kt:108-113 | an ADDED document with a new id is prepended and shown as the toast |
| NotificationStore.NewBatchReversed | app/src/main/java/com/example/mobile_programming_project/viewmodel/NotificationViewModel.kt:90-113 | a snapshot of new ADDED documents ends up in front of the list in reverse snapshot order, with the last one as the toast |
| NotificationStore.SeedAddMarkScenario | app/src/main/java/com/example/mobile_programming_project/viewmodel/NotificationViewModel.kt:108-140 | a concrete add-then-mark-read run: the new record leads, two then one unread |
| NotificationStore.NotificationViewModel.constructor | app/src/main/java/com/example/mobile_programming_project/viewmodel/NotificationViewModel.kt:31-34 | creation registers the listener only for a signed-in user and loads the list; no toast; given documents with distinct ids, no id is listed twice |
| NotificationStore.NotificationViewModel.UpdateUnreadCount | app/src/main/java/com/example/mobile_programming_project/viewmodel/NotificationViewModel.kt:236-238 | the unread count agrees with the list |
| NotificationStore.NotificationViewModel.LoadNotifications | app/src/main/java/com/example/mobile_programming_project/viewmodel/NotificationViewModel.kt:39-76 | with a user and a successful query the list is the parsed result in query order; otherwise nothing changes; ids stay unique, given a query result with distinct document ids |
| NotificationStore.NotificationViewModel.OnSnapshot | app/src/main/java/com/example/mobile_programming_project/viewmodel/NotificationViewModel.kt:81-122 | a failed snapshot or no listener changes nothing; otherwise list and toast become the result of applying the changes in order, with the unread count kept in step and no id listed twice |
| NotificationStore.NotificationViewModel.MarkAsRead | app/src/main/java/com/example/mobile_programming_project/viewmodel/NotificationViewModel.kt:127-145 | after remote success the first record with the id is marked read; on failure nothing changes; ids stay unique |
| NotificationStore.NotificationViewModel.MarkAllAsRead | app/src/main/java/com/example/mobile_programming_project/viewmodel/NotificationViewModel.kt:150-174 | without a user nothing happens; otherwise one update per unread record is issued, every record is read and the count is 0; ids stay unique |
| NotificationStore.NotificationViewModel.DeleteNotification | app/src/main/java/com/example/mobile_programming_project/viewmodel/NotificationViewModel.kt:179-194 | after remote success every record with the id is removed; on failure nothing changes; ids stay unique |
| NotificationStore.NotificationViewModel.DismissToast | app/src/main/java/com/example/mobile_programming_project/viewmodel/NotificationViewModel.kt:232-234 | the toast is cleared; list and unread count are untouched, so the invariant holds |
| NotificationComponents.Bucket | app/src/main/java/com/example/mobile_programming_project/ui/components/NotificationComponents.kt:272-283 | the five age ranges are disjoint and cover every difference; minutes, hours and days are floor quotients in 1..59, 1..23 and 1..6 |
| NotificationComponents.ReadRender | app/src/main/java/com/example/mobile_programming_project/ui/components/NotificationComponents.kt:276-280 | each relative label is rendered so that it reads back as the same label |
| NotificationComponents.FormatTimestamp | app/src/main/java/com/example/mobile_programming_project/ui/components/NotificationComponents.kt:272-283 | under a minute the text is "Just now"; under an hour, a day and a week it is the whole number of minutes, hours or days elapsed in plain decimal followed by "m ago", "h ago" or "d ago", and it reads back as the age bucket; from a week on it is the formatted date |
| NotificationComponents.BadgeLabel | app/src/main/java/com/example/mobile_programming_project/ui/components/NotificationComponents.kt:102-111 | a badge exactly for a positive count: its decimal digit up to 9, "9+" above |
| NotificationComponents.ItemClick | app/src/main/java/com/example/mobile_programming_project/ui/components/NotificationComponents.kt:134-137 | a click always opens the item, and first marks it read exactly when it is unread |
| NotificationComponents.MenuEntries | app/src/main/java/com/example/mobile_programming_project/ui/components/NotificationComponents.kt:221-242 | the menu always ends with Delete and offers "Mark as read" exactly for an unread item |
| NotificationComponents.ClickMatchesMenu | app/src/main/java/com/example/mobile_programming_project/ui/components/NotificationComponents.kt:134-137 | a click marks read exactly when the menu offers it |
| NotificationComponents.ColourFor | app/src/main/java/com/example/mobile_programming_project/ui/components/NotificationComponents.kt:262-270 | every kind's colour is an opaque ARGB value |
| NotificationComponents.IconAndColourDistinguishKinds | app/src/main/java/com/example/mobile_programming_project/ui/components/NotificationComponents.kt:252-270 | no two kinds share an icon or a colour |
| CommentComponents.RemoveComment | app/src/main/java/com/example/mobile_programming_project/ui/components/CommentComponents.kt:117 | `filter { it.id != id }`: no comment with the id remains |
| CommentComponents.RemoveCommentMembers | app/src/main/java/com/example/mobile_programming_project/ui/components/CommentComponents.kt:117 | the comments left are exactly those with another id |
| CommentComponents.RemoveCommentAppend | app/src/main/java/com/example/mobile_programming_project/ui/components/CommentComponents.kt:117 | removal keeps the order of the other comments |
| CommentComponents.RemoveCommentIdempotent | app/src/main/java/com/example/mobile_programming_project/ui/components/CommentComponents.kt:117 | removing an absent id changes nothing; removing twice is removing once |
| CommentComponents.AuthorCanDelete | app/src/main/java/com/example/mobile_programming_project/ui/components/CommentComponents.kt:214 | the delete button shows for a comment whose author is the email's part before '@' |
| CommentComponents.CanDeleteNeeds | app/src/main/java/com/example/mobile_programming_project/ui/components/CommentComponents.kt:214 | no delete button without a signed-in email, nor for an author name containing '@' |
| CommentComponents.CanDeleteByLocalPart | app/src/main/java/com/example/mobile_programming_project/ui/components/CommentComponents.kt:214 | the button depends only on the email's local part, and shows exactly when it equals the author |
| CommentComponents.CommentDialog.constructor | app/src/main/java/com/example/mobile_programming_project/ui/components/CommentComponents.kt:35-39 | a dialog opens loading, with no comments, empty text, not posting and no error |
| CommentComponents.CommentDialog.LoadComments | app/src/main/java/com/example/mobile_programming_project/ui/components/CommentComponents.kt:42-57 | a successful load replaces the comments; a failure keeps them and reports "Failed to load comments: " with the message; loading ends either way |
| CommentComponents.CommentDialog.DeleteComment | app/src/main/java/com/example/mobile_programming_project/ui/components/CommentComponents.kt:116-121 | after remote success the comment is filtered out; otherwise nothing changes |
| CommentComponents.CommentDialog.EditText | app/src/main/java/com/example/mobile_programming_project/ui/components/CommentComponents.kt:131-141 | the text field takes the edit unless a post is in flight |
| CommentComponents.CommentDialog.PressPost | app/src/main/java/com/example/mobile_programming_project/ui/components/CommentComponents.kt:145-172 | posting starts exactly when not posting and the text is not blank |
| CommentComponents.CommentDialog.CompletePost | app/src/main/java/com/example/mobile_programming_project/ui/components/CommentComponents.kt:149-168 | a post clears the text and takes the reloaded comments; a refused post reports "Failed to post comment"; an exception reports "Error: " with its message; posting ends in every case |
| CommentComponents.Toggle | app/src/main/java/com/example/mobile_programming_project/ui/components/CommentComponents.kt:264-276 | only a successful remote call flips the like and moves the count by one in 32-bit arithmetic (wrapping at the ends) |
| CommentComponents.ToggleTwice | app/src/main/java/com/example/mobile_programming_project/ui/components/CommentComponents.kt:264-276 | liking then unliking restores the state, wrap-around included |
| CommentComponents.LikeButton.constructor | app/src/main/java/com/example/mobile_programming_project/ui/components/CommentComponents.kt:247-250 | the button starts unliked with the given count, loading, with no liker list shown |
| CommentComponents.LikeButton.FinishLoading | app/src/main/java/com/example/mobile_programming_project/ui/components/CommentComponents.kt:252-255 | the liked flag becomes the looked-up value and the button is enabled |
| CommentComponents.LikeButton.Click | app/src/main/java/com/example/mobile_programming_project/ui/components/CommentComponents.kt:261-279 | while loading a click does nothing; otherwise the state becomes the toggle, and the new count is reported exactly on remote success |
| CommentComponents.LikeButton.ClickCount | app/src/main/java/com/example/mobile_programming_project/ui/components/CommentComponents.kt:293-297 | tapping the count shows the liker list exactly when the count is positive |
| CommentComponents.LikeButton.DismissWhoLiked | app/src/main/java/com/example/mobile_programming_project/ui/components/CommentComponents.kt:302-305 | dismissing hides the liker list |
| Posts.AttachmentUrl | app/src/main/java/com/example/mobile_programming_project/ui/components/MarketplacePostDialog.kt:108-122 | a post carries an image link exactly when an image was chosen and its bytes were read, and then it is the upload's public URL |
| Posts.NewPost | app/src/main/java/com/example/mobile_programming_project/ui/components/MarketplacePostDialog.kt:135-144 | the id is the decimal clock reading without leading zeros, the post is "Just now" with no likes or comments, and keeps author, category, content and link |
| Posts.NewPostIdsDiffer | app/src/main/java/com/example/mobile_programming_project/ui/components/MarketplacePostDialog.kt:136 | posts made at different clock readings have different ids |
| MarketplacePostDialog.PriceShapeIsPattern | app/src/main/java/com/example/mobile_programming_project/ui/components/MarketplacePostDialog.kt:302 | the scanning check accepts exactly the strings matching `^\d*\.?\d{0,2}$` |
| MarketplacePostDialog.AcceptsPrice | app/src/main/java/com/example/mobile_programming_project/ui/components/MarketplacePostDialog.kt:302 | a price edit is accepted exactly when it matches the pattern |
| MarketplacePostDialog.StoredPriceShape | app/src/main/java/com/example/mobile_programming_project/ui/components/MarketplacePostDialog.kt:300-304 | an accepted price holds only digits and at most one point, with at most two digits after it |
| MarketplacePostDialog.WellFormedPriceAccepted | app/src/main/java/com/example/mobile_programming_project/ui/components/MarketplacePostDialog.kt:300-304 | conversely, any string of digits and points with at most one point and at most two digits after it is accepted |
| MarketplacePostDialog.ListingContentLines | app/src/main/java/com/example/mobile_programming_project/ui/components/MarketplacePostDialog.kt:125-133 | the listing text ends in a line feed and splits back into its seven lines |
| MarketplacePostDialog.MarketplaceForm.constructor | app/src/main/java/com/example/mobile_programming_project/ui/components/MarketplacePostDialog.kt:56-63 | an empty form with both placeholders, no image, not uploading, no error |
| MarketplacePostDialog.MarketplaceForm.EditItemName | app/src/main/java/com/example/mobile_programming_project/ui/components/MarketplacePostDialog.kt:205-211 | the name takes the edit unless uploading |
| MarketplacePostDialog.MarketplaceForm.EditDescription | app/src/main/java/com/example/mobile_programming_project/ui/components/MarketplacePostDialog.kt:318-326 | the description takes the edit unless uploading |
| MarketplacePostDialog.MarketplaceForm.EditPrice | app/src/main/java/com/example/mobile_programming_project/ui/components/MarketplacePostDialog.kt:298-314 | the price takes an accepted edit unless uploading, and always keeps the accepted shape |
| MarketplacePostDialog.MarketplaceForm.SelectCategory | app/src/main/java/com/example/mobile_programming_project/ui/components/MarketplacePostDialog.kt:246-251 | choosing a listed category sets it and satisfies the post guard's category condition |
| MarketplacePostDialog.MarketplaceForm.SelectCondition | app/src/main/java/com/example/mobile_programming_project/ui/components/MarketplacePostDialog.kt:284-289 | choosing a listed condition sets it and satisfies the post guard's condition check |
| MarketplacePostDialog.MarketplaceForm.PickImage | app/src/main/java/com/example/mobile_programming_project/ui/components/MarketplacePostDialog.kt:87-89 | a picked image replaces the previous one; a cancelled pick keeps it |
| MarketplacePostDialog.MarketplaceForm.Submit | app/src/main/java/com/example/mobile_programming_project/ui/components/MarketplacePostDialog.kt:96-104 | uploading starts, clearing the error, exactly when the button is enabled |
| MarketplacePostDialog.MarketplaceForm.CompleteSubmit | app/src/main/java/com/example/mobile_programming_project/ui/components/MarketplacePostDialog.kt:106-171 | on success the "Marketplace" post by "You" with the listing text is handed on; on failure "Failed to create listing: " with the message; uploading ends either way |
| LostAndFoundPostDialog.PostContentLines | app/src/main/java/com/example/mobile_programming_project/ui/components/LostandFoundPostDialog.kt:116-123 | the post text ends in a line feed and splits back into its six lines |
| LostAndFoundPostDialog.LostAndFoundForm.constructor | app/src/main/java/com/example/mobile_programming_project/ui/components/LostandFoundPostDialog.kt:48-56 | a "Lost" form dated now, category placeholder, empty fields |
| LostAndFoundPostDialog.LostAndFoundForm.SelectPostType | app/src/main/java/com/example/mobile_programming_project/ui/components/LostandFoundPostDialog.kt:221-227 | choosing Lost or Found sets the type |
| LostAndFoundPostDialog.LostAndFoundForm.SelectCategory | app/src/main/java/com/example/mobile_programming_project/ui/components/LostandFoundPostDialog.kt:272-278 | choosing a listed category sets it and satisfies the post guard's category condition |
| LostAndFoundPostDialog.LostAndFoundForm.ConfirmDate | app/src/main/java/com/example/mobile_programming_project/ui/components/LostandFoundPostDialog.kt:376-379 | a selected day replaces the date; none keeps it |
| LostAndFoundPostDialog.LostAndFoundForm.EditTitle | app/src/main/java/com/example/mobile_programming_project/ui/components/LostandFoundPostDialog.kt:237-243 | the title takes the edit unless uploading |
| LostAndFoundPostDialog.LostAndFoundForm.EditLocation | app/src/main/java/com/example/mobile_programming_project/ui/components/LostandFoundPostDialog.kt:298-307 | the location takes the edit unless uploading |
| LostAndFoundPostDialog.LostAndFoundForm.EditDescription | app/src/main/java/com/example/mobile_programming_project/ui/components/LostandFoundPostDialog.kt:312-320 | the description takes the edit unless uploading |
| LostAndFoundPostDialog.LostAndFoundForm.PickAttachment | app/src/main/java/com/example/mobile_programming_project/ui/components/LostandFoundPostDialog.kt:75-77 | a picked photo replaces the previous one; a cancelled pick keeps it |
| LostAndFoundPostDialog.LostAndFoundForm.Submit | app/src/main/java/com/example/mobile_programming_project/ui/components/LostandFoundPostDialog.kt:84-91 | uploading starts, clearing the error, exactly when the button is enabled |
| LostAndFoundPostDialog.LostAndFoundForm.CompleteSubmit | app/src/main/java/com/example/mobile_programming_project/ui/components/LostandFoundPostDialog.kt:93-165 | on success the "Lost & Found" post by "You" with the post text and dated line is handed on; on failure "Failed to submit post: " with the message; uploading ends either way |
| SafetyReportDialog.UserNameFor | app/src/main/java/com/example/mobile_programming_project/ui/components/SafetyReportDialog.kt:133 | the author is "Anonymous User" exactly for an anonymous report, "You" otherwise |
| SafetyReportDialog.ReportContentLines | app/src/main/java/com/example/mobile_programming_project/ui/components/SafetyReportDialog.kt:124-131 | the report text ends in a line feed and splits back into its six lines |
| SafetyReportDialog.SafetyReportForm.constructor | app/src/main/java/com/example/mobile_programming_project/ui/components/SafetyReportDialog.kt:57-64 | an anonymous report dated now, incident placeholder, empty fields |
| SafetyReportDialog.SafetyReportForm.SelectReportType | app/src/main/java/com/example/mobile_programming_project/ui/components/SafetyReportDialog.kt:223-229 | choosing Anonymous or Identified sets the type |
| SafetyReportDialog.SafetyReportForm.SelectIncidentType | app/src/main/java/com/example/mobile_programming_project/ui/components/SafetyReportDialog.kt:263-269 | choosing a listed incident type sets it and satisfies the submit guard's incident condition |
| SafetyReportDialog.SafetyReportForm.ConfirmDate | app/src/main/java/com/example/mobile_programming_project/ui/components/SafetyReportDialog.kt:367-370 | a selected day replaces the date; none keeps it |
| SafetyReportDialog.SafetyReportForm.EditLocation | app/src/main/java/com/example/mobile_programming_project/ui/components/SafetyReportDialog.kt:289-299 | the location takes the edit unless uploading |
| SafetyReportDialog.SafetyReportForm.EditDescription | app/src/main/java/com/example/mobile_programming_project/ui/components/SafetyReportDialog.kt:303-312 | the description takes the edit unless uploading |
| SafetyReportDialog.SafetyReportForm.PickAttachment | app/src/main/java/com/example/mobile_programming_project/ui/components/SafetyReportDialog.kt:84-86 | a picked file replaces the previous one; a cancelled pick keeps it |
| SafetyReportDialog.SafetyReportForm.Submit | app/src/main/java/com/example/mobile_programming_project/ui/components/SafetyReportDialog.kt:93-100 | uploading starts, clearing the error, exactly when the button is enabled |
| SafetyReportDialog.SafetyReportForm.CompleteSubmit | app/src/main/java/com/example/mobile_programming_project/ui/components/SafetyReportDialog.kt:101-170 | on success the "Safety" post under the name the report type decides is handed on; on failure "Failed to submit report: " with the message; uploading ends either way |
| ProfileDrawer.IsUsersPostIgnoresEmailCase | app/src/main/java/com/example/mobile_programming_project/ui/components/ProfileDrawer.kt:55-63 | whether a post is the user's does not depend on the case of the signed-in email |
| ProfileDrawer.OwnPostsRecognised | app/src/main/java/com/example/mobile_programming_project/ui/components/ProfileDrawer.kt:55-63 | a post named by the email's local part, or carrying the email, is the user's |
| ProfileDrawer.UserPosts | app/src/main/java/com/example/mobile_programming_project/ui/components/ProfileDrawer.kt:55-63 | only the user's posts are kept |
| ProfileDrawer.UserPostsMembers | app/src/main/java/com/example/mobile_programming_project/ui/components/ProfileDrawer.kt:55-63 | the kept posts are exactly the fetched posts that are the user's |
| ProfileDrawer.UserPostsAppend | app/src/main/java/com/example/mobile_programming_project/ui/components/ProfileDrawer.kt:55-63 | the filter keeps query order |
| ProfileDrawer.LikesSumIsWrappedTotal | app/src/main/java/com/example/mobile_programming_project/ui/components/ProfileDrawer.kt:66-68 | the displayed likes are the exact total of stored counts wrapped once to 32 bits |
| ProfileDrawer.LikesSumExact | app/src/main/java/com/example/mobile_programming_project/ui/components/ProfileDrawer.kt:66-68 | with a total that fits in `Int` the displayed likes are the true total |
| ProfileDrawer.DisplayName | app/src/main/java/com/example/mobile_programming_project/ui/components/ProfileDrawer.kt:134 | "User" without an email, otherwise the email's part before '@' |
| ProfileDrawer.DisplayNameOfAddress | app/src/main/java/com/example/mobile_programming_project/ui/components/ProfileDrawer.kt:134 | for local@domain the drawer shows the local part |
| ProfileDrawer.ProfileStats.constructor | app/src/main/java/com/example/mobile_programming_project/ui/components/ProfileDrawer.kt:37-38 | both statistics start at 0 |
| ProfileDrawer.ProfileStats.FetchStats | app/src/main/java/com/example/mobile_programming_project/ui/components/ProfileDrawer.kt:43-75 | without a user or an email nothing changes; a successful query sets the count and likes of the user's posts; a failure resets both to 0 |
## Left out

- Firestore, Supabase storage, Firebase Auth and the content resolver: their results are parameters; the query filters and ordering (`whereEqualTo`, `orderBy`) are taken to have been applied by the store, so a query result is a sequence in its delivered order.
- Coroutines and the snapshot listener thread: every launched block is modelled as one step that runs to completion, so interleavings of concurrent launches are not modelled. At creation the load and the listener registration run concurrently (NotificationViewModel.kt:31-34); if the first snapshot arrives before the load completes, the list is built in reverse order and the toast shows the oldest notification, and the load then restores the order but keeps that toast (`NewBatchReversed` followed by `LoadNotifications`); `LoadedSnapshotAbsorbed` covers only the order in which the load completes first.
- `createNotification` (NotificationViewModel.kt:199-227) only writes a document to the store and changes no local state; the write is not modelled.
- The documents the three post dialogs write to the `posts` collection and the upload path built from the clock are not modelled; only the `Post` handed to the feed is.
- The toast's four-second auto-dismiss timer, the overflow menu's open state, the dropdowns' expanded state and the date picker's visibility are not modelled; `DismissToast` is the effect when the timer fires.
- Choosing from a dropdown or the date picker while uploading is not excluded (`SelectCategory`, `ConfirmDate` and friends): their opening buttons are disabled while uploading, and since the expanded state is not modelled the choice itself is left unguarded.
- `SimpleDateFormat` and the locale: the formatted date is the `dateText`/`dateTimeText` parameter, so the "MMM dd" fallback of `formatTimestamp` and the dated lines of the posts are not checked beyond being passed through.
- `isBlank`, `uppercase`, `lowercase` and `equals(ignoreCase = true)` are modelled for ASCII; Unicode whitespace and case mappings beyond ASCII are not.
- `NotificationComponents.FormatTimestamp`: `now - timestamp` is computed in 64-bit `Long` arithmetic in the source; overflow of that subtraction is not modelled.
- Fields stored with the wrong type (a `getString` on a number throws in the source and drops the notification) are not modelled: a document field is either present with its type or missing.
- The notification record's defaults follow the code: a missing title, message, timestamp or read flag is defaulted, and only a type name that is not a kind drops the document.
- `Posts.Post` carries `imageUrl`, as the three dialogs construct it; HomeScreen.kt's `Post` has no such field, so that file's version of the type is not part of this model.
- NotificationStore.NotificationViewModel.LoadNotifications: asks of its caller that the fetched documents have distinct ids, which documents of one collection always have; the store does not re-check it.
- `FirestoreManager.getComments` catches its own errors and returns an empty list; `FirestoreManager.addComment` turns every exception into `false`. `CommentDialog.LoadComments` and `CommentDialog.CompletePost` still model the dialog's failure and exception branches as the dialog is written, although with this manager they cannot occur.
- The comment's server `timestamp` is not used by the dialog and is left out of `Comment`.
- Layout, colours other than the notification colours, icons of the dialogs, dialog dismissal and navigation are not modelled.
