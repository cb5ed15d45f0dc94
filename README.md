# Avalanche Builders Hub: a verified model of its client and server logic

This project models, in Dafny, the logic behind the Avalanche Builders Hub site (the avalanche-docs repository). It covers neither the site's rendering nor its network and database plumbing. Each core source file has one module, named after it. Where the source changes state step by step, the module uses a class with `modifies` clauses, and loops keep their invariants. Where the source computes values, the module uses functions and lemmas.

- **Ambassador DAO comment thread** (`CommentSection`): the reconciler for optimistic comments and replies.
  - Pending entries are shown next to confirmed ones.
  - A fetch prunes pending entries by their text key.
  - Leaving page 1 clears the pending comments.
  - A failed create is rolled back by its optimistic id, and a failed edit restores the old text.
  - Each handler that awaits the network is split in two: `Begin…` runs up to the `await` and returns a ticket, and `Finish…` takes the outcome. Other events can come between them.
- **Stats pages**:
  - `LiveBlockBurns`: the block-burn feed merges and deduplicates blocks, sorts them and keeps at most 15; it also has the fetch guard and cursor and `formatTimeAgo`.
  - `L1BubbleConfig`: the navigation bubble's active item and item list.
- **Profile**:
  - skill search ranking (`PopularSkills`);
  - the completion percentage (`ProfileProgress`);
  - the profile form's skill, social and wallet rules, its `user_type` assembly and profile decomposition (`ProfileForm`, `ProfilePage`);
  - notification settings: merging saved preferences with the defaults, and the optimistic toggle with rollback (`Settings`, `NotificationDefaults`);
  - the skills autocomplete (`SkillsAutocomplete`);
  - the noun avatar: wrap-around trait stepping (`Nouns`), the config modal and editor (`NounAvatarConfig`, `NounAvatarEditor`), and the avatar and seed routes (`NounAvatarRoute`, `GenerateSeedRoute`).
- **Notifications**: the bell's merge by id and its unread count (`NotificationBell`).
- **Hackathon registration** (`RegistrationForm`, `RegisterFormStep2`):
  - the three-step wizard and its per-step validation, which partitions the schema;
  - array-field parsing and the multi-select toggle;
  - `formatSelectedValues`, and the utm choice.
- **Hackathon schedule** (`Schedule`): grouping by UTC day, ordering within a day, the date range and the deadline countdown.
- **Server routes and services**:
  - the infraBUIDL application route: project membership and HubSpot field mapping (`InfrabuidlRoute`);
  - form-data storage (`FormData`) and sign-in upserts (`Auth`);
  - extended profiles and username availability (`ProfileService`);
  - the project-winner transition and its route (`SetProjectWinner`, `SetWinnerRoute`);
  - the session and role guards (`ProtectedRoute`).
- **Utilities**:
  - in-app browser detection and the Android intent URL (`BrowserDetection`);
  - timezone labels (`TimezoneSelect`);
  - library linking and the deploy flow in the validator-manager toolbox (`DeployValidatorManager`).

Shared helpers model the JavaScript built-ins the code relies on:

- `Strings`: `trim`, `includes`, `split`/`join` and ASCII case mapping.
- `Lists`: `filter` and `slice`.
- `Sorting`: a stable `sort` under a comparator.
- `JsArith`: the truncating `%`.
- `Json`: JSON-like values.
- `Wrappers`: `Option` and `Result`.

Conventions:

- The databases are maps from id to row.
- Timestamps, random sources, hashes, `JSON.parse` and date formatting are parameters.
- Network outcomes are an `ok` flag or a supplied result.

## Model

| member | source | states |
|---|---|---|
| CommentSection.OptimisticAuthor | components/ambassador-dao/sections/comment-section.tsx:603-611 | the optimistic author copies the user's id, last name and role, and the first name falls back to "You", so it is never empty |
| CommentSection.AdvertisedReplies | components/ambassador-dao/sections/comment-section.tsx:370 | a comment's reply count is `_count.replies`, or 0 when it is absent |
| CommentSection.PruneComments | components/ambassador-dao/sections/comment-section.tsx:563-571 | the surviving optimistic comments are exactly those whose content-author key is not among the fetched comments' keys |
| CommentSection.PruneReplies | components/ambassador-dao/sections/comment-section.tsx:119-126 | the surviving optimistic replies are exactly those whose content-parent key is not among the confirmed replies' keys |
| CommentSection.RepliesOf | components/ambassador-dao/sections/comment-section.tsx:115-117 | the kept replies are exactly the fetched replies whose parent is this comment |
| CommentSection.RemoveComment | components/ambassador-dao/sections/comment-section.tsx:636-638 | the rollback keeps exactly the comments whose id differs from the failed one |
| CommentSection.RemoveReply | components/ambassador-dao/sections/comment-section.tsx:187-189 | the rollback keeps exactly the replies whose id differs from the failed one |
| CommentSection.PruneCommentsKeepsOrder | components/ambassador-dao/sections/comment-section.tsx:567-571 | pruning works entry by entry: pruning a concatenation is the concatenation of the pruned parts, so survivors keep their order |
| CommentSection.PruneRepliesKeepsOrder | components/ambassador-dao/sections/comment-section.tsx:122-126 | the same for optimistic replies |
| CommentSection.PruneCommentsIdempotent | components/ambassador-dao/sections/comment-section.tsx:558-572 | receiving the same page twice prunes nothing the second time |
| CommentSection.PruneCommentsNoMatch | components/ambassador-dao/sections/comment-section.tsx:563-571 | a fetch carrying none of the pending keys leaves the optimistic list unchanged |
| CommentSection.RemoveCommentExactlyOne | components/ambassador-dao/sections/comment-section.tsx:636-638 | with distinct ids, rolling back a comment deletes exactly that one entry and keeps the rest in order |
| CommentSection.RemoveReplyExactlyOne | components/ambassador-dao/sections/comment-section.tsx:187-189 | the same for a failed reply |
| CommentSection.RemoveCommentAbsent | components/ambassador-dao/sections/comment-section.tsx:636-638 | rolling back an id that no entry carries changes nothing |
| CommentSection.CommentsSection.constructor | components/ambassador-dao/sections/comment-section.tsx:531-545 | the section starts with an empty box, no optimistic or fetched comments, page 1 and the default metadata |
| CommentSection.CommentsSection.Type | components/ambassador-dao/sections/comment-section.tsx:701 | typing sets the comment text and nothing else |
| CommentSection.CommentsSection.Focus | components/ambassador-dao/sections/comment-section.tsx:702 | focusing sets the focus flag and nothing else |
| CommentSection.CommentsSection.CancelComment | components/ambassador-dao/sections/comment-section.tsx:644-647 | cancelling empties the box and drops focus, and leaves every list alone |
| CommentSection.CommentsSection.ApplyFetched | components/ambassador-dao/sections/comment-section.tsx:558-578 | an array response replaces the fetched comments wholesale and prunes the optimistic ones against it; a non-array response changes neither; metadata is copied only when present |
| CommentSection.CommentsSection.HandlePageChange | components/ambassador-dao/sections/comment-section.tsx:580-588 | leaving page 1 empties the optimistic list and moving to page 1 keeps it, so the displayed thread is optimistic-then-fetched on page 1 and the fetched comments elsewhere |
| CommentSection.CommentsSection.BeginSubmitComment | components/ambassador-dao/sections/comment-section.tsx:593-621 | without a user only the auth modal opens; blank text changes nothing; otherwise the optimistic comment is prepended, the box is emptied and focus dropped |
| CommentSection.CommentsSection.FinishSubmitComment | components/ambassador-dao/sections/comment-section.tsx:623-639 | success on another page moves to page 1, success on page 1 refetches once, and failure removes only the entries with the optimistic id |
| CommentSection.CommentReplies.constructor | components/ambassador-dao/sections/comment-section.tsx:97-104 | the replies list starts empty, closed and not loaded |
| CommentSection.CommentReplies.Type | components/ambassador-dao/sections/comment-section.tsx:233 | typing sets the reply text and nothing else |
| CommentSection.CommentReplies.ToggleReplying | components/ambassador-dao/sections/comment-section.tsx:219 | the Reply button flips the reply box and nothing else |
| CommentSection.CommentReplies.CancelReply | components/ambassador-dao/sections/comment-section.tsx:195-198 | cancelling empties the reply box and closes it |
| CommentSection.CommentReplies.BeginLoad | components/ambassador-dao/sections/comment-section.tsx:109-110 | a load raises the loading flag and changes nothing else |
| CommentSection.CommentReplies.FinishLoad | components/ambassador-dao/sections/comment-section.tsx:111-135 | an array result keeps only this comment's replies and prunes the optimistic ones against them; any completed load marks the replies loaded and shown; a failure sets the error flag; loading always ends |
| CommentSection.CommentReplies.ToggleReplies | components/ambassador-dao/sections/comment-section.tsx:200-206 | the first opening of a comment that advertises replies starts a load; otherwise the list is shown or hidden |
| CommentSection.CommentReplies.BeginReplySubmit | components/ambassador-dao/sections/comment-section.tsx:145-174 | without a user only the auth modal opens; blank text changes nothing; otherwise the optimistic reply is appended, the box closes, the list is shown, and a load starts iff the replies were never loaded and some are advertised |
| CommentSection.CommentReplies.FinishReplySubmit | components/ambassador-dao/sections/comment-section.tsx:176-190 | success reloads only if the replies were loaded when the reply was sent; failure removes only the entries with the optimistic id |
| CommentSection.CommentItem.constructor | components/ambassador-dao/sections/comment-section.tsx:358-369 | the editor text starts as the comment's content, with the editor and menu closed; the comment is editable exactly when the user's id equals the author's, two missing ids counting as equal |
| CommentSection.CommentItem.StartEditing | components/ambassador-dao/sections/comment-section.tsx:453-462 | Edit, offered only in the author's open menu, opens the editor and closes the menu |
| CommentSection.CommentItem.Type | components/ambassador-dao/sections/comment-section.tsx:484 | typing sets the editor text only |
| CommentSection.CommentItem.CancelEditing | components/ambassador-dao/sections/comment-section.tsx:491-492 | cancelling puts the current content back into the editor and closes it |
| CommentSection.CommentItem.BeginEdit | components/ambassador-dao/sections/comment-section.tsx:372-379 | blank text changes nothing; otherwise the content is overwritten with the editor text and the editor closes, and the original is remembered |
| CommentSection.CommentItem.FinishEdit | components/ambassador-dao/sections/comment-section.tsx:381-389 | a failed edit restores the original content and editor text; success keeps the new content |
| CommentSection.CommentItem.BeginDelete | components/ambassador-dao/sections/comment-section.tsx:392-394 | pressing Delete, offered only in the author's open menu, starts the request and leaves the menu open while it is pending |
| CommentSection.CommentItem.FinishDelete | components/ambassador-dao/sections/comment-section.tsx:394-398 | once the request settles, a successful delete closes the menu whatever happened to it meanwhile, and a failed one changes nothing; the content is not touched |
| CommentSection.CommentItem.ToggleOptions | components/ambassador-dao/sections/comment-section.tsx:401-403 | the click handler of the author-only options button flips the menu flag |
| CommentSection.CommentItem.PressOptionsButton | components/ambassador-dao/sections/comment-section.tsx:401-416 | a full press of the options button (its mousedown closes an open menu, then its click flips the flag) always leaves the menu open |
| CommentSection.CommentItem.PressOutside | components/ambassador-dao/sections/comment-section.tsx:405-416 | a document mousedown outside the mounted menu closes it; a press inside it, or while no menu is mounted, leaves the flag |
| CommentSection.OpenThenDelete | components/ambassador-dao/sections/comment-section.tsx:392-416 | the author pressing the options button and then Delete leaves the menu closed exactly when the delete succeeded, with the content untouched |
| CommentSection.SubmitThenFail | components/ambassador-dao/sections/comment-section.tsx:593-639 | posting on page 1 and then failing leaves the optimistic and fetched lists exactly as they were |
| LiveBlockBurns.NewerFirstIsOrder | components/stats/LiveBlockBurns.tsx:109 | the comparator "larger block number first" is a total, transitive order |
| LiveBlockBurns.PutFacts | components/stats/LiveBlockBurns.tsx:97-105 | `Map.set` keeps every other block, adds the new one, and the map's key set gains exactly its number |
| LiveBlockBurns.PutDistinct | components/stats/LiveBlockBurns.tsx:97-105 | `Map.set` never lists a block number twice |
| LiveBlockBurns.SeededFacts | components/stats/LiveBlockBurns.tsx:97-99 | the map built from the shown list has each shown block number once, and every entry is a shown entry marked not new |
| LiveBlockBurns.SeededKeepsAll | components/stats/LiveBlockBurns.tsx:97-99 | with no block shown twice, every shown entry is in the map, unchanged but for its mark |
| LiveBlockBurns.AddNewFacts | components/stats/LiveBlockBurns.tsx:101-105 | the loop never overwrites an existing entry, adds only blocks the map lacks, keeps the map's order as a prefix, and the key set becomes the union |
| LiveBlockBurns.SeedExisting | components/stats/LiveBlockBurns.tsx:97-99 | the seeding loop builds exactly the seeded map |
| LiveBlockBurns.AddMissing | components/stats/LiveBlockBurns.tsx:101-105 | the insertion loop builds exactly the map with the missing blocks added |
| LiveBlockBurns.MergeBurnLists | components/stats/LiveBlockBurns.tsx:95-111 | the merge returns the combined entries sorted newest first and cut to 15 |
| LiveBlockBurns.SortedCombined | components/stats/LiveBlockBurns.tsx:108-109 | the sorted combination has distinct block numbers and is ordered newest first |
| LiveBlockBurns.MergeOrdered | components/stats/LiveBlockBurns.tsx:107-110 | the shown list has at most 15 entries with strictly decreasing block numbers |
| LiveBlockBurns.MergeMarks | components/stats/LiveBlockBurns.tsx:88-105 | an entry marked new came from this poll and was not shown before; every other entry is a shown entry marked not new |
| LiveBlockBurns.MergeKeepsNewest | components/stats/LiveBlockBurns.tsx:108-110 | an entry dropped by the cut leaves a full list of 15 blocks, all newer than it |
| LiveBlockBurns.MergeKeepsExisting | components/stats/LiveBlockBurns.tsx:97-105 | a block already shown keeps its shown entry, unmarked, and a fetched duplicate never replaces it |
| LiveBlockBurns.ClearNew | components/stats/LiveBlockBurns.tsx:116-118 | clearing keeps every entry and its position and changes only the new mark, to false |
| LiveBlockBurns.BlockBurnFeed.constructor | components/stats/LiveBlockBurns.tsx:35-40 | the feed starts empty and loading, with no error, no cursor, not fetching and mounted |
| LiveBlockBurns.BlockBurnFeed.BeginFetch | components/stats/LiveBlockBurns.tsx:59-69 | a fetch in progress or an unmounted feed starts nothing; otherwise the fetch flag rises and the request carries the cursor, or the initial-load flag when there is none |
| LiveBlockBurns.BlockBurnFeed.FinishFetch | components/stats/LiveBlockBurns.tsx:73-131 | after unmount nothing but the fetch flag changes; a failure records its message; a success clears the error, moves the cursor only to a non-zero latest block, and merges the fetched blocks when there are any; the fetch flag always drops |
| LiveBlockBurns.BlockBurnFeed.ClearNewMarks | components/stats/LiveBlockBurns.tsx:114-120 | the delayed clearing unmarks every entry while mounted and changes nothing after unmount |
| LiveBlockBurns.BlockBurnFeed.Unmount | components/stats/LiveBlockBurns.tsx:144-145 | unmounting lowers the mounted flag only |
| LiveBlockBurns.Age | components/stats/LiveBlockBurns.tsx:152-165 | under a minute the count is whole seconds; under an hour it is the whole minutes, 1 to 59; otherwise whole hours; each count brackets the elapsed seconds |
| LiveBlockBurns.FormatTimeAgo | components/stats/LiveBlockBurns.tsx:152-165 | reading the text back as "<count> <unit> ago" gives the count and unit of the age |
| LiveBlockBurns.UnitOf | components/stats/LiveBlockBurns.tsx:156-165 | a unit word, singular or plural, names that unit |
| LiveBlockBurns.UnitOfName | components/stats/LiveBlockBurns.tsx:156-165 | a unit's name, with or without the plural "s", reads back as that unit |
| LiveBlockBurns.TimeAgoReadable | components/stats/LiveBlockBurns.tsx:156-165 | any count, unit and plural ending read back as that count and unit |
| LiveBlockBurns.FormatTimeAgoSingular | components/stats/LiveBlockBurns.tsx:156-165 | the unit is singular exactly when the count is 1, and every other count (0 included) gets the text "<count> <unit>s ago" |
| PopularSkills.NotExcluded | components/profile/components/hooks/usePopularSkills.ts:74-75 | the kept skills are exactly those whose name is not excluded, in their order |
| PopularSkills.RankBeforeIsOrder | components/profile/components/hooks/usePopularSkills.ts:89-99 | the comparator, prefix matches first and then higher usage, is a total, transitive order |
| PopularSkills.Found | components/profile/components/hooks/usePopularSkills.ts:81-88 | the kept skills are exactly the non-excluded ones whose lower-cased name contains the query |
| PopularSkills.SearchSkills | components/profile/components/hooks/usePopularSkills.ts:71-100 | at most 10 results, and a blank query gives the first 10 non-excluded skills in their listed order |
| PopularSkills.SearchSkillsExcludes | components/profile/components/hooks/usePopularSkills.ts:75-86 | no result is an excluded skill, and every result is a listed skill |
| PopularSkills.SearchSkillsRanked | components/profile/components/hooks/usePopularSkills.ts:79-100 | for a non-blank query every result contains the trimmed, lower-cased query, prefix matches come before the others, and within each group usage never increases |
| PopularSkills.SearchSkillsComplete | components/profile/components/hooks/usePopularSkills.ts:81-100 | when fewer than 10 results come back, every non-excluded matching skill is among them |
| PopularSkills.SearchSkillsBest | components/profile/components/hooks/usePopularSkills.ts:81-100 | a matching, non-excluded skill left out means 10 results came back, each ranked no lower than it: the results are the 10 best ranked |
| ProfileProgress.StringOr | components/profile/components/hooks/useProfileProgress.ts:33-50 | a string value is kept and anything else becomes "" |
| ProfileProgress.ArrayOr | components/profile/components/hooks/useProfileProgress.ts:47-48 | an array value is kept and anything else becomes [] |
| ProfileProgress.Filled | components/profile/components/hooks/useProfileProgress.ts:113-129 | a field counts exactly when it holds more than whitespace |
| ProfileProgress.Checks | components/profile/components/hooks/useProfileProgress.ts:112-130 | thirteen checks, the k-th being the check of the k-th field in the hook's order |
| ProfileProgress.ChecksStrings | components/profile/components/hooks/useProfileProgress.ts:113-129 | each text field's check holds exactly when the field holds more than whitespace |
| ProfileProgress.ChecksUsername | components/profile/components/hooks/useProfileProgress.ts:114-115 | the username counts only if it is filled and is not the placeholder "username" |
| ProfileProgress.ChecksCollections | components/profile/components/hooks/useProfileProgress.ts:124-128 | socials count exactly when, scanning in order past blank strings and nullish entries, a filled entry comes before any entry that is neither a string nor nullish; skills count when there is at least one |
| ProfileProgress.SomeSocial | components/profile/components/hooks/useProfileProgress.ts:124-127 | `socials.some(s => s?.trim() !== "")` in order: true exactly when a filled entry comes before any throwing one, and a throw exactly when an entry that is neither a string nor nullish comes first |
| ProfileProgress.CountTrue | components/profile/components/hooks/useProfileProgress.ts:132 | the count is at most the number of checks, 0 exactly when none holds and all exactly when all hold |
| ProfileProgress.Percent | components/profile/components/hooks/useProfileProgress.ts:139 | the percentage is between 0 and 100 and is the nearest integer to completed/13 × 100 |
| ProfileProgress.PercentIsNearest | components/profile/components/hooks/useProfileProgress.ts:139 | that nearest integer is unique |
| ProfileProgress.PercentEnds | components/profile/components/hooks/useProfileProgress.ts:139 | none done gives 0 and all thirteen give 100 |
| ProfileProgress.PercentMonotone | components/profile/components/hooks/useProfileProgress.ts:139 | completing more fields never lowers the percentage |
| ProfileProgress.Progress | components/profile/components/hooks/useProfileProgress.ts:110-144 | a social entry that is neither a string nor nullish reached by the scan makes `trim` throw, and the catch gives 0; otherwise the progress is the nearest integer to completed/13 × 100, between 0 and 100 |
| ProfileProgress.CountTrueMonotone | components/profile/components/hooks/useProfileProgress.ts:132 | more checks holding never lowers the count |
| ProfileProgress.ProgressMonotone | components/profile/components/hooks/useProfileProgress.ts:110-139 | filling in fields never lowers the progress, as long as the new socials list does not make the scan throw |
| ProfileProgress.EmptyProfileIsZero | components/profile/components/hooks/useProfileProgress.ts:30-139 | values of the wrong type, or only whitespace, give 0 |
| ProfileProgress.FullProfileIsHundred | components/profile/components/hooks/useProfileProgress.ts:110-139 | every check holding, including a socials scan that finds a filled entry before any throwing one, gives 100 |
| ProfileProgress.NonStringSocialGivesZero | components/profile/components/hooks/useProfileProgress.ts:124-142 | a number as the first social entry makes the hook report 0 whatever else is filled |
| ProfileForm.AddSkill | components/profile/components/hooks/useProfileForm.ts:315-321 | a blank or already-present skill changes nothing; otherwise the trimmed text is appended; the old list stays a prefix and no skill is listed twice |
| ProfileForm.RemoveSkill | components/profile/components/hooks/useProfileForm.ts:323-326 | the removed skill is gone and every other skill stays |
| ProfileForm.AddSkillIdempotent | components/profile/components/hooks/useProfileForm.ts:315-321 | adding the same text twice is the same as adding it once |
| ProfileForm.RemoveUndoesAdd | components/profile/components/hooks/useProfileForm.ts:315-326 | removing a skill just added gives the original list back |
| ProfileForm.RemoveSkillAt | components/profile/components/hooks/useProfileForm.ts:323-326 | with distinct skills, removing one deletes exactly its entry |
| ProfileForm.AddSocial | components/profile/components/hooks/useProfileForm.ts:329-332 | an empty social entry is appended and the rest is kept |
| ProfileForm.RemoveAt | components/profile/components/hooks/useProfileForm.ts:334-337 | an index in range removes exactly that entry and shifts the rest; any other index changes nothing |
| ProfileForm.RemoveUndoesAddSocial | components/profile/components/hooks/useProfileForm.ts:329-337 | removing the entry just added gives the original list back |
| ProfileForm.WalletRejected | components/profile/components/hooks/useProfileForm.ts:173 | the wallet is rejected exactly when it is neither blank nor `0x` followed by 40 hex digits |
| ProfileForm.SchemaValid | components/profile/components/hooks/useProfileForm.ts:9-38 | the schema accepts the form exactly when the bio is at most 250 UTF-16 code units long, as `max(250)` counts it, and the email passes the email check |
| ProfileForm.DetailValues | components/profile/components/hooks/useProfileForm.ts:220-232 | the value sent under each detail key, key by key: the founder's company name, the employee's company name and role, the student's institution, the company name and the role |
| ProfileForm.AstralBioRejected | components/profile/components/hooks/useProfileForm.ts:12 | a bio of 200 astral code points, such as emoji, is rejected although it has fewer than 250 code points |
| Strings.Utf16Length | components/profile/components/hooks/useProfileForm.ts:12 | JavaScript's string length: at least the number of code points and at most twice it, equal to it exactly when no code point is astral, and twice it when all are |
| ProfileForm.SpreadFacts | components/profile/components/hooks/useProfileForm.ts:242-248 | a conditional spread holds exactly the keys whose value is non-empty, with those values |
| ProfileForm.UserTypeFacts | components/profile/components/hooks/useProfileForm.ts:234-250 | the assembled `user_type` carries the four flags as they are, and each detail key exactly when its form value is non-empty |
| ProfileForm.StrOr | components/profile/components/hooks/useProfileForm.ts:98-121 | `value \|\| fallback`: a non-empty value is kept and a missing or empty one gives the fallback |
| ProfileForm.MissingFieldsDefault | components/profile/components/hooks/useProfileForm.ts:57-122 | a profile with every field missing loads as the form's initial values |
| ProfileForm.UserTypeRoundTrip | components/profile/components/hooks/useProfileForm.ts:234-299 | decomposing the saved `user_type` gives back the four flags and the six detail fields |
| ProfileForm.SaveThenLoad | components/profile/components/hooks/useProfileForm.ts:234-299 | when the server echoes what was sent, reloading gives the submitted form values back, except the notification email, which the parsed body never carries; after the session-email effect the form shows the same values with the session email in place of the saved one |
| ProfileForm.WithSessionEmail | components/profile/components/hooks/useProfileForm.ts:142-146 | a non-empty session email replaces the form's email and nothing else; an empty one changes nothing |
| ProfileForm.ProfileEditor.constructor | components/profile/components/hooks/useProfileForm.ts:57-77 | the editor starts with the initial values, loading, and no pending file |
| ProfileForm.ProfileEditor.LoadProfile | components/profile/components/hooks/useProfileForm.ts:83-146 | a signed-in user's fetched profile replaces the form values; loading ends in every case, and then a non-empty session email overrides the email the profile supplied |
| ProfileForm.ProfileEditor.SessionEmailEffect | components/profile/components/hooks/useProfileForm.ts:142-146 | once loading is over, the form's email becomes the session email when there is one |
| ProfileForm.ProfileEditor.SelectFile | components/profile/components/hooks/useProfileForm.ts:149-156 | picking a file queues it and shows its preview URL as the image |
| ProfileForm.ProfileEditor.HandleAddSkill | components/profile/components/hooks/useProfileForm.ts:315-321 | the skills become AddSkill of the old list, and the input is cleared exactly when the skill was accepted |
| ProfileForm.ProfileEditor.HandleRemoveSkill | components/profile/components/hooks/useProfileForm.ts:323-326 | the skills become RemoveSkill of the old list |
| ProfileForm.ProfileEditor.HandleAddSocial | components/profile/components/hooks/useProfileForm.ts:329-332 | the socials become AddSocial of the old list |
| ProfileForm.ProfileEditor.HandleRemoveSocial | components/profile/components/hooks/useProfileForm.ts:334-337 | the socials become RemoveAt of the old list |
| ProfileForm.ProfileEditor.Submit | components/profile/components/hooks/useProfileForm.ts:159-312 | values the schema rejects (a bio over 250 UTF-16 code units or a bad email) leave the values unchanged and send nothing; then without a session nothing is sent; a rejected wallet sends nothing; the wallet error shows afterwards exactly when a signed-in submit passed the schema with a rejected wallet, since each submit replaces the errors; otherwise the assembled profile is sent with the uploaded image URL when the upload succeeded, the queue is emptied only on a successful upload, and the saved profile is loaded back |
| ProfileForm.BadWalletNeverSaved | components/profile/components/hooks/useProfileForm.ts:170-183 | a wallet that is neither blank nor an address is never saved, the form keeps its values, and once the schema passes the wallet error is set |
| ProfileForm.LongBioNeverSaved | components/profile/components/hooks/useProfileForm.ts:12 | a bio over 250 code points, and so over 250 UTF-16 code units, is never sent, leaves the form values as they were and clears an earlier wallet error |
| ProfilePage.InitialSkillsDistinct | components/profile/components/profile.tsx:31-35 | the initial skills list has no duplicates |
| ProfilePage.UpdateAt | components/profile/components/profile.tsx:53-57 | updating entry i changes exactly that entry |
| ProfilePage.Page.constructor | components/profile/components/profile.tsx:22-36 | the page starts with the placeholder username, the initial skills, no socials and an empty skill box |
| ProfilePage.Page.SetNewSkill | components/profile/components/profile.tsx:249 | typing sets the new-skill text |
| ProfilePage.Page.AddSkill | components/profile/components/profile.tsx:38-43 | the skills become AddSkill of the old list, the box is emptied exactly when the skill was accepted, and skills stay distinct |
| ProfilePage.Page.RemoveSkill | components/profile/components/profile.tsx:45-47 | the skills become RemoveSkill of the old list and stay distinct |
| ProfilePage.Page.AddSocial | components/profile/components/profile.tsx:49-51 | an empty social entry is appended |
| ProfilePage.Page.UpdateSocial | components/profile/components/profile.tsx:53-57 | the entry at the index takes the new value and the others stay |
| ProfilePage.Page.RemoveSocial | components/profile/components/profile.tsx:59-61 | the entry at the index is removed |
| Settings.Spaced | components/profile/components/settings.tsx:27-29 | the spaced text holds no underscore |
| Settings.Capitalise | components/profile/components/settings.tsx:32 | a word keeps its length and its letters up to case, with only its first letter possibly upper-case |
| Settings.JoinLower | components/profile/components/settings.tsx:31-33 | joining words that agree up to case gives texts that agree up to case |
| Settings.FormatLabelCaseOnly | components/profile/components/settings.tsx:26-34 | the label differs from the spaced and trimmed key only in letter case |
| Settings.FormatLabelNoUnderscore | components/profile/components/settings.tsx:26-34 | a label never shows an underscore |
| Settings.FormatLabelWords | components/profile/components/settings.tsx:30-33 | splitting the label at its spaces gives back its words, each capitalised and free of spaces |
| Settings.Overlaid | components/profile/components/settings.tsx:53-56 | overlaying the user's values keeps one entry per default entry |
| Settings.PutAllOver | components/profile/components/settings.tsx:53-56 | assigning the overlaid entries one by one equals overlaying the user's values on the assigned defaults |
| Settings.MergeIsOverlay | components/profile/components/settings.tsx:44-60 | when every category has notifications the merge succeeds, has exactly the default keys, and takes the user's value where present and the default otherwise |
| Settings.MergeWithoutPrefs | components/profile/components/settings.tsx:44-60 | merging with no saved preferences gives exactly the defaults |
| Settings.MergeFailsOnMissingCategory | components/profile/components/settings.tsx:50-53 | a category without a notifications object makes the merge throw |
| Settings.MergeStep | components/profile/components/settings.tsx:48-57 | the merge over one more category is the previous merge with that category's overlaid entries assigned on top |
| Settings.PrefixHasNotifications | components/profile/components/settings.tsx:48-53 | the loop may go on only while every category seen has notifications |
| Settings.OverlayOnto | components/profile/components/settings.tsx:53-56 | the inner loop assigns each entry, user value first, in order |
| Settings.MergeWithDefaults | components/profile/components/settings.tsx:44-60 | the loop returns the merge, or the error when some category lacks notifications |
| Settings.WithChannel | components/profile/components/settings.tsx:104-105 | writing one channel of a copy sets that channel and keeps the other |
| Settings.OptimisticTouchesOneChannel | components/profile/components/settings.tsx:102-107 | the optimistic update sets the chosen channel of the chosen key, keeps its other channel (false for a new key) and leaves every other key alone |
| Settings.RevertRestores | components/profile/components/settings.tsx:137-142 | the rollback writes the negated value into the pre-toggle map; when the old value already was the negation it restores the map exactly |
| Settings.SettingsPanel.constructor | components/profile/components/settings.tsx:39-41 | the panel starts empty, loading and with nothing saving |
| Settings.SettingsPanel.Load | components/profile/components/settings.tsx:63-93 | loading always ends; a signed-in user gets the merge of their saved preferences (defaults when the fetch fails); a throwing merge leaves the map unchanged |
| Settings.SettingsPanel.BeginToggle | components/profile/components/settings.tsx:96-107 | a signed-out user or a save in flight changes nothing; otherwise the saving key becomes `key-index` and the optimistic update is applied |
| Settings.SettingsPanel.FinishToggle | components/profile/components/settings.tsx:109-145 | the saving key is cleared; a save keeps the optimistic map, a failure installs the rollback |
| Settings.ToggleThenFail | components/profile/components/settings.tsx:96-145 | a toggle on a present key whose save fails restores the original map |
| NotificationDefaults.PutAllAppend | lib/notificationDefaults.ts:17-19 | assigning two entry lists in turn is assigning their concatenation |
| NotificationDefaults.HasKeyCons | lib/notificationDefaults.ts:17-19 | a key named by an entry list is named by its head or by its tail |
| NotificationDefaults.PutAllOutside | lib/notificationDefaults.ts:17-19 | assigning entries that do not name a key leaves that key as it was |
| NotificationDefaults.PutAllInside | lib/notificationDefaults.ts:17-19 | a key named by the entries ends with the same value whatever the map held before |
| NotificationDefaults.GetDefaultNotificationMeans | lib/notificationDefaults.ts:7-24 | the loop over categories returns the defaults, skipping categories without notifications |
| NotificationDefaults.LaterCategoryWins | lib/notificationDefaults.ts:11-21 | a key repeated in a later category takes that category's value |
| NotificationDefaults.OtherKeysKept | lib/notificationDefaults.ts:11-21 | a category that does not name a key leaves that key's default untouched |
| NotificationDefaults.DefaultsDomain | lib/notificationDefaults.ts:7-24 | a key has a default exactly when some category with notifications names it |
| Nouns.With | components/profile/components/NounAvatarConfig.tsx:85 | the spread update sets the chosen trait and keeps the other four |
| Nouns.Step | components/profile/components/NounAvatarConfig.tsx:78-83 | stepping forwards wraps modulo the trait's image count, backwards from 0 wraps to the last image; an in-range index stays in range |
| Nouns.StepInverse | components/profile/components/NounAvatarConfig.tsx:78-83 | for an in-range index, stepping forwards then back, or back then forwards, returns the index |
| Nouns.AdjustTrait | components/profile/components/NounAvatarConfig.tsx:72-86 | no seed means no change; otherwise exactly the chosen trait is stepped, and an in-range seed stays in range |
| Nouns.AdjustUndo | components/profile/components/NounAvatarConfig.tsx:72-86 | for an in-range seed, adjusting a trait forwards then back (or back then forwards) gives the seed back |
| NounAvatarConfig.ConfigModal.constructor | components/profile/components/NounAvatarConfig.tsx:27-30 | the modal starts closed, with the seed and enabled flag passed in and nothing saving |
| NounAvatarConfig.ConfigModal.Open | components/profile/components/NounAvatarConfig.tsx:43-69 | opening resets the seed to the current one or all zeros, and the flag to the one passed in |
| NounAvatarConfig.ConfigModal.Adjust | components/profile/components/NounAvatarConfig.tsx:72-86 | a trait button applies the wrap-around step to the local seed |
| NounAvatarConfig.ConfigModal.Generated | components/profile/components/NounAvatarConfig.tsx:89-138 | a generated seed replaces the local one; a failed request leaves it |
| NounAvatarConfig.ConfigModal.Save | components/profile/components/NounAvatarConfig.tsx:140-192 | the request carries the seed (all zeros if none) with enabled on; the callback runs only after a successful request; the modal closes only when both succeed; saving ends |
| NounAvatarConfig.OpenAdjustUndo | components/profile/components/NounAvatarConfig.tsx:58-86 | opening and stepping a trait forwards and back leaves the seed the modal opened with |
| NounAvatarEditor.Editor.constructor | components/profile/components/NounAvatarEditor.tsx:22-31 | the editor starts with the current seed, or all zeros, and nothing saving |
| NounAvatarEditor.Editor.CurrentSeedChanged | components/profile/components/NounAvatarEditor.tsx:44-48 | a new non-null current seed replaces the local one |
| NounAvatarEditor.Editor.Adjust | components/profile/components/NounAvatarEditor.tsx:51-65 | a trait button applies the wrap-around step to the local seed |
| NounAvatarEditor.Editor.Save | components/profile/components/NounAvatarEditor.tsx:67-98 | no seed means no request; otherwise the seed is sent with enabled on and the callback runs only when the request succeeds |
| NounAvatarEditor.FreshEditorSaves | components/profile/components/NounAvatarEditor.tsx:22-30 | a fresh editor always has a seed, so saving sends the current seed or all zeros |
| NounAvatarRoute.HandlePut | app/api/user/noun-avatar/route.ts:17-83 | no session gives 401, a missing user id 400 before the body is read; every non-200 answer leaves the database alone |
| NounAvatarRoute.HandleGet | app/api/user/noun-avatar/route.ts:89-132 | 401 without a session, 400 without a user id, 404 for an unknown user, otherwise the stored seed and the enabled flag (false when unset) |
| NounAvatarRoute.MissingIdIgnoresBody | app/api/user/noun-avatar/route.ts:23-31 | a missing user id is answered the same whatever the body |
| NounAvatarRoute.PutRejections | app/api/user/noun-avatar/route.ts:34-53 | a falsy seed gives 400 "Seed is required", a seed with a non-number field 400 "Invalid seed structure", and neither writes |
| NounAvatarRoute.PutThenGet | app/api/user/noun-avatar/route.ts:56-72 | a successful PUT writes only the caller's row, and a later GET returns the seed as sent and the flag (false when absent) |
| GenerateSeedRoute.BytesToHex | app/api/user/noun-avatar/generate-seed/route.ts:40 | the hex rendering has two characters per byte |
| GenerateSeedRoute.BytesToHexAt | app/api/user/noun-avatar/generate-seed/route.ts:40 | byte k is rendered as its two lower-case hex digits at positions 2k and 2k+1 |
| GenerateSeedRoute.HexPairRoundTrip | app/api/user/noun-avatar/generate-seed/route.ts:52-56 | parsing the two hex digits of a byte gives the byte back |
| GenerateSeedRoute.ReadByte | app/api/user/noun-avatar/generate-seed/route.ts:52-56 | slicing the hex of a digest at 2k..2k+2 and parsing it reads digest byte k |
| GenerateSeedRoute.DeterministicSeed | app/api/user/noun-avatar/generate-seed/route.ts:37-64 | trait k of the deterministic seed is digest byte k modulo the trait's image count, so the seed is in range |
| GenerateSeedRoute.HandleGet | app/api/user/noun-avatar/generate-seed/route.ts:68-99 | given a random seed whose traits lie below their maxima (as `Math.floor(Math.random() * max)` does), 401 without a session, 400 without a user id, otherwise the deterministic seed of the user id when the query asks for it and the random seed otherwise, and the seed returned is in range either way |
| GenerateSeedRoute.DeterministicIsStable | app/api/user/noun-avatar/generate-seed/route.ts:75-88 | the deterministic answer for a user does not depend on the random source and is the seed of that user's digest |
| NotificationBell.MapFacts | components/notification/NotificationBell.tsx:43-44 | after setting every notification by id, the key order holds each id once, the keys are exactly the ids that occur, and each key maps to a notification with that id |
| NotificationBell.UniqueById | components/notification/NotificationBell.tsx:45 | the values read out are one per distinct id |
| NotificationBell.DedupById | components/notification/NotificationBell.tsx:43-45 | the loop that fills the map and reads its values returns the deduplicated list |
| NotificationBell.UniqueIds | components/notification/NotificationBell.tsx:39-46 | no two notifications shown share an id, and every id of the merged list is shown |
| NotificationBell.LastRecordWins | components/notification/NotificationBell.tsx:44 | for a repeated id, the last record with that id is the one shown |
| NotificationBell.FirstPlaceKept | components/notification/NotificationBell.tsx:44-45 | later notifications never move an id already placed: the key order only grows at its end |
| NotificationBell.AbsentUserAddsNothing | components/notification/NotificationBell.tsx:42 | a user missing from the payload contributes nothing to the merge |
| NotificationBell.HasUnread | components/notification/NotificationBell.tsx:39-48 | no data means no dot, and the dot shows exactly when the count is positive |
| NotificationBell.UnreadCount | components/notification/NotificationBell.tsx:39-49 | the count is the number of distinct ids among the listed users' notifications, and 0 without data |
| NotificationBell.DistinctCardinality | components/notification/NotificationBell.tsx:43-45 | a list without repeats has as many elements as its set |
| NotificationBell.DedupCount | components/notification/NotificationBell.tsx:43-45 | de-duplicating keeps one notification per distinct id |
| SkillsAutocomplete.Autocomplete.constructor | components/profile/components/SkillsAutocomplete.tsx:32-39 | the input starts unfocused and closed, with the debounced value equal to the value |
| SkillsAutocomplete.Autocomplete.Suggestions | components/profile/components/SkillsAutocomplete.tsx:42-46 | at most the search limit of suggestions, and none for an empty debounced value on an unfocused input |
| SkillsAutocomplete.Autocomplete.ShowSuggestions | components/profile/components/SkillsAutocomplete.tsx:104 | the list shows only when open and non-empty |
| SkillsAutocomplete.Autocomplete.SyncOpen | components/profile/components/SkillsAutocomplete.tsx:70-79 | after the effect the list is open exactly when there are suggestions, and closed for an empty unfocused input |
| SkillsAutocomplete.Autocomplete.Debounce | components/profile/components/SkillsAutocomplete.tsx:39 | the debounce timer copies the value |
| SkillsAutocomplete.Autocomplete.Change | components/profile/components/SkillsAutocomplete.tsx:64-67 | typing sets the value |
| SkillsAutocomplete.Autocomplete.Focus | components/profile/components/SkillsAutocomplete.tsx:113-116 | focusing marks the input focused and opens the list |
| SkillsAutocomplete.Autocomplete.Blur | components/profile/components/SkillsAutocomplete.tsx:117-122 | the delayed blur marks the input unfocused and closes the list |
| SkillsAutocomplete.Autocomplete.SelectSkill | components/profile/components/SkillsAutocomplete.tsx:81-86 | selecting hands the skill to the parent, clears the input and closes the list |
| SkillsAutocomplete.Autocomplete.KeyDown | components/profile/components/SkillsAutocomplete.tsx:88-101 | Enter on non-blank text selects the first suggestion, or the trimmed text when there is none; Enter on blank text and other keys change nothing; Escape only closes |
| SkillsAutocomplete.EnterTypedSkill | components/profile/components/SkillsAutocomplete.tsx:88-97 | typing a skill nobody suggests and pressing Enter selects the trimmed text and hides the list |
| RegisterFormStep2.ToggleFlips | components/hackathons/registration-form/RegisterFormStep2.tsx:136-143 | a multi-select choice flips that value's membership and keeps every other value in order |
| RegisterFormStep2.ToggleTwiceRestores | components/hackathons/registration-form/RegisterFormStep2.tsx:136-143 | choosing an absent value twice gives the list back |
| RegisterFormStep2.FormatSelectedValues | components/hackathons/registration-form/RegisterFormStep2.tsx:77-84 | the placeholder for no values, the label of the first matching option for one value (empty when none matches), and "N options selected" for two or more |
| RegisterFormStep2.FindOption | components/hackathons/registration-form/RegisterFormStep2.tsx:80 | the search finds nothing exactly when no option has the value, and otherwise returns the first option that does |
| RegisterFormStep2.KeysOf | components/hackathons/registration-form/RegisterFormStep2.tsx:100-102 | each input registers the key its name names |
| RegisterFormStep2.AsWrittenRegisters | components/hackathons/registration-form/RegisterFormStep2.tsx:100-407 | as written, the proficiency, participation and portfolio inputs register names outside the schema |
| RegisterFormStep2.BindingsRegister | components/hackathons/registration-form/RegistrationForm.tsx:42-50 | the schema's names register the seven step-2 schema fields |
| RegisterFormStep2.ProficiencyNeverSet | components/hackathons/registration-form/RegisterFormStep2.tsx:100-127 | inputs none of which registers the proficiency field leave it empty, so step 2 never validates |
| RegisterFormStep2.AsWrittenNeverValidates | components/hackathons/registration-form/RegistrationForm.tsx:274-294 | as written, no sequence of step-2 inputs from the defaults passes the step-2 validation |
| RegisterFormStep2.AsWrittenNeverSubmits | components/hackathons/registration-form/RegistrationForm.tsx:310-377 | as written, no sequence of step-2 inputs from the defaults gives values the whole schema accepts, so `handleSubmit` never reaches `onSubmit` |
| RegisterFormStep2.AsWrittenRejectsCompleteAnswers | components/hackathons/registration-form/RegistrationForm.tsx:274-294 | the counterexample: a user who picks a proficiency, one value in every list and a participation still fails step 2 |
| RegisterFormStep2.CompleteAnswersPass | components/hackathons/registration-form/RegistrationForm.tsx:274-294 | with the schema's names, the same answers pass step 2 |
| RegisterFormStep2.CompleteAnswersFill | components/hackathons/registration-form/RegisterFormStep2.tsx:100-407 | the complete answers write the proficiency, a one-value list into each list field and the participation, and nothing else |
| RegisterFormStep2.ToggleIntoEmpty | components/hackathons/registration-form/RegisterFormStep2.tsx:136-143 | choosing a value in an empty list field stores the one-value list |
| RegisterFormStep2.StepTwoValid | components/hackathons/registration-form/RegistrationForm.tsx:41-50 | step 2 passes when the proficiency and participation are non-empty, the four lists non-empty and the portfolio a string |
| RegistrationForm.KeyOf | components/hackathons/registration-form/RegistrationForm.tsx:35-60 | an input name registers the schema field of that name, or an unlisted key when the schema has no such field |
| RegistrationForm.PositionedDistinct | components/hackathons/registration-form/RegistrationForm.tsx:35-60 | a list whose every element sits at the position the position function gives it has no repeats |
| RegistrationForm.SchemaPositionFinds | components/hackathons/registration-form/RegistrationForm.tsx:35-60 | every field sits at its position in the schema's list |
| RegistrationForm.SchemaListsEveryField | components/hackathons/registration-form/RegistrationForm.tsx:35-60 | the schema lists sixteen distinct fields, every field among them |
| RegistrationForm.StepsPartitionSchema | components/hackathons/registration-form/RegistrationForm.tsx:263-290 | the three step lists share no field and together cover the schema |
| RegistrationForm.SchemaConstraints | components/hackathons/registration-form/RegistrationForm.tsx:35-60 | a form the whole schema accepts holds a non-empty list in every list field and true in every consent field |
| RegistrationForm.DefaultsFailEachStep | components/hackathons/registration-form/RegistrationForm.tsx:84-104 | the default values fail the validation of each of the three steps |
| RegistrationForm.ParseArrayField | components/hackathons/registration-form/RegistrationForm.tsx:158-170 | a falsy value gives an empty list and an array is kept as it is |
| RegistrationForm.ParseArrayFieldSplits | components/hackathons/registration-form/RegistrationForm.tsx:161-167 | a non-empty stored string that does not parse as a JSON array is split at commas |
| RegistrationForm.ProgressPositionsDistinct | components/hackathons/registration-form/RegistrationForm.tsx:244-255 | the three steps put the progress bar in three different places |
| RegistrationForm.Parsed | components/hackathons/registration-form/RegistrationForm.tsx:35-60 | the schema's parse keeps exactly the schema fields with their values and adds `dietary` and `github_portfolio` as "" when they are missing |
| RegistrationForm.FirstText | components/hackathons/registration-form/RegistrationForm.tsx:219 | `utm \|\| utmSaved`: a non-empty query utm wins and an empty one gives the saved utm; the stored name and email at lines 125-126 fall back the same way |
| RegistrationForm.Strs | components/hackathons/registration-form/RegistrationForm.tsx:131-139 | the strings of a parsed list, all of them, in order, when every element is a string |
| RegistrationForm.StoredValues | components/hackathons/registration-form/RegistrationForm.tsx:116-156 | a stored registration resets only schema fields: the name and email fall back to the user's, the proficiency and terms are copied |
| RegistrationForm.StoredValuesComplete | components/hackathons/registration-form/RegistrationForm.tsx:116-156 | a stored registration sets every schema field |
| RegistrationForm.SaveLaterRoundTrip | components/hackathons/registration-form/RegistrationForm.tsx:172-223 | saving for later and reading the data back gives the same parsed values |
| RegistrationForm.DefaultsNeverSubmit | components/hackathons/registration-form/RegistrationForm.tsx:84-104 | the default values fail the schema, so a fresh form is never submitted |
| RegistrationForm.ResetFormNeverSubmits | components/hackathons/registration-form/RegistrationForm.tsx:206-213 | after the authentication reset the form fails the schema |
| RegistrationForm.Wizard.constructor | components/hackathons/registration-form/RegistrationForm.tsx:71-104 | the wizard starts on step 1 with the default values and the dialog closed; the hackathon id is the query's and the saved utm is empty |
| RegistrationForm.Wizard.SetField | components/hackathons/registration-form/RegistrationForm.tsx:84-104 | an input's change writes the key its name registers and nothing else |
| RegistrationForm.Wizard.SaveLater | components/hackathons/registration-form/RegistrationForm.tsx:215-223 | "save for later" stores all current values with the hackathon and the query's utm when non-empty, else the saved one |
| RegistrationForm.Wizard.HandleStepChange | components/hackathons/registration-form/RegistrationForm.tsx:257-261 | only steps 1 to 3 are accepted, so the step stays in range |
| RegistrationForm.Wizard.OnNextStep | components/hackathons/registration-form/RegistrationForm.tsx:263-295 | the handler of a render advances the current step by one exactly when the fields of that render's step validate; run where it was rendered, from steps 1 and 2 the step stays within 1 to 3 |
| RegistrationForm.Wizard.OnSubmit | components/hackathons/registration-form/RegistrationForm.tsx:225-242 | called only with values the whole schema accepts: below step 3 the step becomes the rendered one plus one and nothing is sent; from step 3 on the parsed values go out with the hackathon and the utm and the dialog opens |
| RegistrationForm.Wizard.HandleSubmit | components/hackathons/registration-form/RegistrationForm.tsx:310-377 | values the schema rejects change nothing and send nothing; accepted values go to `onSubmit` with the rendered step |
| RegistrationForm.Wizard.PressContinue | components/hackathons/registration-form/RegistrationForm.tsx:310-337 | one press of Continue runs `onNextStep` and then the form's submit: values the schema rejects advance one step exactly when the step's fields pass and send nothing; values it accepts advance one step below step 3, or two when the submit settles first, and from step 4 on are posted with the dialog opened |
| RegistrationForm.Wizard.PressContinueAsButton | components/hackathons/registration-form/RegistrationForm.tsx:329-337 | with Continue as a plain button, a press advances one step exactly when the step's fields pass, never past step 3, and posts nothing |
| RegistrationForm.AsWrittenContinueSkipsStepThree | components/hackathons/registration-form/RegistrationForm.tsx:225-337 | a complete registration resumed on step 2, with the submit settling first, reaches step 4 in one press, and the next press posts it without step 3 having been shown |
| RegistrationForm.SchemaCoversStep | components/hackathons/registration-form/RegistrationForm.tsx:263-290 | values the whole schema accepts pass the fields of every step |
| RegistrationForm.Wizard.ResetOnAuth | components/hackathons/registration-form/RegistrationForm.tsx:206-213 | on authentication the values become the user's name and email alone |
| RegistrationForm.Wizard.LoadRegistration | components/hackathons/registration-form/RegistrationForm.tsx:116-188 | a stored registration resets the form to its values, else data saved for later does, else the values stay; in the corrected wizard the loaded hackathon and utm are kept as state for the handlers |
| RegistrationForm.AsWrittenHandlerData | components/hackathons/registration-form/RegistrationForm.tsx:74-76 | as written, the handlers on screen after a load build their data from the query's hackathon and an empty saved utm, so the utm sent is the query's |
| RegistrationForm.AsWrittenLosesStoredUtm | components/hackathons/registration-form/RegistrationForm.tsx:146-182 | as written, a resumed registration without a utm in the address sends an empty utm instead of the stored one |
| RegistrationForm.ResumeKeepsUtm | components/hackathons/registration-form/RegistrationForm.tsx:146-223 | in the corrected wizard, resuming a stored registration and saving again keeps its hackathon, its utm and its values |
| RegistrationForm.ProgressPosition | components/hackathons/registration-form/RegistrationForm.tsx:244-255 | any step other than 2 and 3 puts the bar at the left |
| Schedule.EarlierIsOrder | components/hackathons/hackathon/sections/Schedule.tsx:327-329 | the time comparator is a total, transitive order |
| Schedule.GroupsOfPrefix | components/hackathons/hackathon/sections/Schedule.tsx:313-332 | the reduce over one more activity is one more step on the reduce of the prefix |
| Schedule.GroupActivitiesByDay | components/hackathons/hackathon/sections/Schedule.tsx:310-333 | the loop returns the groups the reduce builds |
| Schedule.SizesFrame | components/hackathons/hackathon/sections/Schedule.tsx:310-333 | a day outside the listed keys does not change the total size |
| Schedule.SizesUpdate | components/hackathons/hackathon/sections/Schedule.tsx:310-333 | replacing one listed day's group changes the total by the change in that group's size |
| Schedule.GroupKeys | components/hackathons/hackathon/sections/Schedule.tsx:313-321 | the group keys are distinct and are exactly the days that have a group |
| Schedule.GroupContents | components/hackathons/hackathon/sections/Schedule.tsx:313-332 | each group holds exactly the activities of its UTC day, and a day without a group has no activity |
| Schedule.GroupContentsAt | components/hackathons/hackathon/sections/Schedule.tsx:313-332 | the same fact for one day |
| Schedule.GroupsSorted | components/hackathons/hackathon/sections/Schedule.tsx:326-329 | each group is in ascending time |
| Schedule.GroupSizes | components/hackathons/hackathon/sections/Schedule.tsx:313-332 | the group sizes add up to the number of activities |
| Schedule.GroupedUnderItsDay | components/hackathons/hackathon/sections/Schedule.tsx:315-324 | an activity in a group is an input activity of that group's day |
| Schedule.OnDayFacts | components/hackathons/hackathon/sections/Schedule.tsx:315-324 | every activity listed for a day falls on that day and is an input activity |
| Schedule.RenderedDays | components/hackathons/hackathon/sections/Schedule.tsx:179-180 | at most the first two day groups are rendered, in key order |
| Schedule.EarliestTime | components/hackathons/hackathon/sections/Schedule.tsx:292-294 | the earliest time is no later than any activity's and is some activity's time |
| Schedule.LatestTime | components/hackathons/hackathon/sections/Schedule.tsx:295 | the latest time is no earlier than any activity's and is some activity's time |
| Schedule.DateRange | components/hackathons/hackathon/sections/Schedule.tsx:288 | no activities give "No dates available" |
| Schedule.DateRangeShape | components/hackathons/hackathon/sections/Schedule.tsx:287-308 | activities sharing one instant show that date alone; otherwise the earliest and latest dates joined by " - " |
| Schedule.CountdownFacts | components/hackathons/hackathon/sections/Schedule.tsx:154-171 | days show exactly when at least a day is left; a deadline under a day away shows hours and minutes rounded down; a passed deadline shows hours and minutes of zero or below |
| InfrabuidlRoute.FindMember | app/api/infrabuidl/route.ts:73-77 | nothing is found exactly when no member is the caller with a status other than Removed; otherwise the first such member |
| InfrabuidlRoute.PrefixedNotUnprefixed | app/api/infrabuidl/route.ts:148-153 | a prefixed name is never one of the five names sent unprefixed |
| InfrabuidlRoute.RenamedInjective | app/api/infrabuidl/route.ts:148-153 | two form keys with the same HubSpot name are the same key |
| InfrabuidlRoute.RenamedInjectiveAll | app/api/infrabuidl/route.ts:148-153 | renaming loses no key: distinct keys land on distinct names |
| InfrabuidlRoute.Copied | app/api/infrabuidl/route.ts:148-154 | every form key is sent under its HubSpot name with its value, and nothing else is |
| InfrabuidlRoute.CopiedStep | app/api/infrabuidl/route.ts:148-154 | copying one more key adds exactly that key's renamed entry |
| InfrabuidlRoute.CopyEntries | app/api/infrabuidl/route.ts:148-154 | the forEach copy returns the renamed form |
| InfrabuidlRoute.PreviousFunding | app/api/infrabuidl/route.ts:187 | an array of previous funding is used as it is, anything else wrapped in a one-element list |
| InfrabuidlRoute.Eval | app/api/infrabuidl/route.ts:157-196 | every explicitly assigned value except the applicant's names is truthy ("N/A", "0", "Yes" or "No" fill in) |
| InfrabuidlRoute.DistinctAppend | app/api/infrabuidl/route.ts:157-196 | two assignment blocks without repeats and apart from each other have no repeats together |
| InfrabuidlRoute.ApartAppend | app/api/infrabuidl/route.ts:157-196 | a block apart from two blocks is apart from their concatenation |
| InfrabuidlRoute.ConditionalFieldsDistinct | app/api/infrabuidl/route.ts:157-169 | the conditional fields and the applicant's names assign no field twice |
| InfrabuidlRoute.OtherBlocksDistinct | app/api/infrabuidl/route.ts:172-196 | the legacy, funding-amount, funding-flag and similar-project blocks each assign no field twice |
| InfrabuidlRoute.ConditionalFieldsApartFromFunding | app/api/infrabuidl/route.ts:157-184 | the conditional block shares no field with the legacy and funding-amount blocks |
| InfrabuidlRoute.ConditionalFieldsApartFromRest | app/api/infrabuidl/route.ts:157-196 | the conditional block shares no field with the funding-flag and similar-project blocks |
| InfrabuidlRoute.FundingBlocksApart | app/api/infrabuidl/route.ts:172-196 | the legacy block shares no field with the later blocks |
| InfrabuidlRoute.LaterBlocksApart | app/api/infrabuidl/route.ts:178-196 | the funding-amount, funding-flag and similar-project blocks share no field |
| InfrabuidlRoute.AssignmentNamesDistinct | app/api/infrabuidl/route.ts:157-196 | no field is assigned twice by the explicit assignments |
| InfrabuidlRoute.TargetInjective | app/api/infrabuidl/route.ts:157-196 | two assignments writing the same field name the same field |
| InfrabuidlRoute.AssignedAt | app/api/infrabuidl/route.ts:157-196 | after the assignments, a field holds the value of the last assignment to it, or what the copy put there when none writes it |
| InfrabuidlRoute.LastWriteDistinct | app/api/infrabuidl/route.ts:157-196 | with no field named twice, each assignment is the last one to its field, and an untouched field has no write |
| InfrabuidlRoute.AssignAll | app/api/infrabuidl/route.ts:157-196 | the assignment statements build the assigned map |
| InfrabuidlRoute.ProcessedFields | app/api/infrabuidl/route.ts:146-196 | each assigned field holds its assignment's value, every other form key is sent with its value under its HubSpot name, and nothing else is sent |
| InfrabuidlRoute.LastWriteSome | app/api/infrabuidl/route.ts:157-196 | a field with a last write is the target of some assignment |
| InfrabuidlRoute.LastWriteNone | app/api/infrabuidl/route.ts:157-196 | a field with no write is untouched by every assignment |
| InfrabuidlRoute.LastWriteFound | app/api/infrabuidl/route.ts:157-196 | the target of any assignment has a last write |
| InfrabuidlRoute.ProcessFormData | app/api/infrabuidl/route.ts:146-196 | building the data step by step gives the processed form |
| InfrabuidlRoute.Texts | app/api/infrabuidl/route.ts:202 | each array element is rendered as the array join renders it |
| InfrabuidlRoute.Fields | app/api/infrabuidl/route.ts:198-210 | one field per processed key |
| InfrabuidlRoute.FieldsRoundTrip | app/api/infrabuidl/route.ts:198-210 | a non-array value is sent unchanged, and an array of one or more elements without ";" in their texts is recovered by splitting what is sent at ";" |
| InfrabuidlRoute.ConsentOf | app/api/infrabuidl/route.ts:236-250 | the consent block is present exactly when gdpr is true itself, with marketing consent exactly when marketing_consent is true itself |
| InfrabuidlRoute.PageUri | app/api/infrabuidl/route.ts:231 | the referer when present and non-empty, the site address otherwise |
| InfrabuidlRoute.Submit | app/api/infrabuidl/route.ts:132-291 | the form is stored under the final project id when there is one, the payload carries the processed fields, page and consent, and the reply succeeds exactly on a 2xx HubSpot status, passing any other status on |
| InfrabuidlRoute.NullBodyFails | app/api/infrabuidl/route.ts:33-297 | a `null` or undefined body makes the read of `projectId` throw, and the catch answers 500 with the TypeError's message and writes nothing |
| InfrabuidlRoute.CallerChecks | app/api/infrabuidl/route.ts:37-51 | the route answers 401 with no effect exactly when the user id is missing or unknown |
| InfrabuidlRoute.MembershipDecision | app/api/infrabuidl/route.ts:56-107 | for an existing project id: 404 exactly for an unknown project, 403 exactly when the caller is not a member that was not removed, and a status update exactly for an unconfirmed member |
| InfrabuidlRoute.CreatesProject | app/api/infrabuidl/route.ts:108-130 | without a project id a project is created with the caller as its only member and its id becomes the final one; a failed creation gives 500 |
| InfrabuidlRoute.Post | app/api/infrabuidl/route.ts:11-299 | the route, step by step, returns the handler's reply and effects |
| InfrabuidlRoute.AdmitStep | app/api/infrabuidl/route.ts:53-130 | the project checks, with the final id reassigned on each branch, give the admission decision |
| InfrabuidlRoute.SubmitStep | app/api/infrabuidl/route.ts:132-291 | the steps after the project checks give the submission's reply and effects |
| FormData.Clean | server/services/formData.ts:13 | the stored form drops projectId and userId and keeps every other key with its value |
| FormData.CreateFormData | server/services/formData.ts:9-25 | the record carries the cleaned form and the project id and origin given as arguments |
| FormData.CleanIdempotent | server/services/formData.ts:13 | cleaning twice is cleaning once, and a form without the two ids is stored as it is |
| FormData.IdsInFormIgnored | server/services/formData.ts:13-19 | the stored form does not depend on the ids a client put in it |
| Auth.DropLeadingComma | server/services/auth.ts:19 | only a comma at the very start is removed |
| Auth.AuthModeMerge | server/services/auth.ts:17-19 | a mode that already contains the provider, even inside a longer name, is kept; otherwise the provider is appended after a comma, with no leading comma when the old mode was missing or empty |
| Auth.AuthModeIdempotent | server/services/auth.ts:17-19 | after a sign-in the mode contains the provider, so signing in again with it changes nothing |
| Auth.NoAccountSignIn | server/services/auth.ts:17-19 | a sign-in without an account turns a missing mode into "undefined" and keeps an existing one (every mode contains the empty provider) |
| Auth.Refreshed | server/services/auth.ts:25-34 | a stored non-empty image wins over the provider's, and the email and notification columns are kept |
| Auth.Created | server/services/auth.ts:37-49 | a new row sends notifications to the sign-in email, stores no notifications, takes the default channels and records the provider (empty without an account) |
| Auth.UserStore.constructor | server/services/auth.ts:13 | the store holds the given rows |
| Auth.UserStore.UpsertUser | server/services/auth.ts:7-66 | a missing or empty email fails without a write; a known email is refreshed and an unknown one created, and only that row changes |
| ProfileService.UserTypeOf | server/services/profile/profile.service.ts:21-28 | a falsy user_type reads as four false flags and an object is used as it is |
| ProfileService.ProfileOf | server/services/profile/profile.service.ts:31-48 | user_name is read as the username, with empty defaults for the username, socials and skills, and the parsed user type |
| ProfileService.GetExtendedProfile | server/services/profile/profile.service.ts:9-49 | no profile exactly for an unknown id, otherwise the row read as a profile |
| ProfileService.EmptyRowDefaults | server/services/profile/profile.service.ts:21-47 | an empty row reads as an empty username, empty lists, four false flags and no country |
| ProfileService.Written | server/services/profile/profile.service.ts:107-110 | the update writes every key whose value is defined and leaves every other column as it was |
| ProfileService.UpdateData | server/services/profile/profile.service.ts:86-105 | username and socials are renamed to user_name and social_media, user_type is passed on when defined, last_login is set to the call time, and every other key is kept |
| ProfileService.IsUsernameAvailable | server/services/profile/profile.service.ts:126-135 | a username is available exactly when every user holding it is the current user |
| ProfileService.ProfileStore.constructor | server/services/profile/profile.service.ts:61-63 | the store holds the given rows |
| ProfileService.ProfileStore.UpdateExtendedProfile | server/services/profile/profile.service.ts:57-118 | an unknown id fails with "User not found" and no write; empty data only refreshes last_login; otherwise the update data is written; the profile read back is returned |
| ProfileService.SavedUsernameIsTheirs | server/services/profile/profile.service.ts:86-135 | after a user saves an unclaimed username it stays available to them and is taken for everyone else |
| SetProjectWinner.RequestFor | server/services/set-project-winner.ts:36-56 | the badge request names the project, an empty user, the awarder and the project category |
| SetProjectWinner.ProjectStore.constructor | server/services/set-project-winner.ts:11-14 | the store holds the given projects |
| SetProjectWinner.ProjectStore.SetWinner | server/services/set-project-winner.ts:5-66 | the new table, result and badge request are those of the outcome function |
| SetProjectWinner.OutcomeCases | server/services/set-project-winner.ts:11-66 | an unknown project fails with no write; a winner asked to win again is not written and reports it; otherwise the flag takes the requested value, the call succeeds, and a badge is requested exactly when it is set |
| SetProjectWinner.WinnerTwiceAwardsOnce | server/services/set-project-winner.ts:21-30 | setting a winner twice awards the badge once: the second call writes nothing and reports the project already a winner |
| SetProjectWinner.ClearingAndSetting | server/services/set-project-winner.ts:32-65 | clearing never requests a badge and always succeeds; every call on a known project leaves the flag as requested and every other project untouched |
| SetWinnerRoute.AwarderName | app/api/project/set-winner/route.ts:9 | the awarder is the session's non-empty name, or "user", and never empty |
| SetWinnerRoute.BodyCheck | app/api/project/set-winner/route.ts:12-34 | a `null` or undefined body makes the property read throw, answered 500 with the TypeError's message; otherwise a falsy project_id gives 400 "project_id parameter is required", then a missing isWinner gives 400 "isWinner parameter is required", and anything else passes |
| SetWinnerRoute.Answer | app/api/project/set-winner/route.ts:25-34 | a service result is sent with 200 and a thrown error with 500 and its message |
| SetWinnerRoute.GuardsFirst | app/api/project/set-winner/route.ts:6 | without a session the answer is 401 and without the badge_admin role 403, and neither touches a project |
| SetWinnerRoute.PassedGuardIsHandled | app/api/project/set-winner/route.ts:6 | once the guard passes, the handler answers |
| SetWinnerRoute.MissingFields | app/api/project/set-winner/route.ts:12-23 | a non-null body without project_id or isWinner gets 400 and the service is not called |
| SetWinnerRoute.NullBodyFails | app/api/project/set-winner/route.ts:12-34 | a `null` body from a badge admin gets 500, changes no project and requests no badge |
| SetWinnerRoute.ServiceOutcome | app/api/project/set-winner/route.ts:9-35 | a valid request reaches the service with the session's name or "user" as awarder, and gets 200 exactly when the service returns and 500 exactly when it throws |
| SetWinnerRoute.Put | app/api/project/set-winner/route.ts:6-36 | the route's reply, new table and badge request are those of the handler function, including the 500 for a `null` body |
| ProtectedRoute.WithAuth | lib/protectedRoute.ts:5-16 | the handler runs with the session exactly when there is one, otherwise 401 |
| ProtectedRoute.WithAuthRole | lib/protectedRoute.ts:17-41 | the handler runs exactly when there is a session holding the role; 401 without a session, 403 without the role |
| ProtectedRoute.RoleGuardRefinesAuth | lib/protectedRoute.ts:5-41 | the role guard passes only where the session guard passes, and fails the same way where it fails |
| ProtectedRoute.NoAttributesNoRole | lib/protectedRoute.ts:30-37 | a session without custom attributes holds no role |
| BrowserDetection.MarkerCases | lib/utils/browserDetection.ts:10-33 | a user agent carries one of the in-app markers exactly when it contains one of the seven marker strings |
| BrowserDetection.IsEmbeddedBrowser | lib/utils/browserDetection.ts:5-41 | an embedded browser exactly when there is a window and the user agent carries an in-app marker or is an Android WebView |
| BrowserDetection.GetEmbeddedBrowserName | lib/utils/browserDetection.ts:46-58 | no name without a window; otherwise the first marker present, in the order Twitter, Facebook (FBAN, FBAV, FB_IAB), Instagram, LinkedInApp, Line/, gives "X (Twitter)", "Facebook", "Instagram", "LinkedIn" or "Line" |
| BrowserDetection.NameMatchesDetection | lib/utils/browserDetection.ts:5-58 | the name is a specific one exactly when a marker is present, and with the generic name the browser counts as embedded exactly when it is an Android WebView |
| BrowserDetection.StripScheme | lib/utils/browserDetection.ts:72 | a leading https:// or http:// is removed, and nothing else |
| BrowserDetection.IntentUrl | lib/utils/browserDetection.ts:72 | the intent URL is intent://, the page address without its scheme, then the intent suffix |
| BrowserDetection.OpenInExternalBrowser | lib/utils/browserDetection.ts:63-84 | nothing happens without a window; on Android the page is reopened through the intent URL, elsewhere through a link click |
| BrowserDetection.WebViewUsesIntent | lib/utils/browserDetection.ts:36-72 | an Android WebView on an https page is sent to an intent URL that carries the page address without its scheme |
| L1BubbleConfig.ActiveItem | components/stats/l1-bubble.config.tsx:15-26 | explorer exactly when the path contains /explorer; validators exactly when it contains /validators but not /explorer; token exactly when only /avax-token is present; stats otherwise |
| L1BubbleConfig.Items | components/stats/l1-bubble.config.tsx:43-55 | Stats at `/stats/l1/`, Explorer at `/explorer/` and Validators at `/stats/validators/`, each followed by the chain slug, then the token item at `/stats/avax-token` exactly on the C-Chain; no id twice |
| L1BubbleConfig.Nav | components/stats/l1-bubble.config.tsx:28-69 | nothing is rendered without an RPC URL or for a custom chain; otherwise the chain's items |
| L1BubbleConfig.NotAcross | components/stats/l1-bubble.config.tsx:15-26 | a marker starting with / cannot straddle the end of a prefix whose slashes are not followed by the marker's second character |
| L1BubbleConfig.MarkerAt | components/stats/l1-bubble.config.tsx:15-26 | a marker at the start of a suffix is contained in the whole path |
| L1BubbleConfig.StatsRoundTrip | components/stats/l1-bubble.config.tsx:47 | the stats link makes stats the active item |
| L1BubbleConfig.ExplorerRoundTrip | components/stats/l1-bubble.config.tsx:48 | the explorer link makes explorer the active item |
| L1BubbleConfig.ValidatorsRoundTrip | components/stats/l1-bubble.config.tsx:49 | the validators link makes validators the active item |
| L1BubbleConfig.ValidatorsNotExplorer | components/stats/l1-bubble.config.tsx:49 | the validators link does not contain /explorer |
| L1BubbleConfig.ValidatorsMarker | components/stats/l1-bubble.config.tsx:49 | the validators link contains /validators |
| L1BubbleConfig.TokenNoMarker | components/stats/l1-bubble.config.tsx:54 | the token link contains neither /explorer nor /validators |
| L1BubbleConfig.TokenRoundTrip | components/stats/l1-bubble.config.tsx:54 | the token link makes token the active item |
| L1BubbleConfig.TokenMarker | components/stats/l1-bubble.config.tsx:54 | the token link contains /avax-token |
| L1BubbleConfig.ItemsRoundTrip | components/stats/l1-bubble.config.tsx:15-55 | for a slug that does not look like a path marker, every item's link makes that item the active one |
| L1BubbleConfig.ActiveIsOffered | components/stats/l1-bubble.config.tsx:15-55 | the active item is always one the navigation offers, the token item only on the C-Chain |
| TimezoneSelect.UtcOffsets | components/ui/timezone-select.tsx:41 | 27 offsets are offered |
| TimezoneSelect.OffsetsAscending | components/ui/timezone-select.tsx:41 | the offsets run from -12 to 14, each one above the one before, and are exactly that range |
| TimezoneSelect.Sign | components/ui/timezone-select.tsx:52 | "+" exactly for offsets of zero and above, nothing for negative ones |
| TimezoneSelect.Cities | components/ui/timezone-select.tsx:53 | the offset's cities joined with ", ", or "Unknown Region" when the map has no entry |
| TimezoneSelect.FormatTimezoneLabel | components/ui/timezone-select.tsx:51-55 | the offset can be read back from the label |
| TimezoneSelect.TakeUntilPrefix | components/ui/timezone-select.tsx:54 | the characters before a separator that the head lacks are the head |
| TimezoneSelect.OffsetReadable | components/ui/timezone-select.tsx:51-55 | after "(UTC" and an optional "+", the integer before the first ":" is the offset |
| TimezoneSelect.LabelSign | components/ui/timezone-select.tsx:51-55 | the character after "(UTC" is "+" exactly for offsets of zero and above and "-" exactly below zero, and a digit follows it |
| TimezoneSelect.TemplateParts | components/ui/timezone-select.tsx:54 | the label is "(UTC", a sign character, then the digits of the offset's magnitude, ":00) " and the cities |
| TimezoneSelect.MarkThenDigit | components/ui/timezone-select.tsx:54 | the fifth character of the label is the sign and the sixth the first digit |
| TimezoneSelect.LabelCities | components/ui/timezone-select.tsx:51-55 | the label ends with the offset's cities, "Unknown Region" when the map has no entry |
| TimezoneSelect.EveryOffsetCovered | components/ui/timezone-select.tsx:9-41 | every offset offered has an entry, so no option reads "Unknown Region" |
| TimezoneSelect.EntryKnown | components/ui/timezone-select.tsx:9-37 | each entry of the map is a single city line, which is what the label shows |
| DeployValidatorManager.SliceFrom | toolbox/src/toolbox/ValidatorManager/DeployValidatorManager.tsx:15 | slicing from a start gives the rest, or nothing past the end |
| DeployValidatorManager.SliceTo | toolbox/src/toolbox/ValidatorManager/DeployValidatorManager.tsx:16 | slicing to n gives the prefix of length n, or the whole string when it is shorter |
| DeployValidatorManager.LibraryHash | toolbox/src/toolbox/ValidatorManager/DeployValidatorManager.tsx:12-17 | for a full 0x digest the hash is its 34 characters after the prefix |
| DeployValidatorManager.Placeholder | toolbox/src/toolbox/ValidatorManager/DeployValidatorManager.tsx:33 | the placeholder is the hash between `__$` and `$__` |
| DeployValidatorManager.PadStart | toolbox/src/toolbox/ValidatorManager/DeployValidatorManager.tsx:37 | padding keeps the string at the end and fills the front with the pad character up to the length |
| DeployValidatorManager.SplitOn | toolbox/src/toolbox/ValidatorManager/DeployValidatorManager.tsx:36 | splitting at a non-empty separator gives at least one piece |
| DeployValidatorManager.SplitOnJoin | toolbox/src/toolbox/ValidatorManager/DeployValidatorManager.tsx:35-37 | joining the pieces back with the separator gives the string again |
| DeployValidatorManager.JoinAtSeparator | toolbox/src/toolbox/ValidatorManager/DeployValidatorManager.tsx:35-37 | the split-join round trip holds for a string starting with the separator when it holds for the rest after the separator |
| DeployValidatorManager.JoinPastChar | toolbox/src/toolbox/ValidatorManager/DeployValidatorManager.tsx:35-37 | the split-join round trip holds for a string not starting with the separator when it holds for the rest after its first character |
| DeployValidatorManager.JoinCons | toolbox/src/toolbox/ValidatorManager/DeployValidatorManager.tsx:37 | joining a piece in front of others puts one separator between them |
| DeployValidatorManager.JoinHead | toolbox/src/toolbox/ValidatorManager/DeployValidatorManager.tsx:37 | extending the first piece extends the join at its front |
| DeployValidatorManager.JoinLength | toolbox/src/toolbox/ValidatorManager/DeployValidatorManager.tsx:37 | the joined length counts each separator once |
| DeployValidatorManager.ReplaceKeepsLength | toolbox/src/toolbox/ValidatorManager/DeployValidatorManager.tsx:35-37 | a replacement as long as the placeholder keeps the bytecode's length |
| DeployValidatorManager.ReplaceBySelf | toolbox/src/toolbox/ValidatorManager/DeployValidatorManager.tsx:35-37 | replacing the placeholder by itself changes nothing |
| DeployValidatorManager.ReplaceAbsent | toolbox/src/toolbox/ValidatorManager/DeployValidatorManager.tsx:35-37 | text without the placeholder is one piece and is left as it is |
| DeployValidatorManager.AddressDigits | toolbox/src/toolbox/ValidatorManager/DeployValidatorManager.tsx:37 | a 42-character 0x address contributes its 40 hex digits |
| DeployValidatorManager.GetLinkedBytecode | toolbox/src/toolbox/ValidatorManager/DeployValidatorManager.tsx:26-44 | the missing-library error exactly for an empty library address; an Ok result is the bytecode with every placeholder replaced by the address digits and holds no `$__`; it is Ok exactly when that replacement holds none |
| DeployValidatorManager.LinkedHasNoPlaceholder | toolbox/src/toolbox/ValidatorManager/DeployValidatorManager.tsx:35-41 | linked bytecode holds no placeholder |
| DeployValidatorManager.NoPlaceholderWithoutMark | toolbox/src/toolbox/ValidatorManager/DeployValidatorManager.tsx:39-41 | text without `$__` holds no placeholder |
| DeployValidatorManager.LinkingKeepsLength | toolbox/src/toolbox/ValidatorManager/DeployValidatorManager.tsx:12-43 | with a full digest and a 42-character address, linking keeps the bytecode's length |
| DeployValidatorManager.UnlinkedBytecodePassesThrough | toolbox/src/toolbox/ValidatorManager/DeployValidatorManager.tsx:35-43 | bytecode without any `$__` links to itself |
| DeployValidatorManager.DeployOutcome | toolbox/src/toolbox/ValidatorManager/DeployValidatorManager.tsx:49-67 | the deploy succeeds exactly when there is a chain, switching to it works, linking works and the receipt carries a contract address, which is the result |
| DeployValidatorManager.Deployer.constructor | toolbox/src/toolbox/ValidatorManager/DeployValidatorManager.tsx:21-23 | the form starts idle with the stored address and no error shown |
| DeployValidatorManager.Deployer.HandleDeploy | toolbox/src/toolbox/ValidatorManager/DeployValidatorManager.tsx:46-73 | the stored address is cleared first and set only from a receipt's contract address; an error is shown on failure; the deploying flag ends down |
| DeployValidatorManager.FailedDeployClearsAddress | toolbox/src/toolbox/ValidatorManager/DeployValidatorManager.tsx:48-69 | without a chain, without a library address, or with a failed transaction the deploy fails |
| Strings.TrimStartFacts | components/profile/components/SkillsAutocomplete.tsx:89 | trimming the start removes a blank prefix and stops at a non-whitespace character |
| Strings.TrimEndFacts | components/profile/components/SkillsAutocomplete.tsx:89 | trimming the end removes a blank suffix and stops at a non-whitespace character |
| Strings.TrimEmptyIffBlank | components/profile/components/SkillsAutocomplete.tsx:89 | trimming leaves nothing exactly when the string is all whitespace |
| Strings.TrimChars | components/profile/components/SkillsAutocomplete.tsx:96 | every character of the trimmed string comes from the original |
| Strings.TrimIsEmpty | components/profile/components/SkillsAutocomplete.tsx:89 | the blank test is exactly "all whitespace" |
| Strings.Includes | lib/utils/browserDetection.ts:11 | includes holds exactly when the substring occurs at some position |
| Strings.PrefixOccurs | lib/utils/browserDetection.ts:11 | an occurrence at position 0 is a prefix |
| Strings.IncludesOfPart | lib/utils/browserDetection.ts:11 | a substring of a part is a substring of the whole |
| Strings.CaseFacts | components/profile/components/settings.tsx:32 | lower-casing forgets an earlier case mapping, is idempotent, and moves no space or underscore |
| Strings.ToLower | components/profile/components/settings.tsx:32 | lower-casing maps each character and keeps the length |
| Strings.ToLowerAppend | components/profile/components/settings.tsx:32 | lower-casing distributes over concatenation |
| Strings.ToUpper | components/profile/components/settings.tsx:32 | upper-casing maps each character and keeps the length |
| Strings.Split | components/profile/components/settings.tsx:31 | splitting at one character gives at least one piece, no piece holds the separator, and joining the pieces gives the string back |
| Strings.FirstSeparator | app/api/infrabuidl/route.ts:202 | in a join of several separator-free parts, the first separator ends the first part |
| Strings.JoinUnique | app/api/infrabuidl/route.ts:202 | separator-free parts are determined by their join |
| Strings.SplitJoin | app/api/infrabuidl/route.ts:202 | splitting undoes joining for separator-free parts |
| Strings.NatToString | components/hackathons/registration-form/RegisterFormStep2.tsx:83 | a number prints as at least one decimal digit |
| Strings.IntToString | components/stats/LiveBlockBurns.tsx:156 | an integer prints as at least one character, digits with a leading "-" only for negative numbers |
| Strings.ParseInt | components/stats/LiveBlockBurns.tsx:156 | a reading succeeds exactly on an optional "-" followed by digits |
| Strings.NatToStringValue | components/hackathons/registration-form/RegisterFormStep2.tsx:83 | the digits printed denote the number, with no leading zero |
| Strings.IntToStringRoundTrip | components/stats/LiveBlockBurns.tsx:156 | reading back a printed integer gives the integer |
| Strings.IntToStringInjective | components/stats/LiveBlockBurns.tsx:156 | different integers print differently |
| Lists.Filter | components/profile/components/hooks/useProfileForm.ts:325 | a filter never grows the list |
| Lists.FilterFacts | components/profile/components/hooks/useProfileForm.ts:325 | the survivors of a filter are exactly the elements that pass it |
| Lists.FilterAppend | components/profile/components/hooks/usePopularSkills.ts:75 | filtering works piecewise, keeping the survivors' order |
| Lists.FilterKeepsAll | components/profile/components/hooks/usePopularSkills.ts:75 | a filter every element passes changes nothing |
| Lists.FilterDropsAll | components/profile/components/hooks/usePopularSkills.ts:75 | a filter no element passes empties the list |
| Lists.FilterIdempotent | components/profile/components/hooks/useProfileForm.ts:325 | filtering twice by the same test is filtering once |
| Lists.FilterRemovesOne | components/profile/components/hooks/useProfileForm.ts:336 | when exactly one position fails the test, filtering deletes that position |
| Lists.FilterDropsHead | components/profile/components/hooks/useProfileForm.ts:325 | a first element that fails the test is dropped |
| Lists.FilterCons | components/profile/components/hooks/useProfileForm.ts:325 | a filter keeps the first element exactly when it passes, then filters the rest |
| Lists.Take | components/profile/components/hooks/usePopularSkills.ts:76 | slice(0, n) is the prefix of length n, or the whole list when shorter |
| Lists.FilterDistinct | components/profile/components/hooks/useProfileForm.ts:325 | filtering a list without repeats leaves one without repeats |
| Lists.FilterKeepsDistinct | components/profile/components/hooks/useProfileForm.ts:325 | the same, as an implication |
| Sorting.Insert | components/hackathons/hackathon/sections/Schedule.tsx:327-329 | inserting adds exactly the element |
| Sorting.SortBy | components/hackathons/hackathon/sections/Schedule.tsx:327-329 | sorting is a permutation of the input |
| Sorting.InsertSorted | components/hackathons/hackathon/sections/Schedule.tsx:327-329 | inserting into a sorted list keeps it sorted under a total, transitive comparator |
| Sorting.SortBySorted | components/hackathons/hackathon/sections/Schedule.tsx:327-329 | the sorted list is in order under a total, transitive comparator |
| Sorting.SortByMembers | components/profile/components/hooks/usePopularSkills.ts:89-99 | sorting keeps exactly the members of the input |
| Sorting.InsertDistinct | components/profile/components/hooks/usePopularSkills.ts:89-99 | inserting a value with a new key keeps the keys distinct |
| Sorting.SortByDistinct | components/profile/components/hooks/usePopularSkills.ts:89-99 | sorting keeps distinct keys distinct |
| Sorting.InsertFilter | components/hackathons/hackathon/sections/Schedule.tsx:327-329 | among the values a filter keeps, an inserted value that may precede all of them lands in front, and the others keep their order |
| Sorting.InsertFilterPast | components/hackathons/hackathon/sections/Schedule.tsx:327-329 | stepping past a first value that the inserted one may not precede keeps that filtered order |
| Sorting.TiesCompare | components/hackathons/hackathon/sections/Schedule.tsx:327-329 | two values tied with a third may come before one another under a transitive comparator |
| Sorting.SortByStable | components/hackathons/hackathon/sections/Schedule.tsx:327-329 | the sort is stable: the values tied with any value keep their input order |
| JsArith.JsRem | components/hackathons/hackathon/sections/Schedule.tsx:160-165 | JavaScript's remainder by a positive number: the dividend is the truncated quotient times the divisor plus the remainder, and the remainder has the sign of the dividend and is smaller than the divisor in magnitude |
| JsArith.TruncDiv | components/hackathons/hackathon/sections/Schedule.tsx:160-165 | the quotient rounded toward zero: the largest multiple not above a non-negative dividend, the smallest not below a negative one |
| JsArith.JsRemOfRange | components/profile/components/NounAvatarConfig.tsx:78-83 | the remainder of an index in `0..b` by `b` is the index itself, except that `b % b` is 0, which is what makes the forward step wrap |

## Left out

- Transport and data fetching: the react-query hooks, `fetch`/`axios` calls and the notification proxy routes are not modelled. Each call is an `ok` outcome or a supplied response.
- The HubSpot POST and its response parsing (app/api/infrabuidl/route.ts:252-289) are left out. Its outcome is a parameter of `InfrabuidlRoute.Submit`.
- Prisma and the database: queries, transactions and Prisma's own error messages are left out. Each table is a `map` from id to row, and each write is a map update.
- `new Date()` timestamps (for example `last_login`) are a `now` parameter.
- `badgeAssignmentService` is the function parameter `assign` of `SetProjectWinner.ProjectStore.SetWinner`, and its answer is unconstrained. The result is built from that answer. The badge request passed to it is returned as well, so that lemmas can state what was requested.
- Timers and concurrency are not modelled:
  - the polling interval and `setTimeout` in the block-burn feed;
  - the debounce in the progress hook and the autocomplete;
  - the autocomplete's blur delay.
  Where a timer's firing changes state, it is an explicit method call: the autocomplete's `Debounce` and `Blur`, the block-burn feed's `ClearNewMarks`, and each tick of the polling interval, which is a call of `BeginFetch`. The progress hook's debounce has no method: `ProfileProgress.Progress` is applied to the values the debounce has let through. Responses that arrive out of order are possible in the model only through the order of the calls; the source has no request sequencing, so none is added.
- Optimistic ids come from `Date.now()` in the source. Here they are a parameter, and the lemmas that need distinct ids assume them.
- Floating point is left out:
  - `getBurnedAvax`/`formatBurnedAvax`;
  - the progress-ring geometry;
  - local timezone-offset rounding (components/ui/timezone-select.tsx:43-49).
  The completion percentage is integer arithmetic. This is exact, because 100·c/13 never ends in .5.
- The `Math.random` seed branch of the seed route is a supplied random seed.
- Foreign libraries stay uninterpreted and are parameters:
  - keccak/SHA digests (`calculateLibraryHash`, the seed route);
  - `JSON.parse`;
  - Intl date formatting;
  - `next-auth` token decoding;
  - the `@nouns` ImageData lengths, which are positive constants (`Nouns.Maxima`).
- zod and react-hook-form are modelled by what they decide. Each schema is a rule per field, with zod's email check as a parameter, and `handleSubmit` is the gate in front of each submit handler (`RegistrationForm.Wizard.HandleSubmit`, `ProfileForm.ProfileEditor.Submit`). `register(name)` maps an input name to the key it writes. The field error messages that a failed validation shows are not modelled. Re-validation of a changed field after a submit is not modelled either: the profile form's wallet error is recomputed only by a submit.
- The profile schema's string, boolean and string-list fields cannot fail for the form's own values, so `ProfileForm.SchemaValid` checks only the bio length and the email. The parse drops `notification_email`, which the schema does not list, so the `PUT` body never carries it.
- Wallet and chain interaction in `handleDeploy` (switching chain, sending the deployment, waiting for the receipt) is reduced to a `ChainReport` of outcomes. The wallet button and the deploy messages component are left out.
- Rendering and styling are left out. So are DOM effects: the skills autocomplete's click-outside listener, focus handling and the link element that `openInExternalBrowser` creates. Only the URL it opens is modelled. The comment menu's click-outside listener is modelled, as `CommentItem.PressOutside`.
- JavaScript string lengths count UTF-16 code units. The model counts code points (`|s|`) everywhere except the profile bio bound, which uses `Strings.Utf16Length`. The other lengths in the core are compared only with zero or taken of hex and ASCII text, where the two counts agree.
- The message of a TypeError from reading a property of `null` or `undefined` is `Json.ReadPropertyError`, V8's wording. Another JavaScript engine words it differently.
- JavaScript numbers are integers here. Block numbers are parsed decimal strings, modelled as `nat`. Timestamps are integer milliseconds.
- Case mapping (`toLowerCase`, `toUpperCase`, the `/Android/i` test) covers ASCII letters only.
- The empty-separator path of `String.prototype.split` is not modelled. Every split in the core uses a non-empty separator, such as the 40-character library placeholder or ",".
- Component remounts are not modelled. The source unmounts a comment's replies while the comment is being edited (components/ambassador-dao/sections/comment-section.tsx:515-521). It also remounts every comment whose list index shifts, because the index is part of the key (components/ambassador-dao/sections/comment-section.tsx:672). Either one discards that component's loaded and optimistic replies, its reply text and its edit state. In the model, a `CommentReplies` or `CommentItem` object keeps its state until a fresh one is constructed.
- RegistrationForm.Strs: a stored list that parses to an array keeps only its string elements. The source keeps the array as it is, so its other elements would reach the form.
- RegistrationForm.SavedValues: the local-storage entry is read back as the `FinalData` that "save for later" wrote. Its JSON text, a parse failure and entries written by anything else are not modelled.
- Object identity and aliasing are not modelled. In the source, an edit mutates the comment object shared with the section's lists. Here the comment is its own `CommentItem` object, and the section's lists do not see the edit.
- In the infraBUIDL route, the `Date` branch of value formatting (app/api/infrabuidl/route.ts:203-204) is left out: form values are JSON-like and never dates.
- The order of the HubSpot payload's fields is not modelled; the fields form a map. The consent texts are opaque constants.
- The set-winner route's request body is taken as parsed JSON. A body that fails to parse is not modelled.
- Some failures are caught in the source and change nothing in the model, so they are not inputs:
  - the membership status update in the infraBUIDL route;
  - `createFormData` errors that the route catches;
  - the HubSpot sync after a sign-in.
- ProfilePage.Page.UpdateSocial: requires an index within the socials list. The page only calls it for rendered entries. An out-of-range assignment that would grow the array is not modelled.
- Schedule.EarliestTime: requires a non-empty list, as does Schedule.LatestTime. `getDateRange` returns before taking the minimum and maximum of an empty list.

## Findings

| source | as written | input that shows it | evidently intended | confidence | as-written member | corrected member |
|---|---|---|---|---|---|---|
| components/hackathons/registration-form/RegistrationForm.tsx:74-182 | `hackathon_id` and `utmSaved` are `let` variables of the render. The load assigns the stored values to them, but its form reset renders again, which sets them back to the query's hackathon and `""`, so `onSaveLater` and `onSubmit` never see the stored utm | save for later on a page opened with `?utm=x`, then reopen the page without `utm` and submit: the data sent carries utm `""` where `x` was stored | keep the loaded hackathon and utm in component state, so the handlers send the stored utm when the address has none | not executed | RegistrationForm.AsWrittenLosesStoredUtm | RegistrationForm.ResumeKeepsUtm |
| components/hackathons/registration-form/RegistrationForm.tsx:310-337 | the Continue button is a submit button whose click handler is `onNextStep` and which does not prevent the default, so a press also submits the form through `form.handleSubmit(onSubmit)`. Each handler advances the step once its validation settles, and `onSubmit` sets the rendered step plus one | a complete stored registration resumed on step 2: if the submit settles first, one press moves to step 4, where Continue is shown again, and a second press posts the registration without step 3 having been shown | a press on Continue advances at most one step and posts nothing, as with a `type="button"` Continue | not executed; which of the two handlers settles first is not fixed by the source | RegistrationForm.AsWrittenContinueSkipsStepThree | RegistrationForm.Wizard.PressContinueAsButton |
| components/hackathons/registration-form/RegisterFormStep2.tsx:100-407 | the step-2 inputs register `web3Proficiency`, `hackathonParticipation` and `githubPortfolio`, names the registration schema does not have (it has `web3_proficiency`, `hackathon_participation`, `github_portfolio`), so those answers never reach the validated fields | from the defaults, pick proficiency "3", one value in each of the four lists and a participation answer, then press Next on step 2: validation of `web3_proficiency` and `hackathon_participation` still fails | register the schema's snake_case names, so that complete answers pass step 2 | not executed | RegisterFormStep2.AsWrittenRejectsCompleteAnswers | RegisterFormStep2.CompleteAnswersPass |
