# Gladiator Jobs front-end logic in Dafny

Gladiator Jobs is a freelance marketplace. It is a React front end over a hosted
backend (Supabase). All of its decision logic sits in the event handlers and render
conditions of its pages and dialogs. This project pulls that logic out of the
components and models it in Dafny:

- the professional directory's filter chain;
- the registration wizard;
- the advanced-filter sheet;
- writing, listing, editing and deleting reviews;
- the rating summary and the star row;
- crypto payment intents;
- portfolio projects;
- the dashboard's profile form;
- sending and listing messages;
- the feedback form.

The backend is abstract. `Backend.Session` is what `auth.getUser()` answers. `Backend.Reply`
is the `error` half of a response: `Ok`, or `Err(code)`. `Backend.Table` is a table whose
rows are kept in insertion order.

Every handler takes the backend's replies as parameters and never computes them, with one
exception. The `reviews` table (`ReviewStore`) models its unique `(professional_id,
client_id)` constraint, so the "already reviewed" path can be proved: an insert for a pair
that is already stored is answered with PostgreSQL's `23505`.

Component state becomes a class whose fields the handler methods update. Each method's
`ensures` states the whole new state in terms of pure functions:

- the record a write path inserts (`TransactionOf`, `ItemOf`, `MessageOf`, `FeedbackOf`,
  `UpdateOf`);
- the decision a submission reaches (`WriteReview.Decide`, `Portfolio.SubmitOutcome`);
- the list a query returns (`Directory.Search`, `ReviewStore.ReviewsFor`,
  `Messages.Inbox`).

Lemmas state what the source promises about those functions.

Toasts and navigation become outcome tags. `parseFloat` and `parseInt` are function
parameters returning `Option`, with `None` standing for NaN. Ratings are exact `real`s.
Timestamps are integer milliseconds. "Newest first" is the reverse of insertion order.

Module layout:

- one module per source file: `Directory`, `Registration`, `AdvancedFilters`,
  `WriteReview`, `ReviewsList`, `ProfileDialog`, `StarRating`, `CryptoPayment`,
  `Portfolio`, `Dashboard`, `SendMessage`, `Messages` and `Feedback`;
- shared modules: `Wrappers` (`Option`), `Seqs` (filter, reverse, subsequence), `Text`
  (the JavaScript string operations used: `trim`, `toLowerCase` on ASCII, `includes`,
  one-character `split`, `join`, comma lists, the last `.`-piece of a file name, decimal
  rendering), `Backend` and `ReviewStore`.

One disagreement between the written description of the system and the code: the profile
update sends the company columns for every user type other than `'professional'`, not only
for `'client'` (src/pages/Dashboard.tsx:140-153). The model follows the code.

## Model

| member | source | states |
|---|---|---|
| Directory.Search | src/pages/Professionals.tsx:68-87 | The result is a subsequence of the loaded list. A professional is in it iff it is in the list, its category equals the selected one (unless 'all') and, for a non-empty query, the lower-cased query occurs in the lower-cased name or bio or in some skill. With a category selected, every result has exactly that category. 'all' with an empty query returns the list unchanged. |
| Directory.SearchIsSubsequence | src/pages/Professionals.tsx:69-84 | Each step of the chain keeps order and adds nothing, so the chain's output is a subsequence of its input. |
| Directory.SearchIsOneFilter | src/pages/Professionals.tsx:68-87 | The two-step chain equals a single filter by the combined criterion `Selected`, an independent one-pass definition. |
| Directory.SearchIdempotent | src/pages/Professionals.tsx:68-87 | Filtering the result again with the same criteria returns the same list. |
| Directory.SearchCaseInsensitive | src/pages/Professionals.tsx:77-83 | Two queries with the same lower-case form select the same professionals. |
| Directory.NullFieldsNeverMatch | src/pages/Professionals.tsx:80-82 | Optional chaining: a professional with no name, bio or skills matches no query. |
| Directory.DirectoryPage.constructor | src/pages/Professionals.tsx:37-41 | Empty lists, loading, category 'all', empty query, and the visible list equal to the filter of the loaded one. |
| Directory.DirectoryPage.FilterProfessionals | src/pages/Professionals.tsx:68-87 | The step-by-step narrowing publishes exactly `Search` of the loaded list and the two criteria. |
| Directory.DirectoryPage.LoadProfessionals | src/pages/Professionals.tsx:51-66 | On success the loaded list is the data, on error it is kept. Loading ends either way, and the visible list is re-filtered. |
| Directory.DirectoryPage.SelectCategory | src/pages/Professionals.tsx:125 | The category changes, nothing else does, and the visible list is re-filtered. |
| Directory.DirectoryPage.SetSearchQuery | src/pages/Professionals.tsx:113 | The query changes, nothing else does, and the visible list is re-filtered. |
| Registration.Without | src/pages/Register.tsx:43 | The result holds exactly the ids of the list other than the removed one, is no longer, and has no duplicates when the list had none. |
| Registration.Toggle | src/pages/Register.tsx:39-46 | The toggled id's membership flips and every other id's membership is unchanged. An absent id is appended at the end. A duplicate-free list stays duplicate-free. |
| Registration.WithoutAbsent | src/pages/Register.tsx:43 | Filtering out an id that is absent leaves the list unchanged. |
| Registration.WithoutAppend | src/pages/Register.tsx:43-44 | Removing an id that was just appended gives the same list as removing it before the append. |
| Registration.ToggleTwice | src/pages/Register.tsx:39-46 | Toggling the same id twice restores the set of ids, and restores the very list when the id was absent. |
| Registration.CanProceedCases | src/pages/Register.tsx:59-70 | Step 1 proceeds iff the email is non-empty and the password has at least 6 UTF-16 code units (`length`). Step 2 proceeds iff some category is chosen. Step 3 proceeds iff the display name is not all whitespace. No other step value proceeds. |
| Registration.CanProceed | src/pages/Register.tsx:59-70 | Definition of `canProceed` per step; its cases are stated by `CanProceedCases`. |
| Registration.ThreeEmojiPasswordProceeds | src/pages/Register.tsx:62 | A password of three emoji, three characters but six code units, lets step 1 proceed. |
| Registration.IndicatorFlags | src/pages/Register.tsx:94-95 | In steps 1..3 exactly one indicator is active. The indicators below the step are completed, and no indicator is both. |
| Registration.RegistrationWizard.constructor | src/pages/Register.tsx:23-31 | The wizard starts on step 1 with an empty form. |
| Registration.RegistrationWizard.Back | src/pages/Register.tsx:286-289 | The step goes down by one only above 1. The form is unchanged and the step stays in 1..3. |
| Registration.RegistrationWizard.Next | src/pages/Register.tsx:297-298 | The step goes up by one only when the step may proceed and is below 3. Finish on step 3 changes nothing, and the step stays in 1..3. |
| Registration.RegistrationWizard.ToggleCategory | src/pages/Register.tsx:192 | The chosen categories become their `Toggle`; the step is unchanged. |
| Registration.RegistrationWizard.SetEmail | src/pages/Register.tsx:150 | Only the email field changes. |
| Registration.RegistrationWizard.SetPassword | src/pages/Register.tsx:162 | Only the password field changes. |
| Registration.RegistrationWizard.SetSkills | src/pages/Register.tsx:214 | Only the skills field changes. |
| Registration.RegistrationWizard.SetDisplayName | src/pages/Register.tsx:275 | Only the display-name field changes. |
| AdvancedFilters.PriceFromInput | src/components/AdvancedFilters.tsx:123 | The empty text gives null and any other text gives its parsed number, so "0" is a bound of 0. |
| AdvancedFilters.PriceDisplay | src/components/AdvancedFilters.tsx:119 | An unset bound shows as the empty text, a set one as its number. |
| AdvancedFilters.ExperienceFromSlider | src/components/AdvancedFilters.tsx:165-168 | Position 0 gives null; every other position in 1..20 is stored as it is. |
| AdvancedFilters.ExperienceShown | src/components/AdvancedFilters.tsx:157-164 | An unset minimum shows as 0, a set one as its value. |
| AdvancedFilters.SliderRoundTrip | src/components/AdvancedFilters.tsx:157-168 | Displaying a bound and reading the slider back gives the bound. Reading a position and displaying it gives the position. |
| AdvancedFilters.ShowsCountBadge | src/components/AdvancedFilters.tsx:69 | Definition: the badge shows iff the count passed in is positive. |
| AdvancedFilters.FilterSheet.constructor | src/components/AdvancedFilters.tsx:40-41 | The local copy starts as the parent's record, the sheet closed and nothing sent. |
| AdvancedFilters.FilterSheet.Apply | src/components/AdvancedFilters.tsx:43-46 | Exactly the local record is sent to the parent, as the one new entry, and the sheet closes. |
| AdvancedFilters.FilterSheet.Reset | src/components/AdvancedFilters.tsx:48-58 | The reset record (no bounds, no portfolio requirement, newest first) becomes the local record and is sent to the parent. |
| AdvancedFilters.FilterSheet.SetOpen | src/components/AdvancedFilters.tsx:61 | Only the open flag changes. |
| AdvancedFilters.FilterSheet.SetSortBy | src/components/AdvancedFilters.tsx:90-92 | Only the local sort order changes; nothing reaches the parent. |
| AdvancedFilters.FilterSheet.SetMinPrice | src/components/AdvancedFilters.tsx:120-124 | Only the local minimum price changes, to `PriceFromInput`; nothing reaches the parent. |
| AdvancedFilters.FilterSheet.SetMaxPrice | src/components/AdvancedFilters.tsx:139-143 | Only the local maximum price changes, to `PriceFromInput`; nothing reaches the parent. |
| AdvancedFilters.FilterSheet.SetMinExperience | src/components/AdvancedFilters.tsx:165-169 | Only the local minimum experience changes, to `ExperienceFromSlider`; nothing reaches the parent. |
| AdvancedFilters.FilterSheet.SetHasPortfolio | src/components/AdvancedFilters.tsx:191-193 | Only the local portfolio switch changes; nothing reaches the parent. |
| StarRating.StarCount | src/components/StarRating.tsx:35 | The row has `maxRating` stars (5 when the prop is absent, none for a negative length). |
| StarRating.Ceil | src/components/StarRating.tsx:38 | `Math.ceil`: the least integer not below the rating. |
| StarRating.StarFor | src/components/StarRating.tsx:37-70 | A star is drawn full iff its value is at most floor(rating). It is drawn partial iff its value is ceil(rating) and the rating is not whole. |
| StarRating.Stars | src/components/StarRating.tsx:35-38 | The row has n stars; the star at index i is the star valued i+1. |
| StarRating.CeilOfFractional | src/components/StarRating.tsx:37-38 | ceil exceeds floor by one exactly for a non-whole rating, and equals it otherwise. |
| StarRating.NeverFilledAndPartial | src/components/StarRating.tsx:37-38 | No star is both filled and partial. |
| StarRating.AtMostOnePartial | src/components/StarRating.tsx:38 | At most one star of the row is partial. |
| StarRating.FullCountIsClampedFloor | src/components/StarRating.tsx:35-37 | A row of n stars has floor(rating) full stars, clamped to 0..n. |
| StarRating.FullStarsMatchRating | src/components/StarRating.tsx:35-37 | For 0 ≤ rating ≤ maxRating the number of full stars is floor(rating). |
| StarRating.Click | src/components/StarRating.tsx:27-31 | The star's value is reported iff the row is interactive and has a callback. |
| StarRating.ClickInRange | src/components/StarRating.tsx:35-47 | Every star of an interactive row reports a value in 1..n. |
| ReviewStore.AfterUpdate | src/components/WriteReviewDialog.tsx:92-98 | Updating keeps every row's id and pair. The row with the id gets the new rating and comment; every other row is unchanged. |
| ReviewStore.InsertAnswer | src/components/WriteReviewDialog.tsx:108-126 | Definition of the store's answer to an insert: 23505 for a reviewed pair, else the transport's; stated by `SecondReviewRefused` and `FirstReviewStored`. |
| ReviewStore.AfterInsert | src/components/WriteReviewDialog.tsx:108-115 | Definition of the table after an insert: the row appended iff Ok; stated by `FirstReviewStored` and `InsertKeepsUnique`. |
| ReviewStore.AfterDelete | src/components/ReviewsList.tsx:78-81 | Definition of the table after a delete by id; stated by `DeleteRemovesExactly` and `DeleteKeepsUnique`. |
| ReviewStore.ReviewsFor | src/components/ReviewsList.tsx:49-56 | Definition of one professional's reviews, newest first; stated by `ReviewsForMembers` and `ReviewsForNewestFirst`. |
| ReviewStore.UniqueCons | src/components/WriteReviewDialog.tsx:117-119 | The constraint holds for a row followed by a table iff the row's pair is new to the table and the table satisfies it. |
| ReviewStore.InsertKeepsUnique | src/components/WriteReviewDialog.tsx:108-119 | Whatever the transport answers, an insert never breaks one-review-per-pair. |
| ReviewStore.SecondReviewRefused | src/components/WriteReviewDialog.tsx:117-126 | Inserting for a pair that already has a review is answered 23505 and leaves the table unchanged. |
| ReviewStore.FirstReviewStored | src/components/WriteReviewDialog.tsx:108-115 | For a new pair the answer is the transport's. The row is appended, and the pair is then reviewed, iff the answer is Ok. |
| ReviewStore.UpdateKeepsUnique | src/components/WriteReviewDialog.tsx:92-98 | Editing a review keeps one-review-per-pair. |
| ReviewStore.DeleteKeepsUnique | src/components/ReviewsList.tsx:78-81 | Deleting keeps one-review-per-pair. |
| ReviewStore.DeleteRemovesExactly | src/components/ReviewsList.tsx:78-81 | After a delete the table holds exactly the rows whose id differs from the deleted one. |
| ReviewStore.ReviewsForMembers | src/components/ReviewsList.tsx:49-56 | The listing holds exactly the stored reviews of the professional. |
| ReviewStore.ReviewsForNewestFirst | src/components/ReviewsList.tsx:55-56 | A review just stored for the professional heads their listing. A review of another professional leaves it unchanged. |
| ReviewStore.ReviewsTable.constructor | src/components/WriteReviewDialog.tsx:108-119 | An empty table satisfies the constraint. |
| ReviewStore.ReviewsTable.Insert | src/components/WriteReviewDialog.tsx:108-119 | The answer is 23505 for a reviewed pair, otherwise the transport's. The row is appended iff the answer is Ok, and the constraint is kept. |
| ReviewStore.ReviewsTable.Update | src/components/WriteReviewDialog.tsx:92-100 | On Ok the table becomes `AfterUpdate`, otherwise it is unchanged; the constraint is kept. |
| ReviewStore.ReviewsTable.Delete | src/components/ReviewsList.tsx:78-83 | On Ok the table becomes `AfterDelete`, otherwise it is unchanged; the constraint is kept. |
| WriteReview.InitialRating | src/components/WriteReviewDialog.tsx:43 | The rating starts as the edited review's rating, else 0. |
| WriteReview.InitialComment | src/components/WriteReviewDialog.tsx:44 | The comment starts as the edited review's comment, else the empty text. A null comment also gives the empty text. |
| WriteReview.SubmitEnabled | src/components/WriteReviewDialog.tsx:217 | Definition of the submit button's enabled state; `ZeroRatingNeverWrites` states that rating 0 disables it. |
| WriteReview.Decide | src/components/WriteReviewDialog.tsx:49-115 | A write happens iff the rating is non-zero, a user is signed in and the profile's type is 'client'. The checks run in that order, each ending in its own refusal. An edit updates the rating and the trimmed-or-null comment of that review id only. Otherwise the row inserted carries the dialog's professional id and the signed-in user's id. |
| WriteReview.OutcomeOf | src/components/WriteReviewDialog.tsx:100-150 | Success iff the answer is Ok. "Already reviewed" iff an insert is answered 23505. Every other error, including every error of an update, is the generic failure. |
| WriteReview.RowOf | src/components/WriteReviewDialog.tsx:108-115 | Definition of the row an insert adds, from the decided write; `Decide` states its fields. |
| WriteReview.AfterWrite | src/components/WriteReviewDialog.tsx:92-115 | Definition of the table after a decided write, through `AfterUpdate` or `AfterInsert`; stated by `DuplicateReviewIsAlreadyReviewed` and `RepeatedSubmission`. |
| WriteReview.ZeroRatingNeverWrites | src/components/WriteReviewDialog.tsx:49-56 | Rating 0 is refused before anything else, and the submit button is disabled at 0 (line 217). |
| WriteReview.EditKeepsComment | src/components/WriteReviewDialog.tsx:44 | Reopening a stored comment (trimmed, or null) and submitting it untouched writes back the same value (line 96). |
| WriteReview.DuplicateReviewIsAlreadyReviewed | src/components/WriteReviewDialog.tsx:108-126 | A client who already reviewed the professional gets "already reviewed" whatever the transport answers, and the table keeps its rows. |
| WriteReview.RepeatedSubmission | src/components/WriteReviewDialog.tsx:108-133 | Rating 5 answered Ok, then rating 3 by the same client for the same professional: the second is "already reviewed". The table keeps the first, its pair's only review, still rated 5. |
| WriteReview.ReviewDialog.constructor | src/components/WriteReviewDialog.tsx:42-44 | The dialog starts at `InitialRating` and `InitialComment`, not submitting. |
| WriteReview.ReviewDialog.SetRating | src/components/WriteReviewDialog.tsx:178 | The interactive star row sets the rating. |
| WriteReview.ReviewDialog.SetComment | src/components/WriteReviewDialog.tsx:194 | The text area sets the comment. |
| WriteReview.ReviewDialog.HandleSubmit | src/components/WriteReviewDialog.tsx:46-155 | A refusal touches no table. A write changes the table to `AfterWrite` and ends in `OutcomeOf` the backend's answer. The reset (rating 0, empty comment), the close and the callback happen iff the write succeeded; otherwise the form is kept. The table's constraint is kept. `submitting` is left as it was only on the rating-0 refusal, which returns before it is set (line 55); every other path ends with it false (the `finally` at 152-154). |
| ReviewsList.CanModify | src/components/ReviewsList.tsx:156 | The edit and delete controls show iff the viewer is the review's client; an anonymous viewer never sees them. |
| ReviewsList.AuthorLabel | src/components/ReviewsList.tsx:147 | The label is `full_name`, else `company_name`, else 'Anonymous Client'. Empty strings fall through, so the label is never empty. |
| ReviewsList.AvatarInitial | src/components/ReviewsList.tsx:139 | The initial is always exactly one character. |
| ReviewsList.InitialOfLabel | src/components/ReviewsList.tsx:139-147 | With some name, the initial is the label's first character. With none, the label is 'Anonymous Client' but the initial is 'C'. |
| ReviewsList.ReviewsPanel.ShowsEmptyState | src/components/ReviewsList.tsx:114-120 | Definition: the empty state shows iff the list is empty. |
| ReviewsList.ReviewsPanel.ShowsControls | src/components/ReviewsList.tsx:156 | Definition: a review shows its controls iff `CanModify`; `GetCurrentUser` states that an anonymous viewer sees none. |
| ReviewsList.ReviewsPanel.constructor | src/components/ReviewsList.tsx:31-35 | The panel starts with no reviews, loading, no viewer and nothing being edited. |
| ReviewsList.ReviewsPanel.GetCurrentUser | src/components/ReviewsList.tsx:42-45 | The viewer is the user's id, or null when nobody is signed in; then no review shows controls. |
| ReviewsList.ReviewsPanel.LoadReviews | src/components/ReviewsList.tsx:47-65 | On success the list is the professional's reviews, newest first, holding exactly their stored reviews. On error the old list stays. Loading ends either way. |
| ReviewsList.ReviewsPanel.HandleEdit | src/components/ReviewsList.tsx:67-70 | The review becomes the one being edited and the edit dialog opens. |
| ReviewsList.ReviewsPanel.HandleDelete | src/components/ReviewsList.tsx:72-99 | A declined confirmation makes no store call and changes nothing. A failed delete changes nothing. A successful one removes the review's row and reloads the list, which then holds no row with that id. |
| ReviewsList.ReviewsPanel.EditSubmitted | src/components/ReviewsList.tsx:203-206 | After an edit the list is reloaded and nothing is being edited. |
| ProfileDialog.RatingAfterLoad | src/components/ProfessionalProfileDialog.tsx:89-104 | "No rows" (PGRST116) is the zero-review state; any other error leaves the state as it was. A found row gives its average unless that is null or 0, and its count, with null counting as 0. |
| ProfileDialog.ReviewWord | src/components/ProfessionalProfileDialog.tsx:145 | 'review' iff the count is 1, else 'reviews'. |
| ProfileDialog.ShowsStars | src/components/ProfessionalProfileDialog.tsx:141 | Definition: stars show iff there is an average and a positive count; `NoAggregateNoStars` states it. |
| ProfileDialog.NoAggregateNoStars | src/components/ProfessionalProfileDialog.tsx:97-100 | A missing aggregate row shows no stars; a null or zero average, or a count ≤ 0, shows none either. Otherwise stars show (line 141). |
| ProfileDialog.OffersCrypto | src/components/ProfessionalProfileDialog.tsx:288 | Definition: `accepts_crypto && crypto_wallet_trc20`; `PaymentWallet` states what it guarantees. |
| ProfileDialog.PaymentWallet | src/components/ProfessionalProfileDialog.tsx:329-336 | When crypto is offered (accepts_crypto true and a non-empty wallet), the payment dialog gets the stored wallet unchanged. |
| ProfileDialog.ShowsExperience | src/components/ProfessionalProfileDialog.tsx:187 | Definition: shown iff not null; `ZeroDetailsShown` states it. |
| ProfileDialog.ShowsRate | src/components/ProfessionalProfileDialog.tsx:193 | Definition: shown iff not null; `ZeroDetailsShown` states it. |
| ProfileDialog.ZeroDetailsShown | src/components/ProfessionalProfileDialog.tsx:187-197 | The experience and rate lines are shown for any non-null value, 0 included, and hidden only for null. |
| ProfileDialog.ProfileDialogState.constructor | src/components/ProfessionalProfileDialog.tsx:60-62 | No average, zero reviews, key 0. |
| ProfileDialog.ProfileDialogState.LoadRating | src/components/ProfessionalProfileDialog.tsx:89-104 | The rating state becomes `RatingAfterLoad` of the query and the state before. |
| ProfileDialog.ProfileDialogState.HandleReviewSubmitted | src/components/ProfessionalProfileDialog.tsx:106-109 | The rating is reloaded and the reviews key goes up by exactly one. |
| CryptoPayment.AmountGuard | src/components/CryptoPaymentDialog.tsx:78-85 | A positive amount passes. An empty one, or one that parses to ≤ 0, is rejected. |
| CryptoPayment.AmountRejected | src/components/CryptoPaymentDialog.tsx:78 | Definition: `!amount \|\| parseFloat(amount) <= 0`, NaN not rejected; `AmountGuard` states its cases. |
| CryptoPayment.StatusFor | src/components/CryptoPaymentDialog.tsx:105 | 'confirming' iff the untrimmed transaction hash is non-empty, else 'pending'. |
| CryptoPayment.TransactionOf | src/components/CryptoPaymentDialog.tsx:96-106 | Client = user, professional = prop, wallet = prop, currency USDT, network TRC20, amount = the parse. Hash and description are kept verbatim or null when empty. The status is 'confirming' iff a hash is stored. |
| CryptoPayment.QrPayload | src/components/CryptoPaymentDialog.tsx:52 | The payload is 'tron:' followed by the wallet. |
| CryptoPayment.QrPayloadInverse | src/components/CryptoPaymentDialog.tsx:50-55 | The wallet is read back from the payload, so different wallets give different codes. |
| CryptoPayment.PaymentDialog.constructor | src/components/CryptoPaymentDialog.tsx:34-42 | Empty form, not submitting, no QR code. |
| CryptoPayment.PaymentDialog.SetOpen | src/components/CryptoPaymentDialog.tsx:44-48 | The QR payload is made iff the dialog is open and the wallet is non-empty; otherwise the earlier one is kept. |
| CryptoPayment.PaymentDialog.SetForm | src/components/CryptoPaymentDialog.tsx:202-233 | The text boxes set the form. |
| CryptoPayment.PaymentDialog.HandleSubmit | src/components/CryptoPaymentDialog.tsx:75-129 | A rejected amount stops it first, then a missing user; neither writes. A signed-in user's record `TransactionOf` is stored iff the backend answers Ok. The form resets and the dialog closes only then. Submitting ends false. |
| Portfolio.ParseTags | src/components/PortfolioDialog.tsx:111-113 | Empty text gives null. Any other text gives the list of its non-empty, trimmed, comma-free pieces. |
| Portfolio.BlankTagsAreEmptyList | src/components/PortfolioDialog.tsx:111-113 | The text " , " parses to the empty list, not to null. |
| Portfolio.TagsRoundTrip | src/components/PortfolioDialog.tsx:111-113 | A non-empty list of entries typed as ', '-separated text parses back to that list. |
| Portfolio.UploadPathParts | src/components/PortfolioDialog.tsx:84-85 | The extension is what follows the last dot, and a name without a dot is its own extension. The user's id is the first path segment. |
| Portfolio.UploadPath | src/components/PortfolioDialog.tsx:84-85 | Definition of the upload path; its shape is stated by `UploadPathParts`. |
| Portfolio.ImageAccepted | src/components/PortfolioDialog.tsx:42 | Definition: at most 5·1024·1024 bytes; `HandleImageChange` states its use. |
| Portfolio.ItemOf | src/components/PortfolioDialog.tsx:105-114 | The title is trimmed. Description and project URL are trimmed, or null when blank. The tags are `ParseTags`, and the image URL is as given. |
| Portfolio.SubmitOutcome | src/components/PortfolioDialog.tsx:65-146 | A blank title is refused first. A failed upload of a chosen image ends there. The project is added iff the title is not blank, any chosen image uploaded and the insert succeeded. |
| Portfolio.TitleGuard | src/components/PortfolioDialog.tsx:68-75 | A title of blanks only is refused with no upload attempted. Any other title is stored non-empty and trimmed. |
| Portfolio.ProjectDialog.constructor | src/components/PortfolioDialog.tsx:26-36 | Closed, not loading, no image, empty form. |
| Portfolio.ProjectDialog.HandleImageChange | src/components/PortfolioDialog.tsx:38-58 | A file over 5·1024·1024 bytes is refused and the earlier choice kept. An accepted file becomes the choice; no file changes nothing. |
| Portfolio.ProjectDialog.RemoveImage | src/components/PortfolioDialog.tsx:60-63 | The chosen image is dropped. |
| Portfolio.ProjectDialog.SetForm | src/components/PortfolioDialog.tsx:171-251 | The text boxes set the form. |
| Portfolio.ProjectDialog.Write | src/components/PortfolioDialog.tsx:83-118 | The upload happens only with an image. The insert happens unless the upload failed. |
| Portfolio.ProjectDialog.HandleSubmit | src/components/PortfolioDialog.tsx:65-146 | The outcome is `SubmitOutcome`. Storage gains the upload path iff an upload was attempted and succeeded. The items table gains `ItemOf` (image URL null without an image) iff the project was added. Form, image and dialog reset, and the callback runs, exactly then. |
| Portfolio.ProjectDialog.Finish | src/components/PortfolioDialog.tsx:125-145 | After an accepted submission: the reset and the callback iff added, and loading ends. |
| Dashboard.UpdateOf | src/pages/Dashboard.tsx:135-153 | The payload always has the name and the avatar URL. The professional columns appear iff the user type is 'professional'; the company columns appear otherwise. |
| Dashboard.UpdateDescribesSavedProfile | src/pages/Dashboard.tsx:135-162 | The payload describes the profile the page shows after saving, and never carries both groups. |
| Dashboard.AvatarPathExtension | src/pages/Dashboard.tsx:120-121 | The avatar path is `<profile id>/avatar.<what follows the last dot>`. |
| Dashboard.AvatarPath | src/pages/Dashboard.tsx:120-121 | Definition of the avatar's storage path; its shape is stated by `AvatarPathExtension`. |
| Dashboard.AvatarUrlAfterUpload | src/pages/Dashboard.tsx:116-132 | The avatar URL becomes the public URL only when a file was chosen and its upload succeeded; otherwise it keeps the stored value. |
| Dashboard.IntOrNull | src/pages/Dashboard.tsx:287 | `parseInt(...) \|\| null`: NaN and 0 both become null; any other value is kept. |
| Dashboard.RealOrNull | src/pages/Dashboard.tsx:308 | `parseFloat(...) \|\| null`: NaN and 0 both become null; any other value is kept. |
| Dashboard.SplitTrailingSeparator | src/pages/Dashboard.tsx:338 | Splitting text that ends in the separator gives one more, empty, piece. |
| Dashboard.DropTrailingEmpty | src/pages/Dashboard.tsx:338 | An empty last piece is dropped by the trim-and-filter step. |
| Dashboard.SkillsText | src/pages/Dashboard.tsx:337 | Definition of the box's text, `skills?.join(', ') \|\| ''`; `LoadedSkillsRoundTrip` states that it parses back. |
| Dashboard.SkillsBoxAfterKeystrokeAsWritten | src/pages/Dashboard.tsx:337-338 | Definition of the box as written: the new text is parsed and shown joined again; `TrailingCommaCannotBeTyped` states what that loses. |
| Dashboard.TrailingCommaCannotBeTyped | src/pages/Dashboard.tsx:337-338 | In the box as written, typing ',' after any shown list leaves the same text shown. |
| Dashboard.WebCommaExample | src/pages/Dashboard.tsx:337-338 | With "web" shown, typing ',' still shows "web". |
| Dashboard.SkillsBoxAfterKeystroke | src/pages/Dashboard.tsx:337-338 | Corrected box: a keystroke keeps everything typed before it and puts the typed character last, and a trailing ',' leaves the list to be saved unchanged. |
| Dashboard.NextSkillCanBeTyped | src/pages/Dashboard.tsx:337-338 | With the corrected box, typing ',', ' ' and a new entry after a shown list gives text that parses to the list with the entry appended, which the box as written prevents (`TrailingCommaCannotBeTyped`). |
| Dashboard.MidTextCommaExample | src/pages/Dashboard.tsx:337-338 | As written, a comma typed inside the text survives: "web,react" is shown as "web, react". |
| Dashboard.LoadedSkillsRoundTrip | src/pages/Dashboard.tsx:337-338 | A loaded list of skills (non-empty, trimmed, comma-free) shown as ', '-joined text parses back to itself. |
| Dashboard.DashboardPage.constructor | src/pages/Dashboard.tsx:45-50 | Loading, not saving, no profile, no avatar file. |
| Dashboard.DashboardPage.CheckUser | src/pages/Dashboard.tsx:56-82 | With nobody signed in the page redirects and loads no profile. Otherwise a found profile is installed and a failed query installs none, and loading ends. A found profile's skills are put in the corrected box's own text (`skillsText`), a field the page as written does not have. |
| Dashboard.DashboardPage.HandleAvatarChange | src/pages/Dashboard.tsx:99-109 | A chosen file replaces the earlier choice; no file changes nothing. |
| Dashboard.WithText | src/pages/Dashboard.tsx:278-392 | `{ ...profile, column: value }`: the column holds the typed text, every other text column is unchanged, and so is everything that is not a text column. |
| Dashboard.TextEditKeepsIdentity | src/pages/Dashboard.tsx:278-392 | No text box changes the profile's id, e-mail, user type, avatar, skills or numeric columns. |
| Dashboard.DashboardPage.EditText | src/pages/Dashboard.tsx:278-392 | A text box (full name at 278 and 350, location 318, bio 328, company name 360, company description 370, website 382, phone 392) sets exactly its own column to the typed text and keeps every other column, as `WithText` states. A column is reachable only while its group is shown (line 271: the professional boxes for `'professional'`, the company boxes otherwise); the method accepts either, and `UpdateOf` never sends the hidden group. |
| Dashboard.DashboardPage.EditAge | src/pages/Dashboard.tsx:287 | Only the age changes, to `IntOrNull` of the text. |
| Dashboard.DashboardPage.EditExperience | src/pages/Dashboard.tsx:299 | Only the years of experience change, to `IntOrNull` of the text. |
| Dashboard.DashboardPage.EditRate | src/pages/Dashboard.tsx:308 | Only the hourly rate changes, to `RealOrNull` of the text. |
| Dashboard.DashboardPage.EditSkills | src/pages/Dashboard.tsx:337-338 | Corrected box: it shows the typed text, and the profile's skills become its parse, every entry non-empty, trimmed and comma-free. |
| Dashboard.DashboardPage.HandleSaveProfile | src/pages/Dashboard.tsx:111-179 | No profile: nothing happens. Otherwise a chosen avatar is uploaded at `AvatarPath`, and the update `UpdateOf` is stored iff the backend answers Ok. Only then does the page show the new avatar URL and drop the file. Saving ends false. |
| SendMessage.SendButtonMatchesGuard | src/components/SendMessageDialog.tsx:166 | Send is enabled iff not sending and the message is not all whitespace, which is exactly when the handler's trim check passes. |
| SendMessage.CanSend | src/components/SendMessageDialog.tsx:166 | Definition of the Send button's enabled state; `SendButtonMatchesGuard` states that it matches the handler's guard. |
| SendMessage.MessageOf | src/components/SendMessageDialog.tsx:69-77 | Sender = user, recipient = prop, subject trimmed or null, message trimmed, unread. |
| SendMessage.SentMessageListed | src/components/SendMessageDialog.tsx:69-77 | A sent message heads both parties' conversation lists and is new to its recipient. |
| SendMessage.MessageDialog.constructor | src/components/SendMessageDialog.tsx:34-38 | Empty form, not sending. |
| SendMessage.MessageDialog.SetForm | src/components/SendMessageDialog.tsx:129-142 | The subject and message boxes set the form. |
| SendMessage.MessageDialog.HandleSubmit | src/components/SendMessageDialog.tsx:40-108 | A blank message stops it first, then a missing user; neither writes. A signed-in user's `MessageOf` is stored iff the backend answers Ok. The form resets, the dialog closes and the page moves to the messages list only then. Sending ends false. |
| Messages.CounterpartId | src/pages/Messages.tsx:167-168 | The counterpart is the sender of a received message and the recipient of a sent one. |
| Messages.CounterpartIsTheOtherParty | src/pages/Messages.tsx:167-168 | For a message between two different people, one of them the viewer, the counterpart is the other one. |
| Messages.IsReceived | src/pages/Messages.tsx:167 | Definition: received iff the viewer is the recipient; `CounterpartId` states its use. |
| Messages.IsNew | src/pages/Messages.tsx:174 | Definition: unread and received, the condition of the highlight (174), the badge (214) and the mark on reply (224); `MarkedNoLongerNew` states it. |
| Messages.ElapsedDays | src/pages/Messages.tsx:87-88 | The day count is floor(elapsed ms / 86 400 000): days·86 400 000 ≤ elapsed < (days+1)·86 400 000. |
| Messages.FormatDate | src/pages/Messages.tsx:84-99 | 0 days is "Today", 1 is "Yesterday", any other count below 7 is "n days ago" with that n, and 7 or more is a calendar date. |
| Messages.FormatDateByElapsed | src/pages/Messages.tsx:87-98 | In elapsed time: "Today" iff under one day, "Yesterday" iff one to two days, a calendar date iff seven days or more. A future date gives a negative "days ago". |
| Messages.InboxMembers | src/pages/Messages.tsx:60-70 | The list holds exactly the stored messages the user sent or received. |
| Messages.InboxNewestFirst | src/pages/Messages.tsx:69-70 | A message just stored heads the lists of both its parties and leaves every other list unchanged. |
| Messages.Inbox | src/pages/Messages.tsx:60-70 | Definition of the conversation list: the user's messages, newest first; `InboxMembers` and `InboxNewestFirst` state it. |
| Messages.MarkedRead | src/pages/Messages.tsx:110-113 | The message with the id becomes read; every other row is unchanged. |
| Messages.MarkedReadIdempotent | src/pages/Messages.tsx:110-113 | Marking twice is marking once. |
| Messages.MarkedNoLongerNew | src/pages/Messages.tsx:214-226 | In the stored rows, once a message is marked it is new to nobody. The list on screen is not refreshed by the click (see `MessagesPage.Reply`), so its highlight and badge stay until the reply dialog closes and the list is reloaded (`ReplyDialogOpenChange`, `ReloadShowsMarkedAsRead`). |
| Messages.ReloadShowsMarkedAsRead | src/pages/Messages.tsx:224-268 | In the list reloaded from the stored rows after a message is marked read, that message is new to nobody, so its highlight and badge are gone. |
| Messages.Project | src/pages/Messages.tsx:64-68 | The joined row's keys are exactly the selected columns that the profile has. |
| Messages.ReplyRecipientAsWrittenIsMissing | src/pages/Messages.tsx:223 | As written, the reply recipient read from the joined profile is always missing, since the join selects no `id` (lines 66-67). |
| Messages.ReplyRecipientAsWritten | src/pages/Messages.tsx:223 | Definition of the recipient as written, `otherUser.id`; `ReplyRecipientAsWrittenIsMissing` states that it is always missing. |
| Messages.ReplyRecipient | src/pages/Messages.tsx:222-223 | Corrected: the reply goes to the counterpart's id from the message's own columns, with the name or 'User'. |
| Messages.ReplyGoesToOtherParty | src/pages/Messages.tsx:222-223 | The corrected reply goes to the other party of the conversation, never to the viewer. |
| Messages.Mailbox.Insert | src/components/SendMessageDialog.tsx:69-79 | The message is stored iff the backend answers Ok. |
| Messages.Mailbox.MarkRead | src/pages/Messages.tsx:110-113 | On Ok the table becomes `MarkedRead`; otherwise it is unchanged. |
| Messages.MessagesPage.constructor | src/pages/Messages.tsx:37-41 | No messages, loading, no user, reply dialog closed. |
| Messages.MessagesPage.CheckAuthAndLoad | src/pages/Messages.tsx:47-82 | With nobody signed in the page redirects and loads nothing. Otherwise the user is recorded and the list becomes the user's conversations, newest first, or the old list on error. Loading ends. |
| Messages.MessagesPage.MarkAsRead | src/pages/Messages.tsx:106-117 | A message that was not received is left alone. A received one is marked read in the store when the backend answers Ok. The list on screen is unchanged either way. |
| Messages.MessagesPage.Reply | src/pages/Messages.tsx:222-227 | Corrected Reply: the dialog opens addressed by `ReplyRecipient`, the counterpart's id from the message's own columns, where the page as written passes the missing `otherUser.id` (line 223, see Findings). The message is marked read in the store only if it is new to the viewer. The list on screen is unchanged, so the message still shows as new until the reply dialog closes (`ReplyDialogOpenChange`). |
| Messages.MessagesPage.ReplyDialogOpenChange | src/pages/Messages.tsx:261-268 | The dialog flag follows `open`. Closing the dialog with a non-empty user id reloads the list: the `Inbox` of the stored rows on Ok, the old list on error. Opening it, or closing it with no user id, leaves the list unchanged. |
| Feedback.SubmitRule | src/pages/Feedback.tsx:191 | Never enabled while loading. An empty title disables it. A title of one space enables it, given a description of at least 20 UTF-16 code units (20 characters always suffice). A description of 19 code units disables it. |
| Feedback.CanSubmit | src/pages/Feedback.tsx:191 | Definition of the button's `disabled` condition, negated, with `length` as `Utf16Length`; its boundaries are stated by `SubmitRule`. |
| Feedback.ContactEmail | src/pages/Feedback.tsx:48 | The typed e-mail if non-empty, else the signed-in user's non-empty e-mail, else null. |
| Feedback.FeedbackOf | src/pages/Feedback.tsx:41-50 | Type, title and description are copied unchanged. The user's id is null when anonymous. The e-mail is `ContactEmail`, and the status is 'pending'. |
| Feedback.AnonymousFeedback | src/pages/Feedback.tsx:44-48 | Anonymous feedback has no user and only the typed e-mail, null when empty. |
| Feedback.FeedbackPage.constructor | src/pages/Feedback.tsx:24-30 | Type 'feature', empty texts, not loading, and the type is one of the four `FEEDBACK_TYPES` ids (`Valid`). |
| Feedback.FeedbackPage.SetKind | src/pages/Feedback.tsx:14-118 | A type button sets the type to its id, one of 'feature', 'improvement', 'bug' and 'other', and changes nothing else; the type stays one of the four. |
| Feedback.FeedbackPage.SetTitle | src/pages/Feedback.tsx:150 | Only the title changes; the type stays one of the four. |
| Feedback.FeedbackPage.SetDescription | src/pages/Feedback.tsx:164 | Only the description changes; the type stays one of the four. |
| Feedback.FeedbackPage.SetEmail | src/pages/Feedback.tsx:182 | Only the e-mail changes; the type stays one of the four. |
| Feedback.FeedbackPage.HandleSubmit | src/pages/Feedback.tsx:32-77 | `FeedbackOf` is stored iff the backend answers Ok. Only then does the form reset to type 'feature' and empty texts; otherwise it is kept. Loading ends. The stored record's type is one of the four, so a table whose records all have a known type keeps that property. |
| Text.TrimShape | src/components/PortfolioDialog.tsx:107 | `trim` leaves the trimmed infix of the text between its leading and trailing whitespace. The result is empty iff the text is all whitespace. |
| Text.Trim | src/components/PortfolioDialog.tsx:107 | Definition of `trim`, never longer than its input; `TrimShape` and `TrimmedFixpoint` state what it leaves. |
| Text.TrimmedFixpoint | src/components/PortfolioDialog.tsx:107 | `trim` leaves a string unchanged iff it neither starts nor ends with whitespace. |
| Text.TrimIdempotent | src/components/PortfolioDialog.tsx:107 | Trimming twice is trimming once. |
| Text.TrimOrNull | src/components/WriteReviewDialog.tsx:96 | `s.trim() \|\| null`: null iff the text is all whitespace, else the non-empty trim. |
| Text.NullIfEmpty | src/components/CryptoPaymentDialog.tsx:103 | `s \|\| null`: null iff empty, else the text verbatim. |
| Text.Utf16Length | src/pages/Register.tsx:62 | `length` in UTF-16 code units: between the number of characters and twice it, and equal to it iff no character is astral. |
| Text.ThreeEmojiAreSixUnits | src/pages/Register.tsx:62 | Three emoji are three characters but six code units. |
| Text.ToLowerIdempotent | src/pages/Professionals.tsx:78 | Lower-casing twice is lower-casing once. |
| Text.ToLower | src/pages/Professionals.tsx:78 | `toLowerCase` on ASCII: the same length, each character lowered by `LowerChar`. |
| Text.ContainsAt | src/pages/Professionals.tsx:80 | A needle occurring at some position is found by `includes`. |
| Text.ContainsHasPosition | src/pages/Professionals.tsx:80 | A needle found by `includes` occurs at some position. |
| Text.Contains | src/pages/Professionals.tsx:80 | Definition of `includes`; `ContainsAt` and `ContainsHasPosition` state that it holds iff the needle occurs at some position. |
| Text.Split | src/components/PortfolioDialog.tsx:112 | At least one piece, none holding the separator. Text without the separator is its own piece, and text with it splits into two or more. |
| Text.JoinSplit | src/components/PortfolioDialog.tsx:112 | Joining the pieces with the separator gives the text back. |
| Text.Join | src/components/PortfolioDialog.tsx:112 | Definition of `join`; `JoinSplit`, `ParseJoinRoundTrip` and `JoinSnoc` state its relation to splitting and appending. |
| Text.JoinSnoc | src/pages/Dashboard.tsx:337 | Joining one more part appends the separator and the part. |
| Text.ParseCommaList | src/components/PortfolioDialog.tsx:112 | Every entry is non-empty, trimmed and comma-free. |
| Text.ParseJoinRoundTrip | src/pages/Dashboard.tsx:337-338 | Parsing the ', '-joined text of a list of entries gives the list back. |
| Text.ParseJoinParse | src/pages/Dashboard.tsx:337-338 | A parsed list, joined and parsed again, is unchanged. |
| Text.LastPiece | src/components/PortfolioDialog.tsx:84 | The last piece of the split is a separator-free suffix, preceded by the separator unless it is the whole text. |
| Text.LastPieceAfterSeparator | src/components/PortfolioDialog.tsx:84 | The piece after the last separator is what follows it. |
| Text.Decimal | src/components/PortfolioDialog.tsx:85 | The rendering of a timestamp is a non-empty run of digits, so it holds no '.' or '/'. |

## Left out

- Backend calls: SQL, row-level security and the trigger behind `professional_ratings` are not modelled. Every reply is a parameter, and only the reviews table's unique constraint is computed.
- Ownership on update and delete: the client sends `update`/`delete` by id only, so whether a user may change someone else's review is not checked client-side. Row-level security would decide it, and that is not modelled.
- `created_at`: a table keeps insertion order, and "newest first" is its reverse. Timestamps from the database are not modelled, and neither are ties.
- Concurrency: the async interleaving of awaited calls, and effects re-running on state changes, are not modelled. Each handler runs to completion alone.
- Browser and library APIs: FileReader previews, clipboard copy, `confirm` (a boolean parameter), toasts (outcome tags), router navigation (a flag or a redirect result), the `setTimeout` before navigating to the messages page, and `Date.now()` (a parameter).
- Locale and number formatting: `toLocaleDateString`/`toLocaleTimeString` (the `CalendarDate` label and the time after "Today"), `toFixed(1)`, and the partial-star width percentage.
- The QR service URL and `encodeURIComponent`: only the encoded text `tron:<wallet>` is modelled.
- `parseFloat`/`parseInt`: abstract parameters returning `None` for NaN. `average_rating` is an exact `real`, not a float or a numeric string.
- AdvancedFilters.PriceFromInput: requires that a number input's non-empty text parses. The browser reports unparsable text in such an input as the empty value, so NaN as a stored bound is not modelled.
- Display fallbacks of the message list and the profile dialog: the avatar letter `full_name?.charAt(0) || 'U'` and the label `full_name || 'Anonymous User'` (src/pages/Messages.tsx:188,198), and `full_name?.charAt(0) || 'P'` and `full_name || 'Anonymous Professional'` (src/components/ProfessionalProfileDialog.tsx:127,133) are rendering only and are not modelled; they follow the same pattern as ReviewsList.AuthorLabel and ReviewsList.AvatarInitial, which are.
- ReviewsList.AvatarInitial: `charAt(0)` takes one UTF-16 code unit, half of an astral character, which a Dafny character cannot hold; the model takes the first character.
- Browser form validation: the `required`, `type="email"` and `type="url"` attributes of the feedback, portfolio, payment and message forms (src/pages/Feedback.tsx:153,167,180, src/components/PortfolioDialog.tsx:174,237, src/components/CryptoPaymentDialog.tsx:205, src/components/SendMessageDialog.tsx:145) stop a submission before its handler runs. It is not modelled: every handler is modelled for every form, so Feedback.FeedbackPage.HandleSubmit and Portfolio.ProjectDialog.HandleSubmit store e-mails and URLs the browser would refuse.
- Text.LowerChar: `toLowerCase` is modelled on the ASCII letters only; other scripts are left as they are.
- Loads not tied to a modelled rule: the portfolio lists of the dashboard and the profile dialog, and the joined author profile of a review (only its three name columns are modelled).
- Logout on the dashboard, and the photo preview and three-step data of registration beyond the form fields, are UI flow with no logic.
- WriteReview.ReviewDialog.HandleSubmit: `open` records only the dialog's own request to close, and `onReviewSubmitted` is taken to be provided.
- A token refresh or sign-out between two handler calls is not modelled: each call takes its own `Session`.
- Files with no logic: the decorative 3D background, translations, header and theme toggles, the login page's enable rule, and the markup-only home sections and static pages.
- Filters applied to lists: no file applies the advanced filters' bounds or sort order to a list, and none computes the active-filter count. The model applies nothing.

## Findings

| source | as written | input that shows it | evidently intended | confidence | as-written member | corrected member |
|---|---|---|---|---|---|---|
| src/pages/Messages.tsx:223 | The Reply button addresses `otherUser.id`, but `otherUser` is the joined profile, and the join at lines 66-67 selects only `full_name, avatar_url, user_type`. | Any listed message: the joined profile has no `id` key, so the recipient id is undefined. | Reply to the counterpart's id from the message's own `sender_id`/`recipient_id`. | not executed | Messages.ReplyRecipientAsWritten (lemma Messages.ReplyRecipientAsWrittenIsMissing) | Messages.ReplyRecipient (lemma Messages.ReplyGoesToOtherParty) |
| src/pages/Dashboard.tsx:337-338 | The skills box shows `skills.join(', ')` and re-parses its text on every keystroke, so a trailing ',' or ' ' is removed as soon as it is typed. | With "web" shown, typing ',' at the end gives "web," whose parse is ["web"], shown again as "web". A new skill can then only be added by typing the comma inside text already in the box (with "webreact" shown, a ',' after "web" gives "web, react") or by pasting. | The box keeps the typed text and saves its parse. | not executed | Dashboard.SkillsBoxAfterKeystrokeAsWritten (lemmas Dashboard.WebCommaExample, Dashboard.TrailingCommaCannotBeTyped, Dashboard.MidTextCommaExample) | Dashboard.SkillsBoxAfterKeystroke (lemmas Dashboard.NextSkillCanBeTyped, Dashboard.LoadedSkillsRoundTrip, method Dashboard.DashboardPage.EditSkills) |
