# MasterStudy Custom Layout — a Dafny model

The plugin restyles the MasterStudy LMS course player in WordPress. It has two pieces of decision logic, and this project models both and proves properties of them.

- **The template router** (`masterstudy-custom-layout.php`). It decides whether WordPress renders the plugin's own `templates/course-player.php` instead of the template it was going to use. The router has these parts:
  - the six-way "MasterStudy page" test behind the `template_include` filter;
  - the template-name hooks;
  - the late filter that `check_course_player` registers;
  - the condition under which the plugin's assets are enqueued.
- **The course-player view** (`templates/course-player.php`). This is what the player page shows:
  - the entry redirect taken when the LMS router did not supply `$lesson_id` / `$lms_page_path`;
  - the enrollment check and the four-way video-area decision;
  - the "Continue - Next Lesson" scan across curriculum sections;
  - the purchase button and price shown to visitors without access;
  - the lessons tab with per-section numbering, type labels and the thumbnail fallback chain;
  - the course-logo initials;
  - the split between parts gated on the locally computed access and the discussions template, which is gated on the LMS's own `$data['has_access']`.

Every WordPress or LMS call is an input. Each one is either a field of a record of functions (`Site`, `Media`, `Lms`) or a parameter, and none is interpreted:
- `file_exists`, `get_post_meta`, `get_the_post_thumbnail_url`, `wp_get_attachment_image_url`;
- `filter_var(FILTER_VALIDATE_URL)`, `is_numeric` on strings;
- `get_lesson_url`, `get_post_type`;
- the two enrollment checks and the `stm_lms_show_item_content` filter;
- the sale-active test, the guest-checkout option;
- PHP 8's `$price == '0'` comparison, which is `isNumericZero`.

PHP's value rules that the decisions depend on are in `php.dfy`:
- `empty()` on meta values;
- the truthiness of strings, where only `""` and `"0"` are false.

The modules are:

| file | module | what it holds |
|---|---|---|
| php.dfy | `Php` | `Option`, the shapes of a meta value, `Truthy`, `IsEmpty` |
| template_router.dfy | `TemplateRouter` | request record, the filters, the late override, asset condition |
| curriculum.dfy | `Curriculum` | sections with optional `materials`, curriculum order (`Flatten`) |
| navigation.dfy | `Navigation` | the next-lesson scan (method and specification), the continue button, the entry redirect |
| access.dfy | `Access` | the enrollment method, the video-area decision, the page gates |
| thumbnail.dfy | `Thumbnail` | the thumbnail fallback chain (method and specification) |
| listing.dfy | `Listing` | the lessons tab: rows, numbering, type labels |
| purchase.dfy | `Purchase` | the purchase button and price |
| branding.dfy | `Branding` | `explode(' ')` and the course-logo initials |
| course_player.dfy | `CoursePlayer` | the page as one decision: access first, everything else gated on it |

Parts of the source are step-by-step code:
- the nested `foreach` with `break 2`;
- the reassigned `$thumbnail_url` with its `break`ing field loop;
- the reassigned `$is_enrolled`.

Each of these is a `method` with loops or reassignments. Each is proved equal to a specification function, and the properties are proved about that function. Everything else is functions and lemmas.

## Model

| member | source | states |
|---|---|---|
| TemplateRouter.CustomTemplatePath | masterstudy-custom-layout.php:24 | the override path is the plugin directory, then `templates/`, then the template name |
| TemplateRouter.OverrideTemplates | masterstudy-custom-layout.php:22-32 | the plugin's copy of the named template when that file exists, else the incoming template unchanged |
| TemplateRouter.StmTemplatePath | masterstudy-custom-layout.php:145-153 | the plugin copy if it exists, else the incoming path; proved to agree with `OverrideTemplates` on every input |
| TemplateRouter.OverrideHasTwoOutcomes | masterstudy-custom-layout.php:22-32 | the override hooks can only return the incoming template or the plugin's copy, never a third value |
| TemplateRouter.IsMasterStudyPage | masterstudy-custom-layout.php:51-57 | the six-way disjunction; `QueryKeyAloneMarksPage`, `StmPrefixMarksPage`, `LateOverrideImpliesMasterStudyPage` and `EnqueueImpliesMasterStudyPage` characterise it |
| TemplateRouter.TemplateInclude | masterstudy-custom-layout.php:40-69 | result is the input or the player path; it is the player path exactly when the flag is on, the request is a MasterStudy page and the file exists |
| TemplateRouter.DisabledKeepsTemplate | masterstudy-custom-layout.php:42-44 | with the enable flag undefined or false the filter returns its input |
| TemplateRouter.QueryKeyAloneMarksPage | masterstudy-custom-layout.php:55-56 | a `course_id` or `lesson_id` key in `$_GET` marks a MasterStudy page whatever its value |
| TemplateRouter.StmPrefixMarksPage | masterstudy-custom-layout.php:52 | any post type beginning with `stm-` marks a MasterStudy page |
| TemplateRouter.TemplateIncludeIdempotent | masterstudy-custom-layout.php:40-69 | applying the filter to its own output changes nothing |
| TemplateRouter.LateOverride | masterstudy-custom-layout.php:165-171 | the late filter returns the player path if it exists, else its input |
| TemplateRouter.LateOverrideRegistered | masterstudy-custom-layout.php:160-162 | `STM_LMS_Course` exists and the request is a singular item page or carries both query vars; `CoursePageAloneNoLateOverride` and `LateOverrideImpliesMasterStudyPage` characterise it |
| TemplateRouter.FinalTemplateAsWritten | masterstudy-custom-layout.php:158-172 | the pipeline as written: the input or the player path; the player path whenever the late filter is registered and the file exists, whatever the flag; the incoming template whenever the file is missing; the early filter's result when the late filter is not registered |
| TemplateRouter.CoursePageAloneNoLateOverride | masterstudy-custom-layout.php:160-162 | a singular course page without `lesson_id` is a MasterStudy page but does not register the late filter |
| TemplateRouter.LateOverrideImpliesMasterStudyPage | masterstudy-custom-layout.php:160-162 | every request that registers the late filter already passes the six-way test |
| TemplateRouter.EnabledLateOverrideRedundant | masterstudy-custom-layout.php:158-172 | while the flag is on, the late filter never changes what the early filter chose |
| TemplateRouter.DisabledFlagBypassedByLateOverride | masterstudy-custom-layout.php:158-172 | as written, a lesson request with the flag off still renders the player template |
| TemplateRouter.FinalTemplate | masterstudy-custom-layout.php:158-172 | corrected pipeline: with the flag off the incoming template is kept; with it on, the result is the early filter's |
| TemplateRouter.EnqueueAssets | masterstudy-custom-layout.php:93-94 | singular in the four types, or `is_page()` with a truthy `course_id`; `EnqueueImpliesMasterStudyPage` and `LessonQueryOnlyNoAssets` characterise it |
| TemplateRouter.EnqueueImpliesMasterStudyPage | masterstudy-custom-layout.php:93-94 | assets are only enqueued on requests the router treats as MasterStudy pages |
| TemplateRouter.LessonQueryOnlyNoAssets | masterstudy-custom-layout.php:93-94 | a request with only a `lesson_id` query var gets the player template but not the plugin's assets |
| Navigation.FirstIndexOf | templates/course-player.php:927-934 | the index of the first material whose id equals the item; no earlier material has it; none when absent |
| Navigation.ScanNextLesson | templates/course-player.php:921-938 | the nested scan with `break 2` returns exactly the material after the first occurrence of the item in curriculum order |
| Navigation.ScanSection | templates/course-player.php:926-936 | the inner loop over one section either stops at the material after the item, which is then the continue target, or passes on whether the item has been seen |
| Navigation.ContinueAction | templates/course-player.php:940-946 | a link to the next lesson exactly when there is one and its URL is truthy, else "Course Complete" |
| Navigation.NextOfAbsentItem | templates/course-player.php:921-938 | an item not in the curriculum has no next lesson |
| Navigation.NextOfLastItem | templates/course-player.php:921-938 | the last material (first occurrence of its id) has no next lesson |
| Navigation.NextCrossesSections | templates/course-player.php:925-937 | after a section's last material comes the first material of the next section that has any |
| Navigation.SectionWithoutMaterialsIgnored | templates/course-player.php:926 | a section without `materials` does not change the continue target |
| Navigation.DuplicateFollowerReturned | templates/course-player.php:928-934 | the follower is returned even when it has the same id as the current item |
| Navigation.SingleSectionScenario | templates/course-player.php:921-938 | in one section [A, B, C], B continues to C and C ends the course |
| Navigation.FirstLessonOf | templates/course-player.php:21-22 | the first material of the first section, which is the first material in curriculum order; none when that section has none |
| Navigation.Entry | templates/course-player.php:12-51 | renders exactly when both variables are set; otherwise starts the first lesson exactly on a singular course whose first section has materials; redirects home exactly in every other case |
| Navigation.EmptyFirstSectionGoesHome | templates/course-player.php:21-50 | a first section without materials sends the visitor home even when later sections have lessons |
| Access.ResolveEnrollment | templates/course-player.php:828-839 | a guest is never enrolled; the alternate check is consulted exactly when signed in, primary says no and it exists; enrolled iff either check admits a signed-in user |
| Access.Enrolled | templates/course-player.php:829-838 | a signed-in user whom either check admits; `ResolveEnrollment` is proved to compute it |
| Access.LocalAccess | templates/course-player.php:842 | local access is exactly enrollment; no guest or trial access is added (`CoursePlayer.AccessIsEnrollment`) |
| Access.LockMessage | templates/course-player.php:876 | the item's lock message when set (even empty); the default message only when it is null |
| Access.ClassifyVideo | templates/course-player.php:844-884 | "Access Restricted" iff neither access nor preview; "Lesson Locked" iff allowed and a lock is set; content iff allowed, unlocked, filter true and item id non-empty; fallback text otherwise |
| Access.GuestPreviewNotRestricted | templates/course-player.php:841-848 | a guest gets no access, but on an unlocked preview item still sees the content |
| Access.LockBeatsEnrollment | templates/course-player.php:844-877 | a drip lock shows the lock with the default message even to an enrolled user |
| Access.Gates | templates/course-player.php:1038-1053 | enrolled actions, lessons and discussions tabs follow local access; resources also need non-empty `course_materials` or `course_files`; the discussions template follows the LMS's flag |
| Access.DiscussionsFollowHostAccess | templates/course-player.php:1380 | a guest whom the LMS grants access gets the discussions template while every locally gated tab stays hidden |
| Thumbnail.Accepted | templates/course-player.php:1174-1186 | empty values are skipped; an array with a `url` yields it; a non-empty URL string yields itself; any other numeric value yields its attachment URL when truthy; nothing else is accepted |
| Thumbnail.FirstAccepted | templates/course-player.php:1192-1211 | nothing exactly when no field is accepted; otherwise what the first accepted field yields |
| Thumbnail.ScanMetaFields | templates/course-player.php:1190-1212 | the breaking loop over the five fields leaves the first accepted field's url, or the url it started with when none is accepted |
| Thumbnail.FirstTruthy | templates/course-player.php:1162-1221 | the first truthy candidate, and there is one exactly when some candidate is truthy |
| Thumbnail.FieldValues | templates/course-player.php:1191-1193 | the five alternate fields are read in their fixed order |
| Thumbnail.ChainSteps | templates/course-player.php:1162-1221 | the chain is the sequence of "if still falsy" steps: featured image, banner, alternate fields, course image |
| Thumbnail.ResolveThumbnail | templates/course-player.php:1159-1221 | the step-by-step reassignment and the breaking field loop compute exactly the specified chain |
| Thumbnail.FeaturedImageWins | templates/course-player.php:1163-1167 | a truthy featured image is always the thumbnail |
| Thumbnail.CourseImageLastResort | templates/course-player.php:1215-1221 | with nothing usable on the lesson, the course image is used, or the placeholder when it is falsy |
| Thumbnail.NoneAccepted | templates/course-player.php:1192-1211 | when no field is accepted the loop leaves nothing |
| Thumbnail.FirstAcceptedStopsAt | templates/course-player.php:1192-1211 | the loop stops at the first accepted field; later fields are not looked at |
| Thumbnail.EmptyArrayUrlJumpsToCourseImage | templates/course-player.php:1197-1199 | an array with an empty `url` stops the field loop, so the course image comes next whatever later fields hold |
| Thumbnail.UnresolvedAttachmentFallsThrough | templates/course-player.php:1179-1185 | a numeric banner without an attachment URL behaves as a missing banner |
| Thumbnail.NonUrlStringSkipped | templates/course-player.php:1177-1179 | a string that is neither a URL nor numeric is skipped |
| Thumbnail.EmptyValuesSkipped | templates/course-player.php:1174 | `""`, `"0"` and `0` are never accepted |
| Thumbnail.ThumbnailIsACandidate | templates/course-player.php:1159-1221 | the thumbnail is always one of the four candidates |
| Listing.TypeLabel | templates/course-player.php:1235-1249 | LESSON, QUIZ and ASSIGNMENT exactly for their post types; INTRO for everything else |
| Listing.SectionRows | templates/course-player.php:1151-1156 | one row per material of the section, numbered index + 1, labelled by type, with the chain's image or a placeholder showing the number |
| Listing.LessonsTabOf | templates/course-player.php:1140-1303 | the "no lessons" message exactly for an empty curriculum, else one row list per section |
| Listing.NumberingRestartsPerSection | templates/course-player.php:1152-1156 | the first row of every section with materials is numbered 1 |
| Listing.ContinueTargetIsNextRow | templates/course-player.php:921-938 | the continue target is the row numbered one higher in the same section; after the last row there is a target exactly when a later section has materials, and it is row 1 of the first such section |
| Listing.PlaceholderShowsRowNumber | templates/course-player.php:1260-1263 | a placeholder shows its own row's number |
| Purchase.ButtonActionFor | templates/course-player.php:972-980 | signed in: purchase this course; guest with guest checkout: guest checkout; otherwise the login modal |
| Purchase.IsFree | templates/course-player.php:967 | the price is empty or loosely equal to `'0'`; `PriceShownExactlyWhenPaid` and `PurchaseOffer` characterise it |
| Purchase.PriceFor | templates/course-player.php:984-992 | no price for a free course; the sale price iff paid, set and active; otherwise, on a paid course, the regular price |
| Purchase.PurchaseOffer | templates/course-player.php:964-992 | "Enroll for Free" iff the price is empty or zero, else "Get Course", with that price and button action |
| Purchase.PriceShownExactlyWhenPaid | templates/course-player.php:986-992 | a price is shown exactly when the course is not free |
| Purchase.InactiveSaleShowsRegular | templates/course-player.php:987-990 | an inactive sale shows the regular price |
| Branding.Explode | templates/course-player.php:908 | `explode(' ')` gives at least one piece, none containing a space, joining back to the title |
| Branding.ExplodeImplode | templates/course-player.php:908 | splitting the join of space-free pieces gives the pieces back |
| Branding.ExplodeHead | templates/course-player.php:908 | the first piece is the text before the first space, and the rest is the split of what follows |
| Branding.FirstChar | templates/course-player.php:909 | the first character of a word, empty for an empty word |
| Branding.CourseInitials | templates/course-player.php:908-909 | the logo holds at most two characters |
| Branding.FirstWordInitial | templates/course-player.php:908-909 | the first initial is the title's first character unless the title is empty or starts with a space |
| Branding.InitialsAgree | templates/course-player.php:908-909 | the initials via `explode` equal the title's first character and the character after its first space, each dropped when empty or a space |
| CoursePlayer.HasAccess | templates/course-player.php:828-842 | the page's `$has_access`: `LocalAccess` of the enrollment the two checks decide; `AccessIsEnrollment` characterises it |
| CoursePlayer.AccessIsEnrollment | templates/course-player.php:828-842 | access holds exactly for a signed-in user whom the primary check or the existing alternate admits; a guest never has access; an absent alternate only removes access |
| CoursePlayer.ResolvePlayer | templates/course-player.php:828-1053 | the page: enrollment once; "Access Restricted" iff no access and no preview; enrolled actions iff access; the discussions template follows the LMS flag |
| CoursePlayer.GuestGetsPurchaseView | templates/course-player.php:960-980 | a guest never sees the lessons tab and is offered guest checkout or the login modal |
| CoursePlayer.SignedInNonEnrolledPurchases | templates/course-player.php:969-973 | a signed-in user without access is offered a purchase of this course |
| CoursePlayer.LastMaterialCompletesCourse | templates/course-player.php:918-946 | an enrolled user on the last material sees "Course Complete" |

## Left out

- HTML, CSS and JavaScript rendering is not modelled. This covers the client-side tabs, the icon fallbacks and the debug hover script. Only which block or value is shown is modelled.
- Hook registration (`add_filter`, `add_action`, the loop over four hook names) is not modelled. It is host plumbing; the model keeps only the decisions the registered callbacks make. So is the priority order: the late filter is taken to run after the early one.
- The enable flag is an input (`Request.enabledFlag`). The file itself always defines it as true.
- `function_exists( 'STM_LMS_Course' )` is an input. Whether the host defines such a function is not part of this model.
- The admin debug banner and the per-lesson debug notes are not modelled. They only display values.
- Asset enqueueing, `wp_localize_script` and nonces are not modelled. Only the condition for enqueueing is (`EnqueueAssets`).
- The side effects of `wp_redirect`, `exit`, `get_header` and the JavaScript timer are not modelled. Only the redirect target is (`Navigation.Entry`).
- The resources-tab listing is not modelled. It is a loop over attachment lookups whose only output is markup. Whether the tab is shown is modelled (`Access.Gates`).
- The hard-coded progress counter (`0 / n Completed`) and the course statistics in the overview tab are not modelled. They are display-only counts.
- The overview tab's first-lesson card is not modelled. This is `templates/course-player.php:1095-1131`; it shows the featured image of the first lesson or the course.
- The lesson duration is not modelled. Its fallback is `rand( 8, 25 )`, which is nondeterministic display data.
- The quiz data and the arguments passed to the LMS's content template are not modelled. They are host data passed through unchanged.
- `display_price` formatting is not modelled: `Purchase.PriceFor` returns which raw price string is handed to the formatter. `wp_kses_post` escaping is not modelled either.
- `Purchase.IsFree` uses an oracle `isNumericZero` for PHP 8's loose `$price == '0'`. It is true for numeric strings whose value is zero. The model does not define PHP's numeric-string grammar.
- Meta values that are floats are not modelled, and neither are `url` entries of an array that are not strings.
- An array meta value is reduced to its `url` entry and a count of other entries.
- A `url` entry that is `null` counts as unset, as `isset` treats it.
- Two different host calls are both modelled as "user id non-zero": `get_current_user_id()` for the enrollment check and `is_user_logged_in()` for the button action. For a real WordPress request they agree.
- `substr( $word, 0, 1 )` takes the first byte of a word. `Branding.FirstChar` takes the first character. For a multi-byte first letter the source emits a partial UTF-8 sequence, which the model does not capture.
- `$lesson_index` is taken to be the list index 0, 1, … of `materials`. The source relies on the LMS handing back a list; a map with other keys would number differently.
- The materials' `post_id` comparison is PHP's loose `==`. It is modelled as integer equality, taking ids to be integers.
- Branding.CourseInitials: its own contract states only the length bound; what the initials are is stated by `Branding.InitialsAgree`.

## Findings

| source | as written | input that shows it | evidently intended | confidence | as-written member | corrected member |
|---|---|---|---|---|---|---|
| masterstudy-custom-layout.php:158-172 | the late `template_include` filter registered by `check_course_player` puts in the player template without looking at `MASTERSTUDY_CUSTOM_LAYOUT_ENABLED` | flag false, singular `stm-lessons` request, `function_exists( 'STM_LMS_Course' )` true, plugin's `course-player.php` present: the player template is rendered although the override is switched off | switching the flag off (masterstudy-custom-layout.php:13-14) disables every override, as the early filter does at lines 42-44 | medium to low: the bypass needs `function_exists( 'STM_LMS_Course' )` to hold, while the source treats the other `STM_LMS_*` names as classes (line 138 tests one with `class_exists`), so on a real host the late filter may never be registered; not executed | TemplateRouter.DisabledFlagBypassedByLateOverride | TemplateRouter.FinalTemplate |
