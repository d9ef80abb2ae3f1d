# api_yamdb in Dafny

A model of the core of api_yamdb, a review site where users rate titles. The API is built on Django and Django REST framework.

The model covers:

- **Schema.** Users with a role, categories, genres, titles, reviews and comments. That includes the field validators, the uniqueness constraints and the delete policies: SET_NULL for a title's category, CASCADE for reviews and comments.
- **Permission classes and guard helpers.** The two permission classes, and the helpers that answer 401 or 403.
- **Views.**
  - The title list filter and the choice of serializer.
  - The review and comment handlers, including the order in which a review handler recomputes and saves the title's rating.
  - The category edits that are refused with 405, and the title update whose 405 is dropped.
- **Users app.** The username validator and the three serializers.
- **CSV-to-fixture converters.** The stand-alone script and the management-command variant. For each CSV file they produce the fixture path, the fixture entries and the log lines written to stdout and stderr.

The modules follow the source files:

| Dafny file | source file |
|---|---|
| `models.dfy` (`Models`) | `api_yamdb/reviews/models.py` |
| `permissions.dfy` (`Permissions`) | `api_yamdb/api/permissions.py` |
| `access_checks.dfy` (`AccessChecks`) | `api_yamdb/api/utils.py` |
| `views.dfy` (`Views`) | `api_yamdb/api/views.py` |
| `user_validators.dfy` (`UserValidators`) | `api_yamdb/users/validators.py` |
| `user_serializers.dfy` (`UserSerializers`) | `api_yamdb/users/serializers.py` |
| `convert_csv_to_json.dfy` (`ConvertCsvToJson`) | `api_yamdb/utils/convert_csv_to_json.py` |
| `csv_to_json_fixture.dfy` (`CsvToJsonFixture`) | `api_yamdb/utils/csv_to_json_fixture.py` |

Three files are shared helpers:

- `wrappers.dfy`: `Option` and `Result`.
- `text.dfy`: lower-casing of ASCII letters, `strip` and substring search.
- `requests.dfy`: the HTTP method and the request's user.

The database is the class `Models.Store`. It has one field per table and one counter for primary keys. Its methods insert, edit and delete rows, and each method keeps the invariant `Valid()`. The view handlers are methods that take the store. They change it in the order the views do.

The permission classes, the guards, the filters and the serializers have no state, so they are functions. The converters loop over rows and files, so they are methods with loop invariants. Each is proved against a function that states its result. The output streams become the list of lines written, each with its stream, its style and its ending.

Points where the code behaves differently from what its names and validators suggest:

- **Saved rating.** The rating column is an integer column with validators 1..10 (api_yamdb/reviews/models.py:118-126). `_update_title_rating` saves `Avg('score')` into it, which drops the fraction. Scores 8 and 5 are therefore saved as 6.
- **Recompute order.** `_update_title_rating` runs before the review is saved or deleted, so the saved rating lags one change behind. See Findings.
- **Missing parent.** A missing parent title or review is looked up with `objects.get`, which raises DoesNotExist and is not turned into a 404. The model keeps that as a distinct failure, `Views.Failure.DoesNotExist`.
- **Comments of a review.** The comment list ignores the title in the URL.
- **Title update.** The title detail's `perform_update` builds a 405 response, but the inherited update handler drops it and answers 200. See Findings.

## Model

| member | source | states |
|---|---|---|
| Models.RoleFromValue | api_yamdb/reviews/models.py:21-24 | a stored role value reads back to the role that has it; any other string is no role |
| Models.RoleValueRoundTrip | api_yamdb/reviews/models.py:59-65 | reading back a role's stored value gives the role; every value fits the 9-character column |
| Models.ValidSlugIsExact | api_yamdb/reviews/models.py:86-92 | the declared slug pattern together with the slug field's built-in validator accepts exactly the non-empty words of `[-a-zA-Z0-9_]` of at most 50 characters |
| Models.SlugPatternAdmitsFinalNewline | api_yamdb/reviews/models.py:90 | the declared pattern alone, anchored with `$`, accepts "drama\n"; the built-in validator refuses it |
| Models.TruncDiv | api_yamdb/reviews/models.py:118 | dropping the fraction of a quotient rounds toward zero: the result times the divisor is the nearest multiple on the zero side |
| Models.Mean | api_yamdb/api/views.py:113 | no scores give null; otherwise the saved rating is the whole part of the average: r·n ≤ sum < (r+1)·n |
| Models.MeanIsValidRating | api_yamdb/reviews/models.py:118-126 | the saved rating of valid scores is null or in 1..10 |
| Models.MeanDropsTheFraction | api_yamdb/reviews/models.py:118-126 | scores [8] give 8, [8, 4] give 6, and [8, 5] give 6 rather than 6.5 |
| Models.ScoresOfEmpty | api_yamdb/api/views.py:113 | a title has no scores exactly when no review points at it |
| Models.ScoresOfOtherRowsRemoved | api_yamdb/reviews/models.py:208-214 | removing rows of other titles leaves a title's scores unchanged |
| Models.OneReviewPerAuthorAndTitle | api_yamdb/reviews/models.py:220-224 | a valid store never holds two reviews by one author of one title |
| Models.EditReview | api_yamdb/api/views.py:124-126 | a partial update changes the text and score of the row with that id, when given, and nothing else |
| Models.EditReviewKeepsTablesValid | api_yamdb/reviews/models.py:188-195 | an update with a valid score keeps every table invariant and the set of review ids |
| Models.ClearCategory | api_yamdb/reviews/models.py:134-141 | deleting a category keeps every title and sets to null the category of exactly the titles that had it |
| Models.DropGenre | api_yamdb/reviews/models.py:142-147 | deleting a genre keeps every title and removes the genre from each title's genres |
| Models.CascadeKeepsCommentsResolving | api_yamdb/reviews/models.py:249-255 | after a review cascade, every surviving comment points at a surviving review |
| Models.CascadeKeepsRowsValid | api_yamdb/reviews/models.py:201-214 | a review cascade keeps ids and (author, title) pairs unique and references resolving |
| Models.DeleteTitleKeepsTablesValid | api_yamdb/reviews/models.py:208-214 | deleting a title with its reviews and their comments keeps every table invariant |
| Models.DeleteReviewKeepsTablesValid | api_yamdb/reviews/models.py:249-255 | deleting a review with its comments keeps every table invariant |
| Models.DeleteUserKeepsTablesValid | api_yamdb/reviews/models.py:242-248 | deleting a user with the user's reviews, the user's comments and the comments on those reviews keeps every table invariant |
| Models.Store.AddUser | api_yamdb/reviews/models.py:26-38 | Invalid exactly for an invalid username or e-mail, Conflict exactly when either is taken, and Ok otherwise: the user is added under a fresh id, with role `user` by default |
| Models.InsertTag | api_yamdb/reviews/models.py:81-92 | Invalid exactly for an invalid name or slug, Conflict exactly for a slug already taken, otherwise the row is added under the given id; a table of unique valid slugs stays so |
| Models.Store.AddCategory | api_yamdb/reviews/models.py:78-92 | Ok exactly for a valid name and an unused valid slug: the category is added under a fresh id; Invalid and Conflict otherwise; nothing else changes |
| Models.Store.AddGenre | api_yamdb/reviews/models.py:157-171 | Ok exactly for a valid name and an unused valid slug: the genre is added under a fresh id; Invalid and Conflict otherwise; nothing else changes |
| Models.Store.AddTitle | api_yamdb/reviews/models.py:102-147 | Invalid exactly for an invalid name or year, MissingReference exactly for a category or genre that does not exist, and Ok otherwise: the title is added, with no rating, under a fresh id |
| Models.Store.AddReview | api_yamdb/reviews/models.py:181-224 | refuses a score outside 1..10, a missing author or title, and a second review by the author of the title; otherwise appends the review under a fresh id |
| Models.Store.UpdateReview | api_yamdb/reviews/models.py:188-195 | refuses a score outside 1..10 and an unknown id; otherwise the reviews become EditReview of the old ones |
| Models.Store.AddComment | api_yamdb/reviews/models.py:242-255 | MissingReference exactly for a missing author or review, and Ok otherwise: the comment is appended under a fresh id |
| Models.Store.DeleteCategory | api_yamdb/reviews/models.py:134-141 | removes the category and clears it from its titles; the other tables are unchanged |
| Models.Store.DeleteGenre | api_yamdb/reviews/models.py:142-147 | removes the genre and its links to titles; the other tables are unchanged |
| Models.Store.DeleteTitle | api_yamdb/reviews/models.py:208-214 | removes the title, its reviews and the comments on them, and nothing else |
| Models.Store.DeleteReview | api_yamdb/reviews/models.py:249-255 | removes the review and its comments, and nothing else |
| Models.Store.DeleteUser | api_yamdb/reviews/models.py:201-207 | removes the user, the user's reviews and comments, and the comments on those reviews |
| Permissions.AdminOnlyHasPermission | api_yamdb/api/permissions.py:13-19 | PATCH and DELETE always pass; any other method passes exactly for an authenticated superuser or admin |
| Permissions.AdminOnlyHasObjectPermission | api_yamdb/api/permissions.py:21-25 | passes exactly for an authenticated superuser or admin |
| Permissions.AdminObjectCheckIgnoresMethod | api_yamdb/api/permissions.py:21-25 | the object-level admin check answers the same for every method |
| Permissions.OwnerOrStaffHasPermission | api_yamdb/api/permissions.py:33-36 | POST needs an authenticated user; every other method passes |
| Permissions.OwnerOrStaffHasObjectPermission | api_yamdb/api/permissions.py:38-46 | safe methods always pass; any other method passes exactly for the author, a superuser, an admin or a moderator |
| Permissions.PlainNonAuthorOnlyReads | api_yamdb/api/permissions.py:38-46 | a plain user who is not the author is allowed exactly the safe methods |
| Permissions.AdministratorPassesOwnerCheck | api_yamdb/api/permissions.py:21-46 | whoever passes the admin object check passes the owner-or-staff object check |
| Permissions.AnonymousOnlyReads | api_yamdb/api/permissions.py:38-46 | an anonymous user may only read through the owner-or-staff class and is refused by the admin class |
| AccessChecks.CheckAdminPermission | api_yamdb/api/utils.py:7-20 | 401 exactly for anonymous users; 403 exactly for users and moderators; allow exactly for admins |
| AccessChecks.CheckAuthentication | api_yamdb/api/utils.py:23-30 | 401 exactly for anonymous users; allow otherwise |
| AccessChecks.CheckSelfAction | api_yamdb/api/utils.py:33-41 | an anonymous user crashes the check; 403 exactly for a plain user acting on another account; never 401; acting on oneself is allowed |
| AccessChecks.StaffMayActOnAnyone | api_yamdb/api/utils.py:33-41 | moderators and admins are allowed on every account |
| AccessChecks.SuperuserFlagIgnored | api_yamdb/api/utils.py:13-20 | the superuser flag plays no part: a superuser of role user gets 403 |
| AccessChecks.AdminCheckVersusPermissionClass | api_yamdb/api/utils.py:7-20 | the helper's allow implies the admin class's object permission; they differ exactly on superusers whose role is not admin |
| AccessChecks.AuthenticationComesFirst | api_yamdb/api/utils.py:7-30 | the admin check answers 401 exactly when the authentication check does |
| Views.CategoryUpdate | api_yamdb/api/views.py:26-34 | a full or partial category update always answers 405 "Method Not Allowed" |
| Views.TitlePerformUpdate | api_yamdb/api/views.py:90-93 | perform_update returns a 405 "Method Not Allowed" response and saves nothing |
| Views.TitleUpdate | api_yamdb/api/views.py:75-93 | an update of the title detail answers 404 exactly for a missing title, 400 exactly for invalid data, and otherwise 200 showing the stored title unchanged |
| Views.TitleUpdateRefused | api_yamdb/api/views.py:90-93 | with perform_update's response returned, a valid update of an existing title answers 405 and shows nothing |
| Views.TitleUpdateNotRefused | api_yamdb/api/views.py:90-93 | a valid update of an existing title answers 200, not the 405 that perform_update builds |
| Views.TitleSerializerFor | api_yamdb/api/views.py:53-56 | the create serializer exactly for POST, the read serializer otherwise |
| Views.Narrow | api_yamdb/api/views.py:64-71 | one filter step keeps exactly the titles of the queryset that satisfy the condition |
| Views.TitleQueryset | api_yamdb/api/views.py:58-72 | the list holds exactly the titles that match every non-empty parameter: category slug, genre slug, case-insensitive name part, year |
| Views.NoParametersListsAll | api_yamdb/api/views.py:58-72 | without parameters every title is listed |
| Views.MoreParametersNarrow | api_yamdb/api/views.py:58-72 | giving more parameters never lists more titles |
| Views.ReviewQueryset | api_yamdb/api/views.py:117-118 | a missing title raises DoesNotExist; otherwise exactly the reviews of the title |
| Views.UpdateTitleRating | api_yamdb/api/views.py:111-115 | a missing title raises DoesNotExist; otherwise only the title's rating changes, to the saved mean of its current scores |
| Views.CreateReview | api_yamdb/api/views.py:120-122 | DoesNotExist exactly for a missing title; otherwise the title is rated from the reviews before the new one, and the review is saved with the user as author exactly when the author exists and has no review of the title; a refusal keeps the saved rating |
| Views.UpdateReview | api_yamdb/api/views.py:124-126 | DoesNotExist exactly for a missing title, 404 exactly for a review outside the title; otherwise the title is rated from the reviews before the edit and the edit is saved; this assumes the review id is routed as `pk`, see Left out |
| Views.DestroyReview | api_yamdb/api/views.py:128-130 | DoesNotExist exactly for a missing title, 404 exactly for a review outside the title; otherwise the title is rated from the reviews before the deletion, and the review and its comments go; this assumes the review id is routed as `pk`, see Left out |
| Views.FirstReviewLeavesRatingNull | api_yamdb/api/views.py:120-122 | the first review of a title leaves its rating null although the mean of its reviews is that review's score |
| Views.EditedScoreNotCounted | api_yamdb/api/views.py:124-126 | editing a title's only review from 3 to 9 leaves the rating at 3 although the mean is now 9 |
| Views.LastReviewDeletedLeavesRatingSet | api_yamdb/api/views.py:128-130 | deleting a title's last review leaves a rating set although no reviews remain |
| Views.CreateReviewRatedAfterSave | api_yamdb/api/views.py:120-122 | corrected order, same outcomes as CreateReview: after a create, the title's rating is the saved mean of its reviews, the new one included, and only that title changes |
| Views.UpdateReviewRatedAfterSave | api_yamdb/api/views.py:124-126 | corrected order, same outcomes as UpdateReview: after an update, the title's rating is the saved mean of its reviews, the new score included, and only that title changes |
| Views.DestroyReviewRatedAfterDelete | api_yamdb/api/views.py:128-130 | corrected order, same outcomes as DestroyReview: after a delete, the review and its comments are gone, the title's rating is the saved mean of the reviews that remain, and only that title changes |
| Views.CommentQueryset | api_yamdb/api/views.py:141-142 | a missing review raises DoesNotExist; otherwise exactly the comments of the review, whatever title the URL names |
| Views.CreateComment | api_yamdb/api/views.py:144-146 | DoesNotExist exactly for a missing review; otherwise the comment is saved, with the user as author and the URL's review, exactly when the author exists |
| UserValidators.ValidateUsername | api_yamdb/users/validators.py:4-9 | accepts exactly the strings whose lower case is not "me", and returns them unchanged; a non-string is refused |
| UserValidators.ReservedNameSpellings | api_yamdb/users/validators.py:7-8 | the refused names are exactly "me", "Me", "mE" and "ME" |
| UserValidators.ValidateUsernameIdempotent | api_yamdb/users/validators.py:4-9 | an accepted value is accepted again, unchanged |
| UserValidators.OnlyTwoCharacterNamesReserved | api_yamdb/users/validators.py:7-8 | every name that is not two characters long is accepted |
| UserValidators.NamesStartingWithMeAccepted | api_yamdb/users/validators.py:7-8 | "meme" and "me1" are accepted |
| UserSerializers.CharField | api_yamdb/users/serializers.py:26-28 | a missing key is Required, a value blank after trimming is Blank, a value holding a null character is NullCharacter, and exactly the rest are accepted as the trimmed value |
| UserSerializers.UniqueCharField | api_yamdb/users/serializers.py:7-12 | a trimmed value equal to an existing one is NotUnique; otherwise as CharField |
| UserSerializers.SignUpValidateUsername | api_yamdb/users/serializers.py:14-19 | refuses exactly what the username validator refuses as reserved, and returns anything else unchanged |
| UserSerializers.ValidateSignUp | api_yamdb/users/serializers.py:6-23 | accepted exactly when both fields pass; an accepted sign-up has a trimmed, non-empty username and e-mail that no user has, and the username is not reserved; a refusal reports each field's own error, and a missing field as required |
| UserSerializers.SignUpUsernameAccepted | api_yamdb/users/serializers.py:7-19 | the username passes exactly when it is present, not blank, free of null characters, unused and not reserved once trimmed |
| UserSerializers.SeparatorsAreBlank | api_yamdb/users/serializers.py:27 | the separators U+001C..U+001F are trimmed like other whitespace: a value made of them is blank; a value with a null character is refused |
| UserSerializers.CharFieldIgnoresOtherKeys | api_yamdb/users/serializers.py:26-28 | setting another key of the request leaves a field's result unchanged |
| UserSerializers.SignUpIgnoresOtherKeys | api_yamdb/users/serializers.py:21-23 | keys other than username and email do not change the sign-up outcome |
| UserSerializers.ValidateToken | api_yamdb/users/serializers.py:26-28 | valid exactly when both fields are present, not blank and free of null characters; each field that fails is reported |
| UserSerializers.SerializeUser | api_yamdb/users/serializers.py:31-36 | a user is represented by exactly its six fields; the role value reads back to the user's role |
| ConvertCsvToJson.LastSlashIsLast | api_yamdb/utils/convert_csv_to_json.py:27 | the position found is a '/' and no '/' follows it |
| ConvertCsvToJson.FirstDotIsFirst | api_yamdb/utils/convert_csv_to_json.py:27 | the position found is a '.' and no '.' precedes it |
| ConvertCsvToJson.LastSegmentShape | api_yamdb/utils/convert_csv_to_json.py:27 | `split('/')[-1]` is a suffix without '/', preceded by '/' when it is not the whole path |
| ConvertCsvToJson.BeforeFirstDotShape | api_yamdb/utils/convert_csv_to_json.py:27 | `split('.')[0]` is a prefix without '.', followed by '.' when it is not the whole name |
| ConvertCsvToJson.FixtureNameShape | api_yamdb/utils/convert_csv_to_json.py:26-28 | a fixture name is a stem without '/' or '.' followed by ".json" |
| ConvertCsvToJson.LastSegmentOfJoin | api_yamdb/utils/convert_csv_to_json.py:61 | the last segment of a directory joined with a file name is that file name |
| ConvertCsvToJson.FixturePathOfCsvFile | api_yamdb/utils/convert_csv_to_json.py:26-28 | the fixture of `stem.ext` in any CSV directory is `stem.json` joined to the fixture directory |
| ConvertCsvToJson.FixtureEntries | api_yamdb/utils/convert_csv_to_json.py:33-40 | entry i holds the model name, primary key i + 1 and row i |
| ConvertCsvToJson.MakeJson | api_yamdb/utils/convert_csv_to_json.py:17-44 | returns the fixture path and one entry per row in order, with keys counting from 1 and the rows as fields |
| ConvertCsvToJson.FixturePksDistinct | api_yamdb/utils/convert_csv_to_json.py:25-40 | the primary keys of a fixture increase strictly, so they are distinct |
| ConvertCsvToJson.Dispatch | api_yamdb/utils/convert_csv_to_json.py:58-63 | a file is converted exactly when its name is in the table, with its path in the CSV directory and its model name; otherwise skipped |
| ConvertCsvToJson.DispatchAllPointwise | api_yamdb/utils/convert_csv_to_json.py:58-63 | the outcome of file i depends on file i alone |
| ConvertCsvToJson.CsvToJson | api_yamdb/utils/convert_csv_to_json.py:47-64 | the outcomes are the dispatch of every file in directory order |
| ConvertCsvToJson.MappedNamesNonEmpty | api_yamdb/utils/convert_csv_to_json.py:6-14 | every model name is non-empty, so the truth test on the lookup is a key test; users.csv maps to auth.user |
| CsvToJsonFixture.MappingsDifferOnlyOnUsers | api_yamdb/utils/csv_to_json_fixture.py:8-16 | the command's table has the script's keys and differs from it only for users.csv, which maps to reviews.user |
| CsvToJsonFixture.WrapPrintRouting | api_yamdb/utils/csv_to_json_fixture.py:21-41 | success wins and goes to stdout styled as success; failure alone goes to stderr styled as error; otherwise stdout, warning style, with the given ending |
| CsvToJsonFixture.MakeJson | api_yamdb/utils/csv_to_json_fixture.py:44-76 | the same path and entries as the script's make_json, logged as a "creating" line without ending followed by the success line |
| CsvToJsonFixture.CsvDir | api_yamdb/utils/csv_to_json_fixture.py:95 | the csv_path option, or static/data/ without it |
| CsvToJsonFixture.JsonDir | api_yamdb/utils/csv_to_json_fixture.py:96 | the json_path option, or static/fixtures/ without it |
| CsvToJsonFixture.ConvertFile | api_yamdb/utils/csv_to_json_fixture.py:105-114 | one file is dispatched as in the script and reported by its make_json lines or one failure line |
| CsvToJsonFixture.ConvertAll | api_yamdb/utils/csv_to_json_fixture.py:98-115 | the outcomes are the dispatch of every file; the log is the two header lines, each file's report in order, and the closing line |
| CsvToJsonFixture.CsvToJson | api_yamdb/utils/csv_to_json_fixture.py:79-115 | the same, with the command's table and the directories from the options |
| CsvToJsonFixture.HeaderHasNoFailures | api_yamdb/utils/csv_to_json_fixture.py:98-103 | the file count and the list of files go to stdout |
| CsvToJsonFixture.ClosingHasNoFailures | api_yamdb/utils/csv_to_json_fixture.py:115 | the closing line goes to stdout |
| CsvToJsonFixture.ReportFailures | api_yamdb/utils/csv_to_json_fixture.py:105-114 | a converted file writes nothing to stderr; a file without a model writes one NoModel line there |
| CsvToJsonFixture.ReportsFailures | api_yamdb/utils/csv_to_json_fixture.py:105-114 | the reports of the files write to stderr exactly one NoModel line per file without a model, in order |
| CsvToJsonFixture.FailuresAreUnmappedFiles | api_yamdb/utils/csv_to_json_fixture.py:98-115 | over a whole run, stderr receives exactly one NoModel line per file without a model, in directory order, and nothing else |

## Left out

- HTTP routing, view dispatch and how the framework combines the permission classes with the views are not modelled. The classes and the views are modelled separately.
- The sign-up, token and user-management views are not part of this model. The serializers and guards they would use are modelled.
- `UserCustomRoles`, imported by the permission and helper files, is not part of this model. Roles are the three choices of `User.Roles`.
- Models.Mean: the average is computed by the database in floating point and then truncated. The model uses the exact quotient rounded toward zero. For scores in 1..10 the two agree unless rounding error crosses a whole number.
- Files, `listdir`, CSV parsing, `json.dump`, the wording of the messages, and the stand-alone script's `print` calls are left out. The directory becomes a list of named files with their rows.
- The global `DJANGO_CMD_OBJ` and the terminal styling are abstracted. Each written line carries its stream, its style and its ending.
- The clock is a parameter of the store, `currentYear`, in place of `date.today().year`. Publication dates and the newest-first ordering of reviews and comments are left out.
- `\w` and `lower()` are ASCII only. `strip()` removes every character `str.isspace()` accepts.
- Models.Store.AddUser: the store checks the username pattern and length limits of the user model. The sign-up serializer redeclares username and e-mail without them, and Django does not run model validators on save, so the running system can store a username such as "a b" that this store refuses.
- E-mail format validation is left out. An e-mail is a non-empty string of at most 254 characters.
- The conversion of the `year` query parameter to an integer is left out. The parameter arrives as an integer or as absent.
- Concurrency and transactions are left out. The store is changed by one handler at a time.
- Models.Store.DeleteUser: cascades do not recompute the ratings of the titles whose reviews go. The source does not either.
- Pagination and the search filter backends are left out.
- UserSerializers.UniqueCharField: a field reports only its first error. When a value is both taken and holds a null character, the framework reports both errors and the model reports the null character.
- Views.CreateReview, Views.UpdateReview, Views.CreateReviewRatedAfterSave, Views.UpdateReviewRatedAfterSave: the review, comment and title serializers that the views import are not part of this model, because the serializer module does not define them. The handlers require a score in 1..10, which assumes a model serializer that applies the validators of `Review.score`. `Views.TitleUpdate`'s `dataValid` stands for the verdict of the missing title serializer.
- Views.UpdateReview, Views.DestroyReview: the model assumes the review id reaches the object lookup as `pk`. The URL table (api_yamdb/api/urls.py:124-133) names it `review_id`, and the review view sets no lookup keyword. Through the shipped routes, a PATCH or DELETE of a review therefore stops with an assertion error after the title lookup, before `perform_update` or `perform_destroy` runs. The same holds for the corrected handlers.
- Request values that are not strings are left out of the serializers. Values that are not strings are modelled only in the username validator.
- The management command's exception handling and its command-line parsing are left out.
- The second (`second_name`) and confirmation-code (`code`) columns are not stored. The user serializer's `first_name`, `last_name` and `bio` come from a separate profile value.

## Findings

| source | as written | input that shows it | evidently intended | confidence | as-written member | corrected member |
|---|---|---|---|---|---|---|
| api_yamdb/api/views.py:120-122 | perform_create recomputes and saves the rating before the review is saved | the first review, score 7, of a title with no reviews: the rating stays null (Views.FirstReviewLeavesRatingNull) | the rating counts the new review, as `_update_title_rating` and the 1..10 rating of the title's reviews suggest | not executed | Views.CreateReview | Views.CreateReviewRatedAfterSave |
| api_yamdb/api/views.py:124-126 | perform_update recomputes and saves the rating before the edited review is saved | a title's only review edited from score 3 to 9: the rating stays 3 (Views.EditedScoreNotCounted); reachable only once the review id is routed as `pk`, which the shipped URL table does not do | the rating counts the new score | not executed | Views.UpdateReview | Views.UpdateReviewRatedAfterSave |
| api_yamdb/api/views.py:128-130 | perform_destroy recomputes and saves the rating before the review is deleted | deleting a title's only review: the rating stays set (Views.LastReviewDeletedLeavesRatingSet); reachable only once the review id is routed as `pk`, which the shipped URL table does not do | the rating no longer counts the deleted review, and is null when none remain | not executed | Views.DestroyReview | Views.DestroyReviewRatedAfterDelete |
| api_yamdb/api/views.py:90-93 | perform_update takes the place of the refused update, but the inherited update handler ignores what it returns | a valid PATCH of an existing title: the answer is 200 with the title unchanged (Views.TitleUpdateNotRefused) | the update is refused with 405, as the response built in perform_update says | not executed | Views.TitleUpdate | Views.TitleUpdateRefused |
