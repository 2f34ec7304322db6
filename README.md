# SIMCC administration back-end and Lagrange interpolation: a Dafny model

The project has two parts.

The first is the small console program `xpto.cpp`. It interpolates sample points (x[k], f(x[k])) at a query abscissa by Lagrange's formula and prints one table row per node.

The second is the pure decision logic buried in the SIMCC administration back-end (`adm_simcc`) and the SIMCC API (`simcc`):

- the status columns of the supervision-tracking listing (phase, days to the next milestone, overdue days, on time or late);
- the pydantic validators that split a timetable's professor cell into (name, id, workload) triples, rewrite semesters, and turn `"2021; 2022"` into a list of years;
- the CPF clean-up before a Lattes lookup;
- the WHERE, parameter and LIMIT assembly of the basic researcher query, and how its result is shaped;
- the SET clause of the user update, and the insert parameters of the user creation;
- the ADMIN-or-self guards of the user routes, and the ADMIN guard of the role router;
- the ownership and visibility rules of the collections feature, over a store of collections and entries.

Files:

| file | models |
|---|---|
| `wrappers.dfy` | `Option` and `Result` |
| `text.dfy` | the Python `str` operations the validators use: `split`, `join`, `strip`, `replace`, `isdigit` |
| `lagrange.dfy` | `interpolacao_lagrange`: the outer loop over nodes is the method `Interpolate`, and the inner product loop is the method `BasisAt` it calls; both are proved against recursive sum and product functions |
| `guidance_tracking.dfy` | `peding_days`, `peding_days_`, `pending`, `type_` and the three added columns |
| `departament.dfy` | `Discipline.parse_professor` and `Discipline.parse_semester` (both copies behave alike and are modelled once) |
| `year_list.dfy` | `split_year` of the graduate-program student and researcher models (one model for both) |
| `researcher_dao.dfy` | the CPF prefix of `cpf_to_lattes`, and `researcher_basic_query` up to and after the database call |
| `system_dao.dfy` | `update_user`'s statement builder, and `create_user`'s parameter list |
| `http.dfy`, `rbac.dfy`, `users_router.dfy` | the caller, the HTTP errors, `admin_required` and the user-route guards |
| `collection_service.dfy` | the collection service over a `Store` class holding the collection map and the entry list |

Dates are whole day numbers. The current date is a parameter (`today`, `now`). Python's `None` is `Option.None`. A UUID is a natural number compared for equality.

## Model

| member | source | states |
|---|---|---|
| Lagrange.Interpolate | xpto.cpp:5-35 | the value is the sum over k of f(x[k])·L_k(q); one trace row per node, each equal to `Row`; 0 for no nodes; the last row's partial sum is the value |
| Lagrange.BasisAt | xpto.cpp:16-19 | the inner loop's product, skipping j = k, is L_k(q) |
| Lagrange.RowsAccumulate | xpto.cpp:21-29 | row k's partial sum is row k-1's plus row k's term, and row 0's is its term |
| Lagrange.BasisAtOwnNode | xpto.cpp:16-19 | with distinct nodes, L_k(x[k]) = 1 |
| Lagrange.BasisAtOtherNode | xpto.cpp:16-19 | with distinct nodes, L_k(x[i]) = 0 for i ≠ k |
| Lagrange.PartialSumAtNode | xpto.cpp:14-22 | at q = x[i] the running sum is 0 before node i and f(x[i]) from node i on |
| Lagrange.ExactAtNodes | xpto.cpp:14-22 | interpolating at a node x[i] returns f(x[i]) exactly |
| Lagrange.SingleNode | xpto.cpp:16-19 | with one node the product is empty: L_0 = 1 and the result is f(x[0]) for every query |
| Lagrange.TwoNodes | xpto.cpp:14-22 | with two distinct nodes the result is the line f0 + (f1 − f0)(q − x0)/(x1 − x0) |
| Lagrange.TwoNodeBases | xpto.cpp:16-19 | with two nodes, L_1 = (q − x0)/(x1 − x0) and L_0 = 1 − L_1 |
| Lagrange.RepeatedNodeDividesByZero | xpto.cpp:17-19 | without distinct nodes some divisor x[k] − x[j], with k ≠ j, is zero |
| Lagrange.ParabolaScenario | xpto.cpp:14-22 | (0,1), (1,2), (2,5) interpolated at 3 give 10 |
| Lagrange.LineScenario | xpto.cpp:14-22 | (0,0), (1,1) interpolated at 0.5 give 0.5 |
| Lagrange.SwapDistinct | xpto.cpp:17-19 | exchanging two neighbouring nodes keeps the nodes pairwise distinct |
| Lagrange.SwapBasisUpTo | xpto.cpp:16-19 | after the exchange, the moved node's partial product of L equals the original one whenever both exchanged factors, or neither, are in |
| Lagrange.SwapTerm | xpto.cpp:21 | a node's weighted term f(x[m])·L_m(q) is the same at its new position |
| Lagrange.SwapPartialSum | xpto.cpp:14-22 | the running sums agree before and after the exchange whenever both exchanged terms, or neither, are in |
| Lagrange.SwapNodes | xpto.cpp:14-22 | exchanging two neighbouring samples, each node with its value, leaves the interpolated value unchanged |
| Lagrange.OrderIndependent | xpto.cpp:14-22 | any reordering of the samples made of a sequence of neighbour exchanges leaves the interpolated value unchanged |
| GuidanceTracking.Stage | adm_simcc/dao/dao_guidnace_tracking.py:104-111 | FINALIZADO iff all three done dates are set; otherwise the first milestone, in project, qualification, conclusion order, without a done date |
| GuidanceTracking.DaysToNext | adm_simcc/dao/dao_guidnace_tracking.py:64-79 | for the current milestone, planned − today, or None without a planned date; once finished, today − conclusion |
| GuidanceTracking.PendingDays | adm_simcc/dao/dao_guidnace_tracking.py:81-97 | the collected-delays computation equals the reference `Delay`: the largest lateness, 0 when none, TypeError when a milestone can't be compared |
| GuidanceTracking.AppendDelay | adm_simcc/dao/dao_guidnace_tracking.py:83-86 | fails iff the milestone is undone without a planned date; otherwise the list stays positive and its maximum grows to cover the milestone's lateness |
| GuidanceTracking.MaxOf | adm_simcc/dao/dao_guidnace_tracking.py:95-96 | `max` returns an element no smaller than any other |
| GuidanceTracking.MaxOfAppend | adm_simcc/dao/dao_guidnace_tracking.py:95-96 | appending x makes the maximum max(old maximum, x) |
| GuidanceTracking.Annotate | adm_simcc/dao/dao_guidnace_tracking.py:113-115 | the listing succeeds iff every row's delay does; each row then carries its own `DaysToNext`, its status label "EM ATRASO" or "EM DIA", and its phase label |
| GuidanceTracking.LateRowLabel | adm_simcc/dao/dao_guidnace_tracking.py:99-102 | in a listing that succeeds, a row's status label is "EM ATRASO" iff its delay is positive, and "EM DIA" iff its delay is 0 |
| GuidanceTracking.DelayFailsIff | adm_simcc/dao/dao_guidnace_tracking.py:83-94 | `peding_days_` fails iff some undone milestone has no planned date |
| GuidanceTracking.DelayZeroUnlessOverdue | adm_simcc/dao/dao_guidnace_tracking.py:81-97 | the delay is never negative, and it is 0 iff no undone milestone's planned date is before today |
| GuidanceTracking.DelayIsLargestOverdue | adm_simcc/dao/dao_guidnace_tracking.py:82-96 | the delay is ≥ every overdue amount, and a positive delay is one of them |
| GuidanceTracking.DoneMilestoneIgnored | adm_simcc/dao/dao_guidnace_tracking.py:83-94 | a done milestone's planned date never affects the delay |
| GuidanceTracking.PendingLateIff | adm_simcc/dao/dao_guidnace_tracking.py:99-102 | EM ATRASO iff the delay is positive, EM DIA iff it is 0, and failure iff the delay fails |
| GuidanceTracking.OverdueNextMilestone | adm_simcc/dao/dao_guidnace_tracking.py:64-97 | a negative `peding_days` is covered by the delay: delay ≥ −peding_days > 0 |
| GuidanceTracking.MissingPlanFails | adm_simcc/dao/dao_guidnace_tracking.py:64-94 | when `peding_days` is None, the record is unfinished and `peding_days_` fails |
| GuidanceTracking.FinishedRecord | adm_simcc/dao/dao_guidnace_tracking.py:77-79 | a finished record with a past conclusion has `peding_days` ≥ 0 and is EM DIA |
| GuidanceTracking.AnnotateEmpty | adm_simcc/dao/dao_guidnace_tracking.py:59-60 | an empty listing stays empty |
| Departament.ParseProfessor | adm_simcc/models/departament.py:28-43 | fewer than 3 pieces give one all-empty professor; 3m pieces give m professors from consecutive triples; any other count raises IndexError |
| Departament.Triples | adm_simcc/dao/models/departament.py:34-40 | the stepping loop builds one professor per triple, and raises when the count is not a multiple of 3 |
| Departament.CollapseCommaPairs | adm_simcc/models/departament.py:30 | the ",," collapse keeps every non-comma character in order, keeps a leading comma, and never grows the text |
| Departament.PiecesHaveNoSeparators | adm_simcc/models/departament.py:30 | no piece contains ',' or a newline |
| Departament.CollapseLeavesPairIffTriple | adm_simcc/models/departament.py:30 | the collapse is one pass: its output holds ",," iff the input held ",,," |
| Departament.TripleCommaSurvives | adm_simcc/dao/models/departament.py:30 | ",,," collapses to ",," and gives three empty pieces |
| Departament.FourPiecesRaise | adm_simcc/models/departament.py:35-40 | "a,b,c,d" gives 4 pieces: at least three and not a multiple of three, the premise under which `ParseProfessor` returns `IndexOutOfRange` |
| Departament.PiecesOfJoin | adm_simcc/models/departament.py:30 | round trip: non-empty fields without ',' or newlines, joined with ",", come back as the pieces |
| Departament.SampleProfessor | adm_simcc/dao/models/departament.py:67 | the sample cell gives "RENAN FERNANDES KOZAN", " 300276", " 60", untrimmed |
| Departament.ParseSemester | adm_simcc/models/departament.py:45-47 | every '/' becomes '.', nothing else changes, and the length is kept |
| Departament.SampleSemester | adm_simcc/dao/models/departament.py:42-44 | "2023/2" becomes "2023.2" |
| YearList.SplitYear | adm_simcc/models/student.py:14 | a parsed list has one year per piece: (number of ';') + 1 |
| YearList.ParsePiecesOk | adm_simcc/models/graduate_program_resarcher.py:15 | the comprehension succeeds iff every piece converts |
| YearList.ParsePiecesValues | adm_simcc/models/student.py:14 | element i is the conversion of piece i, in order |
| YearList.ParsePiecesError | adm_simcc/models/student.py:14 | a failure names a piece of the input that does not convert |
| YearList.ParseDecimal | adm_simcc/models/student.py:14 | `int(str(n).strip()) == n` for every n ≥ 0 |
| YearList.SplitYearOfJoin | adm_simcc/models/graduate_program_resarcher.py:15 | round trip: the decimal forms of a non-empty list, joined with ';', parse back to the list |
| YearList.BlankRejected | adm_simcc/models/student.py:14 | a blank piece does not convert |
| YearList.EmptyPieceRaises | adm_simcc/models/student.py:14 | any blank piece (empty input, or a leading, trailing or doubled ';') makes the validator raise |
| YearList.TrailingSeparatorRaises | adm_simcc/models/graduate_program_resarcher.py:15 | a trailing ';' makes the validator raise |
| YearList.NonNumericRaises | adm_simcc/models/student.py:14 | a single piece holding a letter or other non-literal character raises |
| YearList.IntegerChars | adm_simcc/models/student.py:14 | every character of an accepted literal is a digit, '_' or a sign |
| YearList.SampleYears | adm_simcc/models/student.py:14 | "2021; 2022" gives [2021, 2022] |
| ResearcherDao.CleanCpf | adm_simcc/dao/dao_researcher.py:32 | the cleaned CPF has no '-' and no '.'; every other character is in it iff it is in the stripped input; its length is the stripped input's length minus its '-' and '.' counts, and never more than the input's |
| ResearcherDao.CheckPaddedFormattedCpf | adm_simcc/dao/dao_researcher.py:32-36 | an 11-digit CPF in `ddd.ddd.ddd-dd` form, with whitespace around it, is accepted as its 11 digits |
| ResearcherDao.CheckCpf | adm_simcc/dao/dao_researcher.py:32-36 | accepted iff the cleaned text is non-empty and all digits, and then it is the cleaned text |
| ResearcherDao.CheckFormattedCpf | adm_simcc/dao/dao_researcher.py:32-36 | round trip: "ddd.ddd.ddd-dd" of eleven digits is accepted and cleaned back to the digits |
| ResearcherDao.SampleCpf | adm_simcc/dao/dao_researcher.py:32 | "123.456.789-09" becomes "12345678909" |
| ResearcherDao.InternalSpaceRejected | adm_simcc/dao/dao_researcher.py:33-36 | a space left after stripping makes the check raise |
| ResearcherDao.BlankCpfRejected | adm_simcc/dao/dao_researcher.py:33-36 | the empty CPF is rejected |
| ResearcherDao.Conditions | adm_simcc/dao/dao_researcher.py:114-137 | single mode iff an id is given; the conditions are `Wanted`; the params keys are exactly the names the conditions use, each bound to its value |
| ResearcherDao.AddCondition | adm_simcc/dao/dao_researcher.py:124-137 | appending a condition binds the parameter it names and keeps every binding right |
| ResearcherDao.WantedConditions | adm_simcc/dao/dao_researcher.py:117-137 | NOT IN iff not single mode; one condition per truthy filter; researcher id wins over Lattes id; never empty; each at most once in fixed order |
| ResearcherDao.BasicQuery | adm_simcc/dao/dao_researcher.py:107-146 | WHERE followed by the conditions joined with " AND "; params as above plus `rows` iff truthy; LIMIT iff `rows` is truthy |
| ResearcherDao.WhereClause | adm_simcc/dao/dao_researcher.py:139-141 | the clause is "" iff there are no conditions; otherwise it is "WHERE " and the conditions joined with " AND ", and the SQL of every condition occurs in it |
| ResearcherDao.AddLimit | adm_simcc/dao/dao_researcher.py:143-146 | LIMIT and the `rows` binding are added iff `rows` is truthy |
| ResearcherDao.ParamNamesCover | adm_simcc/dao/dao_researcher.py:124-137 | every placeholder of a condition has its parameter among the keys |
| ResearcherDao.ToRecords | adm_simcc/dao/dao_researcher.py:170-183 | one record per row, in order, each without `created_at` |
| ResearcherDao.Shape | adm_simcc/dao/dao_researcher.py:167-185 | empty gives {} in single mode and [] otherwise; single mode gives the first record; otherwise all records |
| SystemDao.UpdateUser | adm_simcc/dao/dao_system.py:142-164 | the statement is `Statement`: the grown template without its last character, between spaces, then the WHERE |
| SystemDao.AppendIfGiven | adm_simcc/dao/dao_system.py:148-161 | a truthy field appends "name = %(name)s,"; any other leaves the text as it is |
| SystemDao.GrowAppends | adm_simcc/dao/dao_system.py:148-161 | the grown text is the template followed by the appended assignments |
| SystemDao.AssignmentsJoined | adm_simcc/dao/dao_system.py:148-161 | the appended text is the comma-joined assignments of the truthy fields, plus one trailing comma |
| SystemDao.GivenFieldsComplete | adm_simcc/dao/dao_system.py:148-161 | a field is written iff its value is truthy |
| SystemDao.SetClause | adm_simcc/dao/dao_system.py:143-164 | with a truthy field, the statement is the template, the assignments in fixed order without the trailing comma, and the WHERE |
| SystemDao.EmptySet | adm_simcc/dao/dao_system.py:143-146 | with no truthy field the slice drops the template's last space and the SET is empty |
| SystemDao.EndsWithWhere | adm_simcc/dao/dao_system.py:164 | the statement always ends with "WHERE uid = %(uid)s" |
| SystemDao.IgnoredKey | adm_simcc/dao/dao_system.py:148-164 | a falsy value (so `verify = False`) or a key outside the seven changes nothing |
| SystemDao.User.CreateUser | adm_simcc/dao/dao_system.py:15-33 | `lattes_id` is replaced only when the lookup returns a row; the parameters are `InsertParams` of the updated user |
| SystemDao.InsertParams | adm_simcc/dao/dao_system.py:25-33 | seven parameters in column order; the photo URL's text, and present linkedin, provider and lattes id, pass through unchanged; a missing photo URL gives "None", and a missing linkedin, provider or lattes id gives "" |
| SystemDao.MissingPhotoIsNone | adm_simcc/dao/dao_system.py:29-32 | with everything missing, the photo is "None" and the other three are "" |
| Rbac.PermissionSet | simcc/routers/rbac.py:20 | the set holds exactly the listed permissions |
| Rbac.AdminRequired | simcc/routers/rbac.py:16-26 | 403 with the fixed detail iff "ADMIN" is not among the permissions; otherwise the caller, unchanged |
| Rbac.Dispatch | simcc/routers/rbac.py:29-75 | every route runs iff `admin_required` passes, and otherwise fails with its error |
| Rbac.DuplicatesIrrelevant | simcc/routers/rbac.py:20-21 | a repeated permission gives the same verdict as a single one |
| Rbac.ExactNameOnly | simcc/routers/rbac.py:16 | "admin", "Admin" and padded forms are refused; "ADMIN" among others is accepted |
| Rbac.RegularUserCannotPostRole | tests/test_rbac.py:116-123 | a caller without permissions posting a role gets 403 |
| UsersRouter.AllowedTests | simcc/routers/users.py:48-49 | both forms of the permission test hold iff "ADMIN" is among the permissions |
| UsersRouter.GetUsers | simcc/routers/users.py:44-50 | listing is allowed iff the caller holds ADMIN; the denial is 403 "Not enough permissions" |
| UsersRouter.GetMe | simcc/routers/users.py:55-59 | returns the caller's own user; the guarded single-user read of the caller's own id succeeds with the same result, so the missing guard loses nothing |
| UsersRouter.GetSingleUser | simcc/routers/users.py:66-75 | allowed iff ADMIN or the caller is the path id; the denial is the fixed 403 |
| UsersRouter.PutUser | simcc/routers/users.py:82-91 | allowed iff ADMIN or the body's `user_id` is the caller's; the body is what gets written |
| UsersRouter.DeleteUser | simcc/routers/users.py:98-107 | allowed iff ADMIN or the caller is the path id |
| UsersRouter.ListingAgreesWithRoleRouter | simcc/routers/users.py:48-49 | listing users and the role router admit the same callers |
| UsersRouter.NoSelfExemptionForListing | tests/test_user.py:22-29 | a plain user may not list users but may read, update and delete themselves |
| UsersRouter.PutOtherUser | tests/test_user.py:91-122 | updating another user is forbidden to a non-admin and allowed to an admin |
| UsersRouter.MorePermissionsNeverDeny | simcc/routers/users.py:48-106 | adding permissions never turns an allowed request into a denied one |
| CollectionService.Renamed | simcc/repositories/features/collection_repositoy.py:47-58 | the update writes name, description and `updated_at` only |
| CollectionService.SoftDeleted | simcc/repositories/features/collection_repositoy.py:61-69 | the delete sets `visible` false and stamps `deleted_at`, and changes nothing else |
| CollectionService.EntriesOf | simcc/services/features/collection_service.py:106-108 | exactly the entries of the collection, in stored order |
| CollectionService.WithoutEntry | simcc/services/features/collection_service.py:123-127 | keeps exactly the entries not matching both ids; shrinks iff some entry matched |
| CollectionService.VisibleEntries | simcc/services/features/collection_service.py:93-108 | None iff the collection is missing, or hidden from a non-owner; otherwise its entries |
| CollectionService.Store.UpdateCollection | simcc/services/features/collection_service.py:41-55 | 404 iff the caller does not own the collection, and then nothing changes; otherwise the request is stamped and only that row is renamed |
| CollectionService.Store.DeleteCollection | simcc/services/features/collection_service.py:58-68 | 404 iff the caller does not own the collection, and then nothing changes; otherwise only that row is soft-deleted |
| CollectionService.Store.PostEntry | simcc/services/features/collection_service.py:71-90 | 403 iff the caller does not own the collection, and then nothing changes; otherwise the entry carries the path's collection id and is appended |
| CollectionService.Store.GetEntries | simcc/services/features/collection_service.py:93-108 | the answer is `VisibleEntries` of the store |
| CollectionService.Store.DeleteEntries | simcc/services/features/collection_service.py:111-127 | false and no change for a non-owner; otherwise removes the matching rows and returns true iff there were any |
| CollectionService.EntriesAfterPost | tests/test_features/test_collection.py:136-155 | a posted entry appears last among its collection's entries and nowhere else |
| CollectionService.OtherEntriesKept | simcc/services/features/collection_service.py:123-125 | deleting an entry leaves every other collection's entries unchanged |
| CollectionService.DeleteIdempotent | simcc/services/features/collection_service.py:123-127 | deleting the same entry twice removes nothing the second time |
| CollectionService.PostThenDelete | tests/test_features/test_collection.py:179-200 | posting one entry to an empty collection and deleting it leaves the collection empty |
| CollectionService.UpdateKeepsVisibility | simcc/repositories/features/collection_repositoy.py:51-57 | an update never changes who can read which entries |
| CollectionService.DeletedHiddenFromOthers | simcc/services/features/collection_service.py:100-104 | after a soft delete only the owner reads the entries |
| CollectionService.DeletedStillOwned | simcc/repositories/features/collection_repositoy.py:38-43 | the owner lookup ignores `deleted_at`: a soft-deleted collection stays its owner's |
| Text.Split | adm_simcc/models/student.py:14 | one more piece than separators, and no piece holds the separator |
| Text.JoinSplit | adm_simcc/models/student.py:14 | joining a split gives the string back |
| Text.SplitJoin | adm_simcc/models/departament.py:30 | splitting a join of separator-free pieces gives the pieces back |
| Text.Strip | adm_simcc/dao/dao_researcher.py:32 | the result neither starts nor ends with whitespace, and is no longer than the input |
| Text.StripPadded | adm_simcc/dao/dao_researcher.py:32 | whitespace added around a text with non-whitespace ends is exactly what the strip removes |
| Text.ReplaceChar | adm_simcc/models/departament.py:47 | replaces every occurrence of the character and keeps the rest and the length |
| Text.RemoveChar | adm_simcc/dao/dao_researcher.py:32 | removes every occurrence and keeps every other character |

## Left out

- SystemDao.InsertParams: `photoUrl` stands for the text that `str()` gives of the already-validated pydantic `HttpUrl` (adm_simcc/models/__init__.py:10, adm_simcc/dao/dao_system.py:29). URL validation and normalisation, such as the added trailing "/" in "https://example.com/", are not modelled.
- Console I/O of `xpto.cpp`: the prompts, the `std::cin` input and the table formatting. The printed rows are returned as the trace instead, and `main` is not modelled.
- Lagrange.Interpolate: works over exact `real`, not IEEE-754 `double`. Exactness at the nodes holds only in exact arithmetic. A repeated node, which the program divides by zero on, is excluded by the `Distinct` precondition.
- Lagrange.Interpolate: the model does not prove that the result is the value at q of the unique polynomial of degree at most n − 1 through the samples, because that needs a polynomial algebra over `real` this model does not define. What it proves is exactness at every node, the one- and two-node closed forms, and independence from the order of the samples.
- Lagrange.Interpolate: requires `|fs| >= |xs|`. The program reads `valores_f_x[k]` for every node, and `main` allocates both vectors with the same count.
- ResearcherDao.BasicQuery: `rows` is modelled as the query-string text that the route passes (adm_simcc/rest/rest_researcher.py:40-46), not as the `int` in the annotation at adm_simcc/dao/dao_researcher.py:110. So "0" is truthy, and it is bound as text.
- Database access: SQL text semantics, the psycopg2 round trip, and the fixed SELECT text of `researcher_basic_query`. The model stops at the built clauses and parameters, and resumes at the returned rows.
- pandas: the DataFrame construction, the `NaN`/`NaT` coercion of the added columns, and the `fillna` and `replace` calls. Rows are Dafny values.
- GuidanceTracking.Annotate: does not model pandas turning the `peding_days` column into floats when some value is None.
- `datetime.now()`: replaced by the `today`/`now` parameters.
- Network lookups that follow the CPF check (the CNPq SOAP service and the proxy). They are not part of this model.
- YearList.ParseInt: accepts ASCII digits only. Python's `int()` also accepts other Unicode decimal digits; these are not modelled.
- Text.AllDigits: `isdigit()` over ASCII digits only. Other Unicode digits are not modelled.
- YearList.SplitYear: its own contract gives only the length. The values, the failure condition and the round trip are stated by the `ParsePieces*` and `SplitYearOfJoin` lemmas.
- Authentication: a request without a valid token (401) never reaches the guards. The caller is a parameter.
- Other routes of `simcc/routers/users.py`, such as `post_user`, and the user service functions behind the guards are not modelled. The guards return the service call they would make.
- The handlers behind the role router are not modelled, only the dependency that guards them.
- The repository functions the collection service calls but the repository does not show: `get_any_collection_by_id`, `get_entries_by_collection_id`, `post_entries` and `delete_entries`. They are modelled as reads and writes on the `Store`. `get_any_collection_by_id` is taken to return the row whatever its `deleted_at`.
- The owner lookup `get_collection_by_id` (simcc/repositories/features/collection_repositoy.py:37) reads the caller's id as `current_user.id`. `get_entries` (simcc/services/features/collection_service.py:103) reads it as `user.user_id`. The model merges both into the one field `Caller.userId`, so it does not show what happens if the two attributes differ.
- The router layer of the collections feature, which turns an empty or missing answer into 404, is not modelled.
- Result rows of the collection queries carry only the fields the decisions read: owner, name, description, visibility and the two dates.
