# FSND backends in Dafny

This project models the decision logic of three small Flask backends and
proves properties about it.

- **Coffee shop** (`auth.py`, `api.py`). A bearer-token authorization gate guards a drink API. The gate has four steps:
  - extract the token from the `Authorization` header;
  - select the signing key by `kid` from the identity provider's key set;
  - map decoder failures to errors;
  - check the permission claim.

  The `requires_auth` decorator composes these steps around each route, and every drink route has its own fixed permission.
- **Trivia API** (`flaskr.py`):
  - pagination of question lists, 10 per page, with Python slice semantics;
  - the category-id map;
  - the handlers for listing, deleting, creating, searching and per-category questions;
  - the quiz's choice of a next question.
- **Fyyur** (`app.py`):
  - the past/upcoming split of a venue's or artist's shows;
  - the count of upcoming shows in the venue listing and in both searches;
  - the grouping of venues by city;
  - the flat list of all shows.

Files:

- `outcomes.dfy` holds the `Option` and `Result` datatypes.
- `pyvalues.dfy` holds decoded JSON values, with Python truthiness and Python's `in`.
- `text.dfy` holds `str.split(' ')`, its inverse `Join`, and ASCII lower-casing.
- `auth.dfy` (module `Auth`) models the gate. The straight-line steps are functions. The key-selection loop is the method `SelectKey`, which is proved equal to the function `KeyFor`.
- `trivia.dfy` (module `Trivia`) holds pagination, the category-map loop and the class `TriviaDb`. The handlers are methods of `TriviaDb` over its question and category tables.
- `fyyur.dfy` (module `Fyyur`) holds specification functions, each paired with the loop method that implements it.
- `coffee.dfy` (module `CoffeeShop`) holds the class `DrinkDb`. Its route methods run `Auth.Authorization` first.

The model takes the following as inputs:

- the database tables, given as sequences in query order;
- the request header, request body and route arguments;
- the current time `now`, given as an integer;
- the key-set download and the JWT library, given as values in `Auth.Context`;
- the `format()`, `short()` and `long()` serialisers, given as function parameters;
- SQL `ilike`, given as a predicate on names.

## Model

| member | source | states |
|---|---|---|
| PyValues.Contains | projects/03_coffee_shop_full_stack/starter_code/backend/src/auth/auth.py:65 | Python's `in` on a claim value. Lists test element membership, strings test for a contiguous occurrence, dicts test key membership. None, booleans and numbers raise TypeError, and only they do. |
| Text.Split | projects/03_coffee_shop_full_stack/starter_code/backend/src/auth/auth.py:31 | `split(' ')` always yields at least one piece. |
| Text.SplitJoin | projects/03_coffee_shop_full_stack/starter_code/backend/src/auth/auth.py:31 | Joining the pieces with the separator gives back the original header. |
| Text.SplitCount | projects/03_coffee_shop_full_stack/starter_code/backend/src/auth/auth.py:31 | The number of pieces is the number of spaces plus one. |
| Text.SplitHead | projects/03_coffee_shop_full_stack/starter_code/backend/src/auth/auth.py:31-32 | The first piece is the text before the first space. |
| Text.LowerIsBearer | projects/03_coffee_shop_full_stack/starter_code/backend/src/auth/auth.py:32 | A scheme word lower-cases to "bearer" exactly when it has six characters and each is the lower- or upper-case letter of "bearer" at that place. |
| Auth.GetTokenAuthHeader | projects/03_coffee_shop_full_stack/starter_code/backend/src/auth/auth.py:20-53 | The "header missing" error occurs exactly for an absent or empty header. Every failure is an AuthError with status 401. An accepted token contains no space. |
| Auth.HeaderOutcome | projects/03_coffee_shop_full_stack/starter_code/backend/src/auth/auth.py:31-53 | Classifies every non-empty header by its scheme word and number of spaces. A non-bearer scheme fails first, then zero spaces fail ("Token not found."), then two or more spaces fail. Exactly one space yields the text after it. |
| Auth.BearerHeaderAccepted | projects/03_coffee_shop_full_stack/starter_code/backend/src/auth/auth.py:51-53 | `<scheme> <token>` with a scheme that lower-cases to "bearer" and a token without spaces yields that token verbatim. |
| Auth.BasicSchemeRejected | projects/03_coffee_shop_full_stack/starter_code/backend/src/auth/auth.py:32-36 | A "Basic ..." header fails with the "must start with Bearer" error. |
| Auth.BareBasicRejected | projects/03_coffee_shop_full_stack/starter_code/backend/src/auth/auth.py:32-43 | The scheme is checked before the piece count, so a bare "Basic" fails on the scheme, not with "Token not found.". |
| Auth.BareBearerRejected | projects/03_coffee_shop_full_stack/starter_code/backend/src/auth/auth.py:39-43 | A bare "Bearer" fails with "Token not found.". |
| Auth.DoubleSpaceRejected | projects/03_coffee_shop_full_stack/starter_code/backend/src/auth/auth.py:45-49 | A double space makes three pieces and fails with "must be bearer token". |
| Auth.TrailingSpaceGivesEmptyToken | projects/03_coffee_shop_full_stack/starter_code/backend/src/auth/auth.py:51-53 | "Bearer " is accepted with the empty token. |
| Auth.CheckPermissionsAsWritten | projects/03_coffee_shop_full_stack/starter_code/backend/src/auth/auth.py:58-69 | The check as written. It aborts 400 iff "permissions" is absent. It raises KeyError iff "permissions" is present and "permission" is absent. With both keys it passes iff the value under "permission" holds the permission and aborts 403 iff it does not. No other outcome occurs except a TypeError for a non-container value. |
| Auth.CheckPermissions | projects/03_coffee_shop_full_stack/starter_code/backend/src/auth/auth.py:58-69 | The corrected check. It succeeds iff "permissions" holds the permission. It aborts 400 iff the claim is absent. It aborts 403 iff the claim exists and lacks the permission. No other outcome occurs except a TypeError for a non-container claim. |
| Auth.PermissionListDecides | projects/03_coffee_shop_full_stack/starter_code/backend/src/auth/auth.py:65-66 | For a list-valued claim, the check passes iff the list holds the permission string, and aborts 403 iff it does not. |
| Auth.AsWrittenRejectsGrantedClaims | projects/03_coffee_shop_full_stack/starter_code/backend/src/auth/auth.py:60-66 | A payload whose "permissions" list grants the permission raises KeyError under the code as written, and passes the corrected check. |
| Auth.KeyFor | projects/03_coffee_shop_full_stack/starter_code/backend/src/auth/auth.py:88-96 | A selected key carries the wanted kid. |
| Auth.KeyForIsLastMatch | projects/03_coffee_shop_full_stack/starter_code/backend/src/auth/auth.py:88-96 | No key is selected iff no entry has the kid. Otherwise the selected key is the five-field copy of the last matching entry. |
| Auth.SelectKey | projects/03_coffee_shop_full_stack/starter_code/backend/src/auth/auth.py:80-96 | The overwrite-on-match loop ends with exactly `KeyFor(keys, kid)`. |
| Auth.VerifyDecodeJwt | projects/03_coffee_shop_full_stack/starter_code/backend/src/auth/auth.py:75-131 | Every failure is either an exception escaping from the fetch or the header parser, or an AuthError with status 400 or 401. |
| Auth.VerifyDecodeJwtCases | projects/03_coffee_shop_full_stack/starter_code/backend/src/auth/auth.py:82-131 | An unknown kid gives "Unable to find the appropriate key." (400). A known kid gives the decoder's outcome under the last matching entry: expired maps to 401, bad claims to 401, anything else to 400. |
| Auth.VerifyDecodeJwtEarlyFailures | projects/03_coffee_shop_full_stack/starter_code/backend/src/auth/auth.py:77-86 | A failed key-set download raises out of the function, so does an unparseable token header, and a header without a kid gives "Authorization malformed." (401). |
| Auth.VerifiedPayloadIsDecoded | projects/03_coffee_shop_full_stack/starter_code/backend/src/auth/auth.py:88-109 | A payload is returned only when the token header has a kid and the decoder accepted the token under the last key-set entry with that kid. |
| Auth.Authenticate | projects/03_coffee_shop_full_stack/starter_code/backend/src/auth/auth.py:139-145 | The wrapper's first two steps. Every failure is a 401: a header AuthError or abort(401). A payload is returned only when the header held a token and verify_decode_jwt returned that payload. |
| Auth.Authorization | projects/03_coffee_shop_full_stack/starter_code/backend/src/auth/auth.py:137-148 | The gate with the corrected permission check, the half of the finding below that the drink routes use. It passes only authenticated claims that the corrected check accepts. |
| Auth.AuthorizationAsWritten | projects/03_coffee_shop_full_stack/starter_code/backend/src/auth/auth.py:137-148 | The gate as written, with check_permissions as written at line 148. It passes only authenticated claims that the as-written check accepts. |
| Auth.GateAsWrittenAdmits | projects/03_coffee_shop_full_stack/starter_code/backend/src/auth/auth.py:137-148 | As written, the gate passes iff authentication succeeds and the claims carry both keys with the singular "permission" claim granting the permission. |
| Auth.GatesAgreeOnMirroredClaims | projects/03_coffee_shop_full_stack/starter_code/backend/src/auth/auth.py:58-69 | When the singular and plural claims hold the same value, the gate as written and the corrected gate give the same outcome. |
| Auth.GatesDiverge | projects/03_coffee_shop_full_stack/starter_code/backend/src/auth/auth.py:60-66 | Claims carrying only a granting "permissions" list raise KeyError in the gate as written and pass the corrected gate. Claims with an empty "permissions" list and a granting "permission" list pass the gate as written and get 403 from the corrected gate. |
| Auth.RequiresAuth | projects/03_coffee_shop_full_stack/starter_code/backend/src/auth/auth.py:134-155 | The wrapped function is invoked at most once. Its response is `f(payload, args)`, with the decoded payload first. |
| Auth.GuardInvokesWhenAuthorized | projects/03_coffee_shop_full_stack/starter_code/backend/src/auth/auth.py:139-151 | When the header holds a token, the token verifies and the claims grant the permission, the wrapped function is invoked exactly once, with the decoded claims and the route arguments. |
| Auth.GuardInvokesOnlyWhenAuthorized | projects/03_coffee_shop_full_stack/starter_code/backend/src/auth/auth.py:139-151 | The wrapped function runs only when all of these hold: the header held a bearer token; the decoder accepted the token under the last key with its kid; the claims' "permissions" contain the permission. |
| Auth.GuardErrorPropagation | projects/03_coffee_shop_full_stack/starter_code/backend/src/auth/auth.py:139-148 | A header error propagates unchanged. Every verification failure becomes abort(401). A permission failure propagates unchanged. |
| Auth.UnknownKidRejected | projects/03_coffee_shop_full_stack/starter_code/backend/src/auth/auth.py:141-145 | A token whose kid is in no key-set entry is answered with 401, even though verify_decode_jwt raises a 400 error. |
| Trivia.Paginate | projects/02_trivia_api/starter/backend/flaskr.py:16-25 | A page never holds more than QUESTIONS_PER_PAGE (10) entries. |
| Trivia.PageIsSlice | projects/02_trivia_api/starter/backend/flaskr.py:19-23 | Page p >= 1 is the formatted run that starts at (p-1)*10, clipped to the list. |
| Trivia.PagePastEndIsEmpty | projects/02_trivia_api/starter/backend/flaskr.py:19-23 | A page that starts past the end is empty rather than an error. |
| Trivia.PagesCoverInOrder | projects/02_trivia_api/starter/backend/flaskr.py:16-25 | Pages 1..k laid end to end are exactly the first 10k formatted questions, in order, with no overlap and no gap. |
| Trivia.NonPositivePages | projects/02_trivia_api/starter/backend/flaskr.py:19-23 | Python's negative slice bounds make page 0 empty. Page -1 counts back from the end. |
| Trivia.CreateCategoriesDict | projects/02_trivia_api/starter/backend/flaskr.py:30-36 | The keys are exactly the category ids. Each id maps to the type of the last category with that id. |
| Trivia.Matching | projects/02_trivia_api/starter/backend/flaskr.py:151-152 | The suggestions are exactly the questions whose text the search term matches. |
| Trivia.InCategory | projects/02_trivia_api/starter/backend/flaskr.py:169 | The selection is exactly the questions of the category. |
| Trivia.QuizCandidates | projects/02_trivia_api/starter/backend/flaskr.py:192-198 | The candidates are exactly the questions not asked before. When the category is not 0, they are also of that category. |
| Trivia.WithoutId | projects/02_trivia_api/starter/backend/flaskr.py:113 | Deleting by id keeps exactly the rows with other ids. |
| Trivia.WithoutIdRemovesOne | projects/02_trivia_api/starter/backend/flaskr.py:108-113 | With unique ids, deleting a present id removes exactly one row and keeps the order of the rest. |
| Trivia.TriviaDb.GetCategories | projects/02_trivia_api/starter/backend/flaskr.py:69-81 | 404 iff there are no categories, and otherwise success. The map's keys are exactly the category ids, and each id maps to the type of the last category with that id. |
| Trivia.TriviaDb.GetQuestions | projects/02_trivia_api/starter/backend/flaskr.py:85-102 | 404 iff there are no questions or no categories, and otherwise success. It returns the requested page, the full question count and the category map (keys exactly the ids, the last duplicate wins). |
| Trivia.TriviaDb.DeleteQuestion | projects/02_trivia_api/starter/backend/flaskr.py:105-120 | 422 iff no question has the id, and then nothing changes. A present id always succeeds with that id. Exactly that row is removed and the ids stay unique. |
| Trivia.TriviaDb.CreateQuestion | projects/02_trivia_api/starter/backend/flaskr.py:125-139 | The new row is appended under the next id, and that id is reported. The ids stay unique. |
| Trivia.TriviaDb.SearchQuestions | projects/02_trivia_api/starter/backend/flaskr.py:146-163 | 404 iff no question matches, and otherwise success. It returns a page of the matches and their full count, which is between 1 and the number of questions. |
| Trivia.TriviaDb.QuestionsByCategory | projects/02_trivia_api/starter/backend/flaskr.py:166-180 | 404 iff the category has no question, and otherwise success. It returns a page of that category's questions and their count. |
| Trivia.TriviaDb.PlayQuiz | projects/02_trivia_api/starter/backend/flaskr.py:186-210 | None iff every question was asked before or is of another category. Otherwise the question is a table row, was not asked before and is of the category when one is given. |
| Fyyur.ShowsOf | projects/01_fyyur/starter_code/app.py:181 | Exactly the shows of the venue (or artist). |
| Fyyur.PastOf | projects/01_fyyur/starter_code/app.py:185-194 | Exactly the shows with `now > start_time`. |
| Fyyur.UpcomingOf | projects/01_fyyur/starter_code/app.py:196-204 | Exactly the shows with `now <= start_time`, so a show starting at `now` counts as upcoming. |
| Fyyur.PartitionIsExact | projects/01_fyyur/starter_code/app.py:183-207 | Past and upcoming together hold every show exactly as often as the input does. |
| Fyyur.PartitionCounts | projects/01_fyyur/starter_code/app.py:208-209 | The past and upcoming counts add up to the number of shows. |
| Fyyur.PartitionKeepsOrder | projects/01_fyyur/starter_code/app.py:185-204 | Each list keeps the query order. |
| Fyyur.PartitionShows | projects/01_fyyur/starter_code/app.py:183-204 | The append loop builds exactly PastOf and UpcomingOf. |
| Fyyur.ShowVenue | projects/01_fyyur/starter_code/app.py:176-211 | The venue's shows are split at `now`. Each count is the length of its list, and the two counts sum to the venue's number of shows. |
| Fyyur.ShowArtist | projects/01_fyyur/starter_code/app.py:314-349 | The same split and counts for an artist's shows. |
| Fyyur.StrictlyUpcoming | projects/01_fyyur/starter_code/app.py:134-139 | The listings' upcoming count (`now < start_time`) never exceeds show_venue's upcoming list, which never exceeds the number of shows. |
| Fyyur.UpcomingNotionsAgree | projects/01_fyyur/starter_code/app.py:136 | The listing count equals the length of show_venue's upcoming list iff no show starts exactly at `now`. |
| Fyyur.BoundaryShow | projects/01_fyyur/starter_code/app.py:186 | A show starting at `now` is upcoming on the venue page but is not counted in the listing. |
| Fyyur.NumUpcomingShows | projects/01_fyyur/starter_code/app.py:133-139 | The loop's count equals StrictlyUpcoming of the venue's shows and is at most its number of shows. |
| Fyyur.CityRepresentatives | projects/01_fyyur/starter_code/app.py:126 | Every representative is a venue of the table. |
| Fyyur.RepresentativesDistinct | projects/01_fyyur/starter_code/app.py:126 | `distinct(city)` yields pairwise different cities. |
| Fyyur.RepresentativesCover | projects/01_fyyur/starter_code/app.py:126 | Every venue's city is represented. |
| Fyyur.VenuesInCity | projects/01_fyyur/starter_code/app.py:130 | Exactly the venues of the city. |
| Fyyur.CityVenues | projects/01_fyyur/starter_code/app.py:129-140 | The middle loop builds exactly VenueSummaries of the city's venues. |
| Fyyur.CityArea | projects/01_fyyur/starter_code/app.py:127-142 | One city's entry: the representative's city and state, with the lines of all venues in that city. |
| Fyyur.Venues | projects/01_fyyur/starter_code/app.py:121-145 | One area per distinct city, in the order of the representatives, each with that city's state and the lines of all its venues. |
| Fyyur.VenueListedOnce | projects/01_fyyur/starter_code/app.py:125-143 | Exactly one area carries a venue's city, and that area lists the venue's line with its upcoming count. When venue ids are unique (they are the primary key, app.py:37), no other area lists that line. |
| Fyyur.VenuesNamed | projects/01_fyyur/starter_code/app.py:154-155 | Exactly the venues whose name matches the search term. |
| Fyyur.ArtistsNamed | projects/01_fyyur/starter_code/app.py:292-293 | Exactly the artists whose name matches the search term. |
| Fyyur.SearchVenues | projects/01_fyyur/starter_code/app.py:148-173 | The count equals the number of lines, and there is one line per matching venue, in order, with its upcoming count. |
| Fyyur.SearchArtists | projects/01_fyyur/starter_code/app.py:286-311 | The count equals the number of lines, and there is one line per matching artist, in order, with its upcoming count. |
| Fyyur.FirstWithId | projects/01_fyyur/starter_code/app.py:477-480 | The lookup of a venue or an artist by id finds nothing iff no row has the id. Otherwise it returns the first row with that id. |
| Fyyur.Shows | projects/01_fyyur/starter_code/app.py:465-486 | The request fails iff some show's venue or artist is missing. Otherwise there is one line per show, in order, with the venue name and the artist's name and image link. |
| CoffeeShop.PermissionTableIsInjective | projects/03_coffee_shop_full_stack/starter_code/backend/src/api.py:28-131 | Only GET /drinks is unguarded, and no two guarded routes share a permission. |
| CoffeeShop.Patched | projects/03_coffee_shop_full_stack/starter_code/backend/src/api.py:109-113 | A field is replaced exactly when a truthy value was sent. The id never changes. |
| CoffeeShop.DrinkDb.Listing | projects/03_coffee_shop_full_stack/starter_code/backend/src/api.py:30-37 | 404 iff the table is empty, and otherwise success with one entry per drink, in table order. |
| CoffeeShop.DrinkDb.GetDrinks | projects/03_coffee_shop_full_stack/starter_code/backend/src/api.py:28-42 | There is no guard. 404 iff there are no drinks, and otherwise success with the short form of every drink. |
| CoffeeShop.DrinkDb.GetDrinkDetails | projects/03_coffee_shop_full_stack/starter_code/backend/src/api.py:48-63 | The gate for "get:drinks-detail" runs first and its failure is returned. After it, 404 iff there are no drinks, and otherwise success with the long form of every drink. |
| CoffeeShop.DrinkDb.CreateDrink | projects/03_coffee_shop_full_stack/starter_code/backend/src/api.py:69-88 | The gate for "post:drinks" runs first. After it, a missing key raises KeyError, the result is 404 iff neither value is truthy, and otherwise one row is appended under the next id. No other outcome occurs. A failure changes nothing. |
| CoffeeShop.DrinkDb.UpdateDrink | projects/03_coffee_shop_full_stack/starter_code/backend/src/api.py:94-124 | The gate for "patch:drinks" runs first. After it, the result is 404 iff the id is unknown or neither value is truthy, and otherwise success. That drink is patched and every other row is untouched. |
| CoffeeShop.DrinkDb.DeleteDrink | projects/03_coffee_shop_full_stack/starter_code/backend/src/api.py:130-147 | The gate for "delete:drinks" runs first. After it, the result is 404 iff the id is unknown, and a known id always succeeds with that id. Exactly that row is removed. |
| CoffeeShop.ChangeNeedsPermission | projects/03_coffee_shop_full_stack/starter_code/backend/src/api.py:69-71 | A route that changes the store runs only for a caller whose "permissions" claim contains that route's permission. |
| CoffeeShop.AsWrittenChangeNeedsSingularClaim | projects/03_coffee_shop_full_stack/starter_code/backend/src/api.py:69-71 | Under the gate as written, a route that changes the store is reached by a caller whose singular "permission" claim contains the route's permission, whatever "permissions" holds. |

## Left out

- The network fetch of the JSON Web Key Set (auth.py:77-78) is an input. When the download or its parsing fails, the input is None.
- `jwt.get_unverified_header` and `jwt.decode` are inputs. Signatures, algorithms, audience, issuer and expiry are therefore not modelled, only the outcome the library reports.
- Key-set entries are assumed to have all five fields. A missing `kid`, `kty`, `use`, `n` or `e` would raise KeyError (auth.py:89-95).
- `Text.Lower` lower-cases ASCII letters only. Python's `str.lower` on non-ASCII characters gives ASCII letters only for U+0130 (to "i" plus a combining dot) and U+212A (to "k"), and neither can spell "bearer". So the scheme comparison gets the same verdict.
- The HTTP rendering of an `AuthError` is out of the model. api.py registers no handler for it (api.py:172), so such an error reaches Flask unhandled. The model returns it as a value.
- Auth.RequiresAuth: it is built on the corrected gate `Auth.Authorization`. As written, the wrapper calls check_permissions with the singular-key bug (auth.py:148, auth.py:65). That gate is `Auth.AuthorizationAsWritten`, characterised by `Auth.GateAsWrittenAdmits` and `Auth.GatesDiverge`.
- Auth.GuardInvokesOnlyWhenAuthorized: its permission clause holds of the corrected gate. As written, the wrapped function runs for claims whose singular "permission" claim grants the permission, whatever "permissions" holds (`Auth.GateAsWrittenAdmits`).
- Auth.GuardErrorPropagation: its permission clause is about the corrected check. As written, the KeyError of auth.py:65 also propagates, for claims without a "permission" key (`Auth.GatesDiverge`).
- CoffeeShop.DrinkDb.GetDrinkDetails: it runs the corrected gate. As written, claims with only a granting "permissions" list end in an unhandled KeyError (a 500), and claims with a granting "permission" list pass.
- CoffeeShop.DrinkDb.CreateDrink: it runs the corrected gate. As written, claims with only a granting "permissions" list end in an unhandled KeyError (a 500) instead of an inserted row, and claims with a granting "permission" list insert one.
- CoffeeShop.DrinkDb.UpdateDrink: it runs the corrected gate. As written, claims with only a granting "permissions" list end in an unhandled KeyError (a 500), and claims with a granting "permission" list reach the route.
- CoffeeShop.DrinkDb.DeleteDrink: it runs the corrected gate. As written, claims with only a granting "permissions" list end in an unhandled KeyError (a 500), and claims with a granting "permission" list reach the route.
- CoffeeShop.ChangeNeedsPermission: it holds of the corrected gate. As written, the claim that admits a caller is the singular "permission" (`CoffeeShop.AsWrittenChangeNeedsSingularClaim`).
- Fyyur.SearchVenues and Fyyur.SearchArtists take the search term as the predicate `matches`. The 400 that `request.form['search_term']` raises when the form lacks the field (app.py:153, app.py:291) is not modelled.
- Trivia.TriviaDb.GetQuestions, Trivia.TriviaDb.SearchQuestions and Trivia.TriviaDb.QuestionsByCategory take the page number as an integer. `request.args.get('page', 1, type=int)` (flaskr.py:17) falls back to page 1 when the argument is absent or not an integer; that parsing is not modelled.
- JSON numbers are integers. Floating-point values are not modelled.
- Database failures are not modelled: the `SQLAlchemyError` branches that answer 422 or 405 in flaskr.py and api.py, and the failures of `insert()`, `update()` and `delete()`.
- Trivia.TriviaDb.CreateQuestion: it takes its four fields as parameters. The KeyError for a body that lacks one of them (flaskr.py:127-130) is not modelled.
- Trivia.TriviaDb.SearchQuestions: it takes the search term as the predicate `matches`. The KeyError for a body without "searchTerm" (flaskr.py:148) is not modelled.
- Trivia.TriviaDb.PlayQuiz: it takes the previous ids and the category as values. The KeyError for a missing key and the ValueError of `int()` (flaskr.py:188-189) are not modelled. `random.choice` is modelled as an arbitrary choice among the candidates. The reply's `row2dict` is the question row itself.
- SQL `ilike` (case-insensitive LIKE with `%` wildcards) is the predicate parameter `matches`. Its pattern semantics are not modelled.
- Fyyur.ShowVenue: the lists hold the show rows themselves. The artist name and image looked up per show (app.py:187-202) are not modelled. Neither is the crash when the venue (app.py:180) or a show's artist is missing.
- Fyyur.ShowArtist: the lists hold the show rows themselves. The venue name and image looked up per show (app.py:325-340) are not modelled. Neither is the crash when the artist (app.py:318) or a show's venue is missing.
- Fyyur.CityRepresentatives: it picks the first venue of each city in table order. `distinct(Venue.city)` leaves the representative row, and therefore the reported state, and the order of cities to the database.
- Times are integers and `now` is an input. `datetime.now()` is read once per request rather than once per comparison, and `isoformat()` rendering is not modelled.
- The serialisers `format()`, `short()` and `long()` (defined in the models files, which are not part of this model) are function parameters.
- Request bodies are JSON objects. A body that is not an object (where `get_json()` returns None or a list) is not modelled.
- Templates, forms, CORS headers, error-handler rendering and the routes outside the modelled core are not modelled. The omitted routes include creation, editing and deletion of venues and artists, the artist list, and the index.

## Findings

| source | as written | input that shows it | evidently intended | confidence | as-written member | corrected member |
|---|---|---|---|---|---|---|
| projects/03_coffee_shop_full_stack/starter_code/backend/src/auth/auth.py:65 | the membership test reads `payload['permission']`, while line 60 tests for `'permissions'` | payload `{"permissions": ["post:drinks"]}` with permission "post:drinks" raises KeyError instead of passing | test membership in `payload['permissions']` | not executed | Auth.AsWrittenRejectsGrantedClaims | Auth.CheckPermissions |
