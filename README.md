# Lunch voting: a verified model of the API core

The service lets restaurant owners publish one menu per restaurant per day
and lets employees vote once a day for a menu. The model covers these parts:

- **Data model:** the stored records and their database constraints, as a
  `Store` class whose tables are sequences.
  - One menu per (restaurant, date).
  - One vote per (employee, date).
  - Unique usernames.
  - Foreign keys.
- **Role checks:** `IsEmployee`, `IsRestaurantOwner`, and which of them each
  view action asks for.
- **Menu serializer:** how it writes a menu out and reads one in for each
  client build version.
  - Stored text content is parsed as JSON on output.
  - A 1.x client sees the content under `items` instead of `content`.
  - A 1.x client's `items` is stored as `content`, a dict as its JSON text.
- **Validation and registration:** the field checks of the request bodies,
  and registration, which puts the new user in exactly one group.
- **Create handlers:** restaurants, menus and votes. They cover ownership,
  the translation of a refused insert into a validation error, and
  registration.
- **Queries:** today's menus, and today's most-voted menu.

Modules:

- `Wrappers`: the `Option` and `Result` datatypes.
- `Json`: JSON values, the text `json.dumps(v, ensure_ascii=False)` writes,
  a parser for the part of what `json.loads` reads whose numbers are
  integers and whose `\u` escapes are outside the surrogate range, and the
  proved round trip `Loads(Dumps(v)) == Some(v)`.
  - The grammar is that of RFC 8259: whitespace (section 2), values
    (section 3), objects (section 4), arrays (section 5) and strings
    (section 7).
  - Numbers are integers only: section 6 without fraction or exponent.
  - A `\u` escape names a code point outside U+D800 to U+DFFF, so the
    surrogate pairs of section 7 are not read.
- `Models`: the records, the constraints as predicates, and the `Store`
  class.
  - The store's insert methods are atomic: they either append a row with the
    next primary key or return `ConstraintViolated` and change nothing.
  - The store's invariant `Valid()` is every constraint.
- `Permissions`: the two role checks and the framework's `AllowAny` and
  `IsAuthenticated`.
- `Serializers`: the menu representation and input adapter for each
  version, the field checks, and the registration serializer.
- `Views`: the build version of a request, the permission dispatch, the
  create handlers, registration, and the two queries.

Python values that flow through the API are `Json` values. A request body
or representation is a `map<string, Json>`, because field order plays no
part in it. A JSON object inside a value keeps its members in order, as a
Python dict does. The current day is a parameter of every handler that uses
it. Authentication is a parameter too: `auth` is either the primary key of
a stored user or nothing (the anonymous user).

## Model

| member | source | states |
|---|---|---|
| Models.MenusUniqueAppend | api/models.py:21-22 | appending a menu keeps "no two menus share (restaurant, date)" exactly when no menu of that restaurant exists that day |
| Models.VotesUniqueAppend | api/models.py:33-34 | appending a vote keeps "no two votes share (employee, date)" exactly when the employee has not voted that day, whatever menu the votes are for |
| Models.SeveralRestaurantsPerOwner | api/models.py:7-8 | every restaurant holds one owner key, and the constraints admit two restaurants of the same owner |
| Models.UsernamesAppend | api/serializers.py:102-107 | appending a user whose username is new keeps usernames unique |
| Models.Store.InsertRestaurant | api/models.py:7-10 | inserts a restaurant with the next key when its owner exists; otherwise refuses and changes nothing; other tables unchanged; the invariant is kept |
| Models.Store.InsertMenu | api/models.py:16-22 | inserts a menu dated with the given day when its restaurant exists and has no menu that day; otherwise refuses and changes nothing; the invariant is kept |
| Models.Store.InsertVote | api/models.py:28-34 | inserts a vote dated with the given day when employee and menu exist and the employee has no vote that day; otherwise refuses and changes nothing; the invariant is kept |
| Models.Store.InsertUser | api/serializers.py:102-107 | saves a user with the next key and no group unless the username is taken, in which case nothing changes |
| Models.Store.AddToGroup | api/serializers.py:113 | adds one group to one user, every other row and table unchanged |
| Permissions.IsEmployeeCheck | api/permissions.py:4-6 | true exactly when the user is authenticated and in group "Employee" |
| Permissions.IsRestaurantOwnerCheck | api/permissions.py:9-11 | true exactly when the user is authenticated and in group "RestaurantOwner" |
| Permissions.HasPermission | api/permissions.py:4-11 | AllowAny always passes; an anonymous user passes nothing else; an authenticated one passes IsAuthenticated and each role check exactly when in its group |
| Permissions.AnonymousDenied | api/permissions.py:6 | an unauthenticated user fails both role checks whatever groups are recorded for it |
| Permissions.BothRoles | api/permissions.py:5-11 | a user in both groups passes both role checks |
| Permissions.ViewIgnored | api/permissions.py:5-11 | the checks give the same answer for any two views |
| Permissions.RolesImplyAuthenticated | api/permissions.py:4-11 | passing a role check implies passing IsAuthenticated |
| Permissions.NoGroupNoRole | api/permissions.py:4-11 | a logged-in user in no group passes IsAuthenticated and fails both role checks, so the roles are strictly stronger |
| Json.LoadsDumps | api/serializers.py:29 | the text `json.dumps(v, ensure_ascii=False)` writes for any value parses back to that value, so it is valid JSON |
| Serializers.ContentKey | api/serializers.py:32-33 | the content lives under "items" exactly for versions starting "1." and under "content" otherwise |
| Serializers.Represent | api/serializers.py:22-35 | fails exactly on stored text that is not JSON (the JSONDecodeError of json.loads) |
| Serializers.RepresentShape | api/serializers.py:22-35 | a representation has exactly the keys id, restaurant, date and the version's content key; text content is parsed, other content kept as it is; the nested restaurant has id, name and description |
| Serializers.ToRepresentation | api/serializers.py:22-35 | the in-place dict updates compute Represent |
| Serializers.RestaurantRepresentation | api/serializers.py:9-12 | exactly the fields id, name and description of the restaurant |
| Serializers.VoteRepresentation | api/serializers.py:72-81 | fails exactly when the menu's content does not decode; otherwise exactly the keys id, employee, menu and date, with the vote's id, employee key and ISO date and its menu nested in the default version |
| Serializers.AdaptInput | api/serializers.py:37-45 | for a 1.x version with items present: items removed, content set to the items (a dict as its JSON text), every other key kept; in every other case the data passes unchanged |
| Serializers.ToInternalValue | api/serializers.py:37-45 | the in-place pops and assignments on the copied data compute AdaptInput |
| Serializers.ItemsRoundTrip | api/serializers.py:37-45 | items sent by a 1.x client as the JSON text of a value, or as an object, pass validate_content and read back under items unchanged, with no content key |
| Serializers.ContentRoundTrip | api/serializers.py:27-29 | content stored as the JSON text of a value reads back as that value under the version's key |
| Serializers.ValidateContent | api/serializers.py:58-65 | refuses exactly text that this parser rejects, with "Value must be valid JSON."; accepts any other value unchanged |
| Serializers.PrimaryKeyField | api/serializers.py:17-19 | accepts exactly a number that is the key of an existing row; a missing key is Required |
| Serializers.ContentField | api/serializers.py:20 | accepts exactly a present, non-null value that passes validate_content |
| Serializers.MenuFields | api/serializers.py:15-20 | succeeds exactly when restaurant_id and content are both accepted, with the sent key and content; otherwise a nonempty error map over those two fields holding a field exactly when that field fails |
| Serializers.ReadOnlyFieldsIgnored | api/serializers.py:69 | a client-supplied id, restaurant or date has no effect on the parsed fields |
| Serializers.Validate | api/serializers.py:48-56 | refuses exactly when a date is given and the restaurant already has a menu that day, with "You can only add one menu per day." |
| Serializers.RestaurantFields | api/models.py:9-10 | succeeds exactly when both CharFields accept: a required name of 1 to 100 characters, a description that may be blank and is empty when left out; an error map holds name, and description, exactly when that field fails |
| Serializers.CharField | api/serializers.py:86-88 | a missing field is Required or empty by the rule; a sent value is accepted, as the sent text, exactly when it is text within the rule's length bounds, blank only if allowed, and free of the null character |
| Serializers.BooleanField | api/serializers.py:89 | accepts exactly a present boolean |
| Serializers.ValidateUsername | api/serializers.py:91-94 | refuses exactly a username in use, with "Username is already taken." |
| Serializers.ValidateEmail | api/serializers.py:96-99 | refuses exactly an email in use, with "Email is already taken." |
| Serializers.UsernameField | api/serializers.py:86 | accepts exactly a sent text of 1 to 255 characters, free of the null character, not in use; the result is that text |
| Serializers.EmailField | api/serializers.py:87 | accepts exactly a nonempty sent text free of the null character and not in use; the result is that text |
| Serializers.PasswordField | api/serializers.py:88 | accepts exactly a sent text of at least 8 characters free of the null character; the result is that text |
| Serializers.RegisterFields | api/serializers.py:85-99 | valid exactly when username, email, password and is_employee are each accepted, carrying every sent field; an invalid one reports a nonempty error map, with username and email errors exactly when those fields fail |
| Serializers.DuplicateUsernameRefused | api/serializers.py:91-94 | a registration with a username in use is refused with "Username is already taken." under username |
| Serializers.DuplicateEmailRefused | api/serializers.py:96-99 | a registration with an email in use is refused with "Email is already taken." under email |
| Serializers.RoleGroup | api/serializers.py:109-117 | "Employee" exactly when is_employee, "RestaurantOwner" otherwise |
| Serializers.CreateUser | api/serializers.py:101-119 | stores the user with exactly the one group RoleGroup(is_employee), or nothing when the username is taken |
| Serializers.OneRole | api/serializers.py:109-117 | a user whose groups are {RoleGroup(b)} holds exactly one role, the employee role exactly when b |
| Views.GetBuildVersion | api/views.py:19-20 | the X-Build-Version header when present, "2.0" otherwise |
| Views.GetPermissions | api/views.py:28-33 | create on restaurants and menus asks for the owner role, create on votes for the employee role, every other action for authentication only (also api/views.py:45-50 and api/views.py:100-104) |
| Views.RequestUserOf | api/views.py:56 | request.user is authenticated exactly when a user is logged in, with that user's key and groups |
| Views.CheckPermission | api/views.py:28-33 | no error exactly when the permission passes; 401 for the anonymous user, 403 with the default message for a user without the role |
| Views.CreatePermission | api/views.py:30-31 | a create action passes exactly for a logged-in user in the group it asks for (also api/views.py:47-48 and api/views.py:102-103) |
| Views.OtherPermission | api/views.py:32-33 | every other action passes exactly for a logged-in user |
| Views.CreateRestaurant | api/views.py:35-37 | after the permission and field checks, the new restaurant's owner is the requester; the result is its representation; on an error nothing is stored |
| Views.PerformCreateMenu | api/views.py:52-62 | a restaurant of another owner is refused with "You can only add a menu to your own restaurant." and nothing stored; a refused insert becomes "You can only add one menu per day."; otherwise the menu is stored dated today |
| Views.CreateMenu | api/views.py:40-68 | permission, then fields of the version-adapted data, then the unique-together check (400), then the ownership check; a new menu is stored dated today and returned in the request's version; stored contents stay valid JSON |
| Views.SaveMenu | api/views.py:52-62 | validate, perform_create and the representation of the saved menu, which always decodes since its content passed validate_content |
| Views.PerformCreateVote | api/views.py:106-113 | a second vote of the employee that day becomes "You have already voted today." and nothing is stored; otherwise the vote is the requester's, dated today |
| Views.CreateVote | api/views.py:95-113 | permission, then menu_id, then SaveVote; votes change only by the one new vote; no 500 while stored contents are valid JSON |
| Views.SaveVote | api/views.py:106-113 | a second vote of the day is refused with "You have already voted today." and nothing stored; otherwise the vote is appended, and the answer is its representation, or a 500 exactly when the menu's content does not decode |
| Views.RegisterPost | api/views.py:119-127 | invalid data gives 400 with the field errors and stores nothing; valid data stores the user in its one group and answers with its id and username |
| Views.MenusOn | api/views.py:73 | a menu is kept exactly when it is stored and dated today, and the result is no longer than the table |
| Views.MenusOnCount | api/views.py:73 | the filter keeps every copy of a menu of today and none of any other menu |
| Views.RepresentEach | api/views.py:76 | the list serializer: one child representation per item, in order, or a failure exactly when some item's representation fails |
| Views.GetCurrentDayMenu | api/views.py:70-78 | 401 exactly without permission; 404 with "No menus for today." exactly when permitted and no menu is dated today; 500 exactly when permitted and a menu of today holds text that is not JSON; success when permitted, some menu is of today and contents are valid; the result is the default-version representation of each menu of today, in table order |
| Views.CurrentDayMenus | api/views.py:73-78 | 404 exactly when no menu is dated today; 500 exactly when a menu of today holds text that is not JSON; otherwise the representation of each menu of today, in table order |
| Views.VotedMenus | api/views.py:83-84 | exactly the menus voted for today |
| Views.TallyPositive | api/views.py:84 | a menu has a positive vote count today exactly when it is among the menus voted for today |
| Views.Leader | api/views.py:84-88 | a candidate whose count is at least every candidate's |
| Views.MostVoted | api/views.py:83-88 | none exactly when nobody voted today; otherwise a menu voted for today whose count is at least every menu's |
| Views.GetMostVotedToday | api/views.py:80-92 | 401 exactly without permission; 404 with "No votes today." exactly when permitted and nobody voted today; 500 exactly when permitted and the picked menu holds text that is not JSON; success when permitted, someone voted today and contents are valid; the result represents a menu voted for today with a maximal count |
| Views.MostVotedMenu | api/views.py:83-92 | 404 exactly when nobody voted today; 500 exactly when the menu the tally picks holds text that is not JSON; otherwise the representation of a menu voted for today with a maximal count |

## Left out

- JSON numbers with a fraction or an exponent, and floats in general: `JNum` holds integers only.
- Surrogate pairs in `\u` escapes, and `ensure_ascii`: `Dumps` writes non-ASCII characters as they are, and `Loads` refuses a `\u` escape in the surrogate range.
- Duplicate keys in a JSON object, and the order of map keys in a payload: the parser keeps every member in order, and payloads are maps.
- DRF's coercions between representations (a number for a string field, "true" for a boolean, a string for a primary key): each field accepts a value of its own JSON type only.
- CharField's trimming of surrounding whitespace; the format check of EmailField.
- The text of DRF's own messages, such as the unique-together message: `NotUnique`, `Required`, the other `FieldError`s and the 401 and 403 errors are tags.
- Password hashing (`set_password`): the password is checked for length and not stored.
- URL routing and JWT login, the HTTP response objects beyond a status tag, and the framework's dispatch of list, retrieve, update and destroy.
- Concurrency between the serializer's pre-checks and the insert: the store is sequential and each insert enforces its constraints atomically.
- The server clock: today is a parameter. So is the authenticated user.
- Case-insensitive header lookup: the headers are an exact-key map.
- Views.MostVoted: when several menus tie for the most votes, the queryset's order decides which one the source returns; the model states only that the count is maximal.
- `Group.objects.get` failing when a group does not exist: the groups are names, always present.
- Cascading deletes: no delete is modelled.
- Serializers.ValidateContent: text holding a number with a fraction or an exponent, or NaN or Infinity, is refused by the model although json.loads reads it, because `JNum` holds integers only; so is text holding a `\u` escape in the surrogate range, such as the pair `"\ud83d\ude00"` that `json.dumps` writes for a character outside the Basic Multilingual Plane, because the parser does not combine surrogate pairs.
- Views.CurrentDayMenus and Views.GetCurrentDayMenu: `Menu.objects.filter(date=today)` has no `order_by` and `Menu` no default ordering, so the source leaves the order of today's menus to the database; the model returns them in table (primary key) order.
- Serializers.CharField: DRF runs every validator and reports all of their messages; the model reports the first failing check only.
