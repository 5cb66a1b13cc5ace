/** The serializers: how a menu is written out and read in for each build
    version, the field checks of the request bodies, and registration. */
module Serializers {
  import opened Wrappers
  import opened Json
  import opened Models

  /** A request body or a representation: an object keyed by field name. */
  type Payload = map<string, Json>

  /** The version assumed when none is given. */
  const DefaultVersion: string := "2.0"

  /** build_version.startswith('1.') */
  predicate IsV1(version: string)
  {
    |version| >= 2 && version[..2] == "1."
  }

  /** The key under which a version carries a menu's content. */
  function ContentKey(version: string): (k: string)
    ensures k == "items" <==> IsV1(version)
    ensures k == "content" <==> !IsV1(version)
  {
    if IsV1(version) then "items" else "content"
  }

  /** What a field reports when its value is refused. */
  datatype FieldError =
    | Required                 // the key is missing
    | NotNull                  // the value is null
    | WrongType                // a value of another JSON type
    | Blank                    // an empty string where none is allowed
    | TooLong(max: nat)
    | TooShort(min: nat)
    | NoSuchObject(pk: int)    // a primary key that names no row
    | NullCharacter            // a text holding the character U+0000
    | Invalid(message: string) // a message raised by a serializer method

  /** The errors of a request body, per field. */
  type Errors = map<string, FieldError>

  /** Adds the error of one field, if it has one. */
  function Collect<T>(errors: Errors, key: string, r: Result<T, FieldError>): (e: Errors)
    ensures r.Ok? ==> e == errors
    ensures r.Err? ==> e == errors[key := r.error]
    ensures e.Keys == if r.Err? then errors.Keys + {key} else errors.Keys
  {
    if r.Err? then errors[key := r.error] else errors
  }

  // ----------------------------------------------------------------------
  // Representations

  /** date.isoformat(): YYYY-MM-DD, zero-padded. */
  function IsoDate(d: Date): string
  {
    Padded(d.year, 4) + "-" + Padded(d.month, 2) + "-" + Padded(d.day, 2)
  }

  function Padded(n: nat, width: nat): (r: string)
    ensures |r| >= width
  {
    var digits := NatText(n);
    if |digits| >= width then digits else seq(width - |digits|, _ => '0') + digits
  }

  /** The fields of a payload, in the given key order, as a JSON object. */
  function AsObject(p: Payload, keys: seq<string>): (r: Json)
    ensures r.JObj? && |r.fields| <= |keys|
    ensures forall i :: 0 <= i < |r.fields| ==> r.fields[i].key in p && r.fields[i].value == p[r.fields[i].key]
  {
    if keys == [] then JObj([])
    else
      var rest := AsObject(p, keys[1..]);
      if keys[0] in p then JObj([Field(keys[0], p[keys[0]])] + rest.fields) else rest
  }

  const RestaurantKeys: seq<string> := ["id", "name", "description"]

  /** RestaurantSerializer: fields id, name and description. */
  function RestaurantRepresentation(r: Restaurant): (p: Payload)
    ensures p.Keys == {"id", "name", "description"}
    ensures p["id"] == JNum(r.id) && p["name"] == JStr(r.name) && p["description"] == JStr(r.description)
  {
    map["id" := JNum(r.id), "name" := JStr(r.name), "description" := JStr(r.description)]
  }

  /** The keys of a menu representation in the order DRF emits them: the
      declared field order, with "items" appended where "content" was popped. */
  function MenuKeys(version: string): seq<string>
  {
    if IsV1(version) then ["id", "restaurant", "date", "items"] else ["id", "restaurant", "content", "date"]
  }

  /** ModelSerializer's own representation of a menu, before the override:
      the nested restaurant, the stored content as it is, the ISO date. The
      write-only restaurant_id is not part of it. */
  function BaseRepresentation(m: Menu, rest: Restaurant): Payload
  {
    map["id" := JNum(m.id),
        "restaurant" := AsObject(RestaurantRepresentation(rest), RestaurantKeys),
        "content" := m.content,
        "date" := JStr(IsoDate(m.date))]
  }

  /** Content on output: a string is parsed as JSON text; any other value is
      already structured and is kept as it is. */
  function ParsedContent(c: Json): Option<Json>
  {
    if c.JStr? then Loads(c.s) else Some(c)
  }

  /** Stored content that to_representation can read: anything but text
      that is not JSON. */
  predicate Decodes(c: Json)
  {
    !c.JStr? || ValidJson(c.s)
  }

  /** MenuSerializer.to_representation. None stands for the JSONDecodeError
      that json.loads raises on stored text that is not JSON. */
  function Represent(m: Menu, rest: Restaurant, version: string): (r: Option<Payload>)
    ensures r.Some? <==> Decodes(m.content)
  {
    match ParsedContent(m.content)
    case None => None
    case Some(c) =>
      var rep := BaseRepresentation(m, rest)["content" := c];
      Some(if IsV1(version) then (rep - {"content"})["items" := c] else rep)
  }

  /** The fields of a representation: id, restaurant and date, with the
      decoded content under the key the version asks for, and nothing else. */
  lemma RepresentShape(m: Menu, rest: Restaurant, version: string)
    requires Decodes(m.content)
    ensures var p := Represent(m, rest, version).value;
      && p.Keys == {"id", "restaurant", "date", ContentKey(version)}
      && p[ContentKey(version)] == ParsedContent(m.content).value
      && (!m.content.JStr? ==> p[ContentKey(version)] == m.content)
      && p["id"] == JNum(m.id) && p["date"] == JStr(IsoDate(m.date))
      && p["restaurant"] == AsObject(RestaurantRepresentation(rest), RestaurantKeys)
  {
  }

  /** to_representation as the source writes it: the dict is updated in place. */
  method ToRepresentation(m: Menu, rest: Restaurant, version: string) returns (r: Option<Payload>)
    ensures r == Represent(m, rest, version)
  {
    var representation := BaseRepresentation(m, rest);
    var content := representation["content"];
    if content.JStr? {
      var parsed := Loads(content.s);
      if parsed.None? {
        return None;
      }
      representation := representation["content" := parsed.value];
    }
    ghost var parsed := representation;
    assert parsed == BaseRepresentation(m, rest)["content" := ParsedContent(m.content).value];
    if IsV1(version) {
      var items := representation["content"];
      representation := representation - {"content"};
      representation := representation["items" := items];
    }
    return Some(representation);
  }

  /** VoteSerializer: the nested menu is written by a MenuSerializer whose
      context has no build version, so in the default shape. */
  function VoteRepresentation(v: Vote, m: Menu, rest: Restaurant): (r: Option<Payload>)
    ensures r.Some? <==> Decodes(m.content)
    ensures r.Some? ==> r.value.Keys == {"id", "employee", "menu", "date"}
    ensures r.Some? ==> r.value["id"] == JNum(v.id) && r.value["date"] == JStr(IsoDate(v.date))
    ensures r.Some? ==> r.value["employee"] == JNum(v.employee)
    ensures r.Some? ==> r.value["menu"] == AsObject(Represent(m, rest, DefaultVersion).value, MenuKeys(DefaultVersion))
  {
    match Represent(m, rest, DefaultVersion)
    case None => None
    case Some(menu) =>
      Some(map["id" := JNum(v.id),
               "employee" := JNum(v.employee),
               "menu" := AsObject(menu, MenuKeys(DefaultVersion)),
               "date" := JStr(IsoDate(v.date))])
  }

  // ----------------------------------------------------------------------
  // Reading a menu in

  /** How a 1.x client's items are stored: a dict is written out as JSON
      text, any other value is passed on as it is. */
  function StoredItems(items: Json): Json
  {
    if items.JObj? then JStr(Dumps(items)) else items
  }

  /** MenuSerializer.to_internal_value, up to the call of the framework's
      field parsing: the data a 1.x client sends under "items" is moved under
      "content". The caller's payload is a value and is not changed. */
  function AdaptInput(data: Payload, version: string): (r: Payload)
    ensures !(IsV1(version) && "items" in data) ==> r == data
    ensures IsV1(version) && "items" in data ==>
      && r.Keys == data.Keys - {"items"} + {"content"}
      && r["content"] == StoredItems(data["items"])
      && forall k :: k in data && k != "items" && k != "content" ==> r[k] == data[k]
  {
    if IsV1(version) && "items" in data then (data - {"items"})["content" := StoredItems(data["items"])]
    else data
  }

  /** to_internal_value as the source writes it, on a copy of the data. */
  method ToInternalValue(data: Payload, version: string) returns (mutableData: Payload)
    ensures mutableData == AdaptInput(data, version)
  {
    mutableData := data;
    if IsV1(version) && "items" in mutableData {
      var items := mutableData["items"];
      mutableData := mutableData - {"items"};
      if items.JObj? {
        mutableData := mutableData["content" := JStr(Dumps(items))];
      } else {
        mutableData := mutableData["content" := items];
      }
    }
  }

  /** The validated fields of a new menu. */
  datatype MenuInput = MenuInput(restaurant: nat, content: Json)

  /** A PrimaryKeyRelatedField over a table of count rows. */
  function PrimaryKeyField(data: Payload, key: string, count: nat): (r: Result<nat, FieldError>)
    ensures r.Ok? <==> key in data && data[key].JNum? && 0 < data[key].n <= count
    ensures r.Ok? ==> data[key] == JNum(r.value)
    ensures key !in data ==> r == Err(Required)
  {
    if key !in data then Err(Required)
    else
      match data[key]
      case JNull => Err(NotNull)
      case JNum(n) => if 0 < n <= count then Ok(n) else Err(NoSuchObject(n))
      case _ => Err(WrongType)
  }

  /** MenuSerializer.validate_content: text must parse as JSON; any other
      value is accepted. */
  function ValidateContent(value: Json): (r: Result<Json, FieldError>)
    ensures r.Ok? <==> Decodes(value)
    ensures r.Err? ==> r.error == Invalid("Value must be valid JSON.")
    ensures r.Ok? ==> r.value == value
  {
    if value.JStr? && !ValidJson(value.s) then Err(Invalid("Value must be valid JSON.")) else Ok(value)
  }

  /** Every stored text content is JSON text: what validate_content lets
      through keeps this true of the menu table. */
  predicate ContentsValid(menus: seq<Menu>)
  {
    forall m :: m in menus ==> Decodes(m.content)
  }

  /** The JSONField content: required, not null, then validate_content. */
  function ContentField(data: Payload): (r: Result<Json, FieldError>)
    ensures r.Ok? <==> "content" in data && data["content"] != JNull && ValidateContent(data["content"]).Ok?
    ensures r.Ok? ==> r.value == data["content"]
  {
    if "content" !in data then Err(Required)
    else if data["content"] == JNull then Err(NotNull)
    else ValidateContent(data["content"])
  }

  /** The writable fields of MenuSerializer: restaurant_id and content. The
      read-only id, restaurant and date are ignored if sent. */
  function MenuFields(data: Payload, restaurantCount: nat): (r: Result<MenuInput, Errors>)
    ensures r.Ok? <==> PrimaryKeyField(data, "restaurant_id", restaurantCount).Ok? && ContentField(data).Ok?
    ensures r.Ok? ==> data["restaurant_id"] == JNum(r.value.restaurant) && IsKey(r.value.restaurant, restaurantCount)
    ensures r.Ok? ==> r.value.content == data["content"]
    ensures r.Err? ==> r.error != map[] && r.error.Keys <= {"restaurant_id", "content"}
    ensures r.Err? ==> ("restaurant_id" in r.error <==> PrimaryKeyField(data, "restaurant_id", restaurantCount).Err?)
    ensures r.Err? ==> ("content" in r.error <==> ContentField(data).Err?)
  {
    var pk := PrimaryKeyField(data, "restaurant_id", restaurantCount);
    var content := ContentField(data);
    if pk.Ok? && content.Ok? then Ok(MenuInput(pk.value, content.value))
    else
      var errors := Collect(Collect(map[], "restaurant_id", pk), "content", content);
      assert errors.Keys == (if pk.Err? then {"restaurant_id"} else {}) + (if content.Err? then {"content"} else {});
      Err(errors)
  }

  /** MenuSerializer.validate. The date looked at is the one in the data, or
      the instance's; on create there is neither (the date is read-only and
      there is no instance), so this check never refuses a new menu. */
  function Validate(input: MenuInput, date: Option<Date>, menus: seq<Menu>): (r: Result<MenuInput, string>)
    ensures r.Err? <==> date.Some? && MenuTaken(menus, input.restaurant, date.value)
    ensures r.Err? ==> r.error == "You can only add one menu per day."
    ensures r.Ok? ==> r.value == input
  {
    if date.Some? && MenuTaken(menus, input.restaurant, date.value) then Err("You can only add one menu per day.")
    else Ok(input)
  }

  /** The date is read-only: whatever the client sends under "date" (or
      "id", or "restaurant") has no effect on the parsed fields. */
  lemma ReadOnlyFieldsIgnored(data: Payload, key: string, value: Json, restaurantCount: nat)
    requires key in {"id", "restaurant", "date"}
    ensures MenuFields(data[key := value], restaurantCount) == MenuFields(data, restaurantCount)
  {
    var d := data[key := value];
    assert PrimaryKeyField(d, "restaurant_id", restaurantCount) == PrimaryKeyField(data, "restaurant_id", restaurantCount);
    assert ContentField(d) == ContentField(data);
  }

  /** name = CharField(max_length=100); description = TextField(blank=True). */
  const NameRule: CharRule := CharRule(true, false, 0, Some(100))
  const DescriptionRule: CharRule := CharRule(false, true, 0, None)

  /** username = CharField(max_length=255); EmailField; password = CharField(min_length=8). */
  const UsernameRule: CharRule := CharRule(true, false, 0, Some(255))
  const EmailRule: CharRule := CharRule(true, false, 0, None)
  const PasswordRule: CharRule := CharRule(true, false, 8, None)

  /** The validated fields of a new restaurant. */
  datatype RestaurantInput = RestaurantInput(name: string, description: string)

  /** RestaurantSerializer's writable fields: name, a CharField of at most
      100 characters, and description, an optional TextField that may be
      blank and is empty when left out. */
  function RestaurantFields(data: Payload): (r: Result<RestaurantInput, Errors>)
    ensures r.Ok? ==> "name" in data && data["name"] == JStr(r.value.name) && 0 < |r.value.name| <= 100
    ensures r.Ok? ==> if "description" in data then data["description"] == JStr(r.value.description)
                      else r.value.description == ""
    ensures r.Ok? <==> CharField(data, "name", NameRule).Ok? && CharField(data, "description", DescriptionRule).Ok?
    ensures r.Err? ==> r.error != map[] && r.error.Keys <= {"name", "description"}
    ensures r.Err? ==> ("name" in r.error <==> CharField(data, "name", NameRule).Err?)
    ensures r.Err? ==> ("description" in r.error <==> CharField(data, "description", DescriptionRule).Err?)
  {
    var name := CharField(data, "name", NameRule);
    var description := CharField(data, "description", DescriptionRule);
    if name.Ok? && description.Ok? then Ok(RestaurantInput(name.value, description.value))
    else
      var errors := Collect(Collect(map[], "name", name), "description", description);
      assert errors.Keys == (if name.Err? then {"name"} else {}) + (if description.Err? then {"description"} else {});
      Err(errors)
  }

  // ----------------------------------------------------------------------
  // Registration

  /** The validated fields of a registration. */
  datatype RegisterInput = RegisterInput(username: string, email: string, password: string, isEmployee: bool)

  /** The options of a CharField. */
  datatype CharRule = CharRule(required: bool, allowBlank: bool, minLength: nat, maxLength: Option<nat>)

  /** A present text the rule accepts: blank only if allowed, otherwise
      within the length bounds. */
  predicate CharAccepted(s: string, rule: CharRule)
  {
    if s == "" then rule.allowBlank
    else rule.minLength <= |s| && (rule.maxLength.Some? ==> |s| <= rule.maxLength.value) && '\0' !in s
  }

  /** A CharField: presence, null, type, blank, then the length validators
      and the one that refuses null characters.
      An optional field that is missing takes the empty string. */
  function CharField(data: Payload, key: string, rule: CharRule): (r: Result<string, FieldError>)
    ensures key !in data ==> r == if rule.required then Err(Required) else Ok("")
    ensures r.Ok? && key in data ==> data[key] == JStr(r.value)
    ensures r.Ok? && key in data && r.value != "" ==>
      rule.minLength <= |r.value| && (rule.maxLength.Some? ==> |r.value| <= rule.maxLength.value)
    ensures r.Ok? && key in data && r.value == "" ==> rule.allowBlank
    ensures key in data && data[key].JStr? && CharAccepted(data[key].s, rule) ==> r == Ok(data[key].s)
    ensures key in data && r.Ok? ==> data[key].JStr? && CharAccepted(data[key].s, rule)
  {
    if key !in data then (if rule.required then Err(Required) else Ok(""))
    else
      match data[key]
      case JNull => Err(NotNull)
      case JStr(s) =>
        if s == "" then (if rule.allowBlank then Ok("") else Err(Blank))
        else if rule.maxLength.Some? && |s| > rule.maxLength.value then Err(TooLong(rule.maxLength.value))
        else if |s| < rule.minLength then Err(TooShort(rule.minLength))
        else if '\0' in s then Err(NullCharacter)
        else Ok(s)
      case _ => Err(WrongType)
  }

  /** A required BooleanField. */
  function BooleanField(data: Payload, key: string): (r: Result<bool, FieldError>)
    ensures r.Ok? <==> key in data && data[key].JBool?
    ensures r.Ok? ==> data[key] == JBool(r.value)
  {
    if key !in data then Err(Required)
    else
      match data[key]
      case JNull => Err(NotNull)
      case JBool(b) => Ok(b)
      case _ => Err(WrongType)
  }

  /** RegisterSerializer.validate_username. */
  function ValidateUsername(value: string, users: seq<User>): (r: Result<string, FieldError>)
    ensures r.Err? <==> UsernameTaken(users, value)
    ensures r.Err? ==> r.error == Invalid("Username is already taken.")
    ensures r.Ok? ==> r.value == value
  {
    if UsernameTaken(users, value) then Err(Invalid("Username is already taken.")) else Ok(value)
  }

  /** RegisterSerializer.validate_email. */
  function ValidateEmail(value: string, users: seq<User>): (r: Result<string, FieldError>)
    ensures r.Err? <==> EmailTaken(users, value)
    ensures r.Err? ==> r.error == Invalid("Email is already taken.")
    ensures r.Ok? ==> r.value == value
  {
    if EmailTaken(users, value) then Err(Invalid("Email is already taken.")) else Ok(value)
  }

  /** username: CharField(max_length=255), then validate_username. */
  function UsernameField(data: Payload, users: seq<User>): (r: Result<string, FieldError>)
    ensures r.Ok? ==> "username" in data && data["username"] == JStr(r.value)
    ensures r.Ok? ==> 0 < |r.value| <= 255 && !UsernameTaken(users, r.value)
    ensures r.Ok? <==> "username" in data && data["username"].JStr? && CharAccepted(data["username"].s, UsernameRule)
                       && !UsernameTaken(users, data["username"].s)
  {
    match CharField(data, "username", UsernameRule)
    case Err(e) => Err(e)
    case Ok(s) => ValidateUsername(s, users)
  }

  /** email: an EmailField, then validate_email. */
  function EmailField(data: Payload, users: seq<User>): (r: Result<string, FieldError>)
    ensures r.Ok? ==> "email" in data && data["email"] == JStr(r.value)
    ensures r.Ok? ==> r.value != [] && !EmailTaken(users, r.value)
    ensures r.Ok? <==> "email" in data && data["email"].JStr? && CharAccepted(data["email"].s, EmailRule)
                       && !EmailTaken(users, data["email"].s)
  {
    match CharField(data, "email", EmailRule)
    case Err(e) => Err(e)
    case Ok(s) => ValidateEmail(s, users)
  }

  /** password: CharField(min_length=8). */
  function PasswordField(data: Payload): (r: Result<string, FieldError>)
    ensures r.Ok? ==> "password" in data && data["password"] == JStr(r.value) && |r.value| >= 8
    ensures r.Ok? <==> "password" in data && data["password"].JStr? && CharAccepted(data["password"].s, PasswordRule)
  {
    CharField(data, "password", PasswordRule)
  }

  /** RegisterSerializer.is_valid: every field is checked and every error is
      reported under its field's name. */
  function RegisterFields(data: Payload, users: seq<User>): (r: Result<RegisterInput, Errors>)
    ensures r.Ok? ==> !UsernameTaken(users, r.value.username) && !EmailTaken(users, r.value.email)
    ensures r.Ok? ==> "username" in data && data["username"] == JStr(r.value.username)
    ensures r.Ok? ==> "email" in data && data["email"] == JStr(r.value.email)
    ensures r.Ok? ==> "password" in data && data["password"] == JStr(r.value.password) && |r.value.password| >= 8
    ensures r.Ok? ==> "is_employee" in data && data["is_employee"] == JBool(r.value.isEmployee)
    ensures r.Ok? ==> 0 < |r.value.username| <= 255
    ensures r.Ok? <==> UsernameField(data, users).Ok? && EmailField(data, users).Ok? && PasswordField(data).Ok?
                       && BooleanField(data, "is_employee").Ok?
    ensures r.Err? ==> r.error != map[] && r.error.Keys <= {"username", "email", "password", "is_employee"}
    ensures r.Err? ==> ("username" in r.error <==> UsernameField(data, users).Err?)
    ensures r.Err? ==> ("email" in r.error <==> EmailField(data, users).Err?)
  {
    var username := UsernameField(data, users);
    var email := EmailField(data, users);
    var password := PasswordField(data);
    var isEmployee := BooleanField(data, "is_employee");
    if username.Ok? && email.Ok? && password.Ok? && isEmployee.Ok? then
      Ok(RegisterInput(username.value, email.value, password.value, isEmployee.value))
    else
      Err(RegisterErrors(username, email, password, isEmployee))
  }

  /** The error map of a registration, one entry per field that failed. */
  function RegisterErrors(username: Result<string, FieldError>, email: Result<string, FieldError>,
                          password: Result<string, FieldError>, isEmployee: Result<bool, FieldError>): (e: Errors)
    ensures e.Keys <= {"username", "email", "password", "is_employee"}
    ensures e == map[] <==> username.Ok? && email.Ok? && password.Ok? && isEmployee.Ok?
    ensures "username" in e <==> username.Err?
    ensures "email" in e <==> email.Err?
    ensures "password" in e <==> password.Err?
    ensures "is_employee" in e <==> isEmployee.Err?
    ensures username.Err? ==> e["username"] == username.error
    ensures email.Err? ==> e["email"] == email.error
  {
    Collect(Collect(Collect(Collect(map[], "username", username), "email", email), "password", password),
            "is_employee", isEmployee)
  }

  /** A registration with a username already in use is refused, and the
      username field carries the source's message. */
  lemma DuplicateUsernameRefused(data: Payload, users: seq<User>, name: string)
    requires "username" in data && data["username"] == JStr(name)
    requires name != [] && |name| <= 255 && '\0' !in name
    requires UsernameTaken(users, name)
    ensures RegisterFields(data, users).Err?
    ensures RegisterFields(data, users).error["username"] == Invalid("Username is already taken.")
  {
    assert UsernameField(data, users) == Err(Invalid("Username is already taken."));
  }

  /** A registration with an email already in use is refused, and the email
      field carries the source's message. */
  lemma DuplicateEmailRefused(data: Payload, users: seq<User>, email: string)
    requires "email" in data && data["email"] == JStr(email)
    requires email != [] && '\0' !in email
    requires EmailTaken(users, email)
    ensures RegisterFields(data, users).Err?
    ensures RegisterFields(data, users).error["email"] == Invalid("Email is already taken.")
  {
    assert EmailField(data, users) == Err(Invalid("Email is already taken."));
  }

  /** The one group a new user joins. */
  function RoleGroup(isEmployee: bool): (g: string)
    ensures g == EmployeeGroup <==> isEmployee
    ensures g == OwnerGroup <==> !isEmployee
  {
    if isEmployee then EmployeeGroup else OwnerGroup
  }

  /** RegisterSerializer.create: the user is saved, then put in exactly one
      group. A username already taken makes the save fail and nothing is
      stored. The password is hashed and stored; hashing is not modelled. */
  method CreateUser(store: Store, input: RegisterInput) returns (r: InsertResult)
    requires store.Valid()
    modifies store
    ensures store.Valid()
    ensures r == if UsernameTaken(old(store.users), input.username) then ConstraintViolated
                 else Inserted(|old(store.users)| + 1)
    ensures store.users == if r.ConstraintViolated? then old(store.users)
                           else old(store.users) + [User(|old(store.users)| + 1, input.username, input.email, {RoleGroup(input.isEmployee)})]
    ensures store.restaurants == old(store.restaurants) && store.menus == old(store.menus) && store.votes == old(store.votes)
  {
    r := store.InsertUser(input.username, input.email);
    if r.Inserted? {
      ghost var u := User(r.id, input.username, input.email, {});
      assert store.users[r.id - 1] == u;
      ghost var before := store.users;
      store.AddToGroup(r.id, RoleGroup(input.isEmployee));
      assert u.groups + {RoleGroup(input.isEmployee)} == {RoleGroup(input.isEmployee)};
      assert before == old(store.users) + [u];
      assert store.users == old(store.users) + [u.(groups := {RoleGroup(input.isEmployee)})];
    }
  }

  /** A user made by CreateUser holds exactly one role. */
  lemma OneRole(u: User, isEmployee: bool)
    requires u.groups == {RoleGroup(isEmployee)}
    ensures EmployeeGroup in u.groups <==> isEmployee
    ensures OwnerGroup in u.groups <==> !isEmployee
    ensures |u.groups| == 1
  {
  }

  // ----------------------------------------------------------------------
  // Round trips of the content

  /** Content that is the JSON text of a value reads back as that value,
      under whichever key the version uses. */
  lemma ContentRoundTrip(m: Menu, rest: Restaurant, version: string, v: Json)
    requires m.content == JStr(Dumps(v))
    ensures ValidateContent(m.content) == Ok(m.content)
    ensures Represent(m, rest, version).Some?
    ensures Represent(m, rest, version).value[ContentKey(version)] == v
  {
    LoadsDumps(v);
  }

  /** A 1.x client that sends items, as JSON text of a value or as an
      object, gets that value back under items: the content stored from the
      adapted data passes validate_content and reads back unchanged. */
  lemma ItemsRoundTrip(data: Payload, version: string, v: Json, m: Menu, rest: Restaurant)
    requires IsV1(version) && "items" in data
    requires data["items"] == JStr(Dumps(v)) || (v.JObj? && data["items"] == v)
    requires m.content == AdaptInput(data, version)["content"]
    ensures ValidateContent(m.content) == Ok(m.content)
    ensures Represent(m, rest, version).Some?
    ensures Represent(m, rest, version).value["items"] == v
    ensures "content" !in Represent(m, rest, version).value
  {
    assert m.content == JStr(Dumps(v));
    ContentRoundTrip(m, rest, version, v);
  }
}
