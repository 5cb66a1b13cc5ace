/** The views: the build version of a request, which permission each action
    asks for, the create handlers, registration, and the two queries of the
    day. The current day is a parameter; the store is the database. */
module Views {
  import opened Wrappers
  import opened Json
  import opened Models
  import opened Permissions
  import opened Serializers

  /** get_build_version: the X-Build-Version header, or "2.0" without one. */
  function GetBuildVersion(headers: map<string, string>): (v: string)
    ensures "X-Build-Version" in headers ==> v == headers["X-Build-Version"]
    ensures "X-Build-Version" !in headers ==> v == DefaultVersion
  {
    if "X-Build-Version" in headers then headers["X-Build-Version"] else DefaultVersion
  }

  datatype ViewSet = RestaurantViewSet | MenuViewSet | VoteViewSet

  /** The actions of a ModelViewSet, and the two extra actions of the menus. */
  datatype Action = List | Retrieve | Create | Update | PartialUpdate | Destroy | CurrentDay | MostVotedToday

  /** get_permissions of the three view sets. */
  function GetPermissions(view: ViewSet, action: Action): (p: Permission)
    ensures p == IsRestaurantOwner <==> action == Create && view != VoteViewSet
    ensures p == IsEmployee <==> action == Create && view == VoteViewSet
    ensures p == IsAuthenticated <==> action != Create
  {
    match view
    case RestaurantViewSet => if action == Create then IsRestaurantOwner else IsAuthenticated
    case MenuViewSet => if action == Create then IsRestaurantOwner else IsAuthenticated
    case VoteViewSet => if action == Create then IsEmployee else IsAuthenticated
  }

  /** How a request fails, with the HTTP status it is answered with. */
  datatype ApiError =
    | NotAuthenticated                 // 401
    | PermissionDenied(detail: string) // 403
    | FieldErrors(errors: Errors)      // 400, from is_valid
    | NotUnique                        // 400, from the unique-together check of the serializer
    | ValidationFailed(detail: string) // 400, a ValidationError raised by a view
    | NotFound(message: string)        // 404
    | ServerError                      // 500, an exception nobody catches

  function StatusCode(e: ApiError): nat
  {
    match e
    case NotAuthenticated => 401
    case PermissionDenied(_) => 403
    case FieldErrors(_) => 400
    case NotUnique => 400
    case ValidationFailed(_) => 400
    case NotFound(_) => 404
    case ServerError => 500
  }

  const DefaultDenied: string := "You do not have permission to perform this action."
  const OwnRestaurantOnly: string := "You can only add a menu to your own restaurant."
  const OneMenuPerDay: string := "You can only add one menu per day."
  const OneVotePerDay: string := "You have already voted today."
  const NoMenusToday: string := "No menus for today."
  const NoVotesToday: string := "No votes today."

  /** Authentication has resolved the request to a stored user, or to none. */
  predicate Authenticated(users: seq<User>, auth: Option<nat>)
  {
    auth.Some? ==> IsKey(auth.value, |users|)
  }

  /** request.user: the stored user with its groups, or the anonymous user. */
  function RequestUserOf(users: seq<User>, auth: Option<nat>): (u: RequestUser)
    requires Authenticated(users, auth)
    ensures u.authenticated <==> auth.Some?
    ensures auth.Some? ==> u.id == auth.value && u.groups == users[auth.value - 1].groups
  {
    if auth.Some? then RequestUser(true, auth.value, users[auth.value - 1].groups)
    else RequestUser(false, 0, {})
  }

  /** check_permissions: a refused request raises NotAuthenticated when no
      user is authenticated and PermissionDenied otherwise. */
  function CheckPermission(view: ViewSet, action: Action, user: RequestUser): (r: Option<ApiError>)
    ensures r.None? <==> HasPermission(GetPermissions(view, action), user, view)
    ensures r == Some(NotAuthenticated) <==> !user.authenticated
    ensures r == Some(PermissionDenied(DefaultDenied)) <==> user.authenticated && r.Some?
  {
    if HasPermission(GetPermissions(view, action), user, view) then None
    else if user.authenticated then Some(PermissionDenied(DefaultDenied))
    else Some(NotAuthenticated)
  }

  /** Whether the request may perform the action. */
  predicate Permitted(users: seq<User>, auth: Option<nat>, view: ViewSet, action: Action)
    requires Authenticated(users, auth)
  {
    CheckPermission(view, action, RequestUserOf(users, auth)).None?
  }

  /** Only an authenticated member of the group a create action asks for
      gets past the permission check. */
  lemma CreatePermission(users: seq<User>, auth: Option<nat>, view: ViewSet)
    requires Authenticated(users, auth)
    ensures Permitted(users, auth, view, Create) <==>
      auth.Some? && (if view == VoteViewSet then EmployeeGroup else OwnerGroup) in users[auth.value - 1].groups
  {
  }

  /** Every other action is open to any authenticated user, and to no one else. */
  lemma OtherPermission(users: seq<User>, auth: Option<nat>, view: ViewSet, action: Action)
    requires Authenticated(users, auth) && action != Create
    ensures Permitted(users, auth, view, action) <==> auth.Some?
  {
  }

  // ----------------------------------------------------------------------
  // Creating

  /** RestaurantViewSet.create: the restaurant belongs to the requester. */
  method CreateRestaurant(store: Store, auth: Option<nat>, data: Payload) returns (r: Result<Payload, ApiError>)
    requires store.Valid() && Authenticated(store.users, auth)
    modifies store
    ensures store.Valid()
    ensures store.users == old(store.users) && store.menus == old(store.menus) && store.votes == old(store.votes)
    ensures !Permitted(store.users, auth, RestaurantViewSet, Create) ==>
      r == Err(CheckPermission(RestaurantViewSet, Create, RequestUserOf(store.users, auth)).value)
    ensures Permitted(store.users, auth, RestaurantViewSet, Create) && RestaurantFields(data).Err? ==>
      r == Err(FieldErrors(RestaurantFields(data).error))
    ensures r.Err? ==> store.restaurants == old(store.restaurants)
    ensures r.Ok? <==> Permitted(store.users, auth, RestaurantViewSet, Create) && RestaurantFields(data).Ok?
    ensures r.Ok? ==>
      var input := RestaurantFields(data).value;
      var created := Restaurant(|old(store.restaurants)| + 1, auth.value, input.name, input.description);
      && store.restaurants == old(store.restaurants) + [created]
      && r.value == RestaurantRepresentation(created)
  {
    var denied := CheckPermission(RestaurantViewSet, Create, RequestUserOf(store.users, auth));
    if denied.Some? {
      return Err(denied.value);
    }
    var fields := RestaurantFields(data);
    if fields.Err? {
      return Err(FieldErrors(fields.error));
    }
    var owner := auth.value;
    var inserted := store.InsertRestaurant(owner, fields.value.name, fields.value.description);
    return Ok(RestaurantRepresentation(store.restaurants[inserted.id - 1]));
  }

  /** MenuViewSet.perform_create: the restaurant must be the requester's own;
      a refused insert becomes a validation error. */
  method PerformCreateMenu(store: Store, user: nat, input: MenuInput, today: Date) returns (r: Result<Menu, ApiError>)
    requires store.Valid() && IsKey(input.restaurant, |store.restaurants|)
    modifies store
    ensures store.Valid()
    ensures store.users == old(store.users) && store.restaurants == old(store.restaurants) && store.votes == old(store.votes)
    ensures store.restaurants[input.restaurant - 1].owner != user ==> r == Err(PermissionDenied(OwnRestaurantOnly))
    ensures store.restaurants[input.restaurant - 1].owner == user && MenuTaken(old(store.menus), input.restaurant, today) ==>
      r == Err(ValidationFailed(OneMenuPerDay))
    ensures store.restaurants[input.restaurant - 1].owner == user && !MenuTaken(old(store.menus), input.restaurant, today) ==>
      r == Ok(Menu(|old(store.menus)| + 1, input.restaurant, input.content, today))
    ensures store.menus == if r.Ok? then old(store.menus) + [r.value] else old(store.menus)
  {
    var restaurant := store.restaurants[input.restaurant - 1];
    if restaurant.owner != user {
      return Err(PermissionDenied(OwnRestaurantOnly));
    }
    var inserted := store.InsertMenu(input.restaurant, input.content, today);
    if inserted.ConstraintViolated? {
      return Err(ValidationFailed(OneMenuPerDay));
    }
    return Ok(store.menus[inserted.id - 1]);
  }

  /** MenuViewSet.create: permission, field parsing of the adapted data, the
      unique-together check on (restaurant, today), validate, perform_create,
      then the representation in the request's version. */
  method CreateMenu(store: Store, auth: Option<nat>, headers: map<string, string>, data: Payload, today: Date)
    returns (r: Result<Payload, ApiError>)
    requires store.Valid() && Authenticated(store.users, auth)
    modifies store
    ensures store.Valid()
    ensures store.users == old(store.users) && store.restaurants == old(store.restaurants) && store.votes == old(store.votes)
    ensures ContentsValid(old(store.menus)) ==> ContentsValid(store.menus)
    ensures r.Err? ==> store.menus == old(store.menus)
    ensures !Permitted(store.users, auth, MenuViewSet, Create) ==>
      r == Err(CheckPermission(MenuViewSet, Create, RequestUserOf(store.users, auth)).value)
    ensures Permitted(store.users, auth, MenuViewSet, Create) ==>
      var version := GetBuildVersion(headers);
      var fields := MenuFields(AdaptInput(data, version), |store.restaurants|);
      && (fields.Err? ==> r == Err(FieldErrors(fields.error)))
      && (fields.Ok? && MenuTaken(old(store.menus), fields.value.restaurant, today) ==> r == Err(NotUnique))
      && (fields.Ok? && !MenuTaken(old(store.menus), fields.value.restaurant, today) ==>
            var restaurant := store.restaurants[fields.value.restaurant - 1];
            && (restaurant.owner != auth.value ==> r == Err(PermissionDenied(OwnRestaurantOnly)))
            && (restaurant.owner == auth.value ==>
                  var created := Menu(|old(store.menus)| + 1, fields.value.restaurant, fields.value.content, today);
                  && store.menus == old(store.menus) + [created]
                  && r.Ok? && Some(r.value) == Represent(created, restaurant, version)))
  {
    var denied := CheckPermission(MenuViewSet, Create, RequestUserOf(store.users, auth));
    if denied.Some? {
      return Err(denied.value);
    }
    var version := GetBuildVersion(headers);
    var mutableData := ToInternalValue(data, version);
    var fields := MenuFields(mutableData, |store.restaurants|);
    if fields.Err? {
      return Err(FieldErrors(fields.error));
    }
    if MenuTaken(store.menus, fields.value.restaurant, today) {
      return Err(NotUnique);
    }
    r := SaveMenu(store, auth.value, fields.value, version, today);
  }

  /** The rest of MenuViewSet.create once the fields are parsed: validate,
      perform_create, and the representation of the saved menu. */
  method SaveMenu(store: Store, user: nat, input: MenuInput, version: string, today: Date)
    returns (r: Result<Payload, ApiError>)
    requires store.Valid() && IsKey(input.restaurant, |store.restaurants|) && Decodes(input.content)
    modifies store
    ensures store.Valid()
    ensures store.users == old(store.users) && store.restaurants == old(store.restaurants) && store.votes == old(store.votes)
    ensures ContentsValid(old(store.menus)) ==> ContentsValid(store.menus)
    ensures r.Err? ==> store.menus == old(store.menus)
    ensures store.restaurants[input.restaurant - 1].owner != user ==> r == Err(PermissionDenied(OwnRestaurantOnly))
    ensures store.restaurants[input.restaurant - 1].owner == user && MenuTaken(old(store.menus), input.restaurant, today) ==>
      r == Err(ValidationFailed(OneMenuPerDay))
    ensures store.restaurants[input.restaurant - 1].owner == user && !MenuTaken(old(store.menus), input.restaurant, today) ==>
      var created := Menu(|old(store.menus)| + 1, input.restaurant, input.content, today);
      && store.menus == old(store.menus) + [created]
      && r.Ok? && Some(r.value) == Represent(created, store.restaurants[input.restaurant - 1], version)
  {
    // The data holds no date and there is no instance: validate passes.
    var validated := Validate(input, None, store.menus);
    assert validated == Ok(input);
    var created := PerformCreateMenu(store, user, validated.value, today);
    if created.Err? {
      return Err(created.error);
    }
    assert store.menus == old(store.menus) + [created.value];
    var restaurant := store.restaurants[created.value.restaurant - 1];
    var representation := ToRepresentation(created.value, restaurant, version);
    return Ok(representation.value);
  }

  /** VoteViewSet.perform_create: the vote is the requester's; a refused
      insert becomes a validation error. */
  method PerformCreateVote(store: Store, user: nat, menu: nat, today: Date) returns (r: Result<Vote, ApiError>)
    requires store.Valid() && IsKey(user, |store.users|) && IsKey(menu, |store.menus|)
    modifies store
    ensures store.Valid()
    ensures store.users == old(store.users) && store.restaurants == old(store.restaurants) && store.menus == old(store.menus)
    ensures VoteTaken(old(store.votes), user, today) ==> r == Err(ValidationFailed(OneVotePerDay))
    ensures !VoteTaken(old(store.votes), user, today) ==> r == Ok(Vote(|old(store.votes)| + 1, user, menu, today))
    ensures store.votes == if r.Ok? then old(store.votes) + [r.value] else old(store.votes)
  {
    var inserted := store.InsertVote(user, menu, today);
    if inserted.ConstraintViolated? {
      return Err(ValidationFailed(OneVotePerDay));
    }
    return Ok(store.votes[inserted.id - 1]);
  }

  /** VoteViewSet.create. No unique-together check runs before the insert
      (the employee field is read-only), so a second vote on the same day
      reaches the database and is refused there. */
  method CreateVote(store: Store, auth: Option<nat>, data: Payload, today: Date) returns (r: Result<Payload, ApiError>)
    requires store.Valid() && Authenticated(store.users, auth)
    modifies store
    ensures store.Valid()
    ensures store.users == old(store.users) && store.restaurants == old(store.restaurants) && store.menus == old(store.menus)
    ensures r.Err? && r.error != ServerError ==> store.votes == old(store.votes)
    ensures ContentsValid(store.menus) ==> r != Err(ServerError)
    ensures !Permitted(store.users, auth, VoteViewSet, Create) ==>
      r == Err(CheckPermission(VoteViewSet, Create, RequestUserOf(store.users, auth)).value)
    ensures Permitted(store.users, auth, VoteViewSet, Create) ==>
      var menu := PrimaryKeyField(data, "menu_id", |store.menus|);
      && (menu.Err? ==> r == Err(FieldErrors(map["menu_id" := menu.error])))
      && (menu.Ok? && VoteTaken(old(store.votes), auth.value, today) ==> r == Err(ValidationFailed(OneVotePerDay)))
      && (menu.Ok? && !VoteTaken(old(store.votes), auth.value, today) ==>
            var m := store.menus[menu.value - 1];
            && store.votes == old(store.votes) + [Vote(|old(store.votes)| + 1, auth.value, menu.value, today)]
            && (r.Ok? <==> Decodes(m.content))
            && (r.Ok? ==> Some(r.value) == VoteRepresentation(store.votes[|old(store.votes)|], m, store.restaurants[m.restaurant - 1]))
            && (r.Err? ==> r.error == ServerError))
  {
    var denied := CheckPermission(VoteViewSet, Create, RequestUserOf(store.users, auth));
    if denied.Some? {
      return Err(denied.value);
    }
    var menu := PrimaryKeyField(data, "menu_id", |store.menus|);
    if menu.Err? {
      return Err(FieldErrors(map["menu_id" := menu.error]));
    }
    r := SaveVote(store, auth.value, menu.value, today);
  }

  /** The rest of VoteViewSet.create once menu_id is parsed: perform_create,
      then the representation of the saved vote. */
  method SaveVote(store: Store, user: nat, menu: nat, today: Date) returns (r: Result<Payload, ApiError>)
    requires store.Valid() && IsKey(user, |store.users|) && IsKey(menu, |store.menus|)
    modifies store
    ensures store.Valid()
    ensures store.users == old(store.users) && store.restaurants == old(store.restaurants) && store.menus == old(store.menus)
    ensures VoteTaken(old(store.votes), user, today) ==>
      r == Err(ValidationFailed(OneVotePerDay)) && store.votes == old(store.votes)
    ensures !VoteTaken(old(store.votes), user, today) ==>
      var m := store.menus[menu - 1];
      && store.votes == old(store.votes) + [Vote(|old(store.votes)| + 1, user, menu, today)]
      && (r.Ok? <==> Decodes(m.content))
      && (r.Ok? ==> Some(r.value) == VoteRepresentation(store.votes[|old(store.votes)|], m, store.restaurants[m.restaurant - 1]))
      && (r.Err? ==> r.error == ServerError)
  {
    var created := PerformCreateVote(store, user, menu, today);
    if created.Err? {
      return Err(created.error);
    }
    var m := store.menus[menu - 1];
    assert m in store.menus;
    var representation := VoteRepresentation(created.value, m, store.restaurants[m.restaurant - 1]);
    if representation.None? {
      return Err(ServerError);
    }
    return Ok(representation.value);
  }

  /** RegisterView.post: open to anyone; 201 with the new id and username,
      or 400 with the errors of every field that failed. */
  method RegisterPost(store: Store, data: Payload) returns (r: Result<Payload, ApiError>)
    requires store.Valid()
    modifies store
    ensures store.Valid()
    ensures store.restaurants == old(store.restaurants) && store.menus == old(store.menus) && store.votes == old(store.votes)
    ensures RegisterFields(data, old(store.users)).Err? ==>
      r == Err(FieldErrors(RegisterFields(data, old(store.users)).error)) && store.users == old(store.users)
    ensures RegisterFields(data, old(store.users)).Ok? ==>
      var input := RegisterFields(data, old(store.users)).value;
      var id := |old(store.users)| + 1;
      && store.users == old(store.users) + [User(id, input.username, input.email, {RoleGroup(input.isEmployee)})]
      && r == Ok(map["id" := JNum(id), "username" := JStr(input.username)])
  {
    var fields := RegisterFields(data, store.users);
    if fields.Err? {
      return Err(FieldErrors(fields.error));
    }
    var created := CreateUser(store, fields.value);
    return Ok(map["id" := JNum(created.id), "username" := JStr(fields.value.username)]);
  }

  // ----------------------------------------------------------------------
  // Queries

  /** Menu.objects.filter(date=today), in table order (the source leaves the
      order to the database). */
  function MenusOn(menus: seq<Menu>, today: Date): (r: seq<Menu>)
    ensures forall m :: m in r <==> m in menus && m.date == today
    ensures |r| <= |menus|
  {
    if menus == [] then []
    else
      var rest := MenusOn(menus[1..], today);
      assert forall m :: m in menus <==> m == menus[0] || m in menus[1..];
      if menus[0].date == today then [menus[0]] + rest else rest
  }

  /** The filter keeps every copy of a menu of the day and drops every
      copy of any other. */
  lemma {:induction false} MenusOnCount(menus: seq<Menu>, today: Date, m: Menu)
    ensures multiset(MenusOn(menus, today))[m] == if m.date == today then multiset(menus)[m] else 0
  {
    if menus != [] {
      MenusOnCount(menus[1..], today, m);
      assert menus == [menus[0]] + menus[1..];
      assert multiset(menus) == multiset([menus[0]]) + multiset(menus[1..]);
      if menus[0].date == today {
        assert multiset(MenusOn(menus, today)) == multiset([menus[0]]) + multiset(MenusOn(menus[1..], today));
      }
    }
  }

  /** ListSerializer.to_representation, which many=True puts around a
      serializer: the child's representation of each item in turn, and
      None as soon as one of them fails. */
  method RepresentEach<T>(items: seq<T>, child: T --> Option<Payload>) returns (r: Option<seq<Payload>>)
    requires forall x :: x in items ==> child.requires(x)
    ensures r.Some? <==> forall x :: x in items ==> child(x).Some?
    ensures r.Some? ==> |r.value| == |items|
    ensures r.Some? ==> forall i :: 0 <= i < |items| ==> Some(r.value[i]) == child(items[i])
  {
    var data: seq<Payload> := [];
    for i := 0 to |items|
      invariant |data| == i
      invariant forall j :: 0 <= j < i ==> Some(data[j]) == child(items[j])
    {
      assert items[i] in items;
      var representation := child(items[i]);
      if representation.None? {
        return None;
      }
      data := data + [representation.value];
    }
    return Some(data);
  }

  /** get_current_day_menu: every menu of the day, in the default version
      whatever the request's header says, or 404 when there is none. */
  method GetCurrentDayMenu(users: seq<User>, auth: Option<nat>, restaurants: seq<Restaurant>, menus: seq<Menu>, today: Date)
    returns (r: Result<seq<Payload>, ApiError>)
    requires Authenticated(users, auth) && RestaurantsExist(menus, |restaurants|)
    ensures r == Err(NotAuthenticated) <==> !Permitted(users, auth, MenuViewSet, CurrentDay)
    ensures r.Err? ==> r.error == NotAuthenticated || r.error == NotFound(NoMenusToday) || r.error == ServerError
    ensures r.Err? && StatusCode(r.error) == 404 <==>
      Permitted(users, auth, MenuViewSet, CurrentDay) && forall m :: m in menus ==> m.date != today
    ensures r == Err(ServerError) <==>
      Permitted(users, auth, MenuViewSet, CurrentDay) && exists m :: m in menus && m.date == today && !Decodes(m.content)
    ensures ContentsValid(menus) ==> r != Err(ServerError)
    ensures (Permitted(users, auth, MenuViewSet, CurrentDay) && (exists m :: m in menus && m.date == today)
             && ContentsValid(menus)) ==> r.Ok?
    ensures r.Ok? ==>
      var todays := MenusOn(menus, today);
      && |r.value| == |todays| > 0
      && forall i :: 0 <= i < |todays| ==>
           Some(r.value[i]) == Represent(todays[i], restaurants[todays[i].restaurant - 1], DefaultVersion)
  {
    var denied := CheckPermission(MenuViewSet, CurrentDay, RequestUserOf(users, auth));
    if denied.Some? {
      return Err(denied.value);
    }
    r := CurrentDayMenus(restaurants, menus, today);
  }

  /** The body of get_current_day_menu once the request is let through. */
  method CurrentDayMenus(restaurants: seq<Restaurant>, menus: seq<Menu>, today: Date)
    returns (r: Result<seq<Payload>, ApiError>)
    requires RestaurantsExist(menus, |restaurants|)
    ensures r.Err? ==> r.error == NotFound(NoMenusToday) || r.error == ServerError
    ensures r == Err(NotFound(NoMenusToday)) <==> forall m :: m in menus ==> m.date != today
    ensures r == Err(ServerError) <==> exists m :: m in menus && m.date == today && !Decodes(m.content)
    ensures r.Ok? ==>
      var todays := MenusOn(menus, today);
      && |r.value| == |todays| > 0
      && forall i :: 0 <= i < |todays| ==>
           Some(r.value[i]) == Represent(todays[i], restaurants[todays[i].restaurant - 1], DefaultVersion)
  {
    var todays := MenusOn(menus, today);
    if todays == [] {
      return Err(NotFound(NoMenusToday));
    }
    assert todays[0] in todays;
    var child := (m: Menu) requires IsKey(m.restaurant, |restaurants|) =>
      Represent(m, restaurants[m.restaurant - 1], DefaultVersion);
    var data := RepresentEach(todays, child);
    if data.None? {
      var m :| m in todays && child(m).None?;
      return Err(ServerError);
    }
    assert forall m :: m in todays ==> child(m).Some?;
    return Ok(data.value);
  }

  /** Count('id') of the votes of the day for one menu. */
  function Tally(votes: seq<Vote>, today: Date, menu: nat): nat
  {
    if votes == [] then 0
    else (if votes[0].date == today && votes[0].menu == menu then 1 else 0) + Tally(votes[1..], today, menu)
  }

  /** The menu of every vote of the day. */
  function VotedMenus(votes: seq<Vote>, today: Date): (r: seq<nat>)
    ensures forall m :: m in r <==> exists v :: v in votes && v.date == today && v.menu == m
  {
    if votes == [] then []
    else
      var rest := VotedMenus(votes[1..], today);
      assert forall v :: v in votes <==> v == votes[0] || v in votes[1..];
      if votes[0].date == today then [votes[0].menu] + rest else rest
  }

  /** A menu has votes today exactly when one of the day's votes is for it. */
  lemma {:induction false} TallyPositive(votes: seq<Vote>, today: Date, menu: nat)
    ensures Tally(votes, today, menu) > 0 <==> menu in VotedMenus(votes, today)
  {
    if votes != [] {
      TallyPositive(votes[1..], today, menu);
    }
  }

  /** A candidate with the greatest tally: the first row after ordering by
      descending count. */
  function Leader(candidates: seq<nat>, votes: seq<Vote>, today: Date): (r: nat)
    requires candidates != []
    ensures r in candidates
    ensures forall c :: c in candidates ==> Tally(votes, today, c) <= Tally(votes, today, r)
  {
    if |candidates| == 1 then candidates[0]
    else
      var best := Leader(candidates[1..], votes, today);
      assert forall c :: c in candidates <==> c == candidates[0] || c in candidates[1..];
      if Tally(votes, today, candidates[0]) >= Tally(votes, today, best) then candidates[0] else best
  }

  /** The menu most voted for today, if anyone voted today. */
  function MostVoted(votes: seq<Vote>, today: Date): (r: Option<nat>)
    ensures r.None? <==> forall v :: v in votes ==> v.date != today
    ensures r.Some? ==> Tally(votes, today, r.value) > 0
    ensures r.Some? ==> forall m :: Tally(votes, today, m) <= Tally(votes, today, r.value)
    ensures r.Some? ==> exists v :: v in votes && v.date == today && v.menu == r.value
  {
    var candidates := VotedMenus(votes, today);
    if candidates == [] then
      assert forall v :: v in votes && v.date == today ==> v.menu in candidates;
      None
    else
      var best := Leader(candidates, votes, today);
      TallyPositive(votes, today, best);
      assert forall m :: Tally(votes, today, m) > 0 ==> m in candidates by {
        forall m | Tally(votes, today, m) > 0 ensures m in candidates {
          TallyPositive(votes, today, m);
        }
      }
      Some(best)
  }

  /** The menu that the day's tally picks holds stored text that is not JSON. */
  predicate LeaderUndecodable(menus: seq<Menu>, votes: seq<Vote>, today: Date)
    requires MenusExist(votes, |menus|)
  {
    var best := MostVoted(votes, today);
    best.Some? && !Decodes(menus[best.value - 1].content)
  }

  /** p is the default representation of a menu voted for today that no
      other menu beats on the day's tally. */
  ghost predicate RepresentsMostVoted(p: Payload, restaurants: seq<Restaurant>, menus: seq<Menu>, votes: seq<Vote>, today: Date)
    requires RestaurantsExist(menus, |restaurants|) && MenusExist(votes, |menus|)
  {
    exists v :: v in votes && v.date == today &&
      var m := menus[v.menu - 1];
      && (forall other :: Tally(votes, today, other) <= Tally(votes, today, v.menu))
      && Some(p) == Represent(m, restaurants[m.restaurant - 1], DefaultVersion)
  }

  /** get_most_voted_today: the menu with the most votes of the day, in the
      default version, or 404 when nobody voted today. */
  method GetMostVotedToday(users: seq<User>, auth: Option<nat>, restaurants: seq<Restaurant>, menus: seq<Menu>,
                           votes: seq<Vote>, today: Date) returns (r: Result<Payload, ApiError>)
    requires Authenticated(users, auth)
    requires RestaurantsExist(menus, |restaurants|) && MenusExist(votes, |menus|)
    ensures r == Err(NotAuthenticated) <==> !Permitted(users, auth, MenuViewSet, MostVotedToday)
    ensures r.Err? ==> r.error == NotAuthenticated || r.error == NotFound(NoVotesToday) || r.error == ServerError
    ensures r.Err? && StatusCode(r.error) == 404 <==>
      Permitted(users, auth, MenuViewSet, MostVotedToday) && forall v :: v in votes ==> v.date != today
    ensures r == Err(ServerError) <==>
      Permitted(users, auth, MenuViewSet, MostVotedToday) && LeaderUndecodable(menus, votes, today)
    ensures ContentsValid(menus) ==> r != Err(ServerError)
    ensures (Permitted(users, auth, MenuViewSet, MostVotedToday) && (exists v :: v in votes && v.date == today)
             && ContentsValid(menus)) ==> r.Ok?
    ensures r.Ok? ==> RepresentsMostVoted(r.value, restaurants, menus, votes, today)
  {
    var denied := CheckPermission(MenuViewSet, MostVotedToday, RequestUserOf(users, auth));
    if denied.Some? {
      return Err(denied.value);
    }
    r := MostVotedMenu(restaurants, menus, votes, today);
  }

  /** The body of get_most_voted_today once the request is let through. */
  method MostVotedMenu(restaurants: seq<Restaurant>, menus: seq<Menu>, votes: seq<Vote>, today: Date)
    returns (r: Result<Payload, ApiError>)
    requires RestaurantsExist(menus, |restaurants|) && MenusExist(votes, |menus|)
    ensures r.Err? ==> r.error == NotFound(NoVotesToday) || r.error == ServerError
    ensures r == Err(NotFound(NoVotesToday)) <==> forall v :: v in votes ==> v.date != today
    ensures r == Err(ServerError) <==> LeaderUndecodable(menus, votes, today)
    ensures r == Err(ServerError) ==> exists m :: m in menus && !Decodes(m.content)
    ensures r.Ok? ==> RepresentsMostVoted(r.value, restaurants, menus, votes, today)
  {
    var best := MostVoted(votes, today);
    if best.None? {
      return Err(NotFound(NoVotesToday));
    }
    var v :| v in votes && v.date == today && v.menu == best.value;
    var m := menus[best.value - 1];
    assert m in menus;
    var representation := ToRepresentation(m, restaurants[m.restaurant - 1], DefaultVersion);
    if representation.None? {
      return Err(ServerError);
    }
    return Ok(representation.value);
  }
}
