/** The stored records of the lunch service (users, restaurants, menus and
    votes) and the database constraints on them. The store is a class whose
    tables are sequences; the record at index i has primary key i + 1. */
module Models {
  import opened Json

  /** A calendar day, as Python's `datetime.date`. */
  datatype Date = Date(year: nat, month: nat, day: nat)

  /** The group names that carry the two roles. */
  const EmployeeGroup: string := "Employee"
  const OwnerGroup: string := "RestaurantOwner"

  datatype User = User(id: nat, username: string, email: string, groups: set<string>)

  /** A restaurant has exactly one owner, a foreign key to a user. */
  datatype Restaurant = Restaurant(id: nat, owner: nat, name: string, description: string)

  /** A menu's content is any JSON value; its date is the day it was created. */
  datatype Menu = Menu(id: nat, restaurant: nat, content: Json, date: Date)

  /** A vote of an employee for a menu, dated the day it was cast. */
  datatype Vote = Vote(id: nat, employee: nat, menu: nat, date: Date)

  /** What an INSERT does: it adds a row with a new key, or the database
      refuses it (an IntegrityError) and nothing changes. */
  datatype InsertResult = Inserted(id: nat) | ConstraintViolated

  // Primary keys

  predicate UsersNumbered(users: seq<User>) {
    forall i :: 0 <= i < |users| ==> users[i].id == i + 1
  }

  predicate RestaurantsNumbered(restaurants: seq<Restaurant>) {
    forall i :: 0 <= i < |restaurants| ==> restaurants[i].id == i + 1
  }

  predicate MenusNumbered(menus: seq<Menu>) {
    forall i :: 0 <= i < |menus| ==> menus[i].id == i + 1
  }

  predicate VotesNumbered(votes: seq<Vote>) {
    forall i :: 0 <= i < |votes| ==> votes[i].id == i + 1
  }

  /** The key k names a row of a table with n rows. */
  predicate IsKey(k: nat, n: nat) {
    0 < k <= n
  }

  // Unique constraints

  /** Django's User.username is unique. */
  predicate UsernameTaken(users: seq<User>, username: string) {
    exists i :: 0 <= i < |users| && users[i].username == username
  }

  predicate EmailTaken(users: seq<User>, email: string) {
    exists i :: 0 <= i < |users| && users[i].email == email
  }

  predicate UsernamesUnique(users: seq<User>) {
    forall i, j :: 0 <= i < j < |users| ==> users[i].username != users[j].username
  }

  /** A menu of this restaurant already exists on this day. */
  predicate MenuTaken(menus: seq<Menu>, restaurant: nat, date: Date) {
    exists i :: 0 <= i < |menus| && menus[i].restaurant == restaurant && menus[i].date == date
  }

  /** unique_together = ('restaurant', 'date') on Menu. */
  predicate MenusUnique(menus: seq<Menu>) {
    forall i, j :: 0 <= i < j < |menus| ==>
      menus[i].restaurant != menus[j].restaurant || menus[i].date != menus[j].date
  }

  /** This employee has already voted on this day, for whatever menu. */
  predicate VoteTaken(votes: seq<Vote>, employee: nat, date: Date) {
    exists i :: 0 <= i < |votes| && votes[i].employee == employee && votes[i].date == date
  }

  /** unique_together = ('employee', 'date') on Vote. */
  predicate VotesUnique(votes: seq<Vote>) {
    forall i, j :: 0 <= i < j < |votes| ==>
      votes[i].employee != votes[j].employee || votes[i].date != votes[j].date
  }

  // Foreign keys

  predicate OwnersExist(restaurants: seq<Restaurant>, userCount: nat) {
    forall r :: r in restaurants ==> IsKey(r.owner, userCount)
  }

  predicate RestaurantsExist(menus: seq<Menu>, restaurantCount: nat) {
    forall m :: m in menus ==> IsKey(m.restaurant, restaurantCount)
  }

  predicate EmployeesExist(votes: seq<Vote>, userCount: nat) {
    forall v :: v in votes ==> IsKey(v.employee, userCount)
  }

  predicate MenusExist(votes: seq<Vote>, menuCount: nat) {
    forall v :: v in votes ==> IsKey(v.menu, menuCount)
  }

  /** Every constraint the database enforces holds of these tables. */
  predicate WellFormed(users: seq<User>, restaurants: seq<Restaurant>, menus: seq<Menu>, votes: seq<Vote>) {
    && UsersNumbered(users) && RestaurantsNumbered(restaurants)
    && MenusNumbered(menus) && VotesNumbered(votes)
    && UsernamesUnique(users)
    && OwnersExist(restaurants, |users|)
    && RestaurantsExist(menus, |restaurants|)
    && EmployeesExist(votes, |users|) && MenusExist(votes, |menus|)
    && MenusUnique(menus) && VotesUnique(votes)
  }

  /** Appending a menu keeps the (restaurant, date) constraint exactly when
      no menu of that restaurant exists on that day. */
  lemma MenusUniqueAppend(menus: seq<Menu>, m: Menu)
    requires MenusUnique(menus)
    ensures MenusUnique(menus + [m]) <==> !MenuTaken(menus, m.restaurant, m.date)
  {
    var s := menus + [m];
    if MenuTaken(menus, m.restaurant, m.date) {
      var i :| 0 <= i < |menus| && menus[i].restaurant == m.restaurant && menus[i].date == m.date;
      assert s[i] == menus[i] && s[|menus|] == m;
    } else {
      forall i, j | 0 <= i < j < |s|
        ensures s[i].restaurant != s[j].restaurant || s[i].date != s[j].date
      {
        if j == |menus| {
          assert s[i] == menus[i];
        } else {
          assert s[i] == menus[i] && s[j] == menus[j];
        }
      }
    }
  }

  /** Appending a vote keeps the (employee, date) constraint exactly when the
      employee has not voted on that day, whichever menu the votes are for. */
  lemma VotesUniqueAppend(votes: seq<Vote>, v: Vote)
    requires VotesUnique(votes)
    ensures VotesUnique(votes + [v]) <==> !VoteTaken(votes, v.employee, v.date)
  {
    var s := votes + [v];
    if VoteTaken(votes, v.employee, v.date) {
      var i :| 0 <= i < |votes| && votes[i].employee == v.employee && votes[i].date == v.date;
      assert s[i] == votes[i] && s[|votes|] == v;
    } else {
      forall i, j | 0 <= i < j < |s|
        ensures s[i].employee != s[j].employee || s[i].date != s[j].date
      {
        if j == |votes| {
          assert s[i] == votes[i];
        } else {
          assert s[i] == votes[i] && s[j] == votes[j];
        }
      }
    }
  }

  /** One user may own several restaurants: the constraints allow two
      restaurants with the same owner. */
  lemma SeveralRestaurantsPerOwner(u: User, a: Restaurant, b: Restaurant)
    requires u.id == 1 && a.id == 1 && b.id == 2 && a.owner == 1 && b.owner == 1
    ensures WellFormed([u], [a, b], [], [])
  {
  }

  /** The database: one table per model. */
  class Store {
    var users: seq<User>
    var restaurants: seq<Restaurant>
    var menus: seq<Menu>
    var votes: seq<Vote>

    ghost predicate Valid()
      reads this
    {
      WellFormed(users, restaurants, menus, votes)
    }

    /** An empty database. */
    constructor ()
      ensures Valid()
      ensures users == [] && restaurants == [] && menus == [] && votes == []
    {
      users, restaurants, menus, votes := [], [], [], [];
    }

    /** INSERT INTO auth_user, refused when the username exists. */
    method InsertUser(username: string, email: string) returns (r: InsertResult)
      requires Valid()
      modifies this
      ensures Valid()
      ensures r == if UsernameTaken(old(users), username) then ConstraintViolated else Inserted(|old(users)| + 1)
      ensures users == if r.ConstraintViolated? then old(users)
                       else old(users) + [User(|old(users)| + 1, username, email, {})]
      ensures restaurants == old(restaurants) && menus == old(menus) && votes == old(votes)
    {
      if UsernameTaken(users, username) {
        return ConstraintViolated;
      }
      var u := User(|users| + 1, username, email, {});
      UsernamesAppend(users, u);
      users := users + [u];
      r := Inserted(|users|);
    }

    /** user.groups.add(group): the user joins a group. */
    method AddToGroup(id: nat, group: string)
      requires Valid() && IsKey(id, |users|)
      modifies this
      ensures Valid()
      ensures users == old(users)[id - 1 := old(users)[id - 1].(groups := old(users)[id - 1].groups + {group})]
      ensures restaurants == old(restaurants) && menus == old(menus) && votes == old(votes)
    {
      var u := users[id - 1];
      users := users[id - 1 := u.(groups := u.groups + {group})];
      assert forall i :: 0 <= i < |users| ==> users[i].username == old(users)[i].username;
    }

    /** INSERT INTO api_restaurant, refused when the owner does not exist. */
    method InsertRestaurant(owner: nat, name: string, description: string) returns (r: InsertResult)
      requires Valid()
      modifies this
      ensures Valid()
      ensures r == if IsKey(owner, |old(users)|) then Inserted(|old(restaurants)| + 1) else ConstraintViolated
      ensures restaurants == if r.ConstraintViolated? then old(restaurants)
                             else old(restaurants) + [Restaurant(|old(restaurants)| + 1, owner, name, description)]
      ensures users == old(users) && menus == old(menus) && votes == old(votes)
    {
      if !IsKey(owner, |users|) {
        return ConstraintViolated;
      }
      restaurants := restaurants + [Restaurant(|restaurants| + 1, owner, name, description)];
      r := Inserted(|restaurants|);
    }

    /** INSERT INTO api_menu, dated today, refused when the restaurant does
        not exist or already has a menu today. */
    method InsertMenu(restaurant: nat, content: Json, today: Date) returns (r: InsertResult)
      requires Valid()
      modifies this
      ensures Valid()
      ensures r == if IsKey(restaurant, |old(restaurants)|) && !MenuTaken(old(menus), restaurant, today)
                   then Inserted(|old(menus)| + 1) else ConstraintViolated
      ensures menus == if r.ConstraintViolated? then old(menus)
                       else old(menus) + [Menu(|old(menus)| + 1, restaurant, content, today)]
      ensures users == old(users) && restaurants == old(restaurants) && votes == old(votes)
    {
      if !IsKey(restaurant, |restaurants|) || MenuTaken(menus, restaurant, today) {
        return ConstraintViolated;
      }
      var m := Menu(|menus| + 1, restaurant, content, today);
      MenusUniqueAppend(menus, m);
      menus := menus + [m];
      r := Inserted(|menus|);
    }

    /** INSERT INTO api_vote, dated today, refused when the employee or the
        menu does not exist or the employee has already voted today. */
    method InsertVote(employee: nat, menu: nat, today: Date) returns (r: InsertResult)
      requires Valid()
      modifies this
      ensures Valid()
      ensures r == if IsKey(employee, |old(users)|) && IsKey(menu, |old(menus)|) && !VoteTaken(old(votes), employee, today)
                   then Inserted(|old(votes)| + 1) else ConstraintViolated
      ensures votes == if r.ConstraintViolated? then old(votes)
                       else old(votes) + [Vote(|old(votes)| + 1, employee, menu, today)]
      ensures users == old(users) && restaurants == old(restaurants) && menus == old(menus)
    {
      if !IsKey(employee, |users|) || !IsKey(menu, |menus|) || VoteTaken(votes, employee, today) {
        return ConstraintViolated;
      }
      var v := Vote(|votes| + 1, employee, menu, today);
      VotesUniqueAppend(votes, v);
      votes := votes + [v];
      r := Inserted(|votes|);
    }
  }

  /** Appending a user whose username is new keeps usernames unique. */
  lemma UsernamesAppend(users: seq<User>, u: User)
    requires UsernamesUnique(users) && !UsernameTaken(users, u.username)
    ensures UsernamesUnique(users + [u])
  {
    var s := users + [u];
    forall i, j | 0 <= i < j < |s| ensures s[i].username != s[j].username {
      assert s[i] == users[i];
      if j < |users| {
        assert s[j] == users[j];
      }
    }
  }
}
