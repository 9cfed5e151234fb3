/**
 * The domain records of Flask Cafe (cities, cafes and users), their column
 * defaults, the credential logic of `User.register` / `User.authenticate`
 * and the two display formatters.
 */
module Models {
  import opened Wrappers
  import opened Strings

  /** Column default of `Cafe.image_url`. */
  const DefaultCafeImageUrl: string := "/static/images/default-cafe.jpg"

  /** Column default of `User.image_url`, and the default of `register`'s `image_url`. */
  const DefaultUserImageUrl: string := "/static/images/default-pic.png"

  /** A row of `cities`: `code` is the primary key, `state` a two-letter column. */
  datatype City = City(code: string, name: string, state: string)

  /** A row of `cafes`; `cityCode` is a foreign key to `cities.code`. */
  datatype Cafe = Cafe(
    id: int,
    name: string,
    description: string,
    url: string,
    address: string,
    cityCode: string,
    imageUrl: string)

  /** A row of `users`; only the hash of the password is kept. */
  datatype User = User(
    username: string,
    admin: bool,
    email: string,
    firstName: string,
    lastName: string,
    description: string,
    imageUrl: string,
    hashedPassword: string)

  /** The codes of the cities in a table. */
  function CityCodes(cities: seq<City>): set<string>
  {
    set c | c in cities :: c.code
  }

  /** `code` is a primary key: no two rows share one. */
  ghost predicate DistinctCodes(cities: seq<City>)
  {
    forall i, j :: 0 <= i < j < |cities| ==> cities[i].code != cities[j].code
  }

  /**
   * The password hashing collaborator (bcrypt): `hash(salt, password)` is
   * `generate_password_hash`, the salt being the random part it draws, and
   * `check(stored, password)` is `check_password_hash`.
   */
  datatype PasswordHasher = PasswordHasher(
    hash: (string, string) -> string,
    check: (string, string) -> bool)

  /** What the model asks of the hasher: a stored hash accepts its own password and no other. */
  ghost predicate Sound(h: PasswordHasher)
  {
    forall salt, p, q :: h.check(h.hash(salt, p), q) <==> p == q
  }

  /**
   * The record `User.register` builds. `imageUrl` and `admin` are `None`
   * when the caller leaves those keyword arguments out.
   */
  function NewUser(
    h: PasswordHasher, salt: string,
    username: string, email: string, firstName: string, lastName: string,
    description: string, password: string,
    imageUrl: Option<string>, admin: Option<bool>): (u: User)
    ensures u.username == username && u.email == email
    ensures u.firstName == firstName && u.lastName == lastName && u.description == description
    ensures admin.None? ==> !u.admin
    ensures admin.Some? ==> u.admin == admin.value
    ensures imageUrl.None? ==> u.imageUrl == DefaultUserImageUrl
    ensures imageUrl.Some? ==> u.imageUrl == imageUrl.value
    ensures u.hashedPassword == h.hash(salt, password)
  {
    User(username, admin.GetOr(false), email, firstName, lastName, description,
         imageUrl.GetOr(DefaultUserImageUrl), h.hash(salt, password))
  }

  /**
   * A registration that leaves out `admin` and `image_url` is not an admin
   * and has the default picture; the other text fields are kept as given.
   */
  lemma RegisterDefaults(
    h: PasswordHasher, salt: string,
    username: string, email: string, firstName: string, lastName: string,
    description: string, password: string)
    ensures var u := NewUser(h, salt, username, email, firstName, lastName, description, password, None, None);
      && !u.admin && u.imageUrl == DefaultUserImageUrl
      && u.username == username && u.email == email && u.firstName == firstName
      && u.lastName == lastName && u.description == description
  {
  }

  /** With a sound hasher the stored credential accepts exactly the registered password. */
  lemma NewUserCredential(
    h: PasswordHasher, salt: string,
    username: string, email: string, firstName: string, lastName: string,
    description: string, password: string,
    imageUrl: Option<string>, admin: Option<bool>, attempt: string)
    requires Sound(h)
    ensures var u := NewUser(h, salt, username, email, firstName, lastName, description, password, imageUrl, admin);
      h.check(u.hashedPassword, attempt) <==> attempt == password
  {
  }

  /** The users table as the session sees it: staged rows are flushed before a query. */
  class UserTable {
    var rows: seq<User>

    constructor ()
      ensures rows == []
    {
      rows := [];
    }

    /** `User.register`: build the record and stage it (`db.session.add`); nothing is committed. */
    method Register(
      h: PasswordHasher, salt: string,
      username: string, email: string, firstName: string, lastName: string,
      description: string, password: string,
      imageUrl: Option<string>, admin: Option<bool>) returns (u: User)
      modifies this
      ensures u == NewUser(h, salt, username, email, firstName, lastName, description, password, imageUrl, admin)
      ensures rows == old(rows) + [u]
    {
      u := NewUser(h, salt, username, email, firstName, lastName, description, password, imageUrl, admin);
      rows := rows + [u];
    }
  }

  /** `User.query.filter_by(username=username).first()`: the position of the first such row. */
  function FirstWithUsername(users: seq<User>, username: string): (r: Option<nat>)
    ensures r.None? <==> forall i :: 0 <= i < |users| ==> users[i].username != username
    ensures r.Some? ==> r.value < |users| && users[r.value].username == username
    ensures r.Some? ==> forall i :: 0 <= i < r.value ==> users[i].username != username
    decreases |users|
  {
    if users == [] then None
    else if users[0].username == username then Some(0)
    else match FirstWithUsername(users[1..], username)
      case None => None
      case Some(k) => Some(k + 1)
  }

  /**
   * `User.authenticate`: the first user named `username`, if the password
   * check passes on its stored hash; `None` stands for the `False` it returns
   * otherwise, whether the name is unknown or the password wrong.
   */
  function Authenticate(users: seq<User>, h: PasswordHasher, username: string, password: string): (r: Option<User>)
    ensures r.Some? ==> r.value in users && r.value.username == username && h.check(r.value.hashedPassword, password)
    ensures (forall u :: u in users ==> u.username != username) ==> r.None?
  {
    match FirstWithUsername(users, username)
    case None => None
    case Some(i) => if h.check(users[i].hashedPassword, password) then Some(users[i]) else None
  }

  /**
   * Registering a new username (the unique constraint forbids an existing
   * one) and authenticating with its password returns the registered user;
   * any other password is refused; other usernames authenticate as before.
   */
  lemma {:induction false} RegisterThenAuthenticate(
    users: seq<User>, h: PasswordHasher, salt: string,
    username: string, email: string, firstName: string, lastName: string,
    description: string, password: string,
    imageUrl: Option<string>, admin: Option<bool>)
    requires Sound(h)
    requires forall v :: v in users ==> v.username != username
    ensures var u := NewUser(h, salt, username, email, firstName, lastName, description, password, imageUrl, admin);
      && Authenticate(users + [u], h, username, password) == Some(u)
      && (forall q :: q != password ==> Authenticate(users + [u], h, username, q).None?)
      && (forall name, q :: name != username ==> Authenticate(users + [u], h, name, q) == Authenticate(users, h, name, q))
  {
    var u := NewUser(h, salt, username, email, firstName, lastName, description, password, imageUrl, admin);
    var t := users + [u];
    assert t[|users|] == u;
    assert FirstWithUsername(t, username) == Some(|users|) by {
      forall i | 0 <= i < |users| ensures t[i].username != username {
        assert t[i] == users[i];
      }
    }
    forall name | name != username ensures FirstWithUsername(t, name) == FirstWithUsername(users, name) {
      FirstWithUsernameAppend(users, u, name);
    }
  }

  /** Appending a row with another username does not change the first match. */
  lemma {:induction false} FirstWithUsernameAppend(users: seq<User>, u: User, name: string)
    requires u.username != name
    ensures FirstWithUsername(users + [u], name) == FirstWithUsername(users, name)
    decreases |users|
  {
    if users == [] {
      assert users + [u] == [u];
    } else {
      assert (users + [u])[1..] == users[1..] + [u];
      FirstWithUsernameAppend(users[1..], u, name);
    }
  }

  /** A wrong password fails whichever row of that name the query finds first. */
  lemma AuthenticateWrongPassword(users: seq<User>, h: PasswordHasher, username: string, password: string, salt: string, stored: string)
    requires Sound(h)
    requires forall u :: u in users && u.username == username ==> u.hashedPassword == h.hash(salt, stored)
    requires password != stored
    ensures Authenticate(users, h, username, password).None?
  {
  }

  /** `User.get_full_name`: first name, one space, last name. */
  function FullName(u: User): (r: string)
    ensures |r| == |u.firstName| + 1 + |u.lastName|
    ensures r[..|u.firstName|] == u.firstName && r[|u.firstName|] == ' ' && r[|u.firstName| + 1..] == u.lastName
  {
    u.firstName + " " + u.lastName
  }

  /**
   * When the first name holds no space, the full name's first space sits
   * right after it, so the two names can be read back from the full name.
   */
  lemma FullNameParts(u: User)
    requires ' ' !in u.firstName
    ensures IndexOf(FullName(u), ' ') == Some(|u.firstName|)
  {
  }

  /** The full name of the test user (tests.py). */
  lemma FullNameExample(h: PasswordHasher, salt: string)
    ensures FullName(NewUser(h, salt, "test", "test@test.com", "Testy", "MacTest", "Test Description.", "secret", None, None)) == "Testy MacTest"
  {
  }

  /** `Cafe.get_city_state` on the cafe's city (the `city` relationship resolved). */
  function GetCityState(cafe: Cafe, city: City): (r: string)
    requires city.code == cafe.cityCode
    ensures |r| == |city.name| + 2 + |city.state|
    ensures r[..|city.name|] == city.name && r[|city.name|..|city.name| + 2] == ", "
    ensures r[|city.name| + 2..] == city.state
  {
    city.name + ", " + city.state
  }

  /** With a two-letter state, the city name and the state can be read back from the text. */
  lemma CityStateParts(cafe: Cafe, city: City)
    requires city.code == cafe.cityCode && |city.state| == 2
    ensures var r := GetCityState(cafe, city);
      |r| == |city.name| + 4 && r[..|r| - 4] == city.name
      && r[|r| - 4..|r| - 2] == ", " && r[|r| - 2..] == city.state
  {
    var r := GetCityState(cafe, city);
    assert r[..|r| - 4] == city.name;
    assert r[|r| - 2..] == city.state;
  }

  /** The city/state text of the test cafe in San Francisco (tests.py). */
  lemma CityStateExample()
    ensures GetCityState(
      Cafe(1, "Test Cafe", "Test description", "http://testcafe.com/", "500 Sansome St", "sf", "http://testcafeimg.com/"),
      City("sf", "San Francisco", "CA")) == "San Francisco, CA"
  {
  }
}
