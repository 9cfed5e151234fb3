# Flask Cafe in Dafny

A Dafny model of the core of Flask Cafe, a small Flask/SQLAlchemy/WTForms web
application that lists cafes by city. These parts are modelled:

- the records of `models.py`: `City`, `Cafe`, `User`, user registration with a
  password hash, and authentication;
- the cafe routes of `app.py`: list, detail, add and edit;
- the WTForms forms of `forms.py`, as validator chains run over submitted form data;
- the MapQuest URL builder and map-download path of `mapping.py`.

Module layout, one file per module:

| file | module | models |
|---|---|---|
| `wrappers.dfy` | `Wrappers` | `Option` |
| `strings.dfy` | `Strings` | Python's `str.isspace`; decimal rendering of ids and its parser; `str.replace(' ', '%20')` |
| `ordering.dfy` | `Ordering` | the `ORDER BY` of text columns: code-point lexicographic order and a sort by key |
| `models.dfy` | `Models` | `models.py` |
| `forms.dfy` | `Forms` | `forms.py` |
| `app.dfy` | `App` | `app.py` (class `CafeStore`: the `cafes` table and the route handlers) |
| `mapping.dfy` | `Mapping` | `mapping.py` |

How the source's behaviour is represented:

- The database tables are Dafny state. `App.CafeStore` holds `cafes: map<int, Cafe>`,
  keyed by primary key; a `nextId` counter plays the part of the id sequence; the
  city table is `cities`. `Models.UserTable` holds the users added to the session
  as `rows: seq<User>`, in query order.
- A route handler is a method. It takes a `Request` (`Get` or `Post(data)`) and
  returns a `Response`, one of:
  - `NotFound`, for `get_or_404`;
  - `Render(form)`, the form re-displayed with the data it shows;
  - `Redirect(location, flash)`, a redirect together with the flashed message;
  - `ServerError`, for an exception that escapes the handler: a failed commit, or
    the `TypeError` of the city-choices call (see Findings).
- A form is a list of fields, and each field has a chain of validators. `DataRequired` and
  `Optional` halt a chain the way WTForms does. A select field accepts only a value
  among its choices. `validate_on_submit` is `Accepts`: the request is a POST and
  every field validates.
- The formats accepted by `URL()` and `Email()` are the parameter `FormatChecks`.
  bcrypt is the parameter `PasswordHasher`: `hash(salt, password)` and
  `check(hash, password)`, with the random salt passed in. `Sound(h)` states
  that a hash accepts the password it was made from and no other.
- `MAPQUEST_API_KEY` is the parameter `apiKey: Option<string>`. An unset key is
  rendered as `None`, as the f-string does. The application directory is the
  parameter `appDir`.

Facts of the code the model keeps:

- The add handler does not call `save_map`: no map is fetched when a cafe is added.
- `Cafe.description` and `Cafe.url` are validated `Optional()`: empty values are
  stored.
- No route checks for an admin user: the login machinery in `app.py` is commented out.
- Both form handlers fetch the city choices with `CafeForm.get_city_choices()`. That
  call names a plain method on the class and raises `TypeError` (see Findings). The
  handlers take the number of arguments that call passes as the parameter
  `choicesArgs`: `0` is the code as written and ends in `ServerError`; `1` is the
  evidently intended call on the form, which yields the choices.

## Model

| member | source | states |
|---|---|---|
| Models.NewUser | models.py:142-168 | the record `register` builds: username, email, first name, last name and description are copied as given; a given `admin` or `image_url` is stored; without `admin` it is not an admin, without `image_url` it has the default picture; the credential stored is the hash of the password |
| Models.RegisterDefaults | models.py:142-168 | registering without `admin` or `image_url` gives a non-admin user with `/static/images/default-pic.png`; username, email, first and last name and description are stored as given |
| Models.NewUserCredential | models.py:156-157 | the stored credential is the hash of the password; with a sound hasher the credential checks true for exactly the registered password |
| Models.UserTable.Register | models.py:159-172 | the returned user is the registration record, and the session's user rows gain exactly that user at the end |
| Models.FirstWithUsername | models.py:183 | `filter_by(username).first()`: none iff no row has the name; otherwise the index of the first row with it |
| Models.Authenticate | models.py:174-190 | a returned user is in the table, has the name asked for and a credential that checks against the password; an unknown name always fails |
| Models.RegisterThenAuthenticate | models.py:142-190 | after registering a fresh username, authenticating with that name and password returns the new user, any other password fails, and every other username authenticates as before |
| Models.FirstWithUsernameAppend | models.py:170-183 | appending a user with another name does not change which row the username query finds |
| Models.AuthenticateWrongPassword | models.py:185-190 | a password other than the one the rows of that name were hashed from is rejected |
| Models.FullName | models.py:139-140 | the full name is the first name, one space, then the last name, each at its position |
| Models.FullNameParts | models.py:139-140 | when the first name has no space, the first space of the full name sits right after it |
| Models.FullNameExample | models.py:139-140 | the test user's full name is `Testy MacTest` |
| Models.GetCityState | models.py:80-84 | the city name, then `", "`, then the state, each at its position |
| Models.CityStateParts | models.py:80-84 | with a two-letter state the result is the city name, `", "`, then the state, four characters longer than the name |
| Models.CityStateExample | models.py:80-84 | the San Francisco cafe gives `San Francisco, CA` |
| Forms.RunChain | forms.py:5-93 | a validator chain either stops with no error (an `Optional` on a blank value), stops with only the required error, or keeps the errors found before it; without `Optional`, a chain that starts with an error never ends error-free |
| Forms.FieldErrors | forms.py:28-31 | a select field without `Optional` whose value is not among the choices has an error |
| Forms.FormValid | forms.py:5-93 | a valid form's select fields without `Optional` hold one of the choices |
| Forms.CafeFormValidIff | forms.py:5-36 | the cafe form validates iff name and address have non-whitespace content, the city code is among the choices, and url and image url are each empty or a URL; the description is never rejected |
| Forms.CafeFormRequiresNameAndAddress | forms.py:8-26 | a blank name or a blank address rejects the cafe form |
| Forms.CafeFormOptionalFields | forms.py:13-21 | with name, address and city in order, empty description, url and image url are accepted |
| Forms.SignupFormValidIff | forms.py:44-80 | the signup form validates iff username, first and last name are filled, the email is filled and an email, the password is filled and at least 6 characters, and the image url is empty or a URL |
| Forms.SignupFormRejects | forms.py:44-75 | a password shorter than 6 characters, an email the e-mail check refuses, or a blank username, first name, last name or email rejects signup |
| Forms.LoginFormValidIff | forms.py:82-93 | the login form validates iff username and password are both filled |
| Forms.CityChoices | forms.py:39-42 | `get_city_choices`: sorted by city code, and a permutation of the `(code, name)` pairs of the cities table |
| Forms.CityChoicesSpec | forms.py:39-42 | the choices are one per city and offer exactly the cities' codes |
| Forms.CityChoicesDistinctCodes | forms.py:39-42 | with `code` the primary key of the cities table (models.py:17-20), no two choices share a code |
| Forms.CityChoicesExample | forms.py:39-42 | the one-city San Francisco table gives `[("sf", "San Francisco")]` |
| Forms.CallGetCityChoices | forms.py:39 | the method, declared with the single parameter `self`, returns its list only when called with one argument; otherwise the call raises `TypeError` |
| Forms.ClassCallRaises | app.py:99 | the call `CafeForm.get_city_choices()` has no bound argument and raises whatever the cities; called on an instance it returns the city choices |
| Ordering.LexLeTotal | app.py:74 | the text order of `order_by` relates any two strings |
| Ordering.LexLeTransitive | app.py:74 | the text order is transitive |
| Ordering.LexLeAntisymmetric | app.py:74 | two strings ordered both ways are equal |
| Ordering.LexLeReflexive | app.py:74 | every string is ordered before itself |
| Ordering.SortBySorted | app.py:74 | sorting by a key yields a sequence ordered by that key |
| Ordering.SortByPermutation | app.py:74 | sorting by a key keeps exactly the same elements, with multiplicity |
| Ordering.InsertSorted | app.py:74 | inserting into a sorted sequence keeps it sorted |
| Ordering.InsertPermutation | app.py:74 | inserting adds exactly the one element |
| Ordering.NoDuplicatesPermutation | app.py:74 | a reordering of rows without repeats has no repeats |
| App.CafePath | app.py:116 | the redirect target is `/cafes/` followed by the id's decimal digits |
| App.CafePathRoundTrip | app.py:116 | the `/cafes/<id>` location a handler redirects to names that id again |
| App.StoredImageUrl | app.py:108 | `image_url.data or default`: a submitted image url is stored as is; an empty one becomes `/static/images/default-cafe.jpg`; the stored value is never empty |
| App.Accepts | app.py:101 | `validate_on_submit`: an accepted request is a POST with a non-blank name and address and the code of an existing city |
| App.NewCafe | app.py:102-109 | the added row has the id it is stored under, the submitted name, description, url, address and city code, and the submitted image url or, when that is empty, `/static/images/default-cafe.jpg` |
| App.EditedCafe | app.py:141-146 | the edited row keeps its id; its name and city code are what the driver stores for the submitted one-element tuples; its image url is the submitted one or, when that is empty, `/static/images/default-cafe.jpg` |
| App.Prefill | app.py:128-136 | the edit form is built from five fields and no image url |
| App.PrefillShowsCafe | app.py:128-136 | the edit form shows the cafe's name, description, url, address and city code, and leaves the image url empty |
| App.EditedCafeWithPlainTuples | app.py:141-146 | when the tuple values of the edit assignments are adapted as their single element, an edit stores the same row an add would |
| App.RowsFrom | app.py:74 | the rows of the table between two ids, each exactly once and in increasing id order |
| App.CafeStore.CafeList | app.py:70-79 | the listed cafes are ordered by name, are exactly the rows of the table, and list no row twice |
| App.CafeStore.CafeDetail | app.py:82-91 | `get_or_404`: a cafe iff the id is a row, and then that row |
| App.CafeStore.HandleAddCafe | app.py:94-119 | when the choices call raises (as written), a server error with no change. Otherwise an accepted POST inserts the submitted cafe under a fresh id, with the image default applied. It redirects to `/cafes/<new id>` with the flash `<name> added`. Any other request renders the form (empty on GET, the submitted data on POST) and changes nothing |
| App.CafeStore.HandleEditCafe | app.py:122-155 | an unknown id is not found, with no change. For a known id, when the choices call raises (as written), a server error with no change. Otherwise a request that is not accepted renders the prefilled form on GET and the submitted data on POST, with no change. An accepted POST replaces that one row and leaves every other row as it was; it redirects to `/cafes/<id>` with the flash `<stored name> edited`. When the stored city code is no city, the commit fails with no change |
| Mapping.GetMapUrl | mapping.py:10-15 | the URL starts with the MapQuest static-map endpoint |
| Mapping.GetMapUrlLayout | mapping.py:10-15 | the URL is the key base, then `&center=`, the `address,city,state` location, `&size=@2x&zoom=15&locations=` and the location again; its length is that of the parts |
| Mapping.EndpointHasNoSpace | mapping.py:13 | the MapQuest endpoint prefix has no space |
| Mapping.MapPath | mapping.py:21-22 | the map file lies under the application directory and ends in `.jpg` |
| Mapping.MapPathRoundTrip | mapping.py:21-22 | the id is recovered from the file path `<app dir>/static/maps/<id>.jpg` |
| Mapping.MapPathsDistinct | mapping.py:21-22 | different cafe ids get different map files |
| Mapping.SaveMap | mapping.py:18-25 | the URL fetched has no space in it, and the image is written to the cafe's map path |
| Mapping.SaveMapUrlFromParts | mapping.py:23-25 | the fetched URL is the map URL built from the space-encoded key text, address, city and state |
| Mapping.SaveMapUrlWithoutSpaces | mapping.py:23-25 | a map URL with no space is fetched unchanged |
| Mapping.EncodeSpacesWhere | mapping.py:14 | encoding the location equals building it from the encoded address, city and state |
| Mapping.EncodeSpacesBase | mapping.py:13 | encoding the key base only encodes the key text |
| Mapping.EncodeSpacesUnsetKey | mapping.py:8-13 | the text of an unset key is unchanged by the encoding |
| Strings.EncodeSpaces | mapping.py:25 | `replace(' ', '%20')` leaves no space and lengthens the string by two characters per space |
| Strings.EncodeSpacesChar | mapping.py:25 | a space becomes `%20`; every other character is kept |
| Strings.EncodeSpacesAtSpace | mapping.py:25 | a space between two parts becomes `%20`, and each part is rewritten on its own |
| Strings.EncodeSpacesIdempotent | mapping.py:25 | encoding twice is encoding once |
| Strings.EncodeSpacesNoSpaceUnchanged | mapping.py:25 | a string without a space is unchanged |
| Strings.EncodeSpacesConcat | mapping.py:25 | encoding a concatenation is concatenating the encodings |
| Strings.NatToString | mapping.py:22 | an id renders as a non-empty run of decimal digits with no leading zero |
| Strings.ParseNatToString | mapping.py:22 | reading the rendered digits back gives the id |
| Strings.NatToStringInjective | mapping.py:22 | different ids render differently |

## Left out

- The homepage route, `connect_db`, the configuration, the debug toolbar and the template
  rendering: no application logic. Template output is the form data a `Render` carries.
- The session hook `add_user_to_g` and the helpers `do_login` and `do_logout` are
  commented out in app.py:32-53, and app.py has no signup, login or logout route, so none
  of these is modelled. The constant `CURR_USER_KEY` (app.py:28) is defined, but no route uses it.
- `App.Accepts`: Flask-WTF's CSRF check is left out. As configured in app.py:13-23,
  `validate_on_submit` also rejects a POST without a valid `csrf_token`. The model is the
  configuration with `WTF_CSRF_ENABLED` off, which is what tests.py uses.
- `Models.Sound`: bcrypt reads only the first 72 bytes of a password, so two passwords
  that share those bytes both check true. The model assumes a hash without that truncation.
- bcrypt and the `$2b$` format: the model keeps the hash abstract as
  `PasswordHasher`, and the random salt is a parameter.
- The regular expressions inside WTForms' `URL()` and `Email()`: they are the `FormatChecks` parameter.
- WTForms' `Length` counts Python code points, like Dafny `|s|`. Every validator
  message is modelled only as a field/validator pair.
- `urllib.request.urlretrieve` is network and file I/O: `SaveMap` returns the URL and the path
  it would use. `os.path.abspath(os.path.dirname(__file__))` is the parameter `appDir`.
- `Models.UserTable.Register`: the user's `id` is not modelled. `register` only adds to the
  session and the id is assigned at flush. The `unique` constraints on username and
  email are not modelled: `UserTable.Register` accepts a duplicate.
- `Models.Authenticate`: the session autoflushes staged rows before the query of
  models.py:183. A duplicate username or email staged by `register` therefore makes
  that query raise `IntegrityError`. The model answers from the first row with the name instead.
- `App.CafeStore.HandleEditCafe`: the edit handler assigns one-element tuples
  (`cafe.name = form.name.data,`). What the database driver stores for such a tuple is the
  parameter `oneTuple`, so the stored name and the flash are stated in terms of it.
  `EditedCafeWithPlainTuples` covers a driver that stores the element.
- `App.CafeStore.HandleEditCafe` and `App.CafeStore.HandleAddCafe`: a field missing
  from a POST body reads as the empty string. WTForms would fall back to the prefilled data
  for a missing field on edit.
- `Ordering.SortBySorted`: the database's collation for `ORDER BY name` and `ORDER BY code`
  is modelled as code-point order. Rows with equal names may come back in any order
  from the database; the model fixes one.
- Python's truthiness of `form.image_url.data or ...`: `None` (a field not sent) and `""`
  are both the empty string here.
- `Models.GetCityState` requires the city whose code the cafe references: the
  foreign key is not followed through a query.

## Findings

| source | as written | input that shows it | evidently intended | confidence | as-written member | corrected member |
|---|---|---|---|---|---|---|
| app.py:99 | `CafeForm.get_city_choices()` calls the method on the class. `get_city_choices` is declared with a `self` parameter (forms.py:39) and is not a class method, so the call passes no argument. The same call is at app.py:138 | any GET or POST to `/cafes/add`, or to `/cafes/<id>/edit` for an existing id: the call raises `TypeError` before the form is validated, and the handlers with `choicesArgs` 0 answer `ServerError` | the choices computed from the cities table, as for a class method | high, not executed | Forms.ClassCallRaises | Forms.CityChoices |
