/**
 * The cafe routes of the Flask app over an in-memory cafes table: the
 * name-ordered list, the detail lookup, and the add and edit handlers.
 * A handler's HTTP answer is modelled as a `Response`: not found, the form
 * rendered again, or a redirect with its flashed message.
 */
module App {
  import opened Wrappers
  import opened Strings
  import opened Ordering
  import opened Models
  import opened Forms

  /** A request to a form route: a GET, or a POST carrying the form data. */
  datatype Request = Get | Post(data: FormData)

  datatype Response =
    | NotFound                                   // `get_or_404` found no row
    | Render(form: FormData)                     // the form page, with these field values
    | Redirect(location: string, flash: string)  // the redirect and the message flashed before it
    | ServerError                                // an exception escaped the handler: a failed commit, or the choices call raised

  /** The detail page of a cafe: `/cafes/{id}`. */
  function CafePath(id: nat): (r: string)
    ensures |r| > 7 && r[..7] == "/cafes/" && AllDigits(r[7..])
  {
    "/cafes/" + NatToString(id)
  }

  /** The route `/cafes/<int:cafe_id>`: the id a path names, if it names one. */
  function CafeIdOf(path: string): Option<nat>
  {
    if |path| > 7 && path[..7] == "/cafes/" && AllDigits(path[7..]) then Some(ParseNat(path[7..])) else None
  }

  /** The detail path of a cafe leads back to that cafe. */
  lemma CafePathRoundTrip(id: nat)
    ensures CafeIdOf(CafePath(id)) == Some(id)
  {
    var p := CafePath(id);
    assert p[..7] == "/cafes/";
    assert p[7..] == NatToString(id);
    ParseNatToString(id);
  }

  /** `form.image_url.data or Cafe.image_url.default.arg`. */
  function StoredImageUrl(v: string): (r: string)
    ensures r != ""
    ensures v != "" ==> r == v
    ensures v == "" ==> r == DefaultCafeImageUrl
  {
    if v == "" then DefaultCafeImageUrl else v
  }

  /** `CafeForm`'s data checked against the choices built from the cities table. */
  predicate Accepts(req: Request, cities: seq<City>, checks: FormatChecks)
    ensures Accepts(req, cities, checks) ==>
      && req.Post?
      && Filled(Value(req.data, "name")) && Filled(Value(req.data, "address"))
      && Value(req.data, "city_code") in CityCodes(cities)
  {
    CityChoicesSpec(cities);
    CafeFormValidIff(if req.Post? then req.data else map[], ChoiceCodes(CityChoices(cities)), checks);
    req.Post? && FormValid(CafeForm, req.data, ChoiceCodes(CityChoices(cities)), checks)
  }

  /** The row `handle_add_cafe` inserts under `id`. */
  function NewCafe(id: int, data: FormData): (r: Cafe)
    ensures r.id == id && r.imageUrl != ""
    ensures r.name == Value(data, "name") && r.description == Value(data, "description")
    ensures r.url == Value(data, "url") && r.address == Value(data, "address")
    ensures r.cityCode == Value(data, "city_code")
    ensures r.imageUrl == StoredImageUrl(Value(data, "image_url"))
  {
    Cafe(id, Value(data, "name"), Value(data, "description"), Value(data, "url"),
         Value(data, "address"), Value(data, "city_code"), StoredImageUrl(Value(data, "image_url")))
  }

  /**
   * The row `handle_edit_cafe` writes over `c`. Five of its assignments end
   * in a comma and so assign the one-element tuple `(value,)`; what the
   * database stores for such a tuple is `oneTuple(value)`.
   */
  function EditedCafe(c: Cafe, data: FormData, oneTuple: string -> string): (r: Cafe)
    ensures r.id == c.id && r.imageUrl != ""
    ensures r.imageUrl == StoredImageUrl(Value(data, "image_url"))
    ensures r.name == oneTuple(Value(data, "name")) && r.cityCode == oneTuple(Value(data, "city_code"))
  {
    Cafe(c.id, oneTuple(Value(data, "name")), oneTuple(Value(data, "description")),
         oneTuple(Value(data, "url")), oneTuple(Value(data, "address")),
         oneTuple(Value(data, "city_code")), StoredImageUrl(Value(data, "image_url")))
  }

  /** The data the edit form is built with: the cafe's current values, but no image URL. */
  function Prefill(c: Cafe): (r: FormData)
    ensures "image_url" !in r && |r.Keys| == 5
  {
    map["name" := c.name, "description" := c.description, "url" := c.url,
        "address" := c.address, "city_code" := c.cityCode]
  }

  /** The edit form shows the cafe's name, description, URL, address and city, and an empty image URL. */
  lemma PrefillShowsCafe(c: Cafe)
    ensures Value(Prefill(c), "name") == c.name && Value(Prefill(c), "description") == c.description
    ensures Value(Prefill(c), "url") == c.url && Value(Prefill(c), "address") == c.address
    ensures Value(Prefill(c), "city_code") == c.cityCode && Value(Prefill(c), "image_url") == ""
  {
  }

  /** If the driver stores a one-element tuple as its element, the edit stores the form's values. */
  lemma EditedCafeWithPlainTuples(c: Cafe, data: FormData, oneTuple: string -> string)
    requires forall s :: oneTuple(s) == s
    ensures EditedCafe(c, data, oneTuple) == NewCafe(c.id, data)
  {
  }

  /** Every row sits under its own id. */
  ghost predicate KeyedById(cafes: map<int, Cafe>)
  {
    forall id :: id in cafes ==> cafes[id].id == id
  }

  /** The rows with ids in `[lo, hi)`, in id order (a table scan). */
  function RowsFrom(cafes: map<int, Cafe>, lo: int, hi: int): (r: seq<Cafe>)
    requires KeyedById(cafes)
    ensures forall id :: id in cafes && lo <= id < hi ==> cafes[id] in r
    ensures forall c :: c in r ==> c.id in cafes && cafes[c.id] == c && lo <= c.id < hi
    ensures forall i, j :: 0 <= i < j < |r| ==> r[i].id < r[j].id
    decreases hi - lo
  {
    if lo >= hi then []
    else (if lo in cafes then [cafes[lo]] else []) + RowsFrom(cafes, lo + 1, hi)
  }

  function CafeName(c: Cafe): string
  {
    c.name
  }

  class CafeStore {
    /** The cities table: reference data, never changed by the app. */
    const cities: seq<City>
    /** The cafes table, by id. */
    var cafes: map<int, Cafe>
    /** The next value of the cafes id sequence (`SERIAL`, starting at 1). */
    var nextId: int

    /** Ids come from the sequence and key their rows; every cafe's city exists. */
    ghost predicate Valid()
      reads this
    {
      && nextId >= 1
      && DistinctCodes(cities)
      && KeyedById(cafes)
      && (forall id :: id in cafes ==> 1 <= id < nextId)
      && (forall id :: id in cafes ==> cafes[id].cityCode in CityCodes(cities))
    }

    constructor (cities: seq<City>)
      requires DistinctCodes(cities)
      ensures Valid()
      ensures this.cities == cities && cafes == map[] && nextId == 1
    {
      this.cities := cities;
      cafes := map[];
      nextId := 1;
    }

    /** `cafe_list`: `Cafe.query.order_by('name').all()`, every row once, in name order. */
    method CafeList() returns (r: seq<Cafe>)
      requires Valid()
      ensures SortedBy(r, CafeName)
      ensures forall id :: id in cafes ==> cafes[id] in r
      ensures forall c :: c in r ==> c.id in cafes && cafes[c.id] == c
      ensures NoDuplicates(r)
    {
      var rows := RowsFrom(cafes, 1, nextId);
      r := SortBy(rows, CafeName);
      SortBySorted(rows, CafeName);
      SortByPermutation(rows, CafeName);
      forall c ensures c in r <==> c in rows {
        assert c in r <==> c in multiset(r);
        assert c in rows <==> c in multiset(rows);
      }
      assert NoDuplicates(rows) by {
        forall i, j | 0 <= i < j < |rows| ensures rows[i] != rows[j] {
          assert rows[i].id < rows[j].id;
        }
      }
      NoDuplicatesPermutation(rows, r);
    }

    /** `cafe_detail`: the row with this id, or nothing (a 404). */
    method CafeDetail(id: int) returns (r: Option<Cafe>)
      requires Valid()
      ensures r.Some? <==> id in cafes
      ensures r.Some? ==> r.value == cafes[id] && r.value.id == id
    {
      if id in cafes {
        r := Some(cafes[id]);
      } else {
        r := None;
      }
    }

    /**
     * `handle_add_cafe`. The city choices are fetched first; `choicesArgs` is
     * the number of arguments that call passes (none as written, so it
     * raises and the request ends in a server error). With the choices in
     * hand, a GET or a POST the form rejects renders the form and changes
     * nothing; an accepted POST inserts one row under a fresh id, leaves
     * every other row as it was and redirects to the new cafe's page.
     */
    method HandleAddCafe(choicesArgs: nat, req: Request, checks: FormatChecks) returns (resp: Response)
      requires Valid()
      modifies this
      ensures Valid()
      ensures choicesArgs != 1 ==> resp == ServerError && cafes == old(cafes) && nextId == old(nextId)
      ensures choicesArgs == 1 && Accepts(req, cities, checks) ==>
        && old(nextId) !in old(cafes)
        && cafes == old(cafes)[old(nextId) := NewCafe(old(nextId), req.data)]
        && nextId == old(nextId) + 1
        && resp == Redirect(CafePath(old(nextId)), Value(req.data, "name") + " added")
        && CafeIdOf(resp.location) == Some(old(nextId))
      ensures choicesArgs == 1 && !Accepts(req, cities, checks) ==>
        && cafes == old(cafes) && nextId == old(nextId)
        && resp == Render(if req.Get? then map[] else req.data)
    {
      var call := CallGetCityChoices(choicesArgs, cities);
      if call.TypeError? {
        return ServerError;
      }
      if Accepts(req, cities, checks) {
        var id := nextId;
        var cafe := NewCafe(id, req.data);
        cafes := cafes[id := cafe];
        nextId := nextId + 1;
        resp := Redirect(CafePath(id), cafe.name + " added");
        CafePathRoundTrip(id);
      } else {
        resp := Render(if req.Get? then map[] else req.data);
      }
    }

    /**
     * `handle_edit_cafe`: an unknown id is a 404. The city choices are
     * fetched next, with `choicesArgs` arguments as in `HandleAddCafe`; when
     * that call raises, the request is a server error. Otherwise a GET renders the form
     * filled from the row; a rejected POST renders the submitted form; an
     * accepted POST rewrites that one row (its id and every other row stay)
     * and redirects to its page, unless the written city code names no city,
     * in which case the commit fails on the foreign key and nothing changes.
     */
    method HandleEditCafe(choicesArgs: nat, cafeId: int, req: Request, checks: FormatChecks, oneTuple: string -> string)
      returns (resp: Response)
      requires Valid()
      modifies this
      ensures Valid()
      ensures nextId == old(nextId)
      ensures cafeId !in old(cafes) ==> resp == NotFound && cafes == old(cafes)
      ensures cafeId in old(cafes) && choicesArgs != 1 ==> resp == ServerError && cafes == old(cafes)
      ensures cafeId in old(cafes) && choicesArgs == 1 && !Accepts(req, cities, checks) ==>
        && cafes == old(cafes)
        && resp == Render(if req.Get? then Prefill(old(cafes)[cafeId]) else req.data)
      ensures cafeId in old(cafes) && choicesArgs == 1 && Accepts(req, cities, checks) ==>
        var edited := EditedCafe(old(cafes)[cafeId], req.data, oneTuple);
        if edited.cityCode in CityCodes(cities) then
          && cafes == old(cafes)[cafeId := edited]
          && cafes.Keys == old(cafes).Keys
          && resp == Redirect(CafePath(cafeId), edited.name + " edited")
          && CafeIdOf(resp.location) == Some(cafeId)
        else
          cafes == old(cafes) && resp == ServerError
    {
      if cafeId !in cafes {
        return NotFound;
      }
      var cafe := cafes[cafeId];
      var call := CallGetCityChoices(choicesArgs, cities);
      if call.TypeError? {
        return ServerError;
      }
      if !Accepts(req, cities, checks) {
        return Render(if req.Get? then Prefill(cafe) else req.data);
      }
      var edited := EditedCafe(cafe, req.data, oneTuple);
      if edited.cityCode !in CityCodes(cities) {
        return ServerError;
      }
      cafes := cafes[cafeId := edited];
      resp := Redirect(CafePath(cafeId), edited.name + " edited");
      CafePathRoundTrip(cafeId);
    }
  }
}
