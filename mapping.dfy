/**
 * The MapQuest static-map helpers: the request URL for an address, and what
 * `save_map` hands to the download (the URL with its spaces written as
 * `%20`, and the file the image is saved to). The download is not modelled.
 */
module Mapping {
  import opened Wrappers
  import opened Strings

  const MapQuestHost: string := "https://www.mapquestapi.com"
  const StaticMapPath: string := "/staticmap/v5/map?key="
  /** `https://www.mapquestapi.com/staticmap/v5/map?key=`, the fixed start of every map URL. */
  const StaticMapEndpoint: string := MapQuestHost + StaticMapPath

  lemma NoSpaceConcat(a: string, b: string)
    requires ' ' !in a && ' ' !in b
    ensures ' ' !in a + b
  {
  }

  lemma EndpointHasNoSpace()
    ensures ' ' !in StaticMapEndpoint
  {
    assert ' ' !in MapQuestHost;
    assert ' ' !in StaticMapPath;
    NoSpaceConcat(MapQuestHost, StaticMapPath);
  }

  /** `{API_KEY}` in an f-string: an unset environment variable is `None` and prints as such. */
  function KeyText(apiKey: Option<string>): string
  {
    if apiKey.Some? then apiKey.value else "None"
  }

  function Base(keyText: string): string
  {
    StaticMapEndpoint + keyText
  }

  function Where(address: string, city: string, state: string): string
  {
    address + "," + city + "," + state
  }

  /** The f-string of `get_map_url`, the key already written out as text. */
  function MapUrl(keyText: string, address: string, city: string, state: string): string
  {
    Base(keyText) + "&center=" + Where(address, city, state)
      + "&size=@2x&zoom=15&locations=" + Where(address, city, state)
  }

  /**
   * `get_map_url`: the base, then the location as the map's center, the
   * fixed size and zoom, and the same location again as the marker.
   */
  function GetMapUrl(apiKey: Option<string>, address: string, city: string, state: string): (r: string)
    ensures |r| > |StaticMapEndpoint| && r[..|StaticMapEndpoint|] == StaticMapEndpoint
  {
    MapUrl(KeyText(apiKey), address, city, state)
  }

  /** Where each part sits in the URL: the location appears as the center and again as the marker. */
  lemma GetMapUrlLayout(apiKey: Option<string>, address: string, city: string, state: string)
    ensures var r, b, w := GetMapUrl(apiKey, address, city, state), Base(KeyText(apiKey)), Where(address, city, state);
      && |r| == |b| + 36 + 2 * |w|
      && r[..|b|] == b
      && r[|b|..|b| + 8] == "&center="
      && r[|b| + 8..|b| + 8 + |w|] == w
      && r[|b| + 8 + |w|..|r| - |w|] == "&size=@2x&zoom=15&locations="
      && r[|r| - |w|..] == w
  {
    var r, b, w := GetMapUrl(apiKey, address, city, state), Base(KeyText(apiKey)), Where(address, city, state);
    assert r == b + "&center=" + w + "&size=@2x&zoom=15&locations=" + w;
    assert r[..|b|] == b;
    assert r[|b|..|b| + 8] == "&center=";
    assert r[|b| + 8..|b| + 8 + |w|] == w;
    assert r[|b| + 8 + |w|..|r| - |w|] == "&size=@2x&zoom=15&locations=";
    assert r[|r| - |w|..] == w;
  }

  /** The file `save_map` writes: `{dir}/static/maps/{id}.jpg`, `dir` being the app's directory. */
  function MapPath(appDir: string, id: nat): (r: string)
    ensures |r| > |appDir| + 4 && r[..|appDir|] == appDir && r[|r| - 4..] == ".jpg"
  {
    appDir + "/static/maps/" + NatToString(id) + ".jpg"
  }

  /** The cafe id a map file of `appDir` is named after, if `path` is such a file. */
  function MapPathId(appDir: string, path: string): Option<nat>
  {
    var pre := appDir + "/static/maps/";
    if |path| >= |pre| + 4 && path[..|pre|] == pre && path[|path| - 4..] == ".jpg"
       && AllDigits(path[|pre|..|path| - 4])
    then Some(ParseNat(path[|pre|..|path| - 4]))
    else None
  }

  /** A map file's name gives back the id it was saved for. */
  lemma MapPathRoundTrip(appDir: string, id: nat)
    ensures MapPathId(appDir, MapPath(appDir, id)) == Some(id)
  {
    var pre := appDir + "/static/maps/";
    var p := MapPath(appDir, id);
    var d := NatToString(id);
    assert p == pre + d + ".jpg";
    assert p[..|pre|] == pre;
    assert p[|p| - 4..] == ".jpg";
    assert p[|pre|..|p| - 4] == d;
    ParseNatToString(id);
  }

  /** Two cafes never share a map file. */
  lemma MapPathsDistinct(appDir: string, id1: nat, id2: nat)
    requires id1 != id2
    ensures MapPath(appDir, id1) != MapPath(appDir, id2)
  {
    MapPathRoundTrip(appDir, id1);
    MapPathRoundTrip(appDir, id2);
  }

  /** What `save_map` passes to `urlretrieve`: the URL to fetch and the file to write. */
  datatype MapDownload = MapDownload(url: string, path: string)

  /**
   * `save_map` up to the download: the URL with every space written as
   * `%20`, so that none is left, and the map file of this id.
   */
  function SaveMap(apiKey: Option<string>, appDir: string, id: nat, address: string, city: string, state: string): (r: MapDownload)
    ensures ' ' !in r.url
    ensures r.path == MapPath(appDir, id)
  {
    MapDownload(EncodeSpaces(GetMapUrl(apiKey, address, city, state)), MapPath(appDir, id))
  }

  /** Rewriting a URL of this shape rewrites its variable parts only. */
  lemma {:induction false} EncodeSpacesUrlShape(b: string, c1: string, w: string, c2: string)
    requires ' ' !in c1 && ' ' !in c2
    ensures EncodeSpaces(b + c1 + w + c2 + w) == EncodeSpaces(b) + c1 + EncodeSpaces(w) + c2 + EncodeSpaces(w)
  {
    EncodeSpacesConcat(b, c1);
    EncodeSpacesConcat(b + c1, w);
    EncodeSpacesConcat(b + c1 + w, c2);
    EncodeSpacesConcat(b + c1 + w + c2, w);
    EncodeSpacesNoSpaceUnchanged(c1);
    EncodeSpacesNoSpaceUnchanged(c2);
  }

  /** The rewrite of a location rewrites the address, city and state one by one. */
  lemma {:induction false} EncodeSpacesWhere(address: string, city: string, state: string)
    ensures EncodeSpaces(Where(address, city, state)) == Where(EncodeSpaces(address), EncodeSpaces(city), EncodeSpaces(state))
  {
    EncodeSpacesNoSpaceUnchanged(",");
    EncodeSpacesConcat(address, ",");
    EncodeSpacesConcat(address + ",", city);
    EncodeSpacesConcat(address + "," + city, ",");
    EncodeSpacesConcat(address + "," + city + ",", state);
  }

  lemma EncodeSpacesSpaceFreePrefix(p: string, k: string)
    requires ' ' !in p
    ensures EncodeSpaces(p + k) == p + EncodeSpaces(k)
  {
    EncodeSpacesConcat(p, k);
    EncodeSpacesNoSpaceUnchanged(p);
  }

  /** Only the key part of the base can hold spaces. */
  lemma EncodeSpacesBase(keyText: string)
    ensures EncodeSpaces(Base(keyText)) == Base(EncodeSpaces(keyText))
  {
    EndpointHasNoSpace();
    EncodeSpacesSpaceFreePrefix(StaticMapEndpoint, keyText);
  }

  /** An unset key is written as "None", which the rewrite leaves alone. */
  lemma EncodeSpacesUnsetKey()
    ensures EncodeSpaces(KeyText(None)) == KeyText(None)
  {
    EncodeSpacesNoSpaceUnchanged("None");
  }

  /**
   * The fetched URL is the URL built from the rewritten parts: the
   * rewrite touches only the key and the location, identically at the
   * center and at the marker.
   */
  lemma SaveMapUrlFromParts(apiKey: Option<string>, appDir: string, id: nat, address: string, city: string, state: string)
    ensures SaveMap(apiKey, appDir, id, address, city, state).url ==
      MapUrl(EncodeSpaces(KeyText(apiKey)), EncodeSpaces(address), EncodeSpaces(city), EncodeSpaces(state))
  {
    assert ' ' !in "&center=";
    assert ' ' !in "&size=@2x&zoom=15&locations=";
    EncodeSpacesUrlShape(Base(KeyText(apiKey)), "&center=", Where(address, city, state), "&size=@2x&zoom=15&locations=");
    EncodeSpacesBase(KeyText(apiKey));
    EncodeSpacesWhere(address, city, state);
  }

  /** A location without spaces (and a key without spaces) is fetched exactly as `get_map_url` builds it. */
  lemma SaveMapUrlWithoutSpaces(apiKey: Option<string>, appDir: string, id: nat, address: string, city: string, state: string)
    requires ' ' !in GetMapUrl(apiKey, address, city, state)
    ensures SaveMap(apiKey, appDir, id, address, city, state).url == GetMapUrl(apiKey, address, city, state)
  {
    EncodeSpacesNoSpaceUnchanged(GetMapUrl(apiKey, address, city, state));
  }
}
