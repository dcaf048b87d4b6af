/**
 * Normalisation of content-management records into display data
 * (src/components/menu-route-panel.tsx): asset URL fix-up, the id-to-asset
 * lookup table, asset-link id collection, first-image selection and
 * description extraction.
 */
module ContentfulRecords {
  import opened Optional
  import opened Strings

  /** A decoded JSON value: the `unknown` fields of a record. */
  datatype Json =
    | JNull
    | JBool(b: bool)
    | JNum(n: int)
    | JStr(s: string)
    | JArr(items: seq<Json>)
    | JObj(members: map<string, Json>)

  datatype AssetFile = AssetFile(url: Option<string>, contentType: Option<string>)

  /** An asset of the response's side table; `id` is `sys.id`, `file` is `fields.file`. */
  datatype Asset = Asset(id: Option<string>, file: Option<AssetFile>)

  const ImageHost: string := "https://images.ctfassets.net"

  /**
   * Makes an asset URL absolute: protocol-relative URLs get "https:",
   * host-relative ones the image host; a missing or empty URL gives `None`.
   */
  function NormalizeContentfulAssetUrl(url: Option<string>): (r: Option<string>)
    ensures url.None? || url == Some("") <==> r.None?
    ensures r.Some? && StartsWith(url.value, "//") ==> r.value == "https:" + url.value
    ensures r.Some? && StartsWith(url.value, "/") && !StartsWith(url.value, "//") ==> r.value == ImageHost + url.value
    ensures r.Some? && !StartsWith(url.value, "/") ==> r == url
    ensures r.Some? ==> r.value != [] && r.value[0] != '/'
  {
    match url
    case None => None
    case Some(u) =>
      if u == "" then None
      else if StartsWith(u, "//") then Some("https:" + u)
      else if StartsWith(u, "/") then Some(ImageHost + u)
      else Some(u)
  }

  /** Normalising an already normalised URL changes nothing. */
  lemma NormalizeAssetUrlIdempotent(url: Option<string>)
    ensures NormalizeContentfulAssetUrl(NormalizeContentfulAssetUrl(url)) == NormalizeContentfulAssetUrl(url)
  {
  }

  // ---------------------------------------------------------------------
  // The id-to-asset lookup table

  /** `asset.sys?.id` is truthy. */
  predicate HasId(a: Asset, id: string) {
    id != "" && a.id == Some(id)
  }

  /** The last asset in `assets` carrying `id`, the one a later `set` leaves in the table. */
  function LastAssetWithId(assets: seq<Asset>, id: string): (r: Option<Asset>)
    ensures r.None? <==> forall i :: 0 <= i < |assets| ==> !HasId(assets[i], id)
    ensures r.Some? ==>
      exists i :: (0 <= i < |assets| && assets[i] == r.value && HasId(assets[i], id)
                   && forall j :: i < j < |assets| ==> !HasId(assets[j], id))
    decreases |assets|
  {
    if assets == [] then None
    else if HasId(assets[|assets| - 1], id) then Some(assets[|assets| - 1])
    else LastAssetWithId(assets[..|assets| - 1], id)
  }

  /**
   * `buildContentfulAssetMap`: one entry per non-empty asset id; for a
   * repeated id the later asset wins; no side table gives an empty map.
   */
  method BuildContentfulAssetMap(assets: Option<seq<Asset>>) returns (m: map<string, Asset>)
    ensures assets.None? ==> m == map[]
    ensures assets.Some? ==> forall id :: id in m <==> LastAssetWithId(assets.value, id).Some?
    ensures assets.Some? ==> forall id :: id in m ==> Some(m[id]) == LastAssetWithId(assets.value, id)
  {
    m := map[];
    if assets.None? {
      return;
    }
    var s := assets.value;
    var i := 0;
    while i < |s|
      invariant 0 <= i <= |s|
      invariant forall id :: id in m <==> LastAssetWithId(s[..i], id).Some?
      invariant forall id :: id in m ==> Some(m[id]) == LastAssetWithId(s[..i], id)
    {
      assert s[..i + 1][..i] == s[..i];
      var a := s[i];
      if a.id.Some? && a.id.value != "" {
        m := m[a.id.value := a];
      }
      i := i + 1;
    }
    assert s[..i] == s;
  }

  // ---------------------------------------------------------------------
  // Asset links

  /** A link object `{ sys: { id, linkType: "Asset" } }` with a non-empty string id. */
  predicate IsAssetLink(v: Json, id: string) {
    && v.JObj?
    && "sys" in v.members
    && v.members["sys"].JObj?
    && var sys := v.members["sys"].members;
    && "id" in sys && sys["id"] == JStr(id) && id != ""
    && "linkType" in sys && sys["linkType"] == JStr("Asset")
  }

  /**
   * `collectAssetIds`: arrays are flattened in order; any other value is a
   * link (one id) or nothing. Objects are not searched.
   */
  function CollectAssetIds(v: Json): (r: seq<string>)
    ensures !v.JArr? ==> |r| <= 1
    ensures !v.JArr? ==> forall id :: r == [id] <==> IsAssetLink(v, id)
    ensures forall i :: 0 <= i < |r| ==> r[i] != ""
    decreases v
  {
    match v
    case JArr(items) => CollectAll(items)
    case JObj(members) =>
      if "sys" in members && members["sys"].JObj? then
        var sys := members["sys"].members;
        if "id" in sys && sys["id"].JStr? && sys["id"].s != ""
           && "linkType" in sys && sys["linkType"] == JStr("Asset")
        then [sys["id"].s]
        else []
      else []
    case _ => []
  }

  /** `items.flatMap(collectAssetIds)`. */
  function CollectAll(items: seq<Json>): (r: seq<string>)
    ensures forall i :: 0 <= i < |r| ==> r[i] != ""
    decreases items
  {
    if items == [] then [] else CollectAssetIds(items[0]) + CollectAll(items[1..])
  }

  /** Flattening distributes over concatenation: ids come out in array order. */
  lemma {:induction false} CollectAllAppend(a: seq<Json>, b: seq<Json>)
    ensures CollectAll(a + b) == CollectAll(a) + CollectAll(b)
    decreases |a|
  {
    if a != [] {
      assert (a + b)[0] == a[0];
      assert (a + b)[1..] == a[1..] + b;
      CollectAllAppend(a[1..], b);
      assert CollectAll(a + b) == CollectAssetIds(a[0]) + (CollectAll(a[1..]) + CollectAll(b));
    } else {
      assert a + b == b;
    }
  }

  /** `id` is linked from `v` at a depth the collector visits: `v` itself, or inside arrays only. */
  ghost predicate LinkedFrom(v: Json, id: string)
    decreases v
  {
    if v.JArr? then exists i :: 0 <= i < |v.items| && LinkedFrom(v.items[i], id)
    else IsAssetLink(v, id)
  }

  /** The collector finds exactly the ids linked through arrays, and nothing else. */
  lemma {:induction false} CollectAssetIdsComplete(v: Json, id: string)
    ensures id in CollectAssetIds(v) <==> LinkedFrom(v, id)
    decreases v
  {
    if v.JArr? {
      CollectAllComplete(v.items, id);
    } else if id in CollectAssetIds(v) {
      assert CollectAssetIds(v) == [id];
    }
  }

  lemma {:induction false} CollectAllComplete(items: seq<Json>, id: string)
    ensures id in CollectAll(items) <==> exists i :: 0 <= i < |items| && LinkedFrom(items[i], id)
    decreases items
  {
    if items != [] {
      CollectAssetIdsComplete(items[0], id);
      CollectAllComplete(items[1..], id);
      if exists i :: 0 <= i < |items| && LinkedFrom(items[i], id) {
        var i :| 0 <= i < |items| && LinkedFrom(items[i], id);
        if i > 0 { assert items[1..][i - 1] == items[i]; }
      }
      if exists i :: 0 <= i < |items[1..]| && LinkedFrom(items[1..][i], id) {
        var i :| 0 <= i < |items[1..]| && LinkedFrom(items[1..][i], id);
        assert items[i + 1] == items[1..][i];
      }
    }
  }

  // ---------------------------------------------------------------------
  // First image

  function Field(fields: map<string, Json>, key: string): Option<Json> {
    if key in fields then Some(fields[key]) else None
  }

  /** `collectAssetIds(fields[key])`; an absent field is `undefined` and yields nothing. */
  function FieldAssetIds(fields: map<string, Json>, key: string): (r: seq<string>)
    ensures key !in fields ==> r == []
    ensures forall i :: 0 <= i < |r| ==> r[i] != ""
  {
    match Field(fields, key)
    case None => []
    case Some(v) => CollectAssetIds(v)
  }

  /** The ids scanned for an image, in the order they are tried. */
  function CandidateAssetIds(fields: map<string, Json>): (r: seq<string>)
    ensures |r| == |FieldAssetIds(fields, "image")| + |FieldAssetIds(fields, "images")|
                   + |FieldAssetIds(fields, "file")| + |FieldAssetIds(fields, "files")|
    ensures var a, b, c := |FieldAssetIds(fields, "image")|, |FieldAssetIds(fields, "images")|, |FieldAssetIds(fields, "file")|;
            && r[..a] == FieldAssetIds(fields, "image")
            && r[a..a + b] == FieldAssetIds(fields, "images")
            && r[a + b..a + b + c] == FieldAssetIds(fields, "file")
            && r[a + b + c..] == FieldAssetIds(fields, "files")
    ensures forall i :: 0 <= i < |r| ==> r[i] != ""
  {
    FieldAssetIds(fields, "image") + FieldAssetIds(fields, "images")
    + FieldAssetIds(fields, "file") + FieldAssetIds(fields, "files")
  }

  /**
   * The URL an id contributes, if it survives the filters: it is in the
   * table, its file has a non-empty URL, and its content type is absent,
   * empty, or an `image/` type.
   */
  function AssetImageUrl(id: string, assetMap: map<string, Asset>): (r: Option<string>)
    ensures r.Some? <==>
      && id in assetMap && assetMap[id].file.Some?
      && assetMap[id].file.value.url.Some? && assetMap[id].file.value.url.value != ""
      && var ct := assetMap[id].file.value.contentType;
         ct.None? || ct.value == "" || StartsWith(ct.value, "image/")
    ensures r.Some? ==> r == assetMap[id].file.value.url
  {
    if id !in assetMap || assetMap[id].file.None? then None
    else
      var file := assetMap[id].file.value;
      if file.url.None? || file.url.value == "" then None
      else if file.contentType.Some? && file.contentType.value != "" && !StartsWith(file.contentType.value, "image/") then None
      else file.url
  }

  /** The normalised URL of the first surviving id, scanning `ids` in order. */
  function FirstImageUrl(ids: seq<string>, assetMap: map<string, Asset>): (r: Option<string>)
    ensures r.None? <==> forall i :: 0 <= i < |ids| ==> AssetImageUrl(ids[i], assetMap).None?
    ensures r.Some? ==>
      exists i :: (0 <= i < |ids| && AssetImageUrl(ids[i], assetMap).Some?
                   && (forall j :: 0 <= j < i ==> AssetImageUrl(ids[j], assetMap).None?)
                   && r == NormalizeContentfulAssetUrl(AssetImageUrl(ids[i], assetMap)))
    decreases |ids|
  {
    if ids == [] then None
    else match AssetImageUrl(ids[0], assetMap)
      case Some(url) => NormalizeContentfulAssetUrl(Some(url))
      case None => FirstImageUrl(ids[1..], assetMap)
  }

  /**
   * `getContentfulImageUrl`: the first surviving asset among the links of
   * `image`, `images`, `file`, `files`, in that order, normalised.
   */
  function GetContentfulImageUrl(fields: map<string, Json>, assetMap: map<string, Asset>): (r: Option<string>)
    ensures r.Some? ==> r.value != [] && r.value[0] != '/'
    ensures r.None? <==> forall id :: id in CandidateAssetIds(fields) ==> AssetImageUrl(id, assetMap).None?
    ensures r.Some? ==>
      var ids := CandidateAssetIds(fields);
      exists i :: (0 <= i < |ids| && AssetImageUrl(ids[i], assetMap).Some?
                   && (forall j :: 0 <= j < i ==> AssetImageUrl(ids[j], assetMap).None?)
                   && r == NormalizeContentfulAssetUrl(AssetImageUrl(ids[i], assetMap)))
  {
    FirstImageUrl(CandidateAssetIds(fields), assetMap)
  }

  /** A surviving `image` link wins over anything in `images`, `file` or `files`. */
  lemma ImageFieldTakesPrecedence(fields: map<string, Json>, assetMap: map<string, Asset>)
    requires exists id :: id in FieldAssetIds(fields, "image") && AssetImageUrl(id, assetMap).Some?
    ensures GetContentfulImageUrl(fields, assetMap) == FirstImageUrl(FieldAssetIds(fields, "image"), assetMap)
  {
    var a := FieldAssetIds(fields, "image");
    var rest := FieldAssetIds(fields, "images") + FieldAssetIds(fields, "file") + FieldAssetIds(fields, "files");
    assert CandidateAssetIds(fields) == a + rest;
    FirstImageUrlAppend(a, rest, assetMap);
  }

  lemma {:induction false} FirstImageUrlAppend(a: seq<string>, b: seq<string>, assetMap: map<string, Asset>)
    requires exists i :: 0 <= i < |a| && AssetImageUrl(a[i], assetMap).Some?
    ensures FirstImageUrl(a + b, assetMap) == FirstImageUrl(a, assetMap)
    decreases |a|
  {
    if AssetImageUrl(a[0], assetMap).None? {
      var i :| 0 <= i < |a| && AssetImageUrl(a[i], assetMap).Some?;
      assert a[1..][i - 1] == a[i];
      assert (a + b)[1..] == a[1..] + b;
      FirstImageUrlAppend(a[1..], b, assetMap);
    }
  }

  // ---------------------------------------------------------------------
  // Description

  /** `fields[key]` is a string that is not blank. */
  predicate UsableText(fields: map<string, Json>, key: string) {
    key in fields && fields[key].JStr? && !AllWhitespace(fields[key].s)
  }

  /**
   * `extractContentfulDescription`: the trimmed `description`, else the
   * trimmed `titleDescription`, skipping values that are not strings or
   * are blank.
   */
  function ExtractContentfulDescription(fields: map<string, Json>): (r: Option<string>)
    ensures UsableText(fields, "description") ==> r == Some(Trim(fields["description"].s))
    ensures !UsableText(fields, "description") && UsableText(fields, "titleDescription")
            ==> r == Some(Trim(fields["titleDescription"].s))
    ensures !UsableText(fields, "description") && !UsableText(fields, "titleDescription") ==> r.None?
    ensures r.Some? ==> r.value != [] && Trim(r.value) == r.value
  {
    var d := DescriptionCandidate(fields, "description");
    if d.Some? then d else DescriptionCandidate(fields, "titleDescription")
  }

  function DescriptionCandidate(fields: map<string, Json>, key: string): (r: Option<string>)
    ensures UsableText(fields, key) ==> r == Some(Trim(fields[key].s))
    ensures !UsableText(fields, key) ==> r.None?
    ensures r.Some? ==> r.value != [] && Trim(r.value) == r.value
  {
    match Field(fields, key)
    case Some(JStr(s)) =>
      TrimEmptyIffBlank(s);
      TrimIdempotent(s);
      if Trim(s) != "" then Some(Trim(s)) else None
    case _ => None
  }
}
