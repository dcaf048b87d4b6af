/**
 * Work items: the placeholder list each work tab starts with, and the
 * mapping of a content-management entry onto a work item
 * (src/components/menu-route-panel.tsx).
 */
module WorkItems {
  import opened Optional
  import opened Strings
  import opened ContentfulRecords

  datatype WorkTab = WebDev | Design | Photos | Music | Other

  function TabName(tab: WorkTab): string {
    match tab
    case WebDev => "webdev"
    case Design => "design"
    case Photos => "photos"
    case Music => "music"
    case Other => "other"
  }

  /** One card of a work tab; `createdAt` is in milliseconds since the epoch. */
  datatype WorkItem = WorkItem(
    id: string,
    name: string,
    date: string,
    createdAt: int,
    description: Option<string>,
    imageUrl: Option<string>)

  /** "`tab`-`n`": the fallback id of the `n`-th item (1-based). */
  function FallbackId(tab: WorkTab, n: nat): (r: string)
    ensures |r| == |TabName(tab)| + 1 + |NatToString(n)|
    ensures r[..|TabName(tab)| + 1] == TabName(tab) + "-" && r[|TabName(tab)| + 1..] == NatToString(n)
  {
    TabName(tab) + "-" + NatToString(n)
  }

  /** "`tab` item `n`": the fallback name of the `n`-th item (1-based). */
  function FallbackName(tab: WorkTab, n: nat): (r: string)
    ensures |r| == |TabName(tab)| + 6 + |NatToString(n)|
    ensures r[..|TabName(tab)| + 6] == TabName(tab) + " item " && r[|TabName(tab)| + 6..] == NatToString(n)
  {
    TabName(tab) + " item " + NatToString(n)
  }

  /** Two different positions get two different fallback ids. */
  lemma FallbackIdInjective(tab: WorkTab, m: nat, n: nat)
    requires m != n
    ensures FallbackId(tab, m) != FallbackId(tab, n)
  {
    var p := |TabName(tab) + "-"|;
    assert NatToString(m) == FallbackId(tab, m)[p..];
    assert NatToString(n) == FallbackId(tab, n)[p..];
    if NatToString(m) == NatToString(n) {
      NatToStringInjective(m, n);
    }
  }

  // ---------------------------------------------------------------------
  // Placeholder items

  function BaseDescription(tab: WorkTab): string {
    match tab
    case WebDev => "Implementation details, stack decisions, and architecture notes."
    case Design => "Design rationale, system exploration, and visual direction."
    case Photos => "Photo project entry."
    case Music => "Music project entry."
    case Other => "Additional project entry."
  }

  /** `Date.UTC(2026, 0, 1)`: midnight UTC on 1 January 2026, in milliseconds. */
  const BaseEpochMs: int := 1767225600000

  const DayMs: int := 86400000

  /** A day of the month as two digits. */
  function TwoDigits(d: nat): (r: string)
    requires d < 100
    ensures |r| == 2
  {
    [DigitChar(d / 10), DigitChar(d % 10)]
  }

  /**
   * The placeholder item at `index`: dated every fourth day from
   * 1 January 2026 (all eight dates fall in January, so the ISO day is
   * "2026-01-" and the day of the month).
   */
  function BaseItem(tab: WorkTab, index: nat): WorkItem
    requires index < 8
  {
    var n := index + 1;
    WorkItem(
      FallbackId(tab, n),
      FallbackName(tab, n),
      "2026-01-" + TwoDigits(1 + index * 4),
      BaseEpochMs + index * 4 * DayMs,
      Some(BaseDescription(tab)),
      Some("https://avatar.vercel.sh/" + FallbackId(tab, n) + ".png?size=480"))
  }

  /** `getBaseWorkItems`: eight placeholders, ids and names numbered 1 to 8. */
  function GetBaseWorkItems(tab: WorkTab): (r: seq<WorkItem>)
    ensures |r| == 8
    ensures forall i :: 0 <= i < 8 ==> r[i].id == FallbackId(tab, i + 1) && r[i].name == FallbackName(tab, i + 1)
    ensures forall i :: 0 <= i < 8 ==> r[i].description == Some(BaseDescription(tab))
    ensures forall i :: 0 <= i < 8 ==> r[i].date == "2026-01-" + TwoDigits(1 + i * 4)
    ensures forall i, j :: 0 <= i < j < 8 ==> r[i].createdAt < r[j].createdAt
  {
    seq(8, i requires 0 <= i < 8 => BaseItem(tab, i))
  }

  /** The placeholder ids of a tab are pairwise distinct. */
  lemma BaseItemIdsDistinct(tab: WorkTab)
    ensures forall i, j :: 0 <= i < j < 8 ==> GetBaseWorkItems(tab)[i].id != GetBaseWorkItems(tab)[j].id
  {
    var r := GetBaseWorkItems(tab);
    forall i, j | 0 <= i < j < 8
      ensures r[i].id != r[j].id
    {
      FallbackIdInjective(tab, i + 1, j + 1);
    }
  }

  // ---------------------------------------------------------------------
  // Mapping an entry

  /** A content-management entry: `sys.id`, `sys.createdAt` and the untyped fields. */
  datatype Entry = Entry(id: string, createdAt: Option<string>, fields: map<string, Json>)

  /** `fields[key]` is a non-empty string. */
  predicate NonEmptyText(fields: map<string, Json>, key: string) {
    key in fields && fields[key].JStr? && fields[key].s != ""
  }

  /** `Date.parse(sys.createdAt || "") || Date.now()`: NaN and 0 are both falsy. */
  function CreatedAtMs(createdAt: Option<string>, parseDate: string -> Option<int>, now: int): (t: int)
    ensures var parsed := parseDate(createdAt.GetOr(""));
            parsed.Some? && parsed.value != 0 ==> t == parsed.value
    ensures var parsed := parseDate(createdAt.GetOr(""));
            parsed.None? || parsed.value == 0 ==> t == now
  {
    var parsed := parseDate(createdAt.GetOr(""));
    if parsed.Some? && parsed.value != 0 then parsed.value else now
  }

  /**
   * The displayed day: the first ten characters of the `date` field when
   * that is a non-empty string, else of `sys.createdAt` when present, else
   * of the ISO form of the creation time.
   */
  function EntryDate(fields: map<string, Json>, createdAt: Option<string>, createdAtMs: int, isoString: int -> string): (d: string)
    ensures |d| <= 10
    ensures NonEmptyText(fields, "date") ==> d == Take(fields["date"].s, 10)
    ensures !NonEmptyText(fields, "date") && createdAt.Some? && createdAt.value != ""
            ==> d == Take(createdAt.value, 10)
    ensures !NonEmptyText(fields, "date") && (createdAt.None? || createdAt.value == "")
            ==> d == Take(isoString(createdAtMs), 10)
  {
    var dateFromField := if "date" in fields && fields["date"].JStr? then Take(fields["date"].s, 10) else "";
    if dateFromField != "" then dateFromField
    else if createdAt.Some? && createdAt.value != "" then Take(createdAt.value, 10)
    else Take(isoString(createdAtMs), 10)
  }

  /**
   * `mapContentfulEntryToWorkItem` for the entry at `index` of its tab.
   * The clock and the date library are parameters: `parseDate` is
   * `Date.parse` (`None` for NaN), `now` is `Date.now()`, and `isoString`
   * is `new Date(ms).toISOString()`.
   */
  function MapContentfulEntryToWorkItem(
    tab: WorkTab, entry: Entry, index: nat, assetMap: map<string, Asset>,
    parseDate: string -> Option<int>, now: int, isoString: int -> string): (w: WorkItem)
    ensures w.id != "" && w.name != ""
    ensures entry.id != "" ==> w.id == entry.id
    ensures entry.id == "" ==> w.id == FallbackId(tab, index + 1)
    ensures NonEmptyText(entry.fields, "title") ==> w.name == entry.fields["title"].s
    ensures !NonEmptyText(entry.fields, "title") && NonEmptyText(entry.fields, "name") ==> w.name == entry.fields["name"].s
    ensures !NonEmptyText(entry.fields, "title") && !NonEmptyText(entry.fields, "name") ==> w.name == FallbackName(tab, index + 1)
    ensures w.createdAt != 0 || now == 0
    ensures var parsed := parseDate(entry.createdAt.GetOr(""));
            parsed.Some? && parsed.value != 0 ==> w.createdAt == parsed.value
    ensures var parsed := parseDate(entry.createdAt.GetOr(""));
            parsed.None? || parsed.value == 0 ==> w.createdAt == now
    ensures |w.date| <= 10
    ensures NonEmptyText(entry.fields, "date") ==> w.date == Take(entry.fields["date"].s, 10)
    ensures !NonEmptyText(entry.fields, "date") && entry.createdAt.Some? && entry.createdAt.value != ""
            ==> w.date == Take(entry.createdAt.value, 10)
    ensures !NonEmptyText(entry.fields, "date") && (entry.createdAt.None? || entry.createdAt.value == "")
            ==> w.date == Take(isoString(w.createdAt), 10)
    ensures w.description == ExtractContentfulDescription(entry.fields)
    ensures w.imageUrl == GetContentfulImageUrl(entry.fields, assetMap)
    ensures w.description.Some? ==> w.description.value != [] && Trim(w.description.value) == w.description.value
    ensures w.imageUrl.Some? ==> w.imageUrl.value != [] && w.imageUrl.value[0] != '/'
  {
    var fields := entry.fields;
    var name :=
      if NonEmptyText(fields, "title") then fields["title"].s
      else if NonEmptyText(fields, "name") then fields["name"].s
      else FallbackName(tab, index + 1);
    var createdAt := CreatedAtMs(entry.createdAt, parseDate, now);
    var date := EntryDate(fields, entry.createdAt, createdAt, isoString);
    WorkItem(
      if entry.id != "" then entry.id else FallbackId(tab, index + 1),
      name,
      date,
      createdAt,
      ExtractContentfulDescription(fields),
      GetContentfulImageUrl(fields, assetMap))
  }

  /** `entries.map((item, index) => mapContentfulEntryToWorkItem(...))` for one tab. */
  function MapEntries(
    tab: WorkTab, entries: seq<Entry>, assetMap: map<string, Asset>,
    parseDate: string -> Option<int>, now: int, isoString: int -> string): (r: seq<WorkItem>)
    ensures |r| == |entries|
    ensures forall i :: 0 <= i < |r| ==> r[i].id != "" && r[i].name != ""
    ensures forall i :: 0 <= i < |r| ==> r[i].id == if entries[i].id != "" then entries[i].id else FallbackId(tab, i + 1)
    ensures forall i :: 0 <= i < |r| ==> r[i] == MapContentfulEntryToWorkItem(tab, entries[i], i, assetMap, parseDate, now, isoString)
  {
    seq(|entries|, i requires 0 <= i < |entries| =>
      MapContentfulEntryToWorkItem(tab, entries[i], i, assetMap, parseDate, now, isoString))
  }

  /** When no entry of a tab has its own id, the fallback ids are pairwise distinct. */
  lemma MappedFallbackIdsDistinct(
    tab: WorkTab, entries: seq<Entry>, assetMap: map<string, Asset>,
    parseDate: string -> Option<int>, now: int, isoString: int -> string)
    requires forall i :: 0 <= i < |entries| ==> entries[i].id == ""
    ensures var r := MapEntries(tab, entries, assetMap, parseDate, now, isoString);
            forall i, j :: 0 <= i < j < |r| ==> r[i].id != r[j].id
  {
    var r := MapEntries(tab, entries, assetMap, parseDate, now, isoString);
    forall i, j | 0 <= i < j < |r|
      ensures r[i].id != r[j].id
    {
      FallbackIdInjective(tab, i + 1, j + 1);
    }
  }

  /**
   * The positional fallback id does not avoid the ids entries bring
   * themselves: an entry whose own id is "webdev-2" followed by an entry
   * without an id give two items with the id "webdev-2".
   */
  lemma FallbackIdCanCollideWithOwnId(
    assetMap: map<string, Asset>, parseDate: string -> Option<int>, now: int, isoString: int -> string)
    ensures var r := MapEntries(WebDev, [Entry("webdev-2", None, map[]), Entry("", None, map[])],
                                assetMap, parseDate, now, isoString);
            r[0].id == r[1].id == "webdev-2"
  {
    assert NatToString(2) == "2";
    assert FallbackId(WebDev, 2) == "webdev-2";
  }
}
