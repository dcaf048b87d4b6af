/**
 * The chart container's id and its generated colour stylesheet
 * (src/components/ui/chart.tsx).
 */
module Chart {
  import opened Optional
  import opened Strings

  datatype ConfigItem = ConfigItem(caption: Option<string>, color: Option<string>)

  /** A chart config as `Object.entries` lists it: keys with their settings, in order. */
  type ChartConfig = seq<(string, ConfigItem)>

  /** `Boolean(configItem.color)`. */
  predicate HasColor(item: ConfigItem) {
    item.color.Some? && item.color.value != ""
  }

  /** One entry's contribution: its (key, colour) pair when it has a colour. */
  function ColoredEntry(entry: (string, ConfigItem)): seq<(string, string)> {
    if HasColor(entry.1) then [(entry.0, entry.1.color.value)] else []
  }

  /** The coloured entries as (key, colour) pairs, in config order. */
  function ColoredEntries(config: ChartConfig): (r: seq<(string, string)>)
    ensures |r| <= |config|
    ensures r == [] <==> forall i :: 0 <= i < |config| ==> !HasColor(config[i].1)
    decreases |config|
  {
    if config == [] then []
    else
      assert forall i :: 0 < i < |config| ==> config[i] == config[1..][i - 1];
      ColoredEntry(config[0]) + ColoredEntries(config[1..])
  }

  /** `entry` has a colour, and `p` is its key with that colour. */
  predicate Provides(entry: (string, ConfigItem), p: (string, string)) {
    entry.0 == p.0 && HasColor(entry.1) && entry.1.color.value == p.1
  }

  /** A pair is among the coloured entries exactly when some config entry provides it. */
  lemma {:induction false} ColoredEntriesMembers(config: ChartConfig, p: (string, string))
    ensures p in ColoredEntries(config) <==> exists i :: 0 <= i < |config| && Provides(config[i], p)
    decreases |config|
  {
    if config != [] {
      var h, rest := ColoredEntry(config[0]), config[1..];
      assert ColoredEntries(config) == h + ColoredEntries(rest);
      ColoredEntriesMembers(rest, p);
      if p in ColoredEntries(config) {
        if p in h {
          assert Provides(config[0], p);
        } else {
          var i :| 0 <= i < |rest| && Provides(rest[i], p);
          assert config[i + 1] == rest[i];
        }
      }
      if exists i :: 0 <= i < |config| && Provides(config[i], p) {
        var i :| 0 <= i < |config| && Provides(config[i], p);
        if i == 0 {
          assert p in h;
        } else {
          assert rest[i - 1] == config[i];
        }
      }
    }
  }

  /** Filtering works piecewise, so the declarations keep config order. */
  lemma {:induction false} ColoredEntriesAppend(a: ChartConfig, b: ChartConfig)
    ensures ColoredEntries(a + b) == ColoredEntries(a) + ColoredEntries(b)
    decreases |a|
  {
    if a == [] {
      assert a + b == b;
    } else {
      var h := ColoredEntry(a[0]);
      assert (a + b)[0] == a[0];
      assert (a + b)[1..] == a[1..] + b;
      ColoredEntriesAppend(a[1..], b);
    }
  }

  /** `--color-<key>: <color>;` */
  function Declaration(key: string, color: string): string {
    "--color-" + key + ": " + color + ";"
  }

  /** `.map(...).join("")`: the declarations of the entries, back to back. */
  function Declarations(entries: seq<(string, string)>): (r: string)
    ensures r == "" <==> entries == []
    decreases |entries|
  {
    if entries == [] then "" else Declaration(entries[0].0, entries[0].1) + Declarations(entries[1..])
  }

  /** A non-empty run of declarations opens with a custom property and ends with `;`. */
  lemma {:induction false} DeclarationsShape(entries: seq<(string, string)>)
    requires entries != []
    ensures StartsWith(Declarations(entries), "--color-") && EndsWith(Declarations(entries), ';')
    decreases |entries|
  {
    var d := Declaration(entries[0].0, entries[0].1);
    assert d[..8] == "--color-";
    assert d[|d| - 1] == ';';
    if entries[1..] != [] {
      DeclarationsShape(entries[1..]);
    }
  }

  /** Declarations concatenate piecewise. */
  lemma {:induction false} DeclarationsAppend(a: seq<(string, string)>, b: seq<(string, string)>)
    ensures Declarations(a + b) == Declarations(a) + Declarations(b)
    decreases |a|
  {
    if a == [] {
      assert a + b == b;
    } else {
      var d := Declaration(a[0].0, a[0].1);
      assert (a + b)[0] == a[0];
      assert (a + b)[1..] == a[1..] + b;
      assert Declarations(a + b) == d + Declarations(a[1..] + b);
      DeclarationsAppend(a[1..], b);
      assert Declarations(a) == d + Declarations(a[1..]);
    }
  }

  function RulePrefix(id: string): string {
    "[data-chart=\"" + id + "\"] {"
  }

  /**
   * `ChartStyle`: no stylesheet when no entry has a colour; otherwise one
   * rule scoped to the chart id with a declaration per coloured entry.
   */
  function ChartStyle(id: string, config: ChartConfig): (r: Option<string>)
    ensures r.None? <==> forall i :: 0 <= i < |config| ==> !HasColor(config[i].1)
    ensures r.Some? ==> StartsWith(r.value, RulePrefix(id)) && EndsWith(r.value, '}')
    ensures r.Some? ==> r.value == RulePrefix(id) + Declarations(ColoredEntries(config)) + "}"
  {
    var colors := ColoredEntries(config);
    if colors == [] then None
    else
      var css := RulePrefix(id) + Declarations(colors) + "}";
      assert css[..|RulePrefix(id)|] == RulePrefix(id);
      Some(css)
  }

  /**
   * For a config split in two, the rule holds the declarations of the first
   * part's coloured entries followed by those of the second part's.
   */
  lemma ChartStyleAppend(id: string, a: ChartConfig, b: ChartConfig)
    requires ChartStyle(id, a + b).Some?
    ensures ChartStyle(id, a + b).value
            == RulePrefix(id) + Declarations(ColoredEntries(a)) + Declarations(ColoredEntries(b)) + "}"
  {
    ColoredEntriesAppend(a, b);
    RuleOfAppend(id, ColoredEntries(a), ColoredEntries(b));
  }

  /** The rule around two runs of entries holds their declarations back to back. */
  lemma RuleOfAppend(id: string, ca: seq<(string, string)>, cb: seq<(string, string)>)
    ensures RulePrefix(id) + Declarations(ca + cb) + "}" == RulePrefix(id) + Declarations(ca) + Declarations(cb) + "}"
  {
    DeclarationsAppend(ca, cb);
    var da, db := Declarations(ca), Declarations(cb);
    assert RulePrefix(id) + (da + db) + "}" == RulePrefix(id) + da + db + "}";
  }

  /** Entries without a colour contribute nothing, wherever they stand. */
  lemma UncoloredEntriesIgnored(id: string, a: ChartConfig, b: ChartConfig, extra: ChartConfig)
    requires forall i :: 0 <= i < |extra| ==> !HasColor(extra[i].1)
    ensures ChartStyle(id, a + extra + b) == ChartStyle(id, a + b)
  {
    assert ColoredEntries(extra) == [];
    ColoredEntriesAppend(a + extra, b);
    ColoredEntriesAppend(a, extra);
    ColoredEntriesAppend(a, b);
    assert ColoredEntries(a + extra) == ColoredEntries(a);
    assert ColoredEntries(a + extra + b) == ColoredEntries(a + b);
  }

  /** A single coloured entry gives exactly one declaration inside the rule. */
  lemma SingleColorStyle(id: string, key: string, item: ConfigItem)
    requires HasColor(item)
    ensures ChartStyle(id, [(key, item)]) == Some(RulePrefix(id) + "--color-" + key + ": " + item.color.value + ";}")
  {
    var c := item.color.value;
    assert ColoredEntries([(key, item)]) == [(key, c)];
    assert Declarations([(key, c)]) == Declaration(key, c) + Declarations([]);
    assert Declarations([(key, c)]) == Declaration(key, c);
    var pre := RulePrefix(id) + "--color-" + key + ": " + c;
    assert RulePrefix(id) + Declaration(key, c) + "}" == pre + ";" + "}";
    assert pre + ";" + "}" == pre + ";}";
    assert ChartStyle(id, [(key, item)]) == Some(RulePrefix(id) + Declarations([(key, c)]) + "}");
  }

  /** The count of `c` in a concatenation is the sum of the counts. */
  lemma CountAppend(a: string, b: string, c: char)
    ensures multiset(a + b)[c] == multiset(a)[c] + multiset(b)[c]
  {
  }

  /** A declaration whose key and colour have no ';' holds exactly one. */
  lemma DeclarationSemicolons(k: string, v: string)
    requires ';' !in k && ';' !in v
    ensures multiset(Declaration(k, v))[';'] == 1
  {
    var p1 := "--color-" + k;
    var p2 := p1 + ": ";
    var p3 := p2 + v;
    assert Declaration(k, v) == p3 + ";";
    assert multiset(k)[';'] == 0 && multiset(v)[';'] == 0;
    assert multiset("--color-")[';'] == 0 && multiset(": ")[';'] == 0 && multiset(";")[';'] == 1;
    CountAppend("--color-", k, ';');
    CountAppend(p1, ": ", ';');
    CountAppend(p2, v, ';');
    CountAppend(p3, ";", ';');
  }

  /** When keys and colours contain no ';', each coloured entry ends exactly one declaration. */
  lemma {:induction false} DeclarationsCount(entries: seq<(string, string)>)
    requires forall i :: 0 <= i < |entries| ==> ';' !in entries[i].0 && ';' !in entries[i].1
    ensures multiset(Declarations(entries))[';'] == |entries|
    decreases |entries|
  {
    if entries != [] {
      var d := Declaration(entries[0].0, entries[0].1);
      var rest := Declarations(entries[1..]);
      DeclarationSemicolons(entries[0].0, entries[0].1);
      DeclarationsCount(entries[1..]);
      CountAppend(d, rest, ';');
    }
  }

  /**
   * `chartId`: "chart-" and the caller's id, or, when none is given, the
   * generated unique id with every ':' removed.
   */
  function ChartId(id: Option<string>, uniqueId: string): (r: string)
    ensures StartsWith(r, "chart-")
    ensures id.Some? && id.value != "" ==> r[6..] == id.value
    ensures id.None? || id.value == "" ==> ':' !in r && |r| <= 6 + |uniqueId|
    ensures id.None? || id.value == "" ==> r == "chart-" + RemoveChar(uniqueId, ':')
  {
    var suffix := if id.Some? && id.value != "" then id.value else RemoveChar(uniqueId, ':');
    assert ("chart-" + suffix)[..6] == "chart-";
    "chart-" + suffix
  }

  /** A generated id that already has no ':' is used as is. */
  lemma ChartIdKeepsColonFreeUniqueId(uniqueId: string)
    requires ':' !in uniqueId
    ensures ChartId(None, uniqueId) == "chart-" + uniqueId
  {
    RemoveCharAbsent(uniqueId, ':');
  }
}
