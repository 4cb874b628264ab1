/** The preferences page: a record of a theme and two groups of options,
    updated one key at a time with object spreads. */
module Settings {
  import opened Text

  /** The values the page's controls produce: switch states and select
      choices. */
  datatype Value = BoolVal(b: bool) | TextVal(s: string)

  /** A top-level entry: a plain value or a group of named values. */
  datatype Node = Leaf(v: Value) | Group(fields: map<string, Value>)

  type Record = map<string, Node>

  const InitialSettings: Record :=
    map[
      "theme" := Leaf(TextVal("system")),
      "notifications" := Group(map[
        "messages" := BoolVal(true),
        "mentions" := BoolVal(true),
        "reactions" := BoolVal(false),
        "groups" := BoolVal(true),
        "email" := BoolVal(false)]),
      "privacy" := Group(map[
        "readReceipts" := BoolVal(true),
        "lastSeen" := BoolVal(true),
        "profilePhoto" := TextVal("everyone"),
        "status" := TextVal("contacts")])]

  /** The decimal renderings of the indices from `lo` up to `hi`. */
  function IndexKeys(lo: nat, hi: nat): set<string> {
    set j | lo <= j < hi :: NatToDecimal(j)
  }

  /** Spreading a string yields one entry per character, keyed by index. */
  function CharFields(s: string, i: nat): (r: map<string, Value>)
    requires i <= |s|
    ensures forall k :: k in r ==> IsDigits(k)
    ensures r.Keys == IndexKeys(i, |s|)
    ensures forall j :: i <= j < |s| ==> r[NatToDecimal(j)] == TextVal([s[j]])
    decreases |s| - i
  {
    if i == |s| then map[]
    else
      forall j | i < j < |s|
        ensures NatToDecimal(j) != NatToDecimal(i)
      {
        DecimalRoundTrip(i);
        DecimalRoundTrip(j);
      }
      assert IndexKeys(i, |s|) == IndexKeys(i + 1, |s|) + {NatToDecimal(i)};
      CharFields(s, i + 1)[NatToDecimal(i) := TextVal([s[i]])]
  }

  /** `...(prev[category])`: a group spreads its fields; a missing entry or
      a boolean spreads nothing; a string spreads its characters. */
  function Spread(prev: Record, category: string): (r: map<string, Value>)
    ensures category in prev && prev[category].Group? ==> r == prev[category].fields
    ensures category !in prev ==> r == map[]
    ensures category in prev && prev[category].Leaf? && prev[category].v.BoolVal? ==> r == map[]
    ensures category in prev && prev[category].Leaf? && prev[category].v.TextVal? ==>
      var text := prev[category].v.s;
      && r.Keys == IndexKeys(0, |text|)
      && forall j :: 0 <= j < |text| ==> r[NatToDecimal(j)] == TextVal([text[j]])
  {
    if category !in prev then map[]
    else match prev[category]
      case Group(fields) => fields
      case Leaf(BoolVal(_)) => map[]
      case Leaf(TextVal(s)) => CharFields(s, 0)
  }

  /** `handleSettingChange`'s new record. With an empty category only the
      top-level `key` changes, to `value`. Otherwise only `category`
      changes: it becomes a group holding `value` under `key`, and when it
      already was a group every other field keeps its value. */
  function Updated(prev: Record, category: string, key: string, value: Value): (r: Record)
    ensures category == "" ==> r.Keys == prev.Keys + {key} && r[key] == Leaf(value)
    ensures category == "" ==> forall k :: k in prev && k != key ==> r[k] == prev[k]
    ensures category != "" ==> r.Keys == prev.Keys + {category}
    ensures category != "" ==> r[category].Group? && key in r[category].fields && r[category].fields[key] == value
    ensures category != "" ==> forall k :: k in prev && k != category ==> r[k] == prev[k]
    ensures category != "" ==> r[category] == Group(Spread(prev, category)[key := value])
    ensures category != "" && category in prev && prev[category].Group? ==>
      && r[category].fields.Keys == prev[category].fields.Keys + {key}
      && forall f :: f in prev[category].fields && f != key ==> r[category].fields[f] == prev[category].fields[f]
  {
    if category == "" then prev[key := Leaf(value)]
    else prev[category := Group(Spread(prev, category)[key := value])]
  }

  /** Setting an option to the value it already has leaves the record as
      it was. */
  lemma SameValueKeepsRecord(prev: Record, category: string, key: string, value: Value)
    requires category == "" ==> key in prev && prev[key] == Leaf(value)
    requires category != "" ==>
      category in prev && prev[category].Group? && key in prev[category].fields && prev[category].fields[key] == value
    ensures Updated(prev, category, key, value) == prev
  {
    var r := Updated(prev, category, key, value);
    if category != "" {
      assert r[category].fields == prev[category].fields;
    }
  }

  /** Applying the same change twice is the same as applying it once. */
  lemma UpdateIdempotent(prev: Record, category: string, key: string, value: Value)
    ensures Updated(Updated(prev, category, key, value), category, key, value) == Updated(prev, category, key, value)
  {
    var once := Updated(prev, category, key, value);
    if category != "" {
      SameValueKeepsRecord(once, category, key, value);
    }
  }

  /** Changes to two different options of one group do not interfere:
      either order gives the same record. */
  lemma UpdatesCommute(prev: Record, category: string, k1: string, v1: Value, k2: string, v2: Value)
    requires category != "" && k1 != k2
    ensures Updated(Updated(prev, category, k1, v1), category, k2, v2) ==
            Updated(Updated(prev, category, k2, v2), category, k1, v1)
  {
    var base := Spread(prev, category);
    assert base[k1 := v1][k2 := v2] == base[k2 := v2][k1 := v1];
  }

  /** Two records have the same layout: the same top-level keys, a group
      in one exactly where the other has a group, and the same option
      names in each group. */
  predicate SameLayout(a: Record, b: Record) {
    && a.Keys == b.Keys
    && (forall k :: k in a ==> (a[k].Group? <==> b[k].Group?))
    && (forall k :: k in a && a[k].Group? ==> a[k].fields.Keys == b[k].fields.Keys)
  }

  /** A change one of the page's controls makes: the theme select, or one
      of the notification or privacy options. */
  predicate IsControl(category: string, key: string) {
    || (category == "" && key == "theme")
    || (category == "notifications" && key in {"messages", "mentions", "reactions", "groups", "email"})
    || (category == "privacy" && key in {"readReceipts", "lastSeen", "profilePhoto", "status"})
  }

  /** A change made through one of the page's controls keeps the layout of
      any record laid out like the initial one. */
  lemma ControlsKeepLayout(prev: Record, category: string, key: string, value: Value)
    requires SameLayout(prev, InitialSettings)
    requires IsControl(category, key)
    ensures SameLayout(Updated(prev, category, key, value), InitialSettings)
  {
    var r := Updated(prev, category, key, value);
    if category != "" {
      assert prev[category].Group?;
      assert r[category].fields.Keys == InitialSettings[category].fields.Keys;
    }
  }

  /** One setting change: what `handleSettingChange` is called with. */
  datatype Change = Change(category: string, key: string, value: Value)

  /** The record after a run of changes, applied in order. */
  function ApplyAll(prev: Record, changes: seq<Change>): Record
    decreases |changes|
  {
    if changes == [] then prev
    else
      var c := changes[0];
      ApplyAll(Updated(prev, c.category, c.key, c.value), changes[1..])
  }

  /** Every record the page's controls can reach from the initial one has
      the initial layout. */
  lemma {:induction false} ReachableKeepsLayout(prev: Record, changes: seq<Change>)
    requires SameLayout(prev, InitialSettings)
    requires forall i :: 0 <= i < |changes| ==> IsControl(changes[i].category, changes[i].key)
    ensures SameLayout(ApplyAll(prev, changes), InitialSettings)
    decreases |changes|
  {
    if changes != [] {
      var c := changes[0];
      ControlsKeepLayout(prev, c.category, c.key, c.value);
      ReachableKeepsLayout(Updated(prev, c.category, c.key, c.value), changes[1..]);
    }
  }

  class SettingsPage {
    var settings: Record

    constructor ()
      ensures settings == InitialSettings
    {
      settings := InitialSettings;
    }

    method HandleSettingChange(category: string, key: string, value: Value)
      modifies this
      ensures settings == Updated(old(settings), category, key, value)
    {
      settings := Updated(settings, category, key, value);
    }

    /** Requesting account deletion only shows a notice. */
    method HandleDeleteAccount()
      ensures settings == old(settings)
    {
    }
  }
}
