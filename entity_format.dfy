/**
 * Compact one-line and detail renderings of HomeAssistant entities for 1200-baud
 * links: two-letter type abbreviations, short state markers, fixed-width names.
 */
module EntityFormat {
  import opened Wrappers
  import opened Text
  import opened Filters

  /** `ENTITY_ABBREV`: the two-letter code of each known domain. */
  const EntityAbbrev: map<string, string> := map[
    "light" := "LT", "switch" := "SW", "sensor" := "SN", "cover" := "BL",
    "automation" := "AU", "scene" := "SC", "climate" := "CL", "fan" := "FN",
    "lock" := "LK", "binary_sensor" := "BS", "input_boolean" := "IB", "script" := "SR"]

  /** Every code in the table is two characters long and no two domains share one. */
  lemma AbbrevTableShape()
    ensures forall d :: d in EntityAbbrev ==> |EntityAbbrev[d]| == 2
    ensures forall d1, d2 :: d1 in EntityAbbrev && d2 in EntityAbbrev && d1 != d2 ==> EntityAbbrev[d1] != EntityAbbrev[d2]
  {
  }

  /** `get_entity_abbrev`: the code of the domain before the first '.', or "??". */
  function GetEntityAbbrev(entityId: string): (r: string)
    ensures |r| == 2
    ensures DomainOf(entityId) in EntityAbbrev ==> r == EntityAbbrev[DomainOf(entityId)]
    ensures DomainOf(entityId) !in EntityAbbrev ==> r == "??"
  {
    AbbrevTableShape();
    var domain := DomainOf(entityId);
    if domain in EntityAbbrev then EntityAbbrev[domain] else "??"
  }

  /** An id without a dot has no known domain. */
  lemma NoDotUnknown(entityId: string)
    requires '.' !in entityId
    ensures GetEntityAbbrev(entityId) == "??"
  {
  }

  /** The unit attribute as `attributes.get('unit_of_measurement', '')` renders it. */
  function UnitText(attributes: map<string, AttrValue>): string {
    if "unit_of_measurement" in attributes then PyStr(attributes["unit_of_measurement"]) else ""
  }

  /**
   * `format_state`: the on/off/unknown markers (case-insensitive), then integer
   * states with their unit, then any other state cut to six characters.
   */
  function FormatState(state: string, attributes: map<string, AttrValue>): (r: string)
    ensures Lower(state) == "on" ==> r == "[ON]"
    ensures Lower(state) == "off" ==> r == "[--]"
    ensures Lower(state) in {"unavailable", "unknown", "none"} ==> r == "[??]"
    ensures Lower(state) !in {"on", "off", "unavailable", "unknown", "none"} && ParseInt(state).None? ==>
      |r| <= 6 && (if |state| > 6 then r == state[..5] + "…" else r == state)
    ensures Lower(state) !in {"on", "off", "unavailable", "unknown", "none"} && ParseInt(state).Some? ==>
      IntToString(ParseInt(state).value) <= r
  {
    var lower := Lower(state);
    if lower == "on" then "[ON]"
    else if lower == "off" then "[--]"
    else if lower in {"unavailable", "unknown", "none"} then "[??]"
    else match ParseInt(state)
      case Some(v) =>
        var unit := if "unit_of_measurement" in attributes then attributes["unit_of_measurement"] else AStr("");
        if unit in {AStr("°C"), AStr("°F"), AStr("C"), AStr("F")} then IntToString(v) + [unit.s[0]]
        else if unit == AStr("%") || "brightness" in attributes then IntToString(v) + "%"
        else IntToString(v)
      case None =>
        if |state| > 6 then state[..5] + "…" else state
  }

  /** The markers do not depend on the letter case of the state. */
  lemma FormatStateCaseInsensitive(state: string, attributes: map<string, AttrValue>)
    requires Lower(state) in {"on", "off", "unavailable", "unknown", "none"}
    ensures FormatState(Upper(state), attributes) == FormatState(state, attributes)
  {
    assert Lower(Upper(state)) == Lower(state) by {
      assert forall i :: 0 <= i < |state| ==> LowerChar(UpperChar(state[i])) == LowerChar(state[i]);
    }
  }

  /** A friendly name `format_entity_line` can measure and pad: absent, or text. */
  predicate NameIsText(e: Entity) {
    "friendly_name" !in e.attributes || e.attributes["friendly_name"].AStr?
  }

  /** `entity.get('entity_id', 'unknown')` */
  function EntityIdOf(e: Entity): string {
    e.entityId.GetOr("unknown")
  }

  /** The display name: the friendly name, or the part of the id after its last '.'. */
  function DisplayName(e: Entity): (name: string)
    ensures "friendly_name" in e.attributes ==> name == PyStr(e.attributes["friendly_name"])
    ensures "friendly_name" !in e.attributes ==> name == AfterLast(EntityIdOf(e), '.')
  {
    if "friendly_name" in e.attributes then PyStr(e.attributes["friendly_name"])
    else AfterLast(EntityIdOf(e), '.')
  }

  /** The name column: a name longer than the width is cut to width - 1 characters plus '…', then padded. */
  function NameField(name: string, width: int): (r: string)
    requires width >= 1
    ensures |r| == width
    ensures |name| <= width ==> r[..|name|] == name && forall i :: |name| <= i < width ==> r[i] == ' '
    ensures |name| > width ==> r == name[..width - 1] + "…"
  {
    var cut := if |name| > width then name[..width - 1] + "…" else name;
    LJust(cut, width)
  }

  /**
   * `format_entity_line`: "<id>.<AB> <name> <state>", the name in a column of
   * exactly `maxNameLen` characters so that the states line up.
   */
  function FormatEntityLine(numericId: int, e: Entity, maxNameLen: int): (r: string)
    requires maxNameLen >= 1 && NameIsText(e)
    ensures |r| == |IntToString(numericId)| + maxNameLen + 5 + |FormatState(e.state.GetOr("unknown"), e.attributes)|
  {
    IntToString(numericId) + "." + GetEntityAbbrev(EntityIdOf(e)) + " " + NameField(DisplayName(e), maxNameLen) + " " +
      FormatState(e.state.GetOr("unknown"), e.attributes)
  }

  /** The columns of an entity line: number and domain tag, padded name, one space, state. */
  lemma LineLayout(numericId: int, e: Entity, maxNameLen: int)
    requires maxNameLen >= 1 && NameIsText(e)
    ensures var r, n := FormatEntityLine(numericId, e, maxNameLen), |IntToString(numericId)|;
      && IntToString(numericId) + "." + GetEntityAbbrev(EntityIdOf(e)) + " " <= r
      && r[n + 4..n + 4 + maxNameLen] == NameField(DisplayName(e), maxNameLen)
      && r[n + 4 + maxNameLen] == ' '
      && r[n + 5 + maxNameLen..] == FormatState(e.state.GetOr("unknown"), e.attributes)
  {
    var head := IntToString(numericId) + "." + GetEntityAbbrev(EntityIdOf(e)) + " ";
    var field := NameField(DisplayName(e), maxNameLen);
    var state := FormatState(e.state.GetOr("unknown"), e.attributes);
    EntityLineParts(numericId, e, maxNameLen);
    Columns(head, field, state, |IntToString(numericId)|, maxNameLen);
  }

  lemma EntityLineParts(numericId: int, e: Entity, maxNameLen: int)
    requires maxNameLen >= 1 && NameIsText(e)
    ensures var head := IntToString(numericId) + "." + GetEntityAbbrev(EntityIdOf(e)) + " ";
      && |head| == |IntToString(numericId)| + 4
      && FormatEntityLine(numericId, e, maxNameLen)
         == head + NameField(DisplayName(e), maxNameLen) + " " + FormatState(e.state.GetOr("unknown"), e.attributes)
  {
  }

  lemma Columns(head: string, field: string, state: string, n: int, w: int)
    requires |head| == n + 4 && |field| == w
    ensures var r := head + field + " " + state;
      head <= r && r[n + 4..n + 4 + w] == field && r[n + 4 + w] == ' ' && r[n + 5 + w..] == state
  {
    var r := head + field + " " + state;
    assert r[..|head|] == head && r[|head|..|head| + |field|] == field && r[|head| + |field| + 1..] == state;
  }

  /**
   * Lines whose ids print with the same number of digits put the state in the same
   * column, whatever the names.
   */
  lemma StatesAligned(id1: int, e1: Entity, id2: int, e2: Entity, maxNameLen: int)
    requires maxNameLen >= 1 && NameIsText(e1) && NameIsText(e2)
    requires |IntToString(id1)| == |IntToString(id2)|
    ensures var l1, l2 := FormatEntityLine(id1, e1, maxNameLen), FormatEntityLine(id2, e2, maxNameLen);
      |l1| - |FormatState(e1.state.GetOr("unknown"), e1.attributes)| == |l2| - |FormatState(e2.state.GetOr("unknown"), e2.attributes)|
  {
  }

  /** `format_entity_list`: one line per entity, numbered consecutively from `startId`. */
  function FormatEntityList(es: seq<Entity>, startId: int, maxNameLen: int): (r: seq<string>)
    requires maxNameLen >= 1 && forall k :: 0 <= k < |es| ==> NameIsText(es[k])
    ensures |r| == |es|
    ensures forall k :: 0 <= k < |es| ==> r[k] == FormatEntityLine(startId + k, es[k], maxNameLen)
  {
    seq(|es|, k requires 0 <= k < |es| => FormatEntityLine(startId + k, es[k], maxNameLen))
  }

  /** Every listed line starts with its own number and a '.'. */
  lemma ListNumbering(es: seq<Entity>, startId: int, maxNameLen: int, k: int)
    requires maxNameLen >= 1 && forall j :: 0 <= j < |es| ==> NameIsText(es[j])
    requires 0 <= k < |es|
    ensures IntToString(startId + k) + "." <= FormatEntityList(es, startId, maxNameLen)[k]
  {
    assert FormatEntityList(es, startId, maxNameLen)[k] == FormatEntityLine(startId + k, es[k], maxNameLen);
    LineNumbered(startId + k, es[k], maxNameLen);
  }

  /** An entity line starts with its number and a '.'. */
  lemma LineNumbered(numericId: int, e: Entity, maxNameLen: int)
    requires maxNameLen >= 1 && NameIsText(e)
    ensures IntToString(numericId) + "." <= FormatEntityLine(numericId, e, maxNameLen)
  {
    var line := FormatEntityLine(numericId, e, maxNameLen);
    LineLayout(numericId, e, maxNameLen);
    var head, tag := IntToString(numericId) + ".", GetEntityAbbrev(EntityIdOf(e));
    PrefixOfPrefix(head + tag, " ", line);
    PrefixOfPrefix(head, tag, line);
  }

  lemma PrefixOfPrefix(a: string, b: string, c: string)
    requires a + b <= c
    ensures a <= c
  {
    assert (a + b)[..|a|] == a;
  }

  /** `int(b / 255 * 100)` on an integer brightness, as exact division truncated toward zero. */
  function BrightnessPercent(b: int): int {
    if b >= 0 then b * 100 / 255 else -((-b) * 100 / 255)
  }

  /** A number the detail view can do arithmetic on: an integer or a boolean. */
  predicate IsNumber(v: AttrValue) {
    v.AInt? || v.ABool?
  }

  function NumberOf(v: AttrValue): int
    requires IsNumber(v)
  {
    if v.AInt? then v.i else if v.b then 1 else 0
  }

  /** A value `rgb[0]`, `rgb[1]`, `rgb[2]` can be read from: a list or a string of three or more. */
  predicate HasThree(v: AttrValue) {
    (v.AIntList? && |v.items| >= 3) || (v.AStr? && |v.s| >= 3)
  }

  function Component(v: AttrValue, k: nat): string
    requires HasThree(v) && k < 3
  {
    if v.AIntList? then IntToString(v.items[k]) else [v.s[k]]
  }

  /** The attributes of a light that the detail view can render without raising. */
  predicate DetailRenders(e: Entity) {
    DomainOf(EntityIdOf(e)) == "light" ==>
      ("brightness" in e.attributes ==> IsNumber(e.attributes["brightness"])) &&
      ("rgb_color" in e.attributes ==> HasThree(e.attributes["rgb_color"]))
  }

  /** The domain-specific middle lines of the detail view. */
  function DetailExtras(e: Entity): (lines: seq<string>)
    requires DetailRenders(e)
    ensures DomainOf(EntityIdOf(e)) !in {"light", "cover", "climate", "sensor"} ==> lines == []
    ensures |lines| <= 2
    // a light: "Bright: <n>%" when it has a brightness, then "Color: RGB(r,g,b)" when it has a colour
    ensures DomainOf(EntityIdOf(e)) == "light" ==>
      && |lines| == (if "brightness" in e.attributes then 1 else 0) + (if "rgb_color" in e.attributes then 1 else 0)
      && ("brightness" in e.attributes ==>
            lines[0] == "Bright: " + IntToString(BrightnessPercent(NumberOf(e.attributes["brightness"]))) + "%")
      && ("rgb_color" in e.attributes ==>
            lines[|lines| - 1] == "Color: RGB(" + Component(e.attributes["rgb_color"], 0) + "," + Component(e.attributes["rgb_color"], 1)
                                  + "," + Component(e.attributes["rgb_color"], 2) + ")")
    // a cover: "Pos: <n>%" when it has a position
    ensures DomainOf(EntityIdOf(e)) == "cover" ==>
      && |lines| == (if "current_position" in e.attributes then 1 else 0)
      && ("current_position" in e.attributes ==> lines[0] == "Pos: " + PyStr(e.attributes["current_position"]) + "%")
    // a climate device: "Target: <t><unit>" then "Current: <t><unit>", each when present
    ensures DomainOf(EntityIdOf(e)) == "climate" ==>
      && |lines| == (if "temperature" in e.attributes then 1 else 0) + (if "current_temperature" in e.attributes then 1 else 0)
      && ("temperature" in e.attributes ==>
            lines[0] == "Target: " + PyStr(e.attributes["temperature"]) + UnitText(e.attributes))
      && ("current_temperature" in e.attributes ==>
            lines[|lines| - 1] == "Current: " + PyStr(e.attributes["current_temperature"]) + UnitText(e.attributes))
    // a sensor: "Unit: <u>" when its unit is present and not empty
    ensures DomainOf(EntityIdOf(e)) == "sensor" ==>
      && |lines| == (if "unit_of_measurement" in e.attributes && Truthy(e.attributes["unit_of_measurement"]) then 1 else 0)
      && (|lines| == 1 ==> lines[0] == "Unit: " + PyStr(e.attributes["unit_of_measurement"]))
  {
    var a := e.attributes;
    var domain := DomainOf(EntityIdOf(e));
    if domain == "light" then
      (if "brightness" in a then ["Bright: " + IntToString(BrightnessPercent(NumberOf(a["brightness"]))) + "%"] else [])
      + (if "rgb_color" in a then
           ["Color: RGB(" + Component(a["rgb_color"], 0) + "," + Component(a["rgb_color"], 1) + "," + Component(a["rgb_color"], 2) + ")"]
         else [])
    else if domain == "cover" then
      if "current_position" in a then ["Pos: " + PyStr(a["current_position"]) + "%"] else []
    else if domain == "climate" then
      (if "temperature" in a then ["Target: " + PyStr(a["temperature"]) + UnitText(a)] else [])
      + (if "current_temperature" in a then ["Current: " + PyStr(a["current_temperature"]) + UnitText(a)] else [])
    else if domain == "sensor" then
      if "unit_of_measurement" in a && Truthy(a["unit_of_measurement"]) then ["Unit: " + PyStr(a["unit_of_measurement"])] else []
    else []
  }

  /**
   * `format_entity_detail`: "#<id> <AB> <name>", "State: <state>", the domain's
   * extra lines, and "ID: <entity id>" last.
   */
  function FormatEntityDetail(numericId: int, e: Entity): (lines: seq<string>)
    requires DetailRenders(e)
    ensures 3 <= |lines| <= 5
    ensures lines[0] == "#" + IntToString(numericId) + " " + GetEntityAbbrev(EntityIdOf(e)) + " " + DisplayName(e)
    ensures lines[1] == "State: " + FormatState(e.state.GetOr("unknown"), e.attributes)
    ensures lines[|lines| - 1] == "ID: " + EntityIdOf(e)
    ensures lines[2..|lines| - 1] == DetailExtras(e)
  {
    var id := EntityIdOf(e);
    var head := "#" + IntToString(numericId) + " " + GetEntityAbbrev(id) + " " + DisplayName(e);
    var state := "State: " + FormatState(e.state.GetOr("unknown"), e.attributes);
    [head, state] + DetailExtras(e) + ["ID: " + id]
  }

  /** `format_compact`: the items joined by the separator. */
  function FormatCompact(items: seq<string>, separator: string): (r: string)
    ensures |r| == TotalLength(items) + (if |items| > 0 then (|items| - 1) * |separator| else 0)
    ensures |items| > 0 ==> items[0] <= r
    ensures items == [] ==> r == ""
    ensures |items| == 1 ==> r == items[0]
  {
    JoinLength(separator, items);
    Join(separator, items)
  }

  /** Each further item comes out at the end, after one more separator. */
  lemma FormatCompactAppend(items: seq<string>, x: string, separator: string)
    requires |items| > 0
    ensures FormatCompact(items + [x], separator) == FormatCompact(items, separator) + separator + x
  {
    JoinSnoc(separator, items, x);
  }

  /**
   * `truncate`: text within the limit is unchanged; longer text keeps its first
   * `maxLength - |suffix|` characters and gets the suffix.
   */
  function Truncate(text: string, maxLength: int, suffix: string): (r: string)
    ensures |text| <= maxLength ==> r == text
    ensures |text| > maxLength >= |suffix| ==> |r| == maxLength && r == text[..maxLength - |suffix|] + suffix
    ensures |text| > maxLength ==> |r| >= |suffix| && r[|r| - |suffix|..] == suffix
  {
    if |text| <= maxLength then text
    else PySlice(text, 0, maxLength - |suffix|) + suffix
  }

  /** Truncating twice to the same limit changes nothing the second time. */
  lemma TruncateIdempotent(text: string, maxLength: int, suffix: string)
    requires maxLength >= |suffix|
    ensures Truncate(Truncate(text, maxLength, suffix), maxLength, suffix) == Truncate(text, maxLength, suffix)
  {
  }
}
