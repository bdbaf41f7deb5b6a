/**
 * The command validator: checks a parsed command against the mapped entities
 * (does the device exist, does its domain support the operation, is the SET value
 * in range) and reports the first problem as a message with a suggestion.
 */
module Validators {
  import opened Wrappers
  import opened Text
  import opened Models
  import opened Filters

  /** A validation failure: a message and an optional suggestion. */
  datatype ValidationError = ValidationError(message: string, suggestion: Option<string>)

  /**
   * The outcome of `validate`: it returns, raises ValidationError, or fails with
   * another exception (looking up the id of an entity that is absent or has no id).
   */
  datatype Verdict = Pass | Invalid(error: ValidationError) | LookupFailure

  /** Domains that support ON and OFF. */
  const SwitchableDomains: set<string> := {"light", "switch", "fan", "automation", "scene", "script"}

  /** Domains that support SET. */
  const SettableDomains: set<string> := {"light", "cover", "climate", "fan", "input_number", "number"}

  /** The validator's domain: `entity_id.split('.')[0]`, the whole id when it has no dot. */
  function IdDomain(id: string): (d: string)
    ensures '.' !in d && d <= id
    ensures '.' in id ==> DomainOf(id) == d
  {
    BeforeFirst(id, '.')
  }

  predicate IsAsciiLetter(c: char) {
    'a' <= c <= 'z' || 'A' <= c <= 'Z'
  }

  /** `s.replace(a, b)` for single characters. */
  function ReplaceChar(s: string, a: char, b: char): (r: string)
    ensures |r| == |s|
    ensures forall i :: 0 <= i < |s| ==> r[i] == if s[i] == a then b else s[i]
  {
    seq(|s|, i requires 0 <= i < |s| => if s[i] == a then b else s[i])
  }

  /** `s.title()` on ASCII text: a letter is upper-cased when it starts a word, lower-cased otherwise. */
  function Title(s: string): (r: string)
    ensures |r| == |s|
    ensures forall i :: 0 <= i < |s| ==> LowerChar(r[i]) == LowerChar(s[i])
    ensures forall i :: 0 <= i < |s| && StartsWord(s, i) ==> 'A' <= r[i] <= 'Z'
    ensures forall i :: 0 <= i < |s| && StartsWord(s, i) ==> r[i] == UpperChar(s[i])
    ensures forall i :: 0 <= i < |s| && !StartsWord(s, i) ==> r[i] == LowerChar(s[i])
  {
    var r := seq(|s|, i requires 0 <= i < |s| => TitleAt(s, i));
    forall i | 0 <= i < |s|
      ensures LowerChar(r[i]) == LowerChar(s[i])
    {
      assert r[i] == TitleAt(s, i);
      TitleAtCase(s, i);
    }
    forall i | 0 <= i < |s| && StartsWord(s, i)
      ensures 'A' <= r[i] <= 'Z'
    {
      assert r[i] == TitleAt(s, i);
      TitleAtCase(s, i);
    }
    forall i | 0 <= i < |s|
      ensures r[i] == if StartsWord(s, i) then UpperChar(s[i]) else LowerChar(s[i])
    {
      assert r[i] == TitleAt(s, i);
      TitleAtCase(s, i);
    }
    r
  }

  /** Position i holds a letter that does not follow a letter. */
  predicate StartsWord(s: string, i: nat)
    requires i < |s|
  {
    IsAsciiLetter(s[i]) && (i == 0 || !IsAsciiLetter(s[i - 1]))
  }

  /** The character `s.title()` puts at position i. */
  function TitleAt(s: string, i: nat): char
    requires i < |s|
  {
    if i > 0 && IsAsciiLetter(s[i - 1]) then LowerChar(s[i]) else UpperChar(s[i])
  }

  lemma TitleAtCase(s: string, i: nat)
    requires i < |s|
    ensures LowerChar(TitleAt(s, i)) == LowerChar(s[i])
    ensures StartsWord(s, i) ==> 'A' <= TitleAt(s, i) <= 'Z'
    ensures TitleAt(s, i) == if StartsWord(s, i) then UpperChar(s[i]) else LowerChar(s[i])
  {
    CaseChange(s[i]);
  }

  /** Changing the case of a character and then lowering it gives its lower case. */
  lemma CaseChange(c: char)
    ensures LowerChar(UpperChar(c)) == LowerChar(c)
    ensures LowerChar(LowerChar(c)) == LowerChar(c)
  {
  }

  /** The entity type named in messages: `domain.replace('_', ' ').title()`. */
  function EntityType(domain: string): string {
    Title(ReplaceChar(domain, '_', ' '))
  }

  /** `_validate_on` and `_validate_off`: only switchable domains. */
  function ValidateSwitch(entity: Option<Entity>, action: string): (v: Verdict)
    ensures entity.None? || entity.value.entityId.None? ==> v == LookupFailure
    ensures entity.Some? && entity.value.entityId.Some? ==>
      (v == Pass <==> IdDomain(entity.value.entityId.value) in SwitchableDomains)
    ensures v.Invalid? ==> v.error.suggestion == Some("Use SET to control this device")
    ensures v.Invalid? ==>
      entity.Some? && entity.value.entityId.Some?
      && v.error.message == EntityType(IdDomain(entity.value.entityId.value)) + " cannot be turned " + action
  {
    if entity.None? || entity.value.entityId.None? then LookupFailure
    else
      var domain := IdDomain(entity.value.entityId.value);
      if domain !in SwitchableDomains then
        Invalid(ValidationError(EntityType(domain) + " cannot be turned " + action, Some("Use SET to control this device")))
      else Pass
  }

  /** The numeric reading of a SET value (`float(value)` for the integers the model covers). */
  function NumericValue(v: Value): Option<int> {
    match v
    case IntValue(i) => Some(i)
    case StrValue(s) => ParseInt(s)
  }

  /** `_validate_value_range`: inclusive bounds per domain; other domains and non-numbers pass. */
  function ValidateValueRange(domain: string, value: Value): (v: Verdict)
    ensures v != LookupFailure
    ensures NumericValue(value).None? ==> v == Pass
    ensures domain !in {"light", "cover", "climate", "fan"} ==> v == Pass
    ensures NumericValue(value).Some? && domain == "light" ==> (v == Pass <==> 0 <= NumericValue(value).value <= 255)
    ensures NumericValue(value).Some? && domain == "cover" ==> (v == Pass <==> 0 <= NumericValue(value).value <= 100)
    ensures NumericValue(value).Some? && domain == "climate" ==> (v == Pass <==> -50 <= NumericValue(value).value <= 120)
    ensures NumericValue(value).Some? && domain == "fan" ==> (v == Pass <==> 0 <= NumericValue(value).value <= 100)
  {
    match NumericValue(value)
    case None => Pass
    case Some(n) =>
      if domain == "light" then
        if 0 <= n <= 255 then Pass else Invalid(ValidationError("Light brightness must be 0-255", Some("Example: SET 1 128")))
      else if domain == "cover" then
        if 0 <= n <= 100 then Pass else Invalid(ValidationError("Cover position must be 0-100", Some("0=closed, 100=open")))
      else if domain == "climate" then
        if -50 <= n <= 120 then Pass else Invalid(ValidationError("Temperature out of range", Some("Use degrees F or C")))
      else if domain == "fan" then
        if 0 <= n <= 100 then Pass else Invalid(ValidationError("Fan speed must be 0-100", Some("Example: SET 2 75")))
      else Pass
  }

  /** `_validate_set`: only settable domains, then the range check when a value is given. */
  function ValidateSet(cmd: Command, entity: Option<Entity>): (v: Verdict)
    ensures entity.None? || entity.value.entityId.None? ==> v == LookupFailure
    ensures entity.Some? && entity.value.entityId.Some? && IdDomain(entity.value.entityId.value) !in SettableDomains ==>
      v.Invalid? && v.error.suggestion == Some("Use ON/OFF for switches and lights")
      && v.error.message == EntityType(IdDomain(entity.value.entityId.value)) + " does not support SET"
    ensures entity.Some? && entity.value.entityId.Some? && IdDomain(entity.value.entityId.value) in SettableDomains ==>
      v == (if cmd.value.Some? then ValidateValueRange(IdDomain(entity.value.entityId.value), cmd.value.value) else Pass)
  {
    if entity.None? || entity.value.entityId.None? then LookupFailure
    else
      var domain := IdDomain(entity.value.entityId.value);
      if domain !in SettableDomains then
        Invalid(ValidationError(EntityType(domain) + " does not support SET", Some("Use ON/OFF for switches and lights")))
      else if cmd.value.Some? then ValidateValueRange(domain, cmd.value.value)
      else Pass
  }

  /** `_validate_trigger`: only automations can be triggered. */
  function ValidateTrigger(cmd: Command, entity: Option<Entity>): (v: Verdict)
    ensures entity.None? || entity.value.entityId.None? ==> v == LookupFailure
    ensures entity.Some? && entity.value.entityId.Some? ==>
      (v == Pass <==> IdDomain(entity.value.entityId.value) == "automation")
    ensures v.Invalid? ==> v.error.suggestion == Some("Use A to list automations")
    ensures v.Invalid? ==>
      v.error.message == "#" + (if cmd.deviceId.Some? then IntToString(cmd.deviceId.value) else "None") + " is not an automation"
  {
    if entity.None? || entity.value.entityId.None? then LookupFailure
    else if IdDomain(entity.value.entityId.value) != "automation" then
      var shown := if cmd.deviceId.Some? then IntToString(cmd.deviceId.value) else "None";
      Invalid(ValidationError("#" + shown + " is not an automation", Some("Use A to list automations")))
    else Pass
  }

  /** The kinds that need no entity context. */
  predicate NeedsNoEntity(kind: CommandType) {
    kind in {List, Automations, Help, Quit, Refresh, Unknown}
  }

  /**
   * `validate` / `validate_command`, with the mapper's numeric-id table (None when
   * there is no mapper).
   */
  function Validate(cmd: Command, mapper: Option<map<int, Entity>>): (v: Verdict)
    ensures NeedsNoEntity(cmd.kind) || mapper.None? ==> v == Pass
    ensures !NeedsNoEntity(cmd.kind) && mapper.Some? && cmd.deviceId.Some? && cmd.deviceId.value !in mapper.value ==>
      v == Invalid(ValidationError("Device #" + IntToString(cmd.deviceId.value) + " not found", Some("Use L to list devices")))
    ensures cmd.kind == Show && mapper.Some? && (cmd.deviceId.None? || cmd.deviceId.value in mapper.value) ==> v == Pass
  {
    if NeedsNoEntity(cmd.kind) || mapper.None? then Pass
    else
      var m := mapper.value;
      if cmd.deviceId.Some? && cmd.deviceId.value !in m then
        Invalid(ValidationError("Device #" + IntToString(cmd.deviceId.value) + " not found", Some("Use L to list devices")))
      else
        var entity := if cmd.deviceId.Some? then Some(m[cmd.deviceId.value]) else None;
        match cmd.kind
        case Show => Pass
        case On => ValidateSwitch(entity, "on")
        case Off => ValidateSwitch(entity, "off")
        case Set => ValidateSet(cmd, entity)
        case Trigger => ValidateTrigger(cmd, entity)
        case _ => Pass
  }

  /** ON and OFF on a mapped entity pass exactly for the switchable domains. */
  lemma SwitchRule(cmd: Command, m: map<int, Entity>, n: int, id: string)
    requires cmd.kind == On || cmd.kind == Off
    requires cmd.deviceId == Some(n) && n in m && m[n].entityId == Some(id)
    ensures Validate(cmd, Some(m)) == Pass <==> IdDomain(id) in SwitchableDomains
  {
  }

  /** SET on a mapped entity outside the settable domains is refused whatever the value. */
  lemma SetDomainRule(cmd: Command, m: map<int, Entity>, n: int, id: string)
    requires cmd.kind == Set
    requires cmd.deviceId == Some(n) && n in m && m[n].entityId == Some(id)
    requires IdDomain(id) !in SettableDomains
    ensures Validate(cmd, Some(m)).Invalid?
  {
  }

  /** The SET ranges are inclusive at both ends: light 0..255, cover and fan 0..100, climate -50..120. */
  lemma SetRangeBounds(cmd: Command, m: map<int, Entity>, n: int, id: string, x: int)
    requires cmd.kind == Set && cmd.value == Some(IntValue(x))
    requires cmd.deviceId == Some(n) && n in m && m[n].entityId == Some(id)
    ensures IdDomain(id) == "light" ==> (Validate(cmd, Some(m)) == Pass <==> 0 <= x <= 255)
    ensures IdDomain(id) == "cover" || IdDomain(id) == "fan" ==> (Validate(cmd, Some(m)) == Pass <==> 0 <= x <= 100)
    ensures IdDomain(id) == "climate" ==> (Validate(cmd, Some(m)) == Pass <==> -50 <= x <= 120)
    ensures IdDomain(id) == "input_number" || IdDomain(id) == "number" ==> Validate(cmd, Some(m)) == Pass
  {
  }

  /** TRIGGER on a mapped entity passes exactly for automations. */
  lemma TriggerRule(cmd: Command, m: map<int, Entity>, n: int, id: string)
    requires cmd.kind == Trigger
    requires cmd.deviceId == Some(n) && n in m && m[n].entityId == Some(id)
    ensures Validate(cmd, Some(m)) == Pass <==> IdDomain(id) == "automation"
  {
  }

  /** A SET without a value is only checked for its domain. */
  lemma SetWithoutValue(cmd: Command, m: map<int, Entity>, n: int, id: string)
    requires cmd.kind == Set && cmd.value == None
    requires cmd.deviceId == Some(n) && n in m && m[n].entityId == Some(id)
    ensures Validate(cmd, Some(m)) == Pass <==> IdDomain(id) in SettableDomains
  {
  }

  /**
   * The commands the parser accepts never hit a lookup failure when validated
   * against a well-formed mapper: every device command carries an id, and every
   * mapped entity has one.
   */
  lemma ParsedCommandsDoNotFail(cmd: Command, m: map<int, Entity>)
    requires cmd.kind in {Show, On, Off, Set, Trigger} ==> cmd.deviceId.Some?
    requires forall n :: n in m ==> m[n].entityId.Some?
    ensures Validate(cmd, Some(m)) != LookupFailure
  {
    if !NeedsNoEntity(cmd.kind) && cmd.deviceId.Some? && cmd.deviceId.value in m {
      var k := cmd.deviceId.value;
      var e := m[k];
      assert e.entityId.Some?;
      match cmd.kind
      case Set =>
        if IdDomain(e.entityId.value) in SettableDomains && cmd.value.Some? {
          assert ValidateValueRange(IdDomain(e.entityId.value), cmd.value.value) != LookupFailure;
        }
      case _ =>
    }
  }
}
