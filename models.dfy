/**
 * Parsed commands: the command kinds, the `Command` record the parser produces
 * and the classification predicates the session and the validator consult.
 */
module Models {
  import opened Wrappers
  import opened Text

  /** The kinds of command; `Value()` is the enum's string value. */
  datatype CommandType = List | Show | On | Off | Set | Automations | Trigger | Help | Quit | Refresh | Unknown {
    function Value(): string {
      match this
      case List => "list"
      case Show => "show"
      case On => "on"
      case Off => "off"
      case Set => "set"
      case Automations => "automations"
      case Trigger => "trigger"
      case Help => "help"
      case Quit => "quit"
      case Refresh => "refresh"
      case Unknown => "unknown"
    }
  }

  /** Distinct kinds have distinct string values. */
  lemma ValueInjective(a: CommandType, b: CommandType)
    ensures a.Value() == b.Value() ==> a == b
  {
  }

  /** The value a SET command carries: an integer, or the token kept as text. */
  datatype Value = IntValue(i: int) | StrValue(s: string) {
    /** `str(value)` */
    function Text(): string {
      match this
      case IntValue(i) => IntToString(i)
      case StrValue(s) => s
    }
  }

  /** The message and optional suggestion a parse failure carries. */
  datatype ParseError = ParseError(message: string, suggestion: Option<string>) {
    /** `str(e)`: the message, then the suggestion on a second line when it is non-empty. */
    function ToString(): (r: string)
      ensures message <= r
      ensures r == message <==> (suggestion == None || suggestion == Some(""))
      ensures suggestion.Some? && suggestion.value != "" ==> r == message + "\n" + suggestion.value
    {
      if suggestion.Some? && suggestion.value != "" then message + "\n" + suggestion.value else message
    }
  }

  datatype Command = Command(
    kind: CommandType,
    rawInput: string,
    deviceId: Option<int>,
    value: Option<Value>,
    page: Option<int>,
    error: Option<string>)
  {
    /** A command without a parse error. */
    predicate IsValid() {
      error == None
    }

    predicate RequiresDeviceId() {
      kind == Show || kind == On || kind == Off || kind == Set
    }

    predicate RequiresValue() {
      kind == Set
    }

    predicate SupportsPagination() {
      kind == List || kind == Automations
    }

    /** The commands that change HomeAssistant state and so need a fresh TOTP code. */
    predicate IsWriteOperation() {
      kind == On || kind == Off || kind == Set || kind == Trigger
    }

    /** The fields of `__str__` after the kind, each only when present. */
    function Fields(): seq<string> {
      (if deviceId.Some? then ["device_id=" + IntToString(deviceId.value)] else [])
      + (if value.Some? then ["value=" + value.value.Text()] else [])
      + (if page.Some? then ["page=" + IntToString(page.value)] else [])
      + (if error.Some? && error.value != "" then ["error='" + error.value + "'"] else [])
    }

    /** `__str__`: "Command(<kind value>", then the present fields, ", "-separated, then ")". */
    function ToString(): string {
      Join(", ", ["Command(" + kind.Value()] + Fields()) + ")"
    }
  }

  /** ", device_id=<id>" when the command has an id, else nothing. */
  function IdPart(c: Command): string {
    if c.deviceId.Some? then ", " + ("device_id=" + IntToString(c.deviceId.value)) else ""
  }

  /** ", value=<value>" when the command has a value, else nothing. */
  function ValuePart(c: Command): string {
    if c.value.Some? then ", " + ("value=" + c.value.value.Text()) else ""
  }

  /** ", page=<page>" when the command has a page, else nothing. */
  function PagePart(c: Command): string {
    if c.page.Some? then ", " + ("page=" + IntToString(c.page.value)) else ""
  }

  /** ", error='<error>'" when the command has a non-empty error, else nothing. */
  function ErrorPart(c: Command): string {
    if c.error.Some? && c.error.value != "" then ", " + ("error='" + c.error.value + "'") else ""
  }

  /**
   * The printed form of a command is "Command(<kind value>", then ", device_id=",
   * ", value=", ", page=" and ", error='...'", each exactly when that field is present
   * (a non-empty error), in that order, then ')'; so it starts with "Command(<kind value>",
   * continues with the device id when there is one, and a command with no id, value,
   * page and no (non-empty) error prints as its kind alone.
   */
  lemma ToStringShape(c: Command)
    ensures c.ToString() == "Command(" + c.kind.Value() + IdPart(c) + ValuePart(c) + PagePart(c) + ErrorPart(c) + ")"
    ensures "Command(" + c.kind.Value() <= c.ToString()
    ensures c.ToString()[|c.ToString()| - 1] == ')'
    ensures c.deviceId.Some? ==> "Command(" + c.kind.Value() + ", " + ("device_id=" + IntToString(c.deviceId.value)) <= c.ToString()
    ensures c.deviceId == None && c.value == None && c.page == None && (c.error == None || c.error == Some(""))
      ==> c.ToString() == "Command(" + c.kind.Value() + ")"
  {
    PrintedForm(c);
    var head := "Command(" + c.kind.Value();
    var parts := [head] + c.Fields();
    JoinHead(", ", parts);
    var j := Join(", ", parts);
    assert c.ToString() == j + ")";
    PrefixGrows(head, j, ")");
    if c.deviceId == None && c.value == None && c.page == None && (c.error == None || c.error == Some("")) {
      assert c.Fields() == [];
      assert parts == [head];
    }
    if c.deviceId.Some? {
      var d := "device_id=" + IntToString(c.deviceId.value);
      assert parts[1] == d;
      PrefixGrows(head + ", " + d, j, ")");
    }
  }

  lemma PrintedForm(c: Command)
    ensures c.ToString() == "Command(" + c.kind.Value() + IdPart(c) + ValuePart(c) + PagePart(c) + ErrorPart(c) + ")"
  {
    var head := "Command(" + c.kind.Value();
    JoinAsPrefixed(", ", head, c.Fields());
    FieldsPrinted(c);
    var a, b, p, e := IdPart(c), ValuePart(c), PagePart(c), ErrorPart(c);
    ConcatAssoc(head, a + b + p, e);
    ConcatAssoc(head, a + b, p);
    ConcatAssoc(head, a, b);
  }

  /** The present fields, each with ", " in front. */
  lemma FieldsPrinted(c: Command)
    ensures Prefixed(", ", c.Fields()) == IdPart(c) + ValuePart(c) + PagePart(c) + ErrorPart(c)
  {
    var a := if c.deviceId.Some? then ["device_id=" + IntToString(c.deviceId.value)] else [];
    var b := if c.value.Some? then ["value=" + c.value.value.Text()] else [];
    var p := if c.page.Some? then ["page=" + IntToString(c.page.value)] else [];
    var e := if c.error.Some? && c.error.value != "" then ["error='" + c.error.value + "'"] else [];
    assert c.Fields() == a + (b + (p + e));
    PrefixedOne(", ", a);
    PrefixedOne(", ", b);
    PrefixedOne(", ", p);
    PrefixedOne(", ", e);
    PrefixedFour(", ", a, b, p, e);
  }

  lemma PrefixedFour(sep: string, a: seq<string>, b: seq<string>, p: seq<string>, e: seq<string>)
    ensures Prefixed(sep, a + (b + (p + e))) == Prefixed(sep, a) + Prefixed(sep, b) + Prefixed(sep, p) + Prefixed(sep, e)
  {
    PrefixedAppend(sep, a, b + (p + e));
    PrefixedAppend(sep, b, p + e);
    PrefixedAppend(sep, p, e);
    var sa, sb, sp, se := Prefixed(sep, a), Prefixed(sep, b), Prefixed(sep, p), Prefixed(sep, e);
    ConcatAssoc(sb, sp, se);
    ConcatAssoc(sa, sb + sp, se);
    ConcatAssoc(sa, sb, sp);
  }

  lemma PrefixedOne(sep: string, parts: seq<string>)
    requires |parts| <= 1
    ensures Prefixed(sep, parts) == if parts == [] then "" else sep + parts[0]
  {
    if |parts| == 1 {
      assert parts[1..] == [];
    }
  }

  lemma PrefixGrows(p: string, s: string, t: string)
    requires p <= s
    ensures p <= s + t
  {
    assert (s + t)[..|p|] == s[..|p|];
  }

  /** `sep.join(parts)` starts with the first part, followed by the separator when more follow. */
  lemma JoinHead(sep: string, parts: seq<string>)
    requires |parts| > 0
    ensures parts[0] <= Join(sep, parts)
    ensures |parts| > 1 ==> parts[0] + sep + parts[1] <= Join(sep, parts)
    ensures |parts| == 1 ==> Join(sep, parts) == parts[0]
  {
    if |parts| > 2 {
      JoinHead(sep, parts[1..]);
    }
  }

  /**
   * How the classification predicates relate: SET is the one command that needs a
   * value, and it also needs a device id and is a write; the write operations are
   * the device commands except SHOW, plus TRIGGER; paginated listings never write.
   */
  lemma Classification(c: Command)
    ensures c.RequiresValue() ==> c.RequiresDeviceId() && c.IsWriteOperation()
    ensures c.IsWriteOperation() <==> (c.RequiresDeviceId() && c.kind != Show) || c.kind == Trigger
    ensures c.SupportsPagination() ==> !c.IsWriteOperation() && !c.RequiresDeviceId()
    ensures c.kind in {Quit, Help, Refresh, List, Show, Automations, Unknown} ==> !c.IsWriteOperation()
  {
  }
}
