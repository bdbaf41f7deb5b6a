/**
 * The command parser: user text becomes a `Command`, never an exception. Input
 * is stripped and upper-cased, split into tokens, the first token is looked up
 * in the alias table, and the argument parsers' errors are carried in the
 * command's `error` field.
 */
module Parser {
  import opened Wrappers
  import opened Text
  import opened Models

  /** The alias table: every accepted spelling of each command. */
  function CommandMap(token: string): (r: Option<CommandType>)
    ensures r != Some(Unknown)
  {
    match token
    case "L" => Some(List)
    case "LIST" => Some(List)
    case "S" => Some(Show)
    case "SHOW" => Some(Show)
    case "ON" => Some(On)
    case "OFF" => Some(Off)
    case "SET" => Some(Set)
    case "A" => Some(Automations)
    case "AUTO" => Some(Automations)
    case "AUTOMATIONS" => Some(Automations)
    case "T" => Some(Trigger)
    case "TRIGGER" => Some(Trigger)
    case "H" => Some(Help)
    case "HELP" => Some(Help)
    case "?" => Some(Help)
    case "Q" => Some(Quit)
    case "QUIT" => Some(Quit)
    case "EXIT" => Some(Quit)
    case "BYE" => Some(Quit)
    case "R" => Some(Refresh)
    case "REFRESH" => Some(Refresh)
    case _ => None
  }

  /** Every alias is already upper case, so only upper-cased tokens can be recognised. */
  lemma AliasesAreUpperCase(token: string)
    requires CommandMap(token).Some?
    ensures Upper(token) == token
  {
  }

  /** `_parse_int`: the token as an integer, or "Invalid <field>: <token>". */
  function ParseIntField(token: string, field: string): (r: Result<int, ParseError>)
    ensures r.Ok? <==> ParseInt(token).Some?
    ensures r.Ok? ==> r.value == ParseInt(token).value
    ensures r.Err? ==> r.error == ParseError("Invalid " + field + ": " + token, None)
  {
    match ParseInt(token)
    case Some(i) => Ok(i)
    case None => Err(ParseError("Invalid " + field + ": " + token, None))
  }

  /** The optional page argument of LIST and AUTOMATIONS: absent, or an integer >= 1. */
  function ParsePage(toks: seq<string>): (r: Result<Option<int>, ParseError>)
    ensures |toks| <= 1 ==> r == Ok(None)
    ensures r.Ok? && r.value.Some? ==> |toks| > 1 && r.value.value >= 1 && ParseInt(toks[1]) == Some(r.value.value)
    ensures |toks| > 1 ==> (r.Ok? <==> ParseInt(toks[1]).Some? && ParseInt(toks[1]).value >= 1)
    ensures |toks| > 1 && r.Ok? ==> r.value == Some(ParseInt(toks[1]).value)
    ensures |toks| > 1 && ParseInt(toks[1]).None? ==> r == Err(ParseError("Invalid page number: " + toks[1], None))
    ensures |toks| > 1 && ParseInt(toks[1]).Some? && ParseInt(toks[1]).value < 1
      ==> r == Err(ParseError("Page number must be >= 1", None))
  {
    if |toks| > 1 then
      assert "Invalid " + "page number" + ": " + toks[1] == "Invalid page number: " + toks[1];
      match ParseIntField(toks[1], "page number")
      case Err(e) => Err(e)
      case Ok(p) => if p < 1 then Err(ParseError("Page number must be >= 1", None)) else Ok(Some(p))
    else Ok(None)
  }

  /** The required id argument of SHOW, ON, OFF, SET and TRIGGER: an integer >= 1. */
  function ParseId(toks: seq<string>, field: string, missing: ParseError, tooSmall: string): (r: Result<int, ParseError>)
    ensures r.Ok? <==> |toks| >= 2 && ParseInt(toks[1]).Some? && ParseInt(toks[1]).value >= 1
    ensures r.Ok? ==> ParseInt(toks[1]) == Some(r.value)
    ensures |toks| < 2 ==> r == Err(missing)
  {
    if |toks| < 2 then Err(missing)
    else
      match ParseIntField(toks[1], field)
      case Err(e) => Err(e)
      case Ok(i) => if i < 1 then Err(ParseError(tooSmall, None)) else Ok(i)
  }

  /** `_parse_list`: L [page]. */
  function ParseList(toks: seq<string>, raw: string): (r: Result<Command, ParseError>)
    ensures r.Ok? ==> r.value.kind == List && r.value.IsValid() && r.value.deviceId == None
    ensures r.Ok? ==> r.value.page == None || r.value.page.value >= 1
    ensures |toks| == 1 ==> r == Ok(Command(List, raw, None, None, None, None))
    ensures |toks| > 1 ==> (r.Ok? <==> ParseInt(toks[1]).Some? && ParseInt(toks[1]).value >= 1)
    ensures |toks| > 1 && r.Ok? ==> r.value.page == Some(ParseInt(toks[1]).value)
    ensures r.Err? ==> ParsePage(toks).Err? && r.error == ParsePage(toks).error
  {
    match ParsePage(toks)
    case Err(e) => Err(e)
    case Ok(p) => Ok(Command(List, raw, None, None, p, None))
  }

  /** `_parse_automations`: A [page]. */
  function ParseAutomations(toks: seq<string>, raw: string): (r: Result<Command, ParseError>)
    ensures r.Ok? ==> r.value.kind == Automations && r.value.IsValid() && r.value.deviceId == None
    ensures r.Ok? ==> r.value.page == None || r.value.page.value >= 1
    ensures |toks| == 1 ==> r == Ok(Command(Automations, raw, None, None, None, None))
    ensures |toks| > 1 ==> (r.Ok? <==> ParseInt(toks[1]).Some? && ParseInt(toks[1]).value >= 1)
    ensures |toks| > 1 && r.Ok? ==> r.value.page == Some(ParseInt(toks[1]).value)
    ensures r.Err? ==> ParsePage(toks).Err? && r.error == ParsePage(toks).error
  {
    match ParsePage(toks)
    case Err(e) => Err(e)
    case Ok(p) => Ok(Command(Automations, raw, None, None, p, None))
  }

  /** A command whose only argument is a required id. */
  function ParseIdCommand(kind: CommandType, toks: seq<string>, raw: string, field: string,
                          missing: ParseError, tooSmall: string): (r: Result<Command, ParseError>)
    ensures r.Ok? <==> |toks| >= 2 && ParseInt(toks[1]).Some? && ParseInt(toks[1]).value >= 1
    ensures r.Ok? ==> r.value == Command(kind, raw, ParseInt(toks[1]), None, None, None)
    ensures |toks| < 2 ==> r == Err(missing)
  {
    match ParseId(toks, field, missing, tooSmall)
    case Err(e) => Err(e)
    case Ok(i) => Ok(Command(kind, raw, Some(i), None, None, None))
  }

  /** `_parse_show`: S <id>. */
  function ParseShow(toks: seq<string>, raw: string): (r: Result<Command, ParseError>)
    ensures r.Ok? <==> |toks| >= 2 && ParseInt(toks[1]).Some? && ParseInt(toks[1]).value >= 1
    ensures r.Ok? ==> r.value == Command(Show, raw, ParseInt(toks[1]), None, None, None)
    ensures |toks| < 2 ==> r == Err(ParseError("SHOW requires device ID", Some("Usage: S <id>")))
  {
    ParseIdCommand(Show, toks, raw, "device ID",
      ParseError("SHOW requires device ID", Some("Usage: S <id>")), "Device ID must be >= 1")
  }

  /** `_parse_on`: ON <id>. */
  function ParseOn(toks: seq<string>, raw: string): (r: Result<Command, ParseError>)
    ensures r.Ok? <==> |toks| >= 2 && ParseInt(toks[1]).Some? && ParseInt(toks[1]).value >= 1
    ensures r.Ok? ==> r.value == Command(On, raw, ParseInt(toks[1]), None, None, None)
    ensures |toks| < 2 ==> r == Err(ParseError("ON requires device ID", Some("Usage: ON <id>")))
  {
    ParseIdCommand(On, toks, raw, "device ID",
      ParseError("ON requires device ID", Some("Usage: ON <id>")), "Device ID must be >= 1")
  }

  /** `_parse_off`: OFF <id>. */
  function ParseOff(toks: seq<string>, raw: string): (r: Result<Command, ParseError>)
    ensures r.Ok? <==> |toks| >= 2 && ParseInt(toks[1]).Some? && ParseInt(toks[1]).value >= 1
    ensures r.Ok? ==> r.value == Command(Off, raw, ParseInt(toks[1]), None, None, None)
    ensures |toks| < 2 ==> r == Err(ParseError("OFF requires device ID", Some("Usage: OFF <id>")))
  {
    ParseIdCommand(Off, toks, raw, "device ID",
      ParseError("OFF requires device ID", Some("Usage: OFF <id>")), "Device ID must be >= 1")
  }

  /** `_parse_trigger`: T <id>; the id names an automation. */
  function ParseTrigger(toks: seq<string>, raw: string): (r: Result<Command, ParseError>)
    ensures r.Ok? <==> |toks| >= 2 && ParseInt(toks[1]).Some? && ParseInt(toks[1]).value >= 1
    ensures r.Ok? ==> r.value == Command(Trigger, raw, ParseInt(toks[1]), None, None, None)
    ensures |toks| < 2 ==> r == Err(ParseError("TRIGGER requires automation ID", Some("Usage: T <id>")))
  {
    ParseIdCommand(Trigger, toks, raw, "automation ID",
      ParseError("TRIGGER requires automation ID", Some("Usage: T <id>")), "Automation ID must be >= 1")
  }

  /** The SET value: an integer when the token reads as one, otherwise the token itself. */
  function SetValue(token: string): (v: Value)
    ensures v.IntValue? <==> ParseInt(token).Some?
    ensures v.IntValue? ==> ParseInt(token) == Some(v.i)
    ensures v.StrValue? ==> v.s == token
  {
    match ParseInt(token)
    case Some(i) => IntValue(i)
    case None => StrValue(token)
  }

  /** `_parse_set`: SET <id> <value>. */
  function ParseSet(toks: seq<string>, raw: string): (r: Result<Command, ParseError>)
    ensures r.Ok? <==> |toks| >= 3 && ParseInt(toks[1]).Some? && ParseInt(toks[1]).value >= 1
    ensures r.Ok? ==> r.value == Command(Set, raw, ParseInt(toks[1]), Some(SetValue(toks[2])), None, None)
    ensures |toks| < 3 ==> r == Err(ParseError("SET requires device ID and value", Some("Usage: SET <id> <value>")))
  {
    if |toks| < 3 then Err(ParseError("SET requires device ID and value", Some("Usage: SET <id> <value>")))
    else
      match ParseId(toks, "device ID", ParseError("", None), "Device ID must be >= 1")
      case Err(e) => Err(e)
      case Ok(i) => Ok(Command(Set, raw, Some(i), Some(SetValue(toks[2])), None, None))
  }

  /** The argument parsing for a recognised command kind. */
  function ParseArgs(kind: CommandType, toks: seq<string>, raw: string): (r: Result<Command, ParseError>)
    ensures r.Ok? ==> r.value.kind == kind && r.value.rawInput == raw
    ensures r.Ok? && kind != Unknown ==> r.value.IsValid()
    ensures r.Err? ==> r.error.message != ""
  {
    match kind
    case List => ParseList(toks, raw)
    case Show => ParseShow(toks, raw)
    case On => ParseOn(toks, raw)
    case Off => ParseOff(toks, raw)
    case Set => ParseSet(toks, raw)
    case Automations => ParseAutomations(toks, raw)
    case Trigger => ParseTrigger(toks, raw)
    case Help => Ok(Command(Help, raw, None, None, None, None))
    case Quit => Ok(Command(Quit, raw, None, None, None, None))
    case Refresh => Ok(Command(Refresh, raw, None, None, None, None))
    case Unknown => Ok(Command(Unknown, raw, None, None, None, Some("Unhandled command type")))
  }

  /**
   * What every parse result satisfies: an UNKNOWN command carries a non-empty error,
   * and an error-free command is a recognised one whose id (for the device commands
   * and TRIGGER) is at least 1, whose SET value is present and whose page is at least 1.
   */
  predicate WellFormed(c: Command) {
    && (c.kind == Unknown ==> c.error.Some? && c.error.value != "")
    && (c.IsValid() ==> c.kind != Unknown)
    && (c.IsValid() && (c.RequiresDeviceId() || c.kind == Trigger) ==> c.deviceId.Some? && c.deviceId.value >= 1)
    && (c.IsValid() && c.RequiresValue() ==> c.value.Some?)
    && (c.IsValid() ==> c.page == None || c.page.value >= 1)
  }

  /** The parse of already-normalised tokens; `raw` is the text as typed. */
  function ParseTokens(toks: seq<string>, raw: string): (c: Command)
    requires |toks| > 0
    ensures c.rawInput == raw
    ensures WellFormed(c)
    ensures CommandMap(toks[0]) == None ==> c == Command(Unknown, raw, None, None, None, Some("Unknown command: " + toks[0]))
    ensures CommandMap(toks[0]).Some? ==> c.kind == CommandMap(toks[0]).value
    ensures CommandMap(toks[0]).Some? ==> var args := ParseArgs(CommandMap(toks[0]).value, toks, raw);
      && (args.Ok? ==> c == args.value)
      && (args.Err? ==> c == Command(CommandMap(toks[0]).value, raw, None, None, None, Some(args.error.ToString())) && !c.IsValid())
  {
    match CommandMap(toks[0])
    case None => Command(Unknown, raw, None, None, None, Some("Unknown command: " + toks[0]))
    case Some(kind) =>
      match ParseArgs(kind, toks, raw)
      case Ok(c) => c
      case Err(e) =>
        assert e.message <= e.ToString();
        Command(kind, raw, None, None, None, Some(e.ToString()))
  }

  /** The text the tokens are taken from: stripped, then upper-cased. */
  function Normalize(input: string): (n: string)
    ensures Strip(n) == n
    ensures n == [] <==> Strip(input) == []
  {
    UpperStripCommute(Strip(input));
    StripIdempotent(input);
    Upper(Strip(input))
  }

  /** `parse` / `parse_command`. */
  function Parse(input: string): (c: Command)
    ensures c.rawInput == input
    ensures WellFormed(c)
    ensures Strip(input) == [] ==> c == Command(Unknown, input, None, None, None, Some("Empty command"))
  {
    var normalized := Normalize(input);
    if normalized == [] then Command(Unknown, input, None, None, None, Some("Empty command"))
    else
      SplitEmptyIffBlank(normalized);
      ParseTokens(Split(normalized), input)
  }

  /** The argument parsers record the raw text and nothing else depends on it. */
  lemma ArgsIgnoreRaw(kind: CommandType, toks: seq<string>, a: string, b: string)
    ensures ParseArgs(kind, toks, b).Ok? == ParseArgs(kind, toks, a).Ok?
    ensures ParseArgs(kind, toks, a).Ok? ==> ParseArgs(kind, toks, b).value == ParseArgs(kind, toks, a).value.(rawInput := b)
    ensures ParseArgs(kind, toks, a).Err? ==> ParseArgs(kind, toks, b).error == ParseArgs(kind, toks, a).error
  {
    match kind
    case List =>
    case Show =>
    case On =>
    case Off =>
    case Set =>
    case Automations =>
    case Trigger =>
    case Help =>
    case Quit =>
    case Refresh =>
    case Unknown =>
  }

  lemma TokensIgnoreRaw(toks: seq<string>, a: string, b: string)
    requires |toks| > 0
    ensures ParseTokens(toks, b) == ParseTokens(toks, a).(rawInput := b)
  {
    if CommandMap(toks[0]).Some? {
      ArgsIgnoreRaw(CommandMap(toks[0]).value, toks, a, b);
    }
  }

  /**
   * Parsing ignores letter case: the upper-cased text parses to the same command,
   * apart from the raw text it records.
   */
  lemma ParseCaseInsensitive(input: string)
    ensures Parse(Upper(input)) == Parse(input).(rawInput := Upper(input))
  {
    UpperStripCommute(input);
    UpperIdempotent(Strip(input));
    assert Normalize(Upper(input)) == Normalize(input);
    var n := Normalize(input);
    if n != [] {
      SplitEmptyIffBlank(n);
      TokensIgnoreRaw(Split(n), input, Upper(input));
    }
  }

  /**
   * The first token decides the kind: an alias gives its kind whether or not the
   * arguments are in error, and any other word gives UNKNOWN with
   * "Unknown command: <WORD>".
   */
  lemma FirstTokenDecidesKind(input: string)
    requires Strip(input) != []
    ensures Split(Normalize(input)) != []
    ensures var first := Split(Normalize(input))[0];
      && (CommandMap(first).Some? ==> Parse(input).kind == CommandMap(first).value)
      && (CommandMap(first) == None ==> Parse(input).kind == Unknown && Parse(input).error == Some("Unknown command: " + first))
  {
    SplitEmptyIffBlank(Normalize(input));
  }

  lemma ArgsIgnoreExtra(kind: CommandType, toks: seq<string>, extra: seq<string>, raw: string)
    requires |toks| >= 3
    ensures ParseArgs(kind, toks + extra, raw) == ParseArgs(kind, toks, raw)
  {
    var all := toks + extra;
    assert all[1] == toks[1] && all[2] == toks[2];
    PageIgnoresExtra(toks, extra);
    forall field, missing, tooSmall
      ensures ParseId(all, field, missing, tooSmall) == ParseId(toks, field, missing, tooSmall)
    {
      IdIgnoresExtra(toks, extra, field, missing, tooSmall);
    }
  }

  /** The page argument is the second token, whatever follows it. */
  lemma PageIgnoresExtra(toks: seq<string>, extra: seq<string>)
    requires |toks| >= 2
    ensures ParsePage(toks + extra) == ParsePage(toks)
  {
    assert (toks + extra)[1] == toks[1];
  }

  /** The id argument is the second token, whatever follows it. */
  lemma IdIgnoresExtra(toks: seq<string>, extra: seq<string>, field: string, missing: ParseError, tooSmall: string)
    requires |toks| >= 2
    ensures ParseId(toks + extra, field, missing, tooSmall) == ParseId(toks, field, missing, tooSmall)
  {
    assert (toks + extra)[1] == toks[1];
  }

  /** No command looks past its third token, so further tokens never change the result. */
  lemma ExtraTokensIgnored(toks: seq<string>, extra: seq<string>, raw: string)
    requires |toks| >= 3
    ensures ParseTokens(toks + extra, raw) == ParseTokens(toks, raw)
  {
    assert (toks + extra)[0] == toks[0];
    if CommandMap(toks[0]).Some? {
      ArgsIgnoreExtra(CommandMap(toks[0]).value, toks, extra, raw);
    }
  }

  /** A listing command alone parses to its kind, with no page and no error. */
  lemma BareAccepted(first: string, kind: CommandType, raw: string)
    requires CommandMap(first) == Some(kind) && kind in {List, Automations, Help, Quit, Refresh}
    ensures ParseTokens([first], raw) == Command(kind, raw, None, None, None, None)
  {
    ParseAsKind([first], raw, kind);
  }

  /** A page argument of 1 or more is accepted and recorded by LIST and AUTOMATIONS. */
  lemma PageAccepted(first: string, kind: CommandType, page: string, raw: string)
    requires CommandMap(first) == Some(kind) && kind in {List, Automations}
    requires ParseInt(page).Some? && ParseInt(page).value >= 1
    ensures ParseTokens([first, page], raw) == Command(kind, raw, None, None, ParseInt(page), None)
  {
    var toks := [first, page];
    assert toks[0] == first && toks[1] == page;
    ParseAsKind(toks, raw, kind);
  }

  /** A device command with no id keeps its kind and reports the usage hint. */
  lemma MissingIdKeepsKind(first: string, raw: string)
    requires CommandMap(first) == Some(Show)
    ensures ParseTokens([first], raw) == Command(Show, raw, None, None, None, Some("SHOW requires device ID" + "\n" + "Usage: S <id>"))
  {
  }

  /** SHOW, ON, OFF and TRIGGER with an id of 1 or more parse to their kind with that id and no error. */
  lemma IdAccepted(first: string, kind: CommandType, id: string, raw: string)
    requires CommandMap(first) == Some(kind) && kind in {Show, On, Off, Trigger}
    requires ParseInt(id).Some? && ParseInt(id).value >= 1
    ensures ParseTokens([first, id], raw) == Command(kind, raw, ParseInt(id), None, None, None)
  {
    var toks := [first, id];
    assert toks[0] == first && toks[1] == id;
    ParseAsKind(toks, raw, kind);
  }

  /** SET with an id of 1 or more and a value parses to SET with that id and the value read by `SetValue`. */
  lemma SetAccepted(first: string, id: string, v: string, raw: string)
    requires CommandMap(first) == Some(Set)
    requires ParseInt(id).Some? && ParseInt(id).value >= 1
    ensures ParseTokens([first, id, v], raw) == Command(Set, raw, ParseInt(id), Some(SetValue(v)), None, None)
  {
    var toks := [first, id, v];
    assert toks[0] == first && toks[1] == id && toks[2] == v;
    SetArgs(toks, raw);
    ParseAsKind(toks, raw, Set);
  }

  /** "SET 1 50" parses to SET with device 1 and the integer value 50. */
  lemma WellFormedSet(raw: string)
    ensures ParseTokens(["SET", "1", "50"], raw) == Command(Set, raw, Some(1), Some(IntValue(50)), None, None)
  {
    SmallInt("1", 1);
    Fifty();
    assert SetValue("50") == IntValue(50);
    SetAlias();
    SetAccepted("SET", "1", "50", raw);
  }

  lemma SetAlias()
    ensures CommandMap("SET") == Some(Set)
  {
  }

  lemma SetArgs(toks: seq<string>, raw: string)
    ensures ParseArgs(Set, toks, raw) == ParseSet(toks, raw)
  {
  }

  /** Tokens led by an alias of `kind` whose arguments parse give exactly that parse. */
  lemma ParseAsKind(toks: seq<string>, raw: string, kind: CommandType)
    requires |toks| > 0 && CommandMap(toks[0]) == Some(kind) && ParseArgs(kind, toks, raw).Ok?
    ensures ParseTokens(toks, raw) == ParseArgs(kind, toks, raw).value
  {
  }

  lemma SmallInt(s: string, d: nat)
    requires d < 10 && s == [DigitChar(d)]
    ensures ParseInt(s) == Some(d)
  {
    var c := DigitChar(d);
    assert IsDigit(c) && s[0] == c;
    assert IsDigits(s);
    assert s[..0] == [];
    assert DigitsValue(s) == d;
    StripNoBlankEnds(s);
  }

  lemma Fifty()
    ensures ParseInt("50") == Some(50)
  {
    var s := "50";
    assert IsDigits(s);
    assert s[..1] == "5" && "5"[..0] == [];
    assert DigitsValue(s) == 50;
    StripNoBlankEnds(s);
  }
}
