/**
 * One telnet connection: the login dialogue (callsign, then a six-digit TOTP code,
 * a bounded number of attempts) and the command loop (prompt, parse, re-verify write
 * commands with a fresh code, validate, hand to the command handler).
 *
 * The stream is a script of input events. Each event carries the clock reading at
 * which it arrives and a line, or None for a timeout or a closed connection; an
 * exhausted script reads as None. Output and the calls made to the authenticator and
 * the command handler are appended to one transcript.
 */
module Connection {
  import opened Wrappers
  import opened Text
  import opened Models
  import opened Auth
  import Parser
  import Validators
  import HelpFormat

  const CallsignPrompt: string := "Callsign: "
  const CodePrompt: string := "TOTP Code: "
  const CommandPrompt: string := "> "
  const CallsignRequired: string := "Callsign required."
  const BadCodeFormat: string := "Invalid code format (must be 6 digits)."
  const AttemptsExceeded: string := "Maximum authentication attempts exceeded."
  const SessionExpiredText: string := "Session expired due to inactivity."
  const NoHandler: string := "ERR: Command handler not initialized"
  const ProcessingError: string := "Command processing error"

  /** One read from the stream: when it completes, and the raw line (None: timeout or EOF). */
  datatype InputEvent = InputEvent(at: int, line: Option<string>)

  /** What the connection writes. */
  datatype Output = Sent(text: string) | Prompted(text: string)

  /**
   * The events of a connection that matter for authorization: a command line of the
   * loop parsed into a command other than QUIT, a call to the authenticator, and a
   * call to the command handler.
   */
  datatype Call =
    | Received(cmd: Command)
    | VerifyCall(callsign: string, code: string, ok: bool)
    | HandlerCall(cmd: Command)

  /**
   * The command handler: the validation of a command against its entity mapper, and its
   * response to a command (None: it raised).
   */
  datatype Handler = Handler(validate: Command -> Validators.Verdict, handle: Command -> Option<seq<string>>)

  /**
   * Everything fixed for the life of the connection. The authenticator's two
   * operations and the command parser are taken as functions, so the connection's
   * properties hold whatever they compute; the connection object supplies Auth.RateLimit,
   * Auth.Verify and Parser.Parse.
   */
  datatype Env = Env(
    rateLimit: (AuthState, string, int) -> (AuthState, bool),
    verify: (AuthState, string, string, int) -> Outcome,
    parse: string -> Command,
    tableTimeout: int,
    timeoutSeconds: int,
    maxAuthAttempts: int,
    handler: Option<Handler>)

  /**
   * The connection's own fields, the clock, the unread input, what has been written
   * and the calls made so far.
   */
  datatype ConnState = ConnState(
    bpqMode: bool,
    authenticated: bool,
    callsign: Option<string>,
    session: Option<string>,
    lastActivity: int,
    clock: int,
    input: seq<InputEvent>,
    output: seq<Output>,
    calls: seq<Call>)

  /** The connection together with the authenticator's state and the session table. */
  datatype World = World(conn: ConnState, auth: AuthState, table: map<string, SessionRec>)

  /** How many verification calls were made. */
  function Verifies(t: seq<Call>): nat
    decreases |t|
  {
    if t == [] then 0 else Verifies(t[..|t| - 1]) + (if t[|t| - 1].VerifyCall? then 1 else 0)
  }

  lemma VerifiesAppend(a: seq<Call>, e: Call)
    ensures Verifies(a + [e]) == Verifies(a) + (if e.VerifyCall? then 1 else 0)
  {
    assert (a + [e])[..|a|] == a;
  }

  /**
   * Every handler call for a write command comes straight after a successful
   * verification for the callsign `cs`, and that verification comes straight after
   * the very same command was read: no earlier verification (the login's, or the one
   * of a previous command) lets a write command through.
   */
  predicate Guarded(t: seq<Call>, cs: string) {
    forall i :: 0 <= i < |t| ==> GuardAt(t, i, cs)
  }

  /** The call at position `i` respects the guard for the callsign `cs`. */
  predicate GuardAt(t: seq<Call>, i: nat, cs: string)
    requires i < |t|
  {
    t[i].HandlerCall? && t[i].cmd.IsWriteOperation() ==>
      2 <= i && t[i - 1].VerifyCall? && t[i - 1].ok && t[i - 1].callsign == cs
      && t[i - 2] == Received(t[i].cmd)
  }

  /** The call `e`, made after `before`, respects the guard for the callsign `cs`. */
  predicate GuardOk(before: seq<Call>, e: Call, cs: string) {
    e.HandlerCall? && e.cmd.IsWriteOperation() ==>
      |before| >= 2 && before[|before| - 1].VerifyCall? && before[|before| - 1].ok
      && before[|before| - 1].callsign == cs && before[|before| - 2] == Received(e.cmd)
  }

  /** The last event is that `cmd` was read. */
  predicate JustReceived(t: seq<Call>, cmd: Command) {
    t != [] && t[|t| - 1] == Received(cmd)
  }

  /** One more call that respects the guard keeps it; so does any verification call. */
  lemma GuardedAppend(a: seq<Call>, e: Call, cs: string)
    ensures Guarded(a, cs) && GuardOk(a, e, cs) ==> Guarded(a + [e], cs)
  {
    if Guarded(a, cs) && GuardOk(a, e, cs) {
      forall i | 0 <= i < |a| + 1 ensures GuardAt(a + [e], i, cs) {
        if i < |a| {
          assert GuardAt(a, i, cs);
        }
      }
    }
  }

  /** The callsign a connection is logged in under, "" before the login. */
  function CallsignOf(c: ConnState): string {
    c.callsign.GetOr("")
  }

  /** The last call was a verification that accepted a code for the connection's callsign. */
  predicate VerifiedLast(c: ConnState) {
    c.calls != [] && c.calls[|c.calls| - 1].VerifyCall? && c.calls[|c.calls| - 1].ok
    && c.callsign == Some(c.calls[|c.calls| - 1].callsign)
  }

  /** The output entries of lines sent one after another. */
  function Sents(lines: seq<string>): (r: seq<Output>)
    ensures |r| == |lines| && forall i :: 0 <= i < |r| ==> r[i] == Sent(lines[i])
    decreases |lines|
  {
    if lines == [] then [] else Sents(lines[..|lines| - 1]) + [Sent(lines[|lines| - 1])]
  }

  /** `send`: writing anything counts as activity. */
  function Write(c: ConnState, text: string): (r: ConnState)
    ensures r == c.(output := c.output + [Sent(text)], lastActivity := c.clock)
  {
    c.(output := c.output + [Sent(text)], lastActivity := c.clock)
  }

  /** `send` of each line in turn. */
  function WriteAll(c: ConnState, lines: seq<string>): (r: ConnState)
    ensures r.output == c.output + Sents(lines)
    ensures r == (if lines == [] then c else c.(output := r.output, lastActivity := c.clock))
  {
    if lines == [] then
      assert c.output + Sents(lines) == c.output;
      c
    else c.(output := c.output + Sents(lines), lastActivity := c.clock)
  }

  /** Appending one more line is one more `send`. */
  lemma WriteAllStep(c: ConnState, lines: seq<string>, i: nat)
    requires i < |lines|
    ensures WriteAll(c, lines[..i + 1]) == Write(WriteAll(c, lines[..i]), lines[i])
  {
    assert Sents(lines[..i + 1]) == Sents(lines[..i]) + [Sent(lines[i])];
  }

  /**
   * `read_line`: show the prompt if there is one, then take the next input event;
   * a line arrives stripped and counts as activity.
   */
  function ReadInput(c: ConnState, prompt: string): (r: (ConnState, Option<string>))
    ensures |r.0.input| <= |c.input| && (c.input != [] ==> r.0.input == c.input[1..])
    ensures r.1.Some? ==> c.input != [] && c.input[0].line.Some? && r.1 == Some(Strip(c.input[0].line.value))
    ensures r.1.None? <==> c.input == [] || c.input[0].line.None?
    ensures r.0.output == c.output + (if prompt != "" then [Prompted(prompt)] else [])
    ensures r.0.calls == c.calls
    ensures r.0.bpqMode == c.bpqMode && r.0.authenticated == c.authenticated
    ensures r.0.callsign == c.callsign && r.0.session == c.session
  {
    var c1 := if prompt != "" then c.(output := c.output + [Prompted(prompt)], lastActivity := c.clock) else c;
    if c1.input == [] then (c1, None)
    else
      var ev := c1.input[0];
      var c2 := c1.(input := c1.input[1..], clock := ev.at);
      if ev.line.None? then (c2, None) else (c2.(lastActivity := ev.at), Some(Strip(ev.line.value)))
  }

  /** A six-character all-digit code, the only form passed on for verification. */
  predicate SixDigits(code: string) {
    |code| == 6 && IsDigits(code)
  }

  /** The three ways the callsign step of an attempt ends. */
  datatype CallsignRead = NoInput | Missing | Got(callsign: string)

  /** Upper-cased, then stripped. */
  function Normalized(line: string): (r: string)
    ensures Upper(r) == r
  {
    UpperStripCommute(Upper(line));
    UpperIdempotent(line);
    Strip(Upper(line))
  }

  /**
   * Reading the callsign of attempt `attempt`: in BPQ mode the first attempt reads the
   * line the node sends, without a prompt; if that line is blank, BPQ mode is switched
   * off for good and the callsign is prompted for within the same attempt.
   */
  function ReadCallsign(c: ConnState, attempt: int): (r: (ConnState, CallsignRead))
    ensures |r.0.input| <= |c.input|
    ensures r.0.authenticated == c.authenticated && r.0.callsign == c.callsign && r.0.session == c.session
    ensures r.0.bpqMode ==> c.bpqMode
    ensures !(c.bpqMode && attempt == 1) ==> r.0.bpqMode == c.bpqMode
    ensures r.1.Got? ==> r.1.callsign != "" && Upper(r.1.callsign) == r.1.callsign
    ensures r.0.calls == c.calls
    ensures |r.0.output| >= |c.output| && r.0.output[..|c.output|] == c.output
  {
    var bpqFirst := c.bpqMode && attempt == 1;
    var (c1, line) := ReadInput(c, if bpqFirst then "" else CallsignPrompt);
    ExtendsPrefix(c.output, c1.output[|c.output|..]);
    if line.None? then (c1, NoInput)
    else
      var cs := Normalized(line.value);
      if cs != "" then (c1, Got(cs))
      else if !bpqFirst then
        ExtendsPrefix(c.output, c1.output[|c.output|..] + [Sent(CallsignRequired)]);
        (Write(c1, CallsignRequired), Missing)
      else
        var r := Reprompt(c1.(bpqMode := false));
        assert c1.output == c.output;
        (r.0, r.1)
  }

  /** What is appended after a transcript leaves the transcript as its prefix. */
  lemma ExtendsPrefix<T>(a: seq<T>, b: seq<T>)
    ensures |a + b| >= |a| && (a + b)[..|a|] == a
  {
  }

  /** BPQ mode sent a blank first line: ask for the callsign once within the same attempt. */
  function Reprompt(c: ConnState): (r: (ConnState, CallsignRead))
    ensures |r.0.input| <= |c.input|
    ensures r.0.authenticated == c.authenticated && r.0.callsign == c.callsign && r.0.session == c.session
    ensures r.0.bpqMode == c.bpqMode && r.1 != NoInput
    ensures r.1.Got? ==> r.1.callsign != "" && Upper(r.1.callsign) == r.1.callsign
    ensures r.0.calls == c.calls
    ensures |r.0.output| > |c.output| && r.0.output[..|c.output|] == c.output
    ensures r.0.output[|c.output|] == Prompted(CallsignPrompt)
  {
    var read := ReadInput(c, CallsignPrompt);
    var c1 := read.0;
    assert c1.output == c.output + [Prompted(CallsignPrompt)];
    if read.1.None? || read.1.value == "" then (Write(c1, CallsignRequired), Missing)
    else
      NormalizedKeepsText(c.input[0].line.value);
      (c1, Got(Normalized(read.1.value)))
  }

  /** The attempts left from attempt number `attempt` on. */
  function Remaining(env: Env, attempt: int): nat {
    if attempt <= env.maxAuthAttempts then env.maxAuthAttempts + 1 - attempt else 0
  }

  /** A login that does not succeed leaves the login fields and the session table alone. */
  predicate Unchanged(w: World, w1: World) {
    w1.table == w.table && w1.conn.authenticated == w.conn.authenticated
    && w1.conn.callsign == w.conn.callsign && w1.conn.session == w.conn.session
  }

  /**
   * A successful login: logged in under a non-empty upper-case callsign and, when the
   * table's timeout is not negative, bound to a new session under `sid` that holds
   * that callsign and is the only entry added to the table.
   */
  predicate LoggedIn(env: Env, w: World, w1: World, sid: string) {
    w1.conn.authenticated && w1.conn.callsign.Some?
    && w1.conn.callsign.value != "" && Upper(w1.conn.callsign.value) == w1.conn.callsign.value
    && (env.tableTimeout >= 0 ==>
         w1.conn.session == Some(sid) && sid in w1.table && w1.table[sid].callsign == w1.conn.callsign.value
         && w1.table.Keys == w.table.Keys + {sid})
  }

  /**
   * What a login from attempt number `attempt` on establishes, whatever the input:
   * success is LoggedIn, right after a verification that accepted a code for the
   * callsign logged in; failure is Unchanged; at most one verification per remaining
   * attempt; the guard on write commands is kept for the callsign the login ends
   * with; BPQ mode is never switched back on; the input only shrinks.
   */
  predicate LoginPost(env: Env, w: World, attempt: int, sid: string, r: (World, bool)) {
    (r.1 ==> LoggedIn(env, w, r.0, sid) && VerifiedLast(r.0.conn))
    && (!r.1 ==> Unchanged(w, r.0))
    && Verifies(r.0.conn.calls) <= Verifies(w.conn.calls) + Remaining(env, attempt)
    && (Guarded(w.conn.calls, CallsignOf(r.0.conn)) ==> Guarded(r.0.conn.calls, CallsignOf(r.0.conn)))
    && (r.0.conn.bpqMode ==> w.conn.bpqMode)
    && |r.0.conn.input| <= |w.conn.input|
  }

  /**
   * `authenticate`, from attempt number `attempt` on: the final state and whether the
   * login succeeded. Each `continue` of the attempt loop is a call for the next attempt.
   */
  function Login(env: Env, w: World, attempt: int, sid: string): (r: (World, bool))
    requires attempt >= 1
    ensures LoginPost(env, w, attempt, sid, r)
    decreases env.maxAuthAttempts + 1 - attempt, 5
  {
    if attempt > env.maxAuthAttempts then (w.(conn := Write(w.conn, AttemptsExceeded)), false)
    else Attempt(env, w, attempt, sid)
  }

  /** One pass of the attempt loop: read the callsign. */
  function Attempt(env: Env, w: World, attempt: int, sid: string): (r: (World, bool))
    requires 1 <= attempt <= env.maxAuthAttempts
    ensures LoginPost(env, w, attempt, sid, r)
    decreases env.maxAuthAttempts + 1 - attempt, 4
  {
    var read := ReadCallsign(w.conn, attempt);
    var c1 := read.0;
    var next := if read.1.Missing? then attempt + 1 else attempt;
    var r := match read.1
      case NoInput => (w.(conn := c1), false)
      case Missing => Login(env, w.(conn := c1), attempt + 1, sid)
      case Got(cs) => WithCallsign(env, w.(conn := c1), attempt, sid, cs);
    PostAfterRead(env, w, c1, attempt, next, sid, r);
    r
  }

  /**
   * Reading input before the rest of a login keeps what the login establishes: the
   * read leaves the login fields, the calls and the table alone, and the attempts
   * left only go down.
   */
  lemma PostAfterRead(env: Env, w: World, c1: ConnState, attempt: int, next: int, sid: string, r: (World, bool))
    requires attempt <= next
    requires c1.calls == w.conn.calls && c1.authenticated == w.conn.authenticated
    requires c1.callsign == w.conn.callsign && c1.session == w.conn.session
    requires (c1.bpqMode ==> w.conn.bpqMode) && |c1.input| <= |w.conn.input|
    requires LoginPost(env, w.(conn := c1), next, sid, r)
    ensures LoginPost(env, w, attempt, sid, r)
  {
  }

  /** The callsign has been read: a rate-limited callsign ends the login. */
  function WithCallsign(env: Env, w: World, attempt: int, sid: string, cs: string): (r: (World, bool))
    requires 1 <= attempt <= env.maxAuthAttempts
    requires cs != "" && Upper(cs) == cs
    ensures LoginPost(env, w, attempt, sid, r)
    decreases env.maxAuthAttempts + 1 - attempt, 3
  {
    var (auth1, limited) := env.rateLimit(w.auth, cs, w.conn.clock);
    if limited then (World(Write(w.conn, TooManyAttempts), auth1, w.table), false)
    else ReadCode(env, World(w.conn, auth1, w.table), attempt, sid, cs)
  }

  /** Read the code. */
  function ReadCode(env: Env, w: World, attempt: int, sid: string, cs: string): (r: (World, bool))
    requires 1 <= attempt <= env.maxAuthAttempts
    requires cs != "" && Upper(cs) == cs
    ensures LoginPost(env, w, attempt, sid, r)
    decreases env.maxAuthAttempts + 1 - attempt, 2
  {
    var (c1, code) := ReadInput(w.conn, CodePrompt);
    if code.None? then (w.(conn := c1), false)
    else CodeRead(env, w.(conn := c1), attempt, sid, cs, Strip(code.value))
  }

  /** A code that is not six digits is refused here and uses up the attempt. */
  function CodeRead(env: Env, w: World, attempt: int, sid: string, cs: string, code: string): (r: (World, bool))
    requires 1 <= attempt <= env.maxAuthAttempts
    requires cs != "" && Upper(cs) == cs
    ensures LoginPost(env, w, attempt, sid, r)
    decreases env.maxAuthAttempts + 1 - attempt, 1
  {
    if !SixDigits(code) then Login(env, w.(conn := Write(w.conn, BadCodeFormat)), attempt + 1, sid)
    else CheckCode(env, w, attempt, sid, cs, code)
  }

  /**
   * The code has the right form: verify it. Success creates the session and logs in
   * under `cs`; failure says why, and how many attempts are left if any.
   */
  function CheckCode(env: Env, w: World, attempt: int, sid: string, cs: string, code: string): (r: (World, bool))
    requires 1 <= attempt <= env.maxAuthAttempts
    requires cs != "" && Upper(cs) == cs
    ensures LoginPost(env, w, attempt, sid, r)
    ensures env.verify(w.auth, cs, code, w.conn.clock).ok ==> r.1 && r.0.conn.callsign == Some(cs)
    decreases env.maxAuthAttempts + 1 - attempt, 0
  {
    var o := env.verify(w.auth, cs, code, w.conn.clock);
    var call := VerifyCall(cs, code, o.ok);
    var c1 := w.conn.(calls := w.conn.calls + [call]);
    VerifiesAppend(w.conn.calls, call);
    if o.ok then
      GuardedAppend(w.conn.calls, call, cs);
      (Welcome(env, World(c1, o.state, w.table), sid, cs), true)
    else
      var r := Login(env, World(Retry(c1, o.message, attempt, env.maxAuthAttempts), o.state, w.table), attempt + 1, sid);
      GuardedAppend(w.conn.calls, call, CallsignOf(r.0.conn));
      r
  }

  /** A failed verification: say why, and how many attempts are left if any. */
  function Retry(c: ConnState, message: string, attempt: int, max: int): (r: ConnState)
    ensures r.calls == c.calls && r.input == c.input && r.bpqMode == c.bpqMode
    ensures r.authenticated == c.authenticated && r.callsign == c.callsign && r.session == c.session
    ensures |r.output| > |c.output| && r.output[..|c.output| + 1] == c.output + [Sent(message)]
  {
    var c1 := Write(c, message);
    if attempt < max then WriteAll(c1, ["Try again (" + IntToString(max - attempt) + " attempts remaining).", ""])
    else c1
  }

  /** A verified code: create the session, fetch it back, bind it, and greet the callsign. */
  function Welcome(env: Env, w: World, sid: string, cs: string): (r: World)
    requires cs != "" && Upper(cs) == cs
    ensures LoggedIn(env, w, r, sid) && r.conn.callsign == Some(cs)
    ensures r.auth == w.auth && r.conn.calls == w.conn.calls
    ensures r.conn.bpqMode == w.conn.bpqMode && r.conn.input == w.conn.input
  {
    CreateThenGet(w.table, cs, w.conn.clock, sid, env.tableTimeout);
    var b := Bind(env, w, sid, cs);
    b.(conn := WriteAll(b.conn, WelcomeLines(cs)))
  }

  /** The session is created and fetched back, and the connection bound to it under `cs`. */
  function Bind(env: Env, w: World, sid: string, cs: string): World {
    var (t2, s) := GetSpec(CreateSpec(w.table, cs, w.conn.clock, sid), sid, w.conn.clock, env.tableTimeout);
    World(w.conn.(session := if s.Some? then Some(sid) else None, authenticated := true, callsign := Some(cs)), w.auth, t2)
  }

  function WelcomeLines(cs: string): seq<string> {
    ["", "Welcome " + cs + "!", "Type H for help", ""]
  }

  /** Without input nobody logs in, and the session table is untouched. */
  lemma NoInputNoLogin(env: Env, w: World, attempt: int, sid: string)
    requires attempt >= 1 && w.conn.input == []
    ensures !Login(env, w, attempt, sid).1 && Login(env, w, attempt, sid).0.table == w.table
  {
  }

  /**
   * The first line is read without a prompt only on the first attempt in BPQ mode;
   * a blank first line there switches BPQ mode off and prompts within the same attempt.
   */
  lemma BpqFirstLine(c: ConnState, attempt: int)
    ensures !(c.bpqMode && attempt == 1) ==>
      |ReadCallsign(c, attempt).0.output| > |c.output| && ReadCallsign(c, attempt).0.output[|c.output|] == Prompted(CallsignPrompt)
    ensures c.bpqMode && attempt == 1 && c.input != [] && c.input[0].line.Some? && Normalized(c.input[0].line.value) != "" ==>
      ReadCallsign(c, attempt).1 == Got(Normalized(Strip(c.input[0].line.value))) && ReadCallsign(c, attempt).0.output == c.output
    ensures c.bpqMode && attempt == 1 && c.input != [] && c.input[0].line.Some? && Normalized(Strip(c.input[0].line.value)) == "" ==>
      && !ReadCallsign(c, attempt).0.bpqMode && |ReadCallsign(c, attempt).0.output| > |c.output|
      && ReadCallsign(c, attempt).0.output[|c.output|] == Prompted(CallsignPrompt)
  {
    if !(c.bpqMode && attempt == 1) {
      var c1 := ReadInput(c, CallsignPrompt).0;
      assert c1.output == c.output + [Prompted(CallsignPrompt)];
    } else if c.input != [] && c.input[0].line.Some? {
      var l := c.input[0].line.value;
      NormalizedStrip(l);
      var (c1, line) := ReadInput(c, "");
      assert c1.output == c.output && line == Some(Strip(l));
    }
  }

  /** A line with text left after stripping normalizes to a non-empty callsign. */
  lemma NormalizedKeepsText(l: string)
    requires Strip(l) != ""
    ensures Normalized(Strip(l)) != ""
  {
    NormalizedStrip(l);
    UpperStripCommute(l);
  }

  /** Stripping before normalizing changes nothing. */
  lemma NormalizedStrip(l: string)
    ensures Normalized(Strip(l)) == Normalized(l)
  {
    UpperStripCommute(l);
    UpperStripCommute(Strip(l));
    StripIdempotent(l);
    StripIdempotent(Upper(l));
  }

  /**
   * A rate-limited callsign ends the whole login: no code is read, nothing is verified,
   * and the answer is the lock-out message.
   */
  lemma RateLimitedAborts(env: Env, w: World, attempt: int, sid: string, cs: string)
    requires 1 <= attempt <= env.maxAuthAttempts
    requires cs != "" && Upper(cs) == cs
    requires env.rateLimit(w.auth, cs, w.conn.clock).1
    ensures var r := WithCallsign(env, w, attempt, sid, cs);
      !r.1 && r.0.conn.input == w.conn.input && r.0.conn.calls == w.conn.calls
      && r.0.conn.output == w.conn.output + [Sent(TooManyAttempts)]
  {
  }

  /**
   * A code that is not six digits is answered locally and never verified, and it uses
   * up the attempt: the login goes on with the next attempt number.
   */
  lemma MalformedCodeCostsAttempt(env: Env, w: World, attempt: int, sid: string, cs: string)
    requires 1 <= attempt <= env.maxAuthAttempts
    requires cs != "" && Upper(cs) == cs
    requires w.conn.input != [] && w.conn.input[0].line.Some? && !SixDigits(Strip(w.conn.input[0].line.value))
    ensures var c1 := ReadInput(w.conn, CodePrompt).0;
      ReadCode(env, w, attempt, sid, cs) == Login(env, w.(conn := Write(c1, BadCodeFormat)), attempt + 1, sid)
    ensures ReadInput(w.conn, CodePrompt).0.calls == w.conn.calls
  {
    var c1 := ReadInput(w.conn, CodePrompt).0;
    CodeIsRead(env, w, attempt, sid, cs);
    MalformedCode(env, w.(conn := c1), attempt, sid, cs, Strip(w.conn.input[0].line.value));
  }

  /** A line at the code prompt goes on to the format check, stripped. */
  lemma CodeIsRead(env: Env, w: World, attempt: int, sid: string, cs: string)
    requires 1 <= attempt <= env.maxAuthAttempts
    requires cs != "" && Upper(cs) == cs
    requires w.conn.input != [] && w.conn.input[0].line.Some?
    ensures ReadCode(env, w, attempt, sid, cs)
      == CodeRead(env, w.(conn := ReadInput(w.conn, CodePrompt).0), attempt, sid, cs, Strip(w.conn.input[0].line.value))
  {
    StripIdempotent(w.conn.input[0].line.value);
  }

  /** A code that fails the format check goes on to the next attempt with the refusal written. */
  lemma MalformedCode(env: Env, w: World, attempt: int, sid: string, cs: string, code: string)
    requires 1 <= attempt <= env.maxAuthAttempts
    requires cs != "" && Upper(cs) == cs
    requires !SixDigits(code)
    ensures CodeRead(env, w, attempt, sid, cs, code) == Login(env, w.(conn := Write(w.conn, BadCodeFormat)), attempt + 1, sid)
  {
  }

  /** One pass of the attempt loop, by how the callsign step ends. */
  lemma LoginStep(env: Env, w: World, attempt: int, sid: string)
    requires 1 <= attempt <= env.maxAuthAttempts
    ensures Login(env, w, attempt, sid) == Attempt(env, w, attempt, sid)
  {
  }

  lemma LoginExhausted(env: Env, w: World, attempt: int, sid: string)
    requires 1 <= attempt && env.maxAuthAttempts < attempt
    ensures Login(env, w, attempt, sid) == (w.(conn := Write(w.conn, AttemptsExceeded)), false)
  {
  }

  lemma AttemptEnds(env: Env, w: World, attempt: int, sid: string)
    requires 1 <= attempt <= env.maxAuthAttempts && ReadCallsign(w.conn, attempt).1 == NoInput
    ensures Attempt(env, w, attempt, sid) == (w.(conn := ReadCallsign(w.conn, attempt).0), false)
  {
  }

  lemma AttemptMissing(env: Env, w: World, attempt: int, sid: string)
    requires 1 <= attempt <= env.maxAuthAttempts && ReadCallsign(w.conn, attempt).1 == Missing
    ensures Attempt(env, w, attempt, sid) == Login(env, w.(conn := ReadCallsign(w.conn, attempt).0), attempt + 1, sid)
  {
  }

  lemma AttemptGot(env: Env, w: World, attempt: int, sid: string)
    requires 1 <= attempt <= env.maxAuthAttempts && ReadCallsign(w.conn, attempt).1.Got?
    ensures var (c1, got) := ReadCallsign(w.conn, attempt);
      got.callsign != "" && Upper(got.callsign) == got.callsign
      && Attempt(env, w, attempt, sid) == WithCallsign(env, w.(conn := c1), attempt, sid, got.callsign)
  {
  }

  lemma WithCallsignLimited(env: Env, w: World, attempt: int, sid: string, cs: string)
    requires 1 <= attempt <= env.maxAuthAttempts && cs != "" && Upper(cs) == cs
    requires env.rateLimit(w.auth, cs, w.conn.clock).1
    ensures WithCallsign(env, w, attempt, sid, cs)
      == (World(Write(w.conn, TooManyAttempts), env.rateLimit(w.auth, cs, w.conn.clock).0, w.table), false)
  {
  }

  lemma WithCallsignFree(env: Env, w: World, attempt: int, sid: string, cs: string)
    requires 1 <= attempt <= env.maxAuthAttempts && cs != "" && Upper(cs) == cs
    requires !env.rateLimit(w.auth, cs, w.conn.clock).1
    ensures WithCallsign(env, w, attempt, sid, cs)
      == ReadCode(env, World(w.conn, env.rateLimit(w.auth, cs, w.conn.clock).0, w.table), attempt, sid, cs)
  {
  }

  /** The code step of an attempt, after the read. */
  lemma ReadCodeStep(env: Env, w: World, attempt: int, sid: string, cs: string)
    requires 1 <= attempt <= env.maxAuthAttempts && cs != "" && Upper(cs) == cs
    ensures var (c1, code) := ReadInput(w.conn, CodePrompt);
      ReadCode(env, w, attempt, sid, cs)
        == if code.None? then (w.(conn := c1), false) else CodeRead(env, w.(conn := c1), attempt, sid, cs, Strip(code.value))
  {
  }

  /** The verification step of an attempt, by its answer. */
  lemma CheckCodeOk(env: Env, w: World, attempt: int, sid: string, cs: string, code: string)
    requires 1 <= attempt <= env.maxAuthAttempts && cs != "" && Upper(cs) == cs
    requires env.verify(w.auth, cs, code, w.conn.clock).ok
    ensures var o := env.verify(w.auth, cs, code, w.conn.clock);
      CheckCode(env, w, attempt, sid, cs, code)
        == (Welcome(env, World(w.conn.(calls := w.conn.calls + [VerifyCall(cs, code, true)]), o.state, w.table), sid, cs), true)
  {
  }

  lemma CheckCodeFails(env: Env, w: World, attempt: int, sid: string, cs: string, code: string)
    requires 1 <= attempt <= env.maxAuthAttempts && cs != "" && Upper(cs) == cs
    requires !env.verify(w.auth, cs, code, w.conn.clock).ok
    ensures var o := env.verify(w.auth, cs, code, w.conn.clock);
      var c1 := w.conn.(calls := w.conn.calls + [VerifyCall(cs, code, false)]);
      CheckCode(env, w, attempt, sid, cs, code)
        == Login(env, World(Retry(c1, o.message, attempt, env.maxAuthAttempts), o.state, w.table), attempt + 1, sid)
  {
  }

  /** `session.is_expired(timeout_seconds // 60)` for the bound session. */
  predicate SessionExpired(env: Env, w: World) {
    w.conn.session.Some? && w.conn.session.value in w.table
    && Expired(w.table[w.conn.session.value], w.conn.clock, env.timeoutSeconds / 60)
  }

  /** `session.update_activity()` on the bound session. */
  function Touch(w: World): (r: World)
    ensures r.conn == w.conn && r.auth == w.auth && r.table.Keys == w.table.Keys
  {
    if w.conn.session.Some? && w.conn.session.value in w.table then
      var sid := w.conn.session.value;
      w.(table := w.table[sid := w.table[sid].(lastActivity := w.conn.clock)])
    else w
  }

  /** Whether the command loop goes on after a command. */
  datatype LoopStep = Continue(w: World) | Stop(w: World)

  /**
   * What a command step may change: the input shrinks; the login fields and the
   * session table stay as they are.
   */
  predicate CommandFrame(w: World, r: World) {
    |r.conn.input| <= |w.conn.input| && r.table == w.table
    && r.conn.bpqMode == w.conn.bpqMode && r.conn.authenticated == w.conn.authenticated
    && r.conn.callsign == w.conn.callsign && r.conn.session == w.conn.session
  }

  /**
   * Validate the command against the handler's mapper and run it: validation errors,
   * other failures and a raising handler all become error lines. The answer is
   * whether the handler was called, and the lines to send.
   */
  function Response(env: Env, cmd: Command): (r: (bool, seq<string>))
    ensures r.0 <==> env.handler.Some? && env.handler.value.validate(cmd) == Validators.Pass
    ensures env.handler.None? ==> r.1 == [NoHandler]
    ensures !r.0 ==> |r.1| >= 1 && |r.1[0]| >= 5 && r.1[0][..5] == "ERR: "
    ensures env.handler.Some? ==> match env.handler.value.validate(cmd)
      case Invalid(e) => r.1 == HelpFormat.FormatErrorMessage(e.message, e.suggestion)
      case LookupFailure => r.1 == ["ERR: " + ProcessingError]
      case Pass => match env.handler.value.handle(cmd)
        case None => r.1 == ["ERR: " + ProcessingError]
        case Some(lines) => r.1 == lines
  {
    if env.handler.None? then (false, [NoHandler])
    else
      var h := env.handler.value;
      match h.validate(cmd)
      case Invalid(e) => (false, HelpFormat.FormatErrorMessage(e.message, e.suggestion))
      case LookupFailure => (false, HelpFormat.FormatErrorMessage(ProcessingError, None))
      case Pass =>
        match h.handle(cmd)
        case None => (true, HelpFormat.FormatErrorMessage(ProcessingError, None))
        case Some(lines) => (true, lines)
  }

  /** Dispatching never ends the loop; the transcript records the handler call, if any, and the lines sent. */
  function Dispatch(env: Env, w: World, cmd: Command): (r: LoopStep)
    ensures r.Continue? && CommandFrame(w, r.w) && r.w.auth == w.auth
    ensures r.w.conn.calls == w.conn.calls + (if Response(env, cmd).0 then [HandlerCall(cmd)] else [])
    ensures r.w.conn.output == w.conn.output + Sents(Response(env, cmd).1)
    ensures Guarded(w.conn.calls, CallsignOf(w.conn)) && GuardOk(w.conn.calls, HandlerCall(cmd), CallsignOf(w.conn))
      ==> Guarded(r.w.conn.calls, CallsignOf(w.conn))
  {
    var (called, lines) := Response(env, cmd);
    GuardedAppend(w.conn.calls, HandlerCall(cmd), CallsignOf(w.conn));
    var c1 := if called then w.conn.(calls := w.conn.calls + [HandlerCall(cmd)]) else w.conn;
    Continue(w.(conn := WriteAll(c1, lines)))
  }

  /**
   * A write command asks for a fresh code and verifies it for the logged-in callsign;
   * only a successful verification lets the command through to the handler. The session
   * table is not consulted.
   */
  function Reauthorize(env: Env, w: World, cmd: Command): (r: LoopStep)
    requires cmd.IsWriteOperation()
    ensures r.Continue? && CommandFrame(w, r.w)
    ensures Guarded(w.conn.calls, CallsignOf(w.conn)) && JustReceived(w.conn.calls, cmd)
      ==> Guarded(r.w.conn.calls, CallsignOf(w.conn))
  {
    var c1 := Write(w.conn, "");
    var (c2, code) := ReadInput(c1, CodePrompt);
    if code.None? then Continue(w.(conn := Write(c2, "Operation cancelled.")))
    else
      var t := Strip(code.value);
      if !SixDigits(t) then Continue(w.(conn := WriteAll(c2, [BadCodeFormat, ""])))
      else VerifyThenDispatch(env, w.(conn := c2), cmd, t)
  }

  /** The re-verification prompt, by what was read. */
  lemma ReauthorizeCancelled(env: Env, w: World, cmd: Command)
    requires cmd.IsWriteOperation() && ReadInput(Write(w.conn, ""), CodePrompt).1.None?
    ensures Reauthorize(env, w, cmd)
      == Continue(w.(conn := Write(ReadInput(Write(w.conn, ""), CodePrompt).0, "Operation cancelled.")))
  {
  }

  lemma ReauthorizeMalformed(env: Env, w: World, cmd: Command)
    requires cmd.IsWriteOperation()
    requires var code := ReadInput(Write(w.conn, ""), CodePrompt).1; code.Some? && !SixDigits(Strip(code.value))
    ensures Reauthorize(env, w, cmd)
      == Continue(w.(conn := WriteAll(ReadInput(Write(w.conn, ""), CodePrompt).0, [BadCodeFormat, ""])))
  {
  }

  lemma ReauthorizeVerifies(env: Env, w: World, cmd: Command)
    requires cmd.IsWriteOperation()
    requires var code := ReadInput(Write(w.conn, ""), CodePrompt).1; code.Some? && SixDigits(Strip(code.value))
    ensures var (c2, code) := ReadInput(Write(w.conn, ""), CodePrompt);
      Reauthorize(env, w, cmd) == VerifyThenDispatch(env, w.(conn := c2), cmd, Strip(code.value))
  {
  }

  /** The fresh code has the right form: verify it for the logged-in callsign, and dispatch only on success. */
  function VerifyThenDispatch(env: Env, w: World, cmd: Command, code: string): (r: LoopStep)
    requires cmd.IsWriteOperation()
    ensures r.Continue? && CommandFrame(w, r.w)
    ensures var ok := env.verify(w.auth, CallsignOf(w.conn), code, w.conn.clock).ok;
      && |r.w.conn.calls| > |w.conn.calls|
      && r.w.conn.calls[..|w.conn.calls| + 1] == w.conn.calls + [VerifyCall(CallsignOf(w.conn), code, ok)]
      && (!ok ==> r.w.conn.calls == w.conn.calls + [VerifyCall(CallsignOf(w.conn), code, false)])
    ensures Guarded(w.conn.calls, CallsignOf(w.conn)) && JustReceived(w.conn.calls, cmd)
      ==> Guarded(r.w.conn.calls, CallsignOf(w.conn))
  {
    var cs := CallsignOf(w.conn);
    var o := env.verify(w.auth, cs, code, w.conn.clock);
    var c1 := w.conn.(calls := w.conn.calls + [VerifyCall(cs, code, o.ok)]);
    GuardedAppend(w.conn.calls, VerifyCall(cs, code, o.ok), cs);
    if !o.ok then Continue(World(WriteAll(c1, [o.message, ""]), o.state, w.table))
    else Dispatch(env, World(c1, o.state, w.table), cmd)
  }

  /** One non-empty command line, after the activity update. */
  function Execute(env: Env, w: World, line: string): (r: LoopStep)
    ensures CommandFrame(w, r.w)
    ensures Guarded(w.conn.calls, CallsignOf(w.conn)) ==> Guarded(r.w.conn.calls, CallsignOf(w.conn))
    ensures !env.parse(line).IsValid() ==>
      r.Continue? && r.w.conn.calls == w.conn.calls && r.w.auth == w.auth
      && r.w.conn.output == w.conn.output + Sents(HelpFormat.FormatErrorMessage(env.parse(line).error.value, None))
  {
    var cmd := env.parse(line);
    if !cmd.IsValid() then Continue(w.(conn := WriteAll(w.conn, HelpFormat.FormatErrorMessage(cmd.error.value, None))))
    else Perform(env, w, cmd)
  }

  /**
   * A command that parsed: QUIT ends the loop; any other command is recorded as read,
   * then a write command is re-verified first and anything else is dispatched.
   */
  function Perform(env: Env, w: World, cmd: Command): (r: LoopStep)
    ensures CommandFrame(w, r.w)
    ensures Guarded(w.conn.calls, CallsignOf(w.conn)) ==> Guarded(r.w.conn.calls, CallsignOf(w.conn))
    ensures r.Stop? <==> cmd.kind == Quit
    ensures cmd.kind == Quit ==> r.w == w.(conn := Write(w.conn, "73!"))
  {
    if cmd.kind == Quit then Stop(w.(conn := Write(w.conn, "73!")))
    else
      var w1 := w.(conn := w.conn.(calls := w.conn.calls + [Received(cmd)]));
      GuardedAppend(w.conn.calls, Received(cmd), CallsignOf(w.conn));
      if cmd.IsWriteOperation() then Reauthorize(env, w1, cmd)
      else Dispatch(env, w1, cmd)
  }

  /**
   * Every command but QUIT is recorded as read; then a write command goes through the
   * fresh-code check and nothing else does.
   */
  lemma PerformRoutes(env: Env, w: World, cmd: Command)
    requires cmd.kind != Quit
    ensures var w1 := w.(conn := w.conn.(calls := w.conn.calls + [Received(cmd)]));
      && (cmd.IsWriteOperation() ==> Perform(env, w, cmd) == Reauthorize(env, w1, cmd))
      && (!cmd.IsWriteOperation() ==> Perform(env, w, cmd) == Dispatch(env, w1, cmd))
  {
  }

  /** `command_loop`'s `while True`, from the state `w`. */
  function LoopFrom(env: Env, w: World): World
    decreases |w.conn.input|, 0
  {
    if SessionExpired(env, w) then w.(conn := Write(w.conn, SessionExpiredText))
    else
      var (c1, line) := ReadInput(w.conn, CommandPrompt);
      if line.None? then w.(conn := c1)
      else if line.value == "" then LoopFrom(env, w.(conn := c1))
      else LoopAfter(env, Touch(w.(conn := c1)), line.value)
  }

  /** The loop after the activity update for a non-empty line: run it, and go round again unless it ended the loop. */
  function LoopAfter(env: Env, w: World, line: string): World
    decreases |w.conn.input|, 1
  {
    match Execute(env, w, line)
    case Stop(w2) => w2
    case Continue(w2) => LoopFrom(env, w2)
  }

  lemma LoopExpires(env: Env, w: World)
    requires SessionExpired(env, w)
    ensures LoopFrom(env, w) == w.(conn := Write(w.conn, SessionExpiredText))
  {
  }

  lemma LoopWithoutInput(env: Env, w: World)
    requires !SessionExpired(env, w) && ReadInput(w.conn, CommandPrompt).1.None?
    ensures LoopFrom(env, w) == w.(conn := ReadInput(w.conn, CommandPrompt).0)
  {
  }

  lemma LoopSkipsEmpty(env: Env, w: World)
    requires !SessionExpired(env, w) && ReadInput(w.conn, CommandPrompt).1 == Some("")
    ensures LoopFrom(env, w) == LoopFrom(env, w.(conn := ReadInput(w.conn, CommandPrompt).0))
  {
  }

  lemma LoopExecutes(env: Env, w: World)
    requires !SessionExpired(env, w)
    requires var line := ReadInput(w.conn, CommandPrompt).1; line.Some? && line.value != ""
    ensures var (c1, line) := ReadInput(w.conn, CommandPrompt);
      LoopFrom(env, w) == LoopAfter(env, Touch(w.(conn := c1)), line.value)
  {
  }

  lemma LoopAfterStep(env: Env, w: World, line: string)
    ensures var s := Execute(env, w, line);
      (s.Stop? ==> LoopAfter(env, w, line) == s.w) && (s.Continue? ==> LoopAfter(env, w, line) == LoopFrom(env, s.w))
  {
  }

  /** `command_loop`: nothing at all happens unless the connection is logged in. */
  function Serve(env: Env, w: World): World {
    if !w.conn.authenticated then w else LoopFrom(env, w)
  }

  /**
   * The command loop keeps the login fields, keeps the guard on write commands, and
   * changes the session table only in the last-activity time of the bound session.
   */
  lemma {:induction false} LoopKeeps(env: Env, w: World)
    ensures LoopFrame(w, LoopFrom(env, w))
    decreases |w.conn.input|
  {
    if !SessionExpired(env, w) {
      var (c1, line) := ReadInput(w.conn, CommandPrompt);
      if line.Some? {
        if line.value == "" {
          LoopKeeps(env, w.(conn := c1));
          LoopFrameTrans(w, w.(conn := c1), LoopFrom(env, w.(conn := c1)));
        } else {
          var w1 := Touch(w.(conn := c1));
          var s := Execute(env, w1, line.value);
          assert LoopFrame(w, s.w);
          if s.Continue? {
            LoopKeeps(env, s.w);
            LoopFrameTrans(w, s.w, LoopFrom(env, s.w));
          }
        }
      }
    }
  }

  /**
   * What the command loop keeps: the login fields and BPQ mode, the guard on write
   * commands, and the session table up to the last-activity time of the bound session.
   */
  predicate LoopFrame(w: World, r: World) {
    r.conn.authenticated == w.conn.authenticated && r.conn.callsign == w.conn.callsign
    && r.conn.session == w.conn.session && r.conn.bpqMode == w.conn.bpqMode
    && (Guarded(w.conn.calls, CallsignOf(w.conn)) ==> Guarded(r.conn.calls, CallsignOf(w.conn)))
    && r.table.Keys == w.table.Keys
    && (forall id :: id in w.table ==> r.table[id] == w.table[id].(lastActivity := r.table[id].lastActivity))
    && (forall id :: id in w.table && Some(id) != w.conn.session ==> r.table[id] == w.table[id])
  }

  lemma LoopFrameTrans(a: World, b: World, c: World)
    requires LoopFrame(a, b) && LoopFrame(b, c)
    ensures LoopFrame(a, c)
  {
    forall id | id in a.table
      ensures c.table[id] == a.table[id].(lastActivity := c.table[id].lastActivity)
    {
      assert b.table[id] == a.table[id].(lastActivity := b.table[id].lastActivity);
    }
  }

  /** "Q" (or any spelling that parses to QUIT) says "73!" and ends the loop. */
  lemma QuitEndsLoop(env: Env, w: World)
    requires !SessionExpired(env, w)
    requires w.conn.input != [] && w.conn.input[0].line.Some?
    requires var cmd := env.parse(Strip(w.conn.input[0].line.value)); cmd.IsValid() && cmd.kind == Quit
    requires Strip(w.conn.input[0].line.value) != ""
    ensures var r := LoopFrom(env, w);
      r.conn.input == w.conn.input[1..] && |r.conn.output| > 0 && r.conn.output[|r.conn.output| - 1] == Sent("73!")
      && r.auth == w.auth
  {
    var (c1, line) := ReadInput(w.conn, CommandPrompt);
    var w1 := Touch(w.(conn := c1));
    LoopExecutes(env, w);
    assert Execute(env, w1, line.value) == Stop(w1.(conn := Write(w1.conn, "73!")));
  }

  /** `close`: the bound session, if any, is ended; the connection's own fields are kept. */
  function CloseSpec(w: World): (r: World)
    ensures r.conn == w.conn && r.auth == w.auth
    ensures w.conn.session.Some? ==> r.table == w.table - {w.conn.session.value}
    ensures w.conn.session.None? ==> r.table == w.table
  {
    if w.conn.session.Some? then w.(table := w.table - {w.conn.session.value}) else w
  }

  /** `show_banner`: each line of a non-empty banner, then an empty line. */
  function Banner(c: ConnState, banner: string): (r: ConnState)
    ensures r.output == c.output + (if banner == "" then [] else Sents(SplitOn(banner, '\n')) + [Sent("")])
    ensures r.calls == c.calls && r.input == c.input && r.clock == c.clock
    ensures r.bpqMode == c.bpqMode && r.authenticated == c.authenticated && r.callsign == c.callsign && r.session == c.session
  {
    if banner != "" then Write(WriteAll(c, SplitOn(banner, '\n')), "") else c
  }

  /** `run`: banner, login, then either the goodbye line or the command loop, and always `close`. */
  function RunSpec(env: Env, w: World, banner: string, sid: string): World {
    var (w2, ok) := Login(env, w.(conn := Banner(w.conn, banner)), 1, sid);
    Finish(env, w2, ok)
  }

  /** What `run` does after `authenticate`: the goodbye line or the command loop, then `close`. */
  function Finish(env: Env, w: World, ok: bool): World {
    CloseSpec(if !ok then w.(conn := Write(w.conn, "Authentication failed. Goodbye.")) else Serve(env, w))
  }

  /**
   * Over a whole connection that starts logged out with no calls made: every handler
   * call for a write command directly follows a verification that accepted a code for
   * the callsign the connection is logged in under; a failed login leaves the session
   * table as it was; a successful one leaves it with no new entry once the
   * connection closes.
   */
  lemma RunGuarded(env: Env, w: World, banner: string, sid: string)
    requires w.conn.calls == [] && !w.conn.authenticated && w.conn.session.None? && sid !in w.table
    requires env.tableTimeout >= 0
    ensures var r := RunSpec(env, w, banner, sid); Guarded(r.conn.calls, CallsignOf(r.conn))
    ensures RunSpec(env, w, banner, sid).table.Keys == w.table.Keys
  {
    var w1 := w.(conn := Banner(w.conn, banner));
    assert w1.conn.calls == [] && w1.table == w.table && w1.conn.session.None?;
    var (w2, ok) := Login(env, w1, 1, sid);
    assert Guarded(w1.conn.calls, CallsignOf(w2.conn));
    if ok {
      ServeThenClose(env, w2, w.table.Keys, sid);
    } else {
      FailThenClose(env, w2);
    }
  }

  /** After a successful login the command loop runs and `close` drops the session it bound. */
  lemma ServeThenClose(env: Env, w: World, keys: set<string>, sid: string)
    requires w.conn.authenticated && w.conn.session == Some(sid) && Guarded(w.conn.calls, CallsignOf(w.conn))
    requires w.table.Keys == keys + {sid} && sid !in keys
    ensures var r := Finish(env, w, true); Guarded(r.conn.calls, CallsignOf(r.conn)) && r.table.Keys == keys
  {
    LoopKeeps(env, w);
    var l := LoopFrom(env, w);
    assert Finish(env, w, true) == CloseSpec(l);
    assert l.conn.session == Some(sid) && l.table.Keys == keys + {sid};
    assert (l.table - {sid}).Keys == keys;
  }

  /** After a failed login only the goodbye line is written and `close` has no session to drop. */
  lemma FailThenClose(env: Env, w: World)
    requires w.conn.session.None? && Guarded(w.conn.calls, CallsignOf(w.conn))
    ensures var r := Finish(env, w, false); Guarded(r.conn.calls, CallsignOf(r.conn)) && r.table == w.table
  {
  }

  /**
   * `TelnetSession`: one connection's fields, its authenticator and session manager,
   * and the stream (the script of input events, the clock, what was written and the
   * calls made).
   */
  class TelnetSession {
    const authenticator: TOTPAuthenticator
    const sessionManager: SessionManager
    const handler: Option<Handler>
    const timeoutSeconds: int
    const maxAuthAttempts: int
    var bpqMode: bool
    var authenticated: bool
    var callsign: Option<string>
    var session: Option<Session>
    var lastActivity: int
    var clock: int
    var input: seq<InputEvent>
    var output: seq<Output>
    var calls: seq<Call>

    /** The connection's fixed parameters as the specification sees them. */
    const env: Env

    /** `env` carries this connection's authenticator operations, parser, handler and limits. */
    ghost predicate Wired() {
      AuthWired() && env.parse == Parser.Parse
    }

    /** The part of `Wired` the login needs: the authenticator's operations and the limits. */
    ghost predicate AuthWired() {
      (forall st, cs, now :: env.rateLimit(st, cs, now) == RateLimit(st, cs, now))
      && (forall st, cs, code, now :: env.verify(st, cs, code, now)
            == Verify(st, authenticator.users, authenticator.totpMatches, cs, code, now))
      && Plain()
    }

    /** The limits and the handler in `env` are this connection's. */
    ghost predicate Plain() {
      env.tableTimeout == sessionManager.timeoutMinutes && env.timeoutSeconds == timeoutSeconds
      && env.maxAuthAttempts == maxAuthAttempts && env.handler == handler
    }

    function Conn(): ConnState
      reads this
    {
      ConnState(bpqMode, authenticated, callsign, if session.Some? then Some(session.value.sessionId) else None,
        lastActivity, clock, input, output, calls)
    }

    ghost function Snapshot(): World
      reads this, authenticator, sessionManager, sessionManager.Repr
    {
      World(Conn(), authenticator.State(), sessionManager.State())
    }

    /** The bound session, if any, is the one the session manager holds under its id. */
    ghost predicate Valid()
      reads this, sessionManager
    {
      sessionManager.Valid()
      && (session.Some? ==>
            session.value.sessionId in sessionManager.sessions
            && sessionManager.sessions[session.value.sessionId] == session.value)
    }

    constructor (authenticator: TOTPAuthenticator, sessionManager: SessionManager, handler: Option<Handler>,
                 timeoutSeconds: int, maxAuthAttempts: int, bpqMode: bool, now: int, input: seq<InputEvent>)
      requires sessionManager.Valid()
      ensures Valid() && Wired()
      ensures this.authenticator == authenticator && this.sessionManager == sessionManager && this.handler == handler
      ensures this.timeoutSeconds == timeoutSeconds && this.maxAuthAttempts == maxAuthAttempts
      ensures Conn() == ConnState(bpqMode, false, None, None, now, now, input, [], [])
    {
      this.authenticator := authenticator;
      this.sessionManager := sessionManager;
      this.handler := handler;
      this.timeoutSeconds := timeoutSeconds;
      this.maxAuthAttempts := maxAuthAttempts;
      env := Env(RateLimit,
        (st: AuthState, cs: string, code: string, now: int) =>
          Verify(st, authenticator.users, authenticator.totpMatches, cs, code, now),
        Parser.Parse, sessionManager.timeoutMinutes, timeoutSeconds, maxAuthAttempts, handler);
      this.bpqMode := bpqMode;
      authenticated := false;
      callsign := None;
      session := None;
      lastActivity := now;
      clock := now;
      this.input := input;
      output := [];
      calls := [];
    }

    /** `send` */
    method Send(text: string)
      modifies this
      ensures Conn() == Write(old(Conn()), text) && session == old(session)
      ensures authenticator.State() == old(authenticator.State()) && sessionManager.State() == old(sessionManager.State())
    {
      output := output + [Sent(text)];
      lastActivity := clock;
    }

    /** Record that the loop read the command `cmd`. */
    method Receive(cmd: Command)
      modifies this
      ensures Conn() == old(Conn()).(calls := old(calls) + [Received(cmd)]) && session == old(session)
      ensures authenticator.State() == old(authenticator.State()) && sessionManager.State() == old(sessionManager.State())
    {
      calls := calls + [Received(cmd)];
    }

    /** `send_lines` */
    method SendLines(lines: seq<string>)
      modifies this
      ensures Conn() == WriteAll(old(Conn()), lines) && session == old(session)
      ensures authenticator.State() == old(authenticator.State()) && sessionManager.State() == old(sessionManager.State())
    {
      for i := 0 to |lines|
        invariant Conn() == WriteAll(old(Conn()), lines[..i]) && session == old(session)
      {
        WriteAllStep(old(Conn()), lines, i);
        Send(lines[i]);
      }
      assert lines[..|lines|] == lines;
    }

    /** `read_line` */
    method ReadLine(prompt: string) returns (line: Option<string>)
      modifies this
      ensures (Conn(), line) == ReadInput(old(Conn()), prompt) && session == old(session)
      ensures authenticator.State() == old(authenticator.State()) && sessionManager.State() == old(sessionManager.State())
    {
      if prompt != "" {
        ShowPrompt(prompt);
      }
      line := NextLine();
    }

    /** The prompt half of `read_line`. */
    method ShowPrompt(prompt: string)
      modifies this
      ensures Conn() == old(Conn()).(output := old(output) + [Prompted(prompt)], lastActivity := clock)
      ensures session == old(session)
      ensures authenticator.State() == old(authenticator.State()) && sessionManager.State() == old(sessionManager.State())
    {
      output := output + [Prompted(prompt)];
      lastActivity := clock;
    }

    /** The input half of `read_line`. */
    method NextLine() returns (line: Option<string>)
      modifies this
      ensures (Conn(), line) == ReadInput(old(Conn()), "") && session == old(session)
      ensures authenticator.State() == old(authenticator.State()) && sessionManager.State() == old(sessionManager.State())
    {
      line := None;
      if input != [] {
        var ev := Consume();
        if ev.line.Some? {
          MarkActive();
          line := Some(Strip(ev.line.value));
        }
      }
    }

    /** Take the next input event; its time becomes the clock. */
    method Consume() returns (ev: InputEvent)
      requires input != []
      modifies this
      ensures ev == old(input[0])
      ensures Conn() == old(Conn()).(input := old(input[1..]), clock := ev.at) && session == old(session)
      ensures authenticator.State() == old(authenticator.State()) && sessionManager.State() == old(sessionManager.State())
    {
      ev := input[0];
      input := input[1..];
      clock := ev.at;
    }

    /** A line arrived: the connection was active now. */
    method MarkActive()
      modifies this
      ensures Conn() == old(Conn()).(lastActivity := clock) && session == old(session)
      ensures authenticator.State() == old(authenticator.State()) && sessionManager.State() == old(sessionManager.State())
    {
      lastActivity := clock;
    }

    /** A blank first line in BPQ mode switches BPQ mode off for the rest of the connection. */
    method LeaveBpqMode()
      modifies this
      ensures Conn() == old(Conn()).(bpqMode := false) && session == old(session)
      ensures authenticator.State() == old(authenticator.State()) && sessionManager.State() == old(sessionManager.State())
    {
      bpqMode := false;
    }

    /** The callsign part of one pass of `authenticate`'s attempt loop. */
    method GetCallsign(attempt: int) returns (got: CallsignRead)
      modifies this
      ensures (Conn(), got) == ReadCallsign(old(Conn()), attempt) && session == old(session)
      ensures authenticator.State() == old(authenticator.State()) && sessionManager.State() == old(sessionManager.State())
    {
      var bpqFirst := bpqMode && attempt == 1;
      var line := ReadLine(if bpqFirst then "" else CallsignPrompt);
      if line.None? {
        return NoInput;
      }
      var cs := Normalized(line.value);
      if cs != "" {
        return Got(cs);
      }
      if !bpqFirst {
        Send(CallsignRequired);
        return Missing;
      }
      LeaveBpqMode();
      var again := ReadLine(CallsignPrompt);
      if again.None? || again.value == "" {
        Send(CallsignRequired);
        return Missing;
      }
      return Got(Normalized(again.value));
    }

    /**
     * How the login goes on from what a step of `authenticate` leaves behind: with the
     * next attempt (`cont`), with a verified callsign `cs` whose session is still to be
     * bound (`ok`), or refused for good.
     */
    ghost predicate Resumes(r: (World, bool), cont: bool, ok: bool, cs: string, attempt: int, sid: string)
      requires attempt >= 1
      reads this, authenticator, sessionManager, sessionManager.Repr
    {
      if cont then r == Login(env, Snapshot(), attempt + 1, sid)
      else if ok then cs != "" && Upper(cs) == cs && r == (Welcome(env, Snapshot(), sid, cs), true)
      else r == (Snapshot(), false)
    }

    /** One pass of the attempt loop. */
    method TryAttempt(attempt: int, sid: string) returns (cont: bool, ok: bool, cs: string)
      requires 1 <= attempt <= maxAuthAttempts && AuthWired()
      modifies this, authenticator
      ensures session == old(session)
      ensures Resumes(Attempt(env, old(Snapshot()), attempt, sid), cont, ok, cs, attempt, sid)
    {
      ghost var w0 := Snapshot();
      var got := GetCallsign(attempt);
      ghost var w1 := Snapshot();
      assert w1 == w0.(conn := Conn());
      match got
      case NoInput =>
        AttemptEnds(env, w0, attempt, sid);
        return false, false, "";
      case Missing =>
        AttemptMissing(env, w0, attempt, sid);
        return true, false, "";
      case Got(c) =>
        AttemptGot(env, w0, attempt, sid);
        cont, ok, cs := TryCallsign(attempt, sid, c);
    }

    /** The callsign was read: the rate limit, then the code. */
    method TryCallsign(attempt: int, sid: string, c: string) returns (cont: bool, ok: bool, cs: string)
      requires 1 <= attempt <= maxAuthAttempts && c != "" && Upper(c) == c && AuthWired()
      modifies this, authenticator
      ensures session == old(session)
      ensures Resumes(WithCallsign(env, old(Snapshot()), attempt, sid, c), cont, ok, cs, attempt, sid)
    {
      ghost var w0 := Snapshot();
      var limited := authenticator.IsRateLimited(c, clock);
      assert Snapshot() == w0.(auth := env.rateLimit(w0.auth, c, w0.conn.clock).0);
      if limited {
        WithCallsignLimited(env, w0, attempt, sid, c);
        Send(TooManyAttempts);
        return false, false, "";
      }
      WithCallsignFree(env, w0, attempt, sid, c);
      cont, ok, cs := GetCode(attempt, sid, c);
    }

    /** Read the code. */
    method GetCode(attempt: int, sid: string, c: string) returns (cont: bool, ok: bool, cs: string)
      requires 1 <= attempt <= maxAuthAttempts && c != "" && Upper(c) == c && AuthWired()
      modifies this, authenticator
      ensures session == old(session)
      ensures Resumes(ReadCode(env, old(Snapshot()), attempt, sid, c), cont, ok, cs, attempt, sid)
    {
      ReadCodeStep(env, Snapshot(), attempt, sid, c);
      var code := ReadLine(CodePrompt);
      if code.None? {
        return false, false, "";
      }
      cont, ok, cs := TryCode(attempt, sid, c, Strip(code.value));
    }

    /** The code was read: check its form, then verify it. */
    method TryCode(attempt: int, sid: string, c: string, code: string) returns (cont: bool, ok: bool, cs: string)
      requires 1 <= attempt <= maxAuthAttempts && c != "" && Upper(c) == c && AuthWired()
      modifies this, authenticator
      ensures session == old(session)
      ensures Resumes(CodeRead(env, old(Snapshot()), attempt, sid, c, code), cont, ok, cs, attempt, sid)
    {
      if !SixDigits(code) {
        Send(BadCodeFormat);
        return true, false, "";
      }
      cont, ok, cs := VerifyCode(attempt, sid, c, code);
    }

    /** Verify the code; a verified callsign is handed back for its session to be bound. */
    method VerifyCode(attempt: int, sid: string, c: string, code: string) returns (cont: bool, ok: bool, cs: string)
      requires 1 <= attempt <= maxAuthAttempts && c != "" && Upper(c) == c && AuthWired()
      modifies this, authenticator
      ensures session == old(session)
      ensures Resumes(CheckCode(env, old(Snapshot()), attempt, sid, c, code), cont, ok, cs, attempt, sid)
    {
      ghost var w0 := Snapshot();
      ghost var o := env.verify(w0.auth, c, code, w0.conn.clock);
      var success, message := CheckTotp(c, code);
      ghost var w1 := Snapshot();
      assert w1 == World(w0.conn.(calls := w0.conn.calls + [VerifyCall(c, code, o.ok)]), o.state, w0.table);
      if success {
        CheckCodeOk(env, w0, attempt, sid, c, code);
        return false, true, c;
      }
      CheckCodeFails(env, w0, attempt, sid, c, code);
      SendRetry(message, attempt);
      assert Conn() == Retry(w1.conn, o.message, attempt, env.maxAuthAttempts);
      return true, false, "";
    }

    /** `verify_totp` on the authenticator, recorded among the calls. */
    method CheckTotp(cs: string, code: string) returns (success: bool, message: string)
      requires AuthWired()
      modifies this, authenticator
      ensures var o := env.verify(old(authenticator.State()), cs, code, old(clock));
        success == o.ok && message == o.message && authenticator.State() == o.state
      ensures Conn() == old(Conn()).(calls := old(calls) + [VerifyCall(cs, code, success)])
      ensures session == old(session)
    {
      success, message := authenticator.VerifyTotp(cs, code, clock);
      calls := calls + [VerifyCall(cs, code, success)];
    }

    /** A failed verification: say why, and how many attempts are left if any. */
    method SendRetry(message: string, attempt: int)
      modifies this
      ensures Conn() == Retry(old(Conn()), message, attempt, maxAuthAttempts) && session == old(session)
      ensures authenticator.State() == old(authenticator.State()) && sessionManager.State() == old(sessionManager.State())
    {
      Send(message);
      if attempt < maxAuthAttempts {
        SendLines(["Try again (" + IntToString(maxAuthAttempts - attempt) + " attempts remaining).", ""]);
      }
    }

    /** `create_session` followed by `get_session` on the new id. */
    method OpenSession(sid: string, cs: string) returns (s: Option<Session>)
      requires sessionManager.Valid() && sid !in sessionManager.sessions
      modifies sessionManager, sessionManager.Repr
      ensures sessionManager.Valid()
      ensures var got := GetSpec(CreateSpec(old(sessionManager.State()), cs, clock, sid), sid, clock, sessionManager.timeoutMinutes);
        sessionManager.State() == got.0 && s.Some? == got.1.Some?
      ensures s.Some? ==> sid in sessionManager.sessions && sessionManager.sessions[sid] == s.value && s.value.sessionId == sid
      ensures fresh(sessionManager.Repr - old(sessionManager.Repr))
    {
      var id := sessionManager.CreateSession(cs, clock, sid);
      s := sessionManager.GetSession(id, clock);
    }

    /** A verified code: create the session, fetch it back, bind it, and greet the callsign. */
    method BindSession(sid: string, cs: string)
      requires cs != "" && Upper(cs) == cs
      requires Valid() && Plain() && sid !in sessionManager.sessions
      modifies this, sessionManager, sessionManager.Repr
      ensures Valid()
      ensures Snapshot() == Welcome(env, old(Snapshot()), sid, cs)
      ensures fresh(sessionManager.Repr - old(sessionManager.Repr))
    {
      ghost var w0 := Snapshot();
      AttachSession(sid, cs);
      ghost var b := Snapshot();
      assert b == Bind(env, w0, sid, cs);
      SendLines(WelcomeLines(cs));
      assert authenticator.State() == b.auth && sessionManager.State() == b.table;
    }

    /** The session-table half of `BindSession`: open the session and bind it to the connection. */
    method AttachSession(sid: string, cs: string)
      requires Valid() && Plain() && sid !in sessionManager.sessions
      modifies this, sessionManager, sessionManager.Repr
      ensures Valid() && Plain()
      ensures Snapshot() == Bind(env, old(Snapshot()), sid, cs)
      ensures fresh(sessionManager.Repr - old(sessionManager.Repr))
    {
      var s := OpenSession(sid, cs);
      MarkLoggedIn(s, cs);
    }

    /** The connection's own fields after a login: the session, the flag and the callsign. */
    method MarkLoggedIn(s: Option<Session>, cs: string)
      modifies this
      ensures Conn() == old(Conn()).(session := if s.Some? then Some(s.value.sessionId) else None,
        authenticated := true, callsign := Some(cs))
      ensures session == s
      ensures authenticator.State() == old(authenticator.State()) && sessionManager.State() == old(sessionManager.State())
    {
      session := s;
      authenticated := true;
      callsign := Some(cs);
    }

    /**
     * `authenticate`, with `sid` the id the session manager hands out on success. The
     * session of a verified callsign is bound here, right after the attempt that
     * verified it and before anything else happens on the connection.
     */
    method Authenticate(sid: string) returns (ok: bool)
      requires Valid() && AuthWired() && sid !in sessionManager.sessions
      modifies this, authenticator, sessionManager, sessionManager.Repr
      ensures Valid() && fresh(sessionManager.Repr - old(sessionManager.Repr))
      ensures (Snapshot(), ok) == Login(env, old(Snapshot()), 1, sid)
    {
      ok := Attempts(sid, Login(env, Snapshot(), 1, sid));
    }

    /** The attempt loop of `authenticate`, ending in the outcome `target` of `Login` from attempt 1. */
    method Attempts(sid: string, ghost target: (World, bool)) returns (ok: bool)
      requires Valid() && AuthWired() && sid !in sessionManager.sessions
      requires Login(env, Snapshot(), 1, sid) == target
      modifies this, authenticator, sessionManager, sessionManager.Repr
      ensures Valid() && fresh(sessionManager.Repr - old(sessionManager.Repr))
      ensures (Snapshot(), ok) == target
    {
      var attempt := 1;
      while attempt <= maxAuthAttempts
        invariant 1 <= attempt
        invariant Valid() && sessionManager.sessions == old(sessionManager.sessions) && sessionManager.Repr == old(sessionManager.Repr)
        invariant Login(env, Snapshot(), attempt, sid) == target
        decreases maxAuthAttempts + 1 - attempt
      {
        var cont;
        cont, ok := LoginRound(attempt, sid, target);
        if !cont {
          return;
        }
        attempt := attempt + 1;
      }
      ok := GiveUp(attempt, sid, target);
    }

    /** Every attempt was used: say so, and fail the login. */
    method GiveUp(attempt: int, sid: string, ghost target: (World, bool)) returns (ok: bool)
      requires 1 <= attempt && maxAuthAttempts < attempt && Plain() && Valid()
      requires Login(env, Snapshot(), attempt, sid) == target
      modifies this
      ensures Valid()
      ensures (Snapshot(), ok) == target
    {
      LoginExhausted(env, Snapshot(), attempt, sid);
      Send(AttemptsExceeded);
      ok := false;
    }

    /** One round of `authenticate`: an attempt, and the session bound when it verified. */
    method LoginRound(attempt: int, sid: string, ghost target: (World, bool)) returns (cont: bool, ok: bool)
      requires 1 <= attempt <= maxAuthAttempts && Valid() && AuthWired() && sid !in sessionManager.sessions
      requires Login(env, Snapshot(), attempt, sid) == target
      modifies this, authenticator, sessionManager, sessionManager.Repr
      ensures Valid() && fresh(sessionManager.Repr - old(sessionManager.Repr))
      ensures cont ==> sessionManager.sessions == old(sessionManager.sessions) && sessionManager.Repr == old(sessionManager.Repr)
                       && Login(env, Snapshot(), attempt + 1, sid) == target
      ensures !cont ==> (Snapshot(), ok) == target
    {
      ghost var w0 := Snapshot();
      LoginStep(env, w0, attempt, sid);
      var cs;
      cont, ok, cs := TryAttempt(attempt, sid);
      assert unchanged(sessionManager, sessionManager.Repr);
      assert Valid() && Plain();
      if !cont && ok {
        BindSession(sid, cs);
      }
    }

    /** `show_banner` */
    method ShowBanner(banner: string)
      modifies this
      ensures Conn() == Banner(old(Conn()), banner) && session == old(session)
    {
      if banner != "" {
        SendLines(SplitOn(banner, '\n'));
        Send("");
      }
    }

    /** `session.update_activity()` on the bound session, if any. */
    method TouchSession()
      requires Valid()
      modifies sessionManager.Repr
      ensures Valid()
      ensures Snapshot() == Touch(old(Snapshot()))
    {
      if session.Some? {
        var s := session.value;
        ghost var sid := s.sessionId;
        assert forall k :: k in sessionManager.sessions && k != sid ==> sessionManager.sessions[k] != s;
        s.UpdateActivity(clock);
        assert sessionManager.State() == old(sessionManager.State())[sid := s.Rec()];
      }
    }

    /** The `try` block of `command_loop`: validate, call the handler, send its lines. */
    method DispatchCommand(cmd: Command)
      requires Plain()
      modifies this
      ensures Conn() == Dispatch(env, old(Snapshot()), cmd).w.conn && session == old(session)
    {
      if handler.None? {
        Send(NoHandler);
        return;
      }
      var h := handler.value;
      match h.validate(cmd)
      case Invalid(e) =>
        SendLines(HelpFormat.FormatErrorMessage(e.message, e.suggestion));
      case LookupFailure =>
        SendLines(HelpFormat.FormatErrorMessage(ProcessingError, None));
      case Pass =>
        calls := calls + [HandlerCall(cmd)];
        match h.handle(cmd)
        case None =>
          SendLines(HelpFormat.FormatErrorMessage(ProcessingError, None));
        case Some(lines) =>
          SendLines(lines);
    }

    /** The fresh-code check in front of a write command. */
    method ReauthorizeCommand(cmd: Command)
      requires cmd.IsWriteOperation() && AuthWired()
      modifies this, authenticator
      ensures Conn() == Reauthorize(env, old(Snapshot()), cmd).w.conn && session == old(session)
      ensures authenticator.State() == Reauthorize(env, old(Snapshot()), cmd).w.auth
    {
      ghost var w0 := Snapshot();
      Send("");
      var code := ReadLine(CodePrompt);
      assert Snapshot() == w0.(conn := Conn());
      if code.None? {
        ReauthorizeCancelled(env, w0, cmd);
        Send("Operation cancelled.");
        return;
      }
      var t := Strip(code.value);
      if !SixDigits(t) {
        ReauthorizeMalformed(env, w0, cmd);
        SendLines([BadCodeFormat, ""]);
        return;
      }
      ReauthorizeVerifies(env, w0, cmd);
      VerifyThenDispatchCommand(cmd, t);
    }

    /** Verify the fresh code for the logged-in callsign; dispatch only on success. */
    method VerifyThenDispatchCommand(cmd: Command, code: string)
      requires cmd.IsWriteOperation() && AuthWired()
      modifies this, authenticator
      ensures Conn() == VerifyThenDispatch(env, old(Snapshot()), cmd, code).w.conn && session == old(session)
      ensures authenticator.State() == VerifyThenDispatch(env, old(Snapshot()), cmd, code).w.auth
    {
      var success, message := CheckTotp(callsign.GetOr(""), code);
      if !success {
        SendLines([message, ""]);
        return;
      }
      DispatchCommand(cmd);
    }

    /** One non-empty command line: parse it, and report a parse error or perform the command. */
    method ExecuteLine(line: string) returns (stop: bool)
      requires AuthWired()
      modifies this, authenticator
      ensures var r := Execute(env, old(Snapshot()), line);
        stop == r.Stop? && Conn() == r.w.conn && authenticator.State() == r.w.auth && session == old(session)
    {
      var cmd := env.parse(line);
      if !cmd.IsValid() {
        SendLines(HelpFormat.FormatErrorMessage(cmd.error.value, None));
        return false;
      }
      stop := PerformCommand(cmd);
    }

    /** A parsed command: quit, re-verify then dispatch, or dispatch. */
    method PerformCommand(cmd: Command) returns (stop: bool)
      requires AuthWired()
      modifies this, authenticator
      ensures var r := Perform(env, old(Snapshot()), cmd);
        stop == r.Stop? && Conn() == r.w.conn && authenticator.State() == r.w.auth && session == old(session)
    {
      if cmd.kind == Quit {
        Send("73!");
        return true;
      }
      PerformRoutes(env, Snapshot(), cmd);
      Receive(cmd);
      if cmd.IsWriteOperation() {
        ReauthorizeCommand(cmd);
        return false;
      }
      DispatchCommand(cmd);
      return false;
    }

    /** `command_loop` */
    method CommandLoop()
      requires Valid() && AuthWired()
      modifies this, authenticator, sessionManager.Repr
      ensures Valid()
      ensures Snapshot() == Serve(env, old(Snapshot()))
    {
      if !authenticated {
        return;
      }
      while true
        invariant Valid()
        invariant LoopFrom(env, Snapshot()) == LoopFrom(env, old(Snapshot()))
        decreases |input|
      {
        var done := CommandStep();
        if done {
          return;
        }
      }
    }

    /**
     * One pass of `command_loop`'s `while True`: either the loop ends here (`done`) in
     * the state the rest of the loop would reach, or it goes on from a state with less input.
     */
    method CommandStep() returns (done: bool)
      requires Valid() && AuthWired()
      modifies this, authenticator, sessionManager.Repr
      ensures Valid()
      ensures done ==> Snapshot() == LoopFrom(env, old(Snapshot()))
      ensures !done ==> LoopFrom(env, Snapshot()) == LoopFrom(env, old(Snapshot())) && |input| < old(|input|)
    {
      ghost var w0 := Snapshot();
      if session.Some? && session.value.IsExpired(clock, timeoutSeconds / 60) {
        LoopExpires(env, w0);
        Send(SessionExpiredText);
        return true;
      }
      done := ReadCommand();
    }

    /** The rest of a pass once the session is known to be live: read a line and act on it. */
    method ReadCommand() returns (done: bool)
      requires Valid() && AuthWired() && !SessionExpired(env, Snapshot())
      modifies this, authenticator, sessionManager.Repr
      ensures Valid()
      ensures done ==> Snapshot() == LoopFrom(env, old(Snapshot()))
      ensures !done ==> LoopFrom(env, Snapshot()) == LoopFrom(env, old(Snapshot())) && |input| < old(|input|)
    {
      ghost var w0 := Snapshot();
      var line := ReadLine(CommandPrompt);
      ghost var w1 := Snapshot();
      assert w1 == w0.(conn := Conn());
      if line.None? {
        LoopWithoutInput(env, w0);
        return true;
      }
      if line.value == "" {
        LoopSkipsEmpty(env, w0);
        return false;
      }
      LoopExecutes(env, w0);
      LoopAfterStep(env, Touch(w1), line.value);
      done := HandleLine(line.value);
    }

    /** A non-empty line: the activity update, then the command. */
    method HandleLine(line: string) returns (stop: bool)
      requires Valid() && AuthWired()
      modifies this, authenticator, sessionManager.Repr
      ensures Valid()
      ensures var s := Execute(env, Touch(old(Snapshot())), line); stop == s.Stop? && Snapshot() == s.w
    {
      TouchSession();
      ghost var w := Snapshot();
      stop := ExecuteLine(line);
      assert sessionManager.State() == w.table;
    }

    /** `close`: end the bound session, if any. */
    method Close()
      requires sessionManager.Valid()
      modifies sessionManager
      ensures sessionManager.Valid() && sessionManager.Repr == old(sessionManager.Repr)
      ensures var bound := Conn().session;
              sessionManager.State() == old(sessionManager.State()) - (if bound.Some? then {bound.value} else {})
      ensures Snapshot() == CloseSpec(old(Snapshot()))
    {
      if session.Some? {
        sessionManager.EndSession(session.value.sessionId);
      }
    }

    /** `run`, with `sid` the id a successful login gets. */
    method Run(banner: string, sid: string)
      requires Valid() && Wired() && sid !in sessionManager.sessions
      modifies this, authenticator, sessionManager, sessionManager.Repr
      ensures sessionManager.Valid()
      ensures Snapshot() == RunSpec(env, old(Snapshot()), banner, sid)
    {
      ghost var w0 := Snapshot();
      ShowBanner(banner);
      assert Snapshot() == w0.(conn := Banner(w0.conn, banner));
      var ok := Authenticate(sid);
      Conclude(ok);
    }

    /** The end of `run`: the goodbye line after a failed login, else the command loop; then `close`. */
    method Conclude(ok: bool)
      requires Valid() && AuthWired()
      modifies this, authenticator, sessionManager, sessionManager.Repr
      ensures sessionManager.Valid()
      ensures Snapshot() == Finish(env, old(Snapshot()), ok)
    {
      if !ok {
        Send("Authentication failed. Goodbye.");
      } else {
        CommandLoop();
      }
      Close();
    }
  }
}
