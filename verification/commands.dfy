/** `CommandManager`: the administrative command interpreter. A message such as
    `#CLIENTE001 /off` names a client (configured through environment variables) and a command;
    the manager checks, in order, that the text is a command, that it parses, that the client
    exists, that the command is known and that the sender may run it, and then acts on a
    per-client active/inactive map. */
module Commands {
  import opened Wrappers
  import opened Text

  // ---------------------------------------------------------------------------
  // Client table from the environment

  /** `process.env`, as its entries in `Object.keys` order. */
  type Env = seq<(string, string)>

  /** `process.env[name]`: the value of the first entry with that key, `None` when absent. */
  function EnvGet(env: Env, name: string): Option<string> {
    if env == [] then None
    else if env[0].0 == name then Some(env[0].1)
    else EnvGet(env[1..], name)
  }

  /** A variable is set exactly when some entry declares it, and its value is the first such
      entry's. */
  lemma {:induction false} EnvGetFound(env: Env, name: string)
    ensures EnvGet(env, name).Some? <==> exists j :: 0 <= j < |env| && env[j].0 == name
    ensures EnvGet(env, name).Some? ==>
      exists j :: 0 <= j < |env| && env[j] == (name, EnvGet(env, name).value) && (forall k :: 0 <= k < j ==> env[k].0 != name)
    decreases |env|
  {
    if env != [] {
      EnvGetFound(env[1..], name);
      if env[0].0 != name {
        if EnvGet(env, name).Some? {
          var j :| 0 <= j < |env[1..]| && env[1..][j] == (name, EnvGet(env, name).value) &&
            forall k :: 0 <= k < j ==> env[1..][k].0 != name;
          assert env[j + 1] == (name, EnvGet(env, name).value);
          assert forall k :: 0 <= k < j + 1 ==> env[k].0 != name by {
            forall k | 0 <= k < j + 1 ensures env[k].0 != name {
              if k > 0 { assert env[k] == env[1..][k - 1]; }
            }
          }
        }
        if exists j :: 0 <= j < |env| && env[j].0 == name {
          var j :| 0 <= j < |env| && env[j].0 == name;
          assert env[1..][j - 1].0 == name;
        }
      } else {
        assert env[0] == (name, EnvGet(env, name).value);
      }
    }
  }

  datatype Client = Client(phone: string, name: string, assistantId: Option<string>, status: string)

  /** A key that declares a client's phone: it starts with `CLIENTE` and contains `_PHONE`. */
  predicate DeclaresClient(key: string) {
    StartsWith(key, "CLIENTE") && Contains(key, "_PHONE")
  }

  /** `key.split('_')[0]`. */
  function CodeOf(key: string): string {
    BeforeFirst(key, '_')
  }

  /** The record built for the phone entry `(key, value)`: name falls back to the code,
      assistant to `ASISTENTE_ID`, and the status is `active`. */
  function ClientFor(env: Env, key: string, value: string): (c: Client)
    ensures c.phone == value && c.status == "active"
    ensures Truthy(EnvGet(env, CodeOf(key) + "_NAME")) ==> c.name == EnvGet(env, CodeOf(key) + "_NAME").value
    ensures !Truthy(EnvGet(env, CodeOf(key) + "_NAME")) ==> c.name == CodeOf(key)
    ensures Truthy(EnvGet(env, CodeOf(key) + "_ASSISTANT")) ==> c.assistantId == EnvGet(env, CodeOf(key) + "_ASSISTANT")
    ensures !Truthy(EnvGet(env, CodeOf(key) + "_ASSISTANT")) ==> c.assistantId == EnvGet(env, "ASISTENTE_ID")
  {
    var code := CodeOf(key);
    Client(value, OrElse(EnvGet(env, code + "_NAME"), Some(code)).value,
           OrElse(EnvGet(env, code + "_ASSISTANT"), EnvGet(env, "ASISTENTE_ID")), "active")
  }

  /** Entry `j` of the first `n` is the last phone entry of its client code among them. */
  predicate LastDeclaration(env: Env, n: nat, j: nat)
    requires n <= |env|
  {
    && j < n
    && DeclaresClient(env[j].0)
    && forall j' :: j < j' < n ==> !(DeclaresClient(env[j'].0) && CodeOf(env[j'].0) == CodeOf(env[j].0))
  }

  /** The client table after the first `n` environment entries have been visited. */
  function LoadPrefix(env: Env, n: nat): (r: map<string, Client>)
    requires n <= |env|
    ensures forall code :: code in r <==>
      exists j :: 0 <= j < n && DeclaresClient(env[j].0) && CodeOf(env[j].0) == code
    decreases n
  {
    if n == 0 then map[]
    else
      var r := LoadPrefix(env, n - 1);
      var (key, value) := env[n - 1];
      if DeclaresClient(key) then r[CodeOf(key) := ClientFor(env, key, value)] else r
  }

  /** Each client's record comes from the last phone key with its code. */
  lemma {:induction false} LoadPrefixLastWins(env: Env, n: nat, j: nat)
    requires n <= |env| && LastDeclaration(env, n, j)
    ensures CodeOf(env[j].0) in LoadPrefix(env, n)
    ensures LoadPrefix(env, n)[CodeOf(env[j].0)] == ClientFor(env, env[j].0, env[j].1)
    decreases n
  {
    if j < n - 1 {
      assert LastDeclaration(env, n - 1, j);
      LoadPrefixLastWins(env, n - 1, j);
    }
  }

  /** `loadClientConfig()`: one client per phone key; when two keys share a code the later wins
      (`LoadPrefixLastWins`). */
  function LoadClientConfig(env: Env): (r: map<string, Client>)
    ensures forall code :: code in r ==> StartsWith(code, "CLIENTE")
    ensures forall code :: code in r <==>
      exists j :: 0 <= j < |env| && DeclaresClient(env[j].0) && CodeOf(env[j].0) == code
  {
    var r := LoadPrefix(env, |env|);
    CodesStartWithCliente(env, r);
    r
  }

  /** The code cut from a `CLIENTE...` key still starts with `CLIENTE`, which has no `_`. */
  lemma CodeKeepsPrefix(key: string)
    requires StartsWith(key, "CLIENTE")
    ensures StartsWith(CodeOf(key), "CLIENTE")
  {
    var c := CodeOf(key);
    assert forall i :: 0 <= i < 7 ==> key[i] != '_';
    assert c[..7] == key[..7];
  }

  lemma CodesStartWithCliente(env: Env, r: map<string, Client>)
    requires r == LoadPrefix(env, |env|)
    ensures forall code :: code in r ==> StartsWith(code, "CLIENTE")
  {
    forall code | code in r
      ensures StartsWith(code, "CLIENTE")
    {
      var j :| 0 <= j < |env| && DeclaresClient(env[j].0) && CodeOf(env[j].0) == code;
      CodeKeepsPrefix(env[j].0);
    }
  }

  // ---------------------------------------------------------------------------
  // Commands

  datatype Action = DisableBot | EnableBot | GetStatus | RestartBot | ShowHelp | ShowInfo

  datatype CommandDef = CommandDef(name: string, description: string, action: Action, requiresAuth: bool)

  /** The command table, in declaration order (the order the help text lists it). */
  const CommandTable: seq<CommandDef> := [
    CommandDef("/off", "Apagar bot", DisableBot, true),
    CommandDef("/on", "Encender bot", EnableBot, true),
    CommandDef("/status", "Ver estado del bot", GetStatus, true),
    CommandDef("/restart", "Reiniciar bot", RestartBot, true),
    CommandDef("/help", "Ver comandos disponibles", ShowHelp, false),
    CommandDef("/info", "Información del consultorio", ShowInfo, false)
  ]

  /** `this.commands[command]`. Every command name starts with `/`, so no inherited property
      of a plain object can be hit here. */
  function FindCommand(command: string): (r: Option<CommandDef>)
    ensures r.Some? <==> exists k :: 0 <= k < |CommandTable| && CommandTable[k].name == command
    ensures r.Some? ==> r.value in CommandTable && r.value.name == command
    ensures r.Some? && !r.value.requiresAuth ==> r.value.action in {ShowHelp, ShowInfo}
  {
    if command == "/off" then Some(CommandTable[0])
    else if command == "/on" then Some(CommandTable[1])
    else if command == "/status" then Some(CommandTable[2])
    else if command == "/restart" then Some(CommandTable[3])
    else if command == "/help" then Some(CommandTable[4])
    else if command == "/info" then Some(CommandTable[5])
    else None
  }

  /** Exactly the four state-changing or status commands need authorisation. */
  lemma AuthRequiredCommands(command: string)
    ensures FindCommand(command).Some? && FindCommand(command).value.requiresAuth <==>
      command in {"/off", "/on", "/status", "/restart"}
  {
  }

  // ---------------------------------------------------------------------------
  // isCommand and extractCommandInfo

  /** `isCommand(message)`: non-empty and containing both `#` and `/`. */
  function IsCommand(message: string): (r: bool)
    ensures r <==> |message| > 0 && (exists i :: 0 <= i < |message| && message[i] == '#') &&
                   (exists j :: 0 <= j < |message| && message[j] == '/')
  {
    message != [] && '#' in message && '/' in message
  }

  /** The end of the maximal run of `\w` characters starting at `i`. */
  function WordEnd(s: string, i: nat): (j: nat)
    requires i <= |s|
    ensures i <= j <= |s|
    ensures forall k :: i <= k < j ==> IsWordChar(s[k])
    ensures j < |s| ==> !IsWordChar(s[j])
    decreases |s| - i
  {
    if i == |s| || !IsWordChar(s[i]) then i else WordEnd(s, i + 1)
  }

  /** `#(\w+)\s+(\/\w+)` matches `s[i..c]` with the first group `s[i+1..a]`, the spaces
      `s[a..b]` and the second group `s[b..c]`. */
  predicate Shape(s: string, i: nat, a: nat, b: nat, c: nat) {
    && i + 1 < a < b < c <= |s|
    && s[i] == '#'
    && (forall k :: i + 1 <= k < a ==> IsWordChar(s[k]))
    && (forall k :: a <= k < b ==> IsSpace(s[k]))
    && s[b] == '/'
    && (forall k :: b + 1 <= k < c ==> IsWordChar(s[k]))
    && c > b + 1
  }

  /** Some match of the pattern starts at `i`. */
  ghost predicate MatchesAt(s: string, i: nat) {
    exists a: nat, b: nat, c: nat :: Shape(s, i, a, b, c)
  }

  datatype CommandInfo = CommandInfo(clientCode: string, command: string)

  /** The backtracking matcher at position `i`. Since `\w` and `\s` share no character, each
      quantifier can only succeed by taking its maximal run. */
  function MatchAt(s: string, i: nat): (r: Option<CommandInfo>)
    requires i <= |s|
  {
    if i < |s| && s[i] == '#' then
      var a := WordEnd(s, i + 1);
      if a == i + 1 then None
      else
        var b := SkipSpaces(s, a);
        if b == a || b == |s| || s[b] != '/' then None
        else
          var c := WordEnd(s, b + 1);
          if c == b + 1 then None else Some(CommandInfo(s[i + 1..a], s[b..c]))
    else None
  }

  /** What `MatchAt` returns is the greedy match the engine reports, and it finds one exactly
      when some match starts at `i`. */
  lemma MatchAtCorrect(s: string, i: nat)
    requires i <= |s|
    ensures MatchAt(s, i).Some? <==> MatchesAt(s, i)
    ensures MatchAt(s, i).Some? ==>
      exists a: nat, b: nat, c: nat :: Shape(s, i, a, b, c) && (c == |s| || !IsWordChar(s[c])) &&
        MatchAt(s, i).value == CommandInfo(s[i + 1..a], s[b..c])
  {
    if MatchesAt(s, i) {
      var a': nat, b': nat, c': nat :| Shape(s, i, a', b', c');
      var a := WordEnd(s, i + 1);
      assert IsSpace(s[a']) && !IsWordChar(s[a']);
      assert a == a';
      var b := SkipSpaces(s, a);
      assert !IsSpace(s[b']);
      assert b == b';
      var c := WordEnd(s, b + 1);
      assert c >= c';
      assert Shape(s, i, a, b, c);
    }
    if MatchAt(s, i).Some? {
      var a := WordEnd(s, i + 1);
      var b := SkipSpaces(s, a);
      var c := WordEnd(s, b + 1);
      assert Shape(s, i, a, b, c);
    }
  }

  /** `WordEnd` is pinned down by its contract: the run ends at the first non-word character. */
  lemma WordEndIs(s: string, i: nat, j: nat)
    requires i <= j <= |s|
    requires forall k :: i <= k < j ==> IsWordChar(s[k])
    requires j == |s| || !IsWordChar(s[j])
    ensures WordEnd(s, i) == j
  {
  }

  lemma SkipSpacesIs(s: string, i: nat, j: nat)
    requires i <= j <= |s|
    requires forall k :: i <= k < j ==> IsSpace(s[k])
    requires j == |s| || !IsSpace(s[j])
    ensures SkipSpaces(s, i) == j
  {
  }

  /** Every text of the documented form `#<code> /<name>` parses into exactly that code and
      command. */
  lemma ParsesCanonicalCommand(message: string, code: string, name: string)
    requires |code| > 0 && forall k :: 0 <= k < |code| ==> IsWordChar(code[k])
    requires |name| > 0 && forall k :: 0 <= k < |name| ==> IsWordChar(name[k])
    requires message == "#" + code + " /" + name
    ensures ExtractCommandInfo(message) == Some(CommandInfo(code, "/" + name))
  {
    var a := 1 + |code|;
    var b := a + 1;
    assert forall k :: 1 <= k < a ==> message[k] == code[k - 1];
    assert message[a] == ' ' && message[b] == '/';
    WordEndIs(message, 1, a);
    SkipSpacesIs(message, a, b);
    assert forall k :: b + 1 <= k < |message| ==> message[k] == name[k - b - 1];
    WordEndIs(message, b + 1, |message|);
    assert message[1..a] == code;
    assert message[b..|message|] == "/" + name;
  }

  /** The matcher at every position of `s`. */
  function Matcher(s: string): nat -> Option<CommandInfo> {
    (j: nat) => if j <= |s| then MatchAt(s, j) else None
  }

  /** The first match `m` finds at a position from `i` up to (not including) `n`. */
  function FirstMatch(m: nat -> Option<CommandInfo>, i: nat, n: nat): Option<CommandInfo>
    requires i <= n
    decreases n - i
  {
    if i == n then None
    else if m(i).Some? then m(i)
    else FirstMatch(m, i + 1, n)
  }

  /** The scan stops at the first position where the matcher succeeds. */
  lemma {:induction false} FirstMatchIsFirst(m: nat -> Option<CommandInfo>, i: nat, n: nat)
    requires i <= n
    ensures FirstMatch(m, i, n).None? <==> forall j: nat :: i <= j < n ==> m(j).None?
    ensures FirstMatch(m, i, n).Some? ==> exists j: nat ::
      i <= j < n && m(j) == FirstMatch(m, i, n) && forall j': nat :: i <= j' < j ==> m(j').None?
    decreases n - i
  {
    if i < n && m(i).None? {
      FirstMatchIsFirst(m, i + 1, n);
      if FirstMatch(m, i, n).Some? {
        var j: nat :| i + 1 <= j < n && m(j) == FirstMatch(m, i + 1, n) &&
          forall j': nat :: i + 1 <= j' < j ==> m(j').None?;
        assert forall j': nat :: i <= j' < j ==> m(j').None?;
      }
    }
  }

  /** The leftmost match at or after `i`. */
  function FindFrom(s: string, i: nat): (r: Option<CommandInfo>)
    requires i <= |s|
  {
    FirstMatch(Matcher(s), i, |s|)
  }

  /** `extractCommandInfo(message)`: the groups of the leftmost match, or `null`. */
  function ExtractCommandInfo(message: string): Option<CommandInfo> {
    FindFrom(message, 0)
  }

  lemma FindFromCorrect(s: string, i: nat)
    requires i <= |s|
    ensures FindFrom(s, i).None? <==> forall j: nat :: i <= j <= |s| ==> !MatchesAt(s, j)
    ensures FindFrom(s, i).Some? ==> exists j: nat ::
      i <= j < |s| && MatchAt(s, j) == FindFrom(s, i) &&
      forall j': nat :: i <= j' < j ==> !MatchesAt(s, j')
  {
    FirstMatchIsFirst(Matcher(s), i, |s|);
    forall j: nat | i <= j <= |s|
      ensures Matcher(s)(j) == MatchAt(s, j) && (MatchAt(s, j).None? <==> !MatchesAt(s, j))
    {
      MatchAtCorrect(s, j);
    }
    assert MatchAt(s, |s|).None?;
  }

  /** The parse succeeds exactly when the pattern occurs somewhere; it then reports the groups
      of the leftmost occurrence, each taken greedily. */
  lemma ExtractCommandInfoCorrect(message: string)
    ensures ExtractCommandInfo(message).Some? <==> exists i: nat :: i <= |message| && MatchesAt(message, i)
    ensures ExtractCommandInfo(message).Some? ==> exists i: nat ::
      && i < |message| && MatchesAt(message, i)
      && (forall j: nat :: j < i ==> !MatchesAt(message, j))
      && exists a: nat, b: nat, c: nat :: Shape(message, i, a, b, c) &&
           (c == |message| || !IsWordChar(message[c])) &&
           ExtractCommandInfo(message).value == CommandInfo(message[i + 1..a], message[b..c])
  {
    FindFromCorrect(message, 0);
    if ExtractCommandInfo(message).Some? {
      var i: nat :| i < |message| && MatchAt(message, i) == FindFrom(message, 0) &&
        forall j': nat :: j' < i ==> !MatchesAt(message, j');
      MatchAtCorrect(message, i);
    }
  }

  /** Anything that parses passes the `isCommand` test. */
  lemma ParsedIsCommand(message: string)
    requires ExtractCommandInfo(message).Some?
    ensures IsCommand(message)
  {
    ExtractCommandInfoCorrect(message);
    var i: nat :| i <= |message| && MatchesAt(message, i);
    var a: nat, b: nat, c: nat :| Shape(message, i, a, b, c);
    assert message[i] == '#' && message[b] == '/';
  }

  /** Without a `#` at or after `i` nothing can match there. */
  lemma {:induction false} NoHashNoMatch(s: string, i: nat)
    requires i <= |s|
    requires forall k :: i <= k < |s| ==> s[k] != '#'
    ensures FindFrom(s, i) == None
    decreases |s| - i
  {
    if i < |s| {
      NoHashNoMatch(s, i + 1);
    }
  }

  /** A command without its `/` does not parse ... */
  lemma RejectsMissingSlash(m: string)
    requires m == "#C status"
    ensures ExtractCommandInfo(m) == None
  {
    WordEndIs(m, 1, 2);
    SkipSpacesIs(m, 2, 3);
    assert MatchAt(m, 0) == None;
    NoHashNoMatch(m, 1);
  }

  /** ... or without the whitespace before it does not parse. */
  lemma RejectsMissingSpace(m: string)
    requires m == "#C/status"
    ensures ExtractCommandInfo(m) == None
  {
    WordEndIs(m, 1, 2);
    assert MatchAt(m, 0) == None;
    NoHashNoMatch(m, 1);
  }

  // ---------------------------------------------------------------------------
  // State and execution

  datatype BotStatus = Active | Inactive

  /** What a command needs to know about the client it names. Fields are `None` where the
      JavaScript value is `undefined` (and prints as "undefined"). */
  datatype ClientView = ClientView(name: Option<string>, phone: Option<string>, assistantId: Option<string>)

  function ViewOf(c: Client): ClientView {
    ClientView(Some(c.name), Some(c.phone), c.assistantId)
  }

  /** Template interpolation of a possibly undefined value. */
  function Show(v: Option<string>): string {
    v.GetOr("undefined")
  }

  datatype Manager = Manager(clientConfig: map<string, Client>, botStatus: map<string, BotStatus>)

  /** The constructor: the client table from `env`, every client's bot active. */
  function NewManager(env: Env): (m: Manager)
    ensures m.clientConfig == LoadClientConfig(env)
    ensures forall code :: code in m.clientConfig <==> code in m.botStatus
    ensures forall code :: code in m.botStatus ==> m.botStatus[code] == Active
  {
    var config := LoadClientConfig(env);
    Manager(config, map code | code in config :: Active)
  }

  /** `isBotActive(clientCode)`. */
  function IsBotActive(botStatus: map<string, BotStatus>, clientCode: string): (r: bool)
    ensures r <==> clientCode in botStatus && botStatus[clientCode] == Active
  {
    clientCode in botStatus && botStatus[clientCode] == Active
  }

  function StatusText(botStatus: map<string, BotStatus>, clientCode: string): string {
    if IsBotActive(botStatus, clientCode) then "🟢 ACTIVO" else "🔴 INACTIVO"
  }

  /** `isAuthorizedNumber(phoneNumber, clientCode)`: the client exists and both phones agree up
      to the first `@`. */
  function IsAuthorizedNumber(client: Option<ClientView>, phoneNumber: string): (r: bool)
    ensures r <==> (client.Some? && client.value.phone.Some? &&
                    BeforeFirst(client.value.phone.value, '@') == BeforeFirst(phoneNumber, '@'))
  {
    match client
    case None => false
    case Some(c) => c.phone.Some? && BeforeFirst(c.phone.value, '@') == BeforeFirst(phoneNumber, '@')
  }

  /** Authorisation reads a number up to its `@`: a chat id `<number>@<server>` is authorised
      exactly when the bare number is. */
  lemma AuthorisationIgnoresChatSuffix(client: Option<ClientView>, number: string, server: string)
    requires '@' !in number
    ensures IsAuthorizedNumber(client, number + "@" + server) == IsAuthorizedNumber(client, number)
  {
    BeforeFirstSuffix(number, '@', server);
  }

  const AuthSuffix: string := " (Solo autorizados)"

  /** One line of the help text. */
  function HelpLine(d: CommandDef): string {
    d.name + " - " + d.description + (if d.requiresAuth then AuthSuffix else "") + "\n"
  }

  function HelpLines(table: seq<CommandDef>): string {
    if table == [] then "" else HelpLine(table[0]) + HelpLines(table[1..])
  }

  /** `getHelpMessage(clientCode)`. */
  function HelpMessage(client: ClientView, clientCode: string): string {
    "📋 Comandos disponibles para " + Show(client.name) + ":\n\n" + HelpLines(CommandTable) +
    "\n💡 Uso: #" + clientCode + " /comando"
  }

  /** `getInfoMessage(clientCode)`. */
  function InfoMessage(client: ClientView, botStatus: map<string, BotStatus>, clientCode: string): string {
    "🏥 Información de " + Show(client.name) + ":\n\n" +
    "📞 Número: " + Show(client.phone) + "\n" +
    "🤖 Asistente: " + Show(client.assistantId) + "\n" +
    "📊 Estado: " + StatusText(botStatus, clientCode) + "\n" +
    "🔑 Código: " + clientCode
  }

  function NotRecognized(command: string, clientCode: string): string {
    "❌ Comando no reconocido: " + command + "\nEscribe #" + clientCode + " /help para ver comandos disponibles."
  }

  function NotAuthorized(client: ClientView): string {
    "❌ No autorizado para controlar el bot de " + Show(client.name) + ".\nSolo el número " +
    Show(client.phone) + " puede ejecutar este comando."
  }

  const FormatError: string := "❌ Formato de comando incorrecto.\nUso: #CLIENTE001 /comando"

  function NotFound(clientCode: string): string {
    "❌ Cliente no encontrado: " + clientCode + "\nVerifica el código del cliente."
  }

  datatype Reply = Reply(botStatus: map<string, BotStatus>, text: string)

  function OffText(name: string): string {
    "🤖 Bot de " + name + " APAGADO\nYa no responderá a mensajes normales."
  }

  function OnText(name: string): string {
    "🤖 Bot de " + name + " ENCENDIDO\nRespondiendo normalmente."
  }

  function StatusReport(name: string, statusText: string, assistantId: string): string {
    "📊 Estado del bot de " + name + ":\n" + statusText + "\nAsistente: " + assistantId
  }

  function RestartText(name: string): string {
    "🔄 Bot de " + name + " REINICIADO\nEstado: ACTIVO"
  }

  /** The `switch` on the action, for a client that exists and a sender already allowed. */
  function Act(action: Action, c: ClientView, botStatus: map<string, BotStatus>, clientCode: string): (r: Reply)
    ensures action == DisableBot ==> !IsBotActive(r.botStatus, clientCode)
    ensures action == EnableBot || action == RestartBot ==> IsBotActive(r.botStatus, clientCode)
    ensures action in {GetStatus, ShowHelp, ShowInfo} ==> r.botStatus == botStatus
    ensures forall code :: code != clientCode ==>
      (code in r.botStatus <==> code in botStatus) && (code in botStatus ==> r.botStatus[code] == botStatus[code])
  {
    var name := Show(c.name);
    match action
    case DisableBot => Reply(botStatus[clientCode := Inactive], OffText(name))
    case EnableBot => Reply(botStatus[clientCode := Active], OnText(name))
    case GetStatus => Reply(botStatus, StatusReport(name, StatusText(botStatus, clientCode), Show(c.assistantId)))
    case RestartBot => Reply(botStatus[clientCode := Active], RestartText(name))
    case ShowHelp => Reply(botStatus, HelpMessage(c, clientCode))
    case ShowInfo => Reply(botStatus, InfoMessage(c, botStatus, clientCode))
  }

  /** `executeCommand(clientCode, command, from)` given the value the client lookup produced.
      Reading a property of a missing client throws, which is `Failure`. The source's
      "Acción no implementada" branch is unreachable: every action of the table is handled. */
  function ExecuteCommand(client: Option<ClientView>, botStatus: map<string, BotStatus>,
                          clientCode: string, command: string, from: string): (r: Result<Reply, string>)
    ensures FindCommand(command).None? ==> r == Success(Reply(botStatus, NotRecognized(command, clientCode)))
    ensures FindCommand(command).Some? && client.None? ==> r.Failure?
    ensures FindCommand(command).Some? && FindCommand(command).value.requiresAuth && client.Some? &&
            !IsAuthorizedNumber(client, from) ==>
      r == Success(Reply(botStatus, NotAuthorized(client.value)))
    ensures r.Success? && r.value.botStatus != botStatus ==>
      FindCommand(command).Some? && FindCommand(command).value.requiresAuth && IsAuthorizedNumber(client, from)
    ensures r.Success? ==> forall code :: code != clientCode ==>
      (code in r.value.botStatus <==> code in botStatus) &&
      (code in botStatus ==> r.value.botStatus[code] == botStatus[code])
  {
    var def := FindCommand(command);
    if def.None? then Success(Reply(botStatus, NotRecognized(command, clientCode)))
    else if client.None? then Failure("TypeError: Cannot read properties of undefined (reading 'name')")
    else if def.value.requiresAuth && !IsAuthorizedNumber(client, from) then
      Success(Reply(botStatus, NotAuthorized(client.value)))
    else Success(Act(def.value.action, client.value, botStatus, clientCode))
  }

  /** The result object of `processMessage`. */
  datatype Outcome =
    | NotACommand
    | Answered(response: string)
    | Executed(response: string, clientCode: string, command: string)

  /** The client lookup `this.clientConfig[clientCode]`, as intended: own entries only. */
  function OwnClient(config: map<string, Client>, clientCode: string): Option<ClientView> {
    if clientCode in config then Some(ViewOf(config[clientCode])) else None
  }

  /** `processMessage(message, from)` with the lookup as intended. */
  function ProcessMessage(m: Manager, message: string, from: string): (r: (Manager, Outcome))
    ensures !IsCommand(message) <==> r.1 == NotACommand
    ensures r.0.clientConfig == m.clientConfig
    ensures IsCommand(message) && ExtractCommandInfo(message).None? ==> r == (m, Answered(FormatError))
    ensures IsCommand(message) && ExtractCommandInfo(message).Some? &&
            ExtractCommandInfo(message).value.clientCode !in m.clientConfig ==>
      r == (m, Answered(NotFound(ExtractCommandInfo(message).value.clientCode)))
  {
    ProcessWith(m, message, from, OwnClient(m.clientConfig, CodeFor(message)))
  }

  /** The client code the message names, or "" when it does not parse. */
  function CodeFor(message: string): string {
    match ExtractCommandInfo(message)
    case None => ""
    case Some(info) => info.clientCode
  }

  /** The check chain of `processMessage`, given the value the client lookup produced. A lookup
      that finds a value never throws, so the `Failure` branch is never taken. */
  function ProcessWith(m: Manager, message: string, from: string, client: Option<ClientView>): (r: (Manager, Outcome))
    ensures !IsCommand(message) <==> r.1 == NotACommand
    ensures r.0.clientConfig == m.clientConfig
    ensures IsCommand(message) && ExtractCommandInfo(message).None? ==> r == (m, Answered(FormatError))
    ensures IsCommand(message) && ExtractCommandInfo(message).Some? && client.None? ==>
      r == (m, Answered(NotFound(ExtractCommandInfo(message).value.clientCode)))
  {
    if !IsCommand(message) then (m, NotACommand)
    else match ExtractCommandInfo(message)
      case None => (m, Answered(FormatError))
      case Some(info) =>
        if client.None? then (m, Answered(NotFound(info.clientCode)))
        else match ExecuteCommand(client, m.botStatus, info.clientCode, info.command, from)
          case Success(reply) =>
            (m.(botStatus := reply.botStatus), Executed(reply.text, info.clientCode, info.command))
          case Failure(_) => (m, Answered(""))
  }

  // ---------------------------------------------------------------------------
  // What the check chain guarantees

  /** An unknown command is answered with "no reconocido" before any authorisation check and
      changes nothing. */
  lemma UnknownCommandRejected(m: Manager, message: string, from: string)
    requires IsCommand(message) && ExtractCommandInfo(message).Some?
    requires ExtractCommandInfo(message).value.clientCode in m.clientConfig
    requires FindCommand(ExtractCommandInfo(message).value.command).None?
    ensures var info := ExtractCommandInfo(message).value;
      ProcessMessage(m, message, from) ==
        (m, Executed(NotRecognized(info.command, info.clientCode), info.clientCode, info.command))
  {
  }

  /** A command that needs authorisation, sent from a phone that differs from the client's
      before the `@`, is refused with a text naming the client's phone, and changes nothing. */
  lemma UnauthorizedRefused(m: Manager, message: string, from: string)
    requires IsCommand(message) && ExtractCommandInfo(message).Some?
    requires ExtractCommandInfo(message).value.clientCode in m.clientConfig
    requires FindCommand(ExtractCommandInfo(message).value.command).Some?
    requires FindCommand(ExtractCommandInfo(message).value.command).value.requiresAuth
    requires var c := m.clientConfig[ExtractCommandInfo(message).value.clientCode];
      BeforeFirst(c.phone, '@') != BeforeFirst(from, '@')
    ensures var info := ExtractCommandInfo(message).value;
      var c := m.clientConfig[info.clientCode];
      && ProcessMessage(m, message, from) ==
           (m, Executed(NotAuthorized(ViewOf(c)), info.clientCode, info.command))
      && Contains(NotAuthorized(ViewOf(c)), c.phone)
  {
    var info := ExtractCommandInfo(message).value;
    var c := m.clientConfig[info.clientCode];
    ContainsSelf(c.phone);
    ContainsWithin("❌ No autorizado para controlar el bot de " + c.name + ".\nSolo el número ", c.phone,
                   " puede ejecutar este comando.", c.phone);
  }

  /** What an executed command does to the active/inactive map: `/off` switches the named bot
      off, `/on` and `/restart` on, the other three leave the map alone, and no other client's
      entry ever changes. */
  lemma ExecutedEffects(m: Manager, message: string, from: string)
    requires IsCommand(message) && ExtractCommandInfo(message).Some?
    requires ExtractCommandInfo(message).value.clientCode in m.clientConfig
    requires FindCommand(ExtractCommandInfo(message).value.command).Some?
    ensures var info := ExtractCommandInfo(message).value;
      var r := ProcessMessage(m, message, from);
      && r.1.Executed? && r.1.clientCode == info.clientCode && r.1.command == info.command
      && (info.command == "/off" && IsAuthorizedNumber(OwnClient(m.clientConfig, info.clientCode), from) ==>
            !IsBotActive(r.0.botStatus, info.clientCode))
      && (info.command in {"/on", "/restart"} && IsAuthorizedNumber(OwnClient(m.clientConfig, info.clientCode), from) ==>
            IsBotActive(r.0.botStatus, info.clientCode))
      && (info.command in {"/status", "/help", "/info"} ==> r.0 == m)
      && forall code :: code != info.clientCode ==> IsBotActive(r.0.botStatus, code) == IsBotActive(m.botStatus, code)
  {
    var info := ExtractCommandInfo(message).value;
    AuthRequiredCommands(info.command);
  }

  lemma FindsTableCommands()
    ensures FindCommand("/off") == Some(CommandTable[0])
    ensures FindCommand("/on") == Some(CommandTable[1])
    ensures FindCommand("/status") == Some(CommandTable[2])
  {
  }

  /** `/off` followed by `/status` reports the bot inactive; `/on` then reports it active. */
  lemma OffThenStatus(c: Client, botStatus: map<string, BotStatus>, clientCode: string, from: string)
    requires BeforeFirst(c.phone, '@') == BeforeFirst(from, '@')
    ensures var client := Some(ViewOf(c));
      var off := ExecuteCommand(client, botStatus, clientCode, "/off", from);
      && off.Success?
      && ExecuteCommand(client, off.value.botStatus, clientCode, "/status", from) ==
           Success(Reply(off.value.botStatus, StatusReport(c.name, "🔴 INACTIVO", Show(c.assistantId))))
      && var on := ExecuteCommand(client, off.value.botStatus, clientCode, "/on", from);
         && on.Success?
         && ExecuteCommand(client, on.value.botStatus, clientCode, "/status", from) ==
              Success(Reply(on.value.botStatus, StatusReport(c.name, "🟢 ACTIVO", Show(c.assistantId))))
  {
    FindsTableCommands();
    var client := Some(ViewOf(c));
    assert IsAuthorizedNumber(client, from);
    var off := ExecuteCommand(client, botStatus, clientCode, "/off", from);
    assert off == Success(Act(DisableBot, ViewOf(c), botStatus, clientCode));
    var on := ExecuteCommand(client, off.value.botStatus, clientCode, "/on", from);
    assert on == Success(Act(EnableBot, ViewOf(c), off.value.botStatus, clientCode));
  }

  /** A freshly constructed manager has every configured bot active. */
  lemma AllBotsStartActive(env: Env, code: string)
    ensures IsBotActive(NewManager(env).botStatus, code) <==> code in LoadClientConfig(env)
  {
  }

  // ---------------------------------------------------------------------------
  // The help text

  lemma {:induction false} HelpLinesContain(table: seq<CommandDef>, k: nat)
    requires k < |table|
    ensures Contains(HelpLines(table), HelpLine(table[k]))
    decreases |table|
  {
    if k == 0 {
      ContainsSelf(HelpLine(table[0]));
      ContainsWithin("", HelpLine(table[0]), HelpLines(table[1..]), HelpLine(table[0]));
      assert "" + HelpLine(table[0]) + HelpLines(table[1..]) == HelpLines(table);
    } else {
      HelpLinesContain(table[1..], k - 1);
      ContainsWithin(HelpLine(table[0]), HelpLines(table[1..]), "", HelpLine(table[k]));
      assert HelpLine(table[0]) + HelpLines(table[1..]) + "" == HelpLines(table);
    }
  }

  /** The help text lists every command of the table on a line of its own. */
  lemma HelpListsEveryCommand(client: ClientView, clientCode: string, k: nat)
    requires k < |CommandTable|
    ensures Contains(HelpMessage(client, clientCode), HelpLine(CommandTable[k]))
  {
    HelpLinesContain(CommandTable, k);
    var pre := "📋 Comandos disponibles para " + Show(client.name) + ":\n\n";
    var post := "\n💡 Uso: #" + clientCode + " /comando";
    ContainsWithin(pre, HelpLines(CommandTable), post, HelpLine(CommandTable[k]));
    assert HelpMessage(client, clientCode) == pre + HelpLines(CommandTable) + post;
  }

  /** A line of the help text carries the "(Solo autorizados)" mark exactly when its command
      requires authorisation. */
  lemma HelpMarksAuthorisedOnly(k: nat)
    requires k < |CommandTable|
    ensures EndsWith(HelpLine(CommandTable[k]), AuthSuffix + "\n") <==> CommandTable[k].requiresAuth
  {
    var d := CommandTable[k];
    var line := HelpLine(d);
    if d.requiresAuth {
      assert line[|line| - |AuthSuffix + "\n"|..] == AuthSuffix + "\n";
    } else {
      assert line[|line| - 3] != AuthSuffix[|AuthSuffix| - 2];
    }
  }

  // ---------------------------------------------------------------------------
  // The client lookup as written

  /** Names every plain JavaScript object inherits from `Object.prototype`. All of them are
      `\w+` words, so they can appear as the client code of a well-formed command. */
  const InheritedNames: set<string> := {
    "constructor", "__defineGetter__", "__defineSetter__", "hasOwnProperty", "__lookupGetter__",
    "__lookupSetter__", "isPrototypeOf", "propertyIsEnumerable", "toString", "valueOf",
    "__proto__", "toLocaleString"}

  /** What `this.clientConfig[name]` yields for an inherited name: a function whose `name` is
      its own (`Object` for the constructor), or `Object.prototype` itself, which has no `name`;
      none of them has `phone` or `assistantId`. */
  function InheritedView(name: string): ClientView {
    if name == "constructor" then ClientView(Some("Object"), None, None)
    else if name == "__proto__" then ClientView(None, None, None)
    else ClientView(Some(name), None, None)
  }

  /** `this.clientConfig[clientCode]` on a plain object: own entries, then inherited ones. */
  function PlainObjectClient(config: map<string, Client>, clientCode: string): (r: Option<ClientView>)
    ensures clientCode in config ==> r == OwnClient(config, clientCode)
    ensures r.Some? <==> clientCode in config || clientCode in InheritedNames
  {
    if clientCode in config then Some(ViewOf(config[clientCode]))
    else if clientCode in InheritedNames then Some(InheritedView(clientCode))
    else None
  }

  /** `processMessage(message, from)` exactly as written. */
  function ProcessMessageAsWritten(m: Manager, message: string, from: string): (r: (Manager, Outcome))
    ensures r.0.clientConfig == m.clientConfig
    ensures CodeFor(message) !in InheritedNames ==> r == ProcessMessage(m, message, from)
  {
    ProcessWith(m, message, from, PlainObjectClient(m.clientConfig, CodeFor(message)))
  }

  lemma ParsesConstructorHelp(message: string)
    requires message == "#constructor /help"
    ensures ExtractCommandInfo(message) == Some(CommandInfo("constructor", "/help"))
  {
    assert message == "#" + "constructor" + " /" + "help";
    ParsesCanonicalCommand(message, "constructor", "help");
    assert "/" + "help" == "/help";
  }

  lemma FindsHelp()
    ensures FindCommand("/help") == Some(CommandTable[4])
  {
  }

  /** A parsed `/help` for a client the lookup found is answered with that client's help text. */
  lemma HelpAnswered(m: Manager, message: string, from: string, client: Option<ClientView>, code: string)
    requires IsCommand(message) && ExtractCommandInfo(message) == Some(CommandInfo(code, "/help"))
    requires client.Some?
    ensures ProcessWith(m, message, from, client) == (m, Executed(HelpMessage(client.value, code), code, "/help"))
  {
    FindsHelp();
    var reply := Reply(m.botStatus, HelpMessage(client.value, code));
    assert ExecuteCommand(client, m.botStatus, code, "/help", from) == Success(reply);
    assert m.(botStatus := reply.botStatus) == m;
  }

  lemma ConstructorHelpIsCommand(message: string)
    requires message == "#constructor /help"
    ensures IsCommand(message) && CodeFor(message) == "constructor"
  {
    ParsesConstructorHelp(message);
    assert message[0] == '#' && message[13] == '/';
  }

  /** With any environment, `#constructor /help` is answered with the help text of a client
      called "Object" instead of "Cliente no encontrado": the lookup finds the inherited
      `Object` constructor. The own-entry lookup answers "not found". */
  lemma InheritedNameFoundAsClient(env: Env, message: string, from: string)
    requires message == "#constructor /help"
    ensures var m := NewManager(env);
      && ProcessMessageAsWritten(m, message, from).1 ==
           Executed(HelpMessage(ClientView(Some("Object"), None, None), "constructor"), "constructor", "/help")
      && ProcessMessage(m, message, from).1 == Answered(NotFound("constructor"))
  {
    ParsesConstructorHelp(message);
    ConstructorHelpIsCommand(message);
    var m := NewManager(env);
    assert "constructor" !in m.clientConfig by {
      assert "constructor"[0] != "CLIENTE"[0];
    }
    assert "constructor" in InheritedNames;
    var found := PlainObjectClient(m.clientConfig, "constructor");
    assert found == Some(ClientView(Some("Object"), None, None));
    HelpAnswered(m, message, from, found, "constructor");
  }
}
