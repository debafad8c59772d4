/** The auth plugin's own logic: redacting passwords from the logged form
    of a command, the order in which the login, register and passwd
    commands consult the auth handler, and the configuration-gated access to
    the handlers. The auth and permissions handlers are oracles: each call
    the plugin makes is recorded, and its answer is whatever the oracle
    says. */
module Auth {
  import opened Base
  import opened Text

  /** The marker a redacted word is replaced with. */
  const Redacted := "[REDACTED]"

  lemma RedactedIsWord()
    ensures Redacted != [] && NoSpace(Redacted)
  {
  }

  // ---------------------------------------------------------------------
  // Log redaction
  // ---------------------------------------------------------------------

  /** `n` redaction markers. */
  function Markers(n: nat): (r: seq<string>)
    ensures |r| == n && forall i :: 0 <= i < n ==> r[i] == Redacted
  {
    seq(n, _ => Redacted)
  }

  /** `pre_command`: the printable form of a command with its secrets
      replaced. For login and register (any case) with at least two
      arguments, the second word after the first `<command> ` is replaced;
      for passwd every word after it is; other commands pass unchanged.
      `None` is the hook failing (an index out of range) when the printable
      text lacks the expected shape; the text then stays as it was. */
  function PreCommand(command: string, args: seq<string>, printable: string): (r: Option<string>)
    ensures var c := Lower(command);
      c != "login" && c != "register" && c != "passwd" ==> r == Some(printable)
    ensures var c := Lower(command);
      (c == "login" || c == "register") && |args| < 2 ==> r == Some(printable)
  {
    var c := Lower(command);
    var sep := command + " ";
    if c == "login" || c == "register" then
      if |args| < 2 then Some(printable)
      else
        var parts := SplitOn(printable, sep);
        if |parts| < 2 then None
        else
          var ws := Words(parts[1]);
          if |ws| < 2 then None
          else Some(Join(sep, [parts[0], Join(" ", [ws[0], Redacted] + ws[2..])] + parts[2..]))
    else if c == "passwd" then
      var parts := SplitOn(printable, sep);
      if |parts| < 2 then None
      else Some(Join(sep, [parts[0], Join(" ", Markers(|Words(parts[1])|))] + parts[2..]))
    else Some(printable)
  }

  /** A command line whose arguments do not repeat `<command> ` splits
      into an empty lead and the arguments; rejoined with a replacement
      for the arguments it is the command followed by the replacement. */
  lemma CommandLine(command: string, rest: string, x: string)
    requires !Occurs(rest, command + " ")
    ensures SplitOn(command + " " + rest, command + " ") == [[], rest]
    ensures Join(command + " ", [[], x] + [[], rest][2..]) == command + " " + x
  {
    var sep := command + " ";
    SplitLeading(sep, rest);
    SplitAbsent(rest, sep);
    assert [[], x] + [[], rest][2..] == [[], x];
    assert Join(sep, [[], x]) == [] + sep + Join(sep, [x]);
  }

  /** The printable form `<command> w0 w1 ...`, the command text not
      recurring after it: the login or register password (the second word)
      is redacted, everything else is kept. */
  lemma LoginRedacted(command: string, args: seq<string>, ws: seq<string>)
    requires Lower(command) == "login" || Lower(command) == "register"
    requires |args| >= 2 && |ws| >= 2
    requires forall i :: 0 <= i < |ws| ==> ws[i] != [] && NoSpace(ws[i])
    requires !Occurs(Join(" ", ws), command + " ")
    ensures PreCommand(command, args, command + " " + Join(" ", ws))
         == Some(command + " " + Join(" ", [ws[0], Redacted] + ws[2..]))
  {
    WordsJoin(ws);
    CommandLine(command, Join(" ", ws), Join(" ", [ws[0], Redacted] + ws[2..]));
  }

  /** The same printable form of a passwd command becomes the command
      followed by as many markers as it had words, so the word count is
      kept and no word survives. */
  lemma PasswdRedacted(command: string, args: seq<string>, ws: seq<string>)
    requires Lower(command) == "passwd"
    requires forall i :: 0 <= i < |ws| ==> ws[i] != [] && NoSpace(ws[i])
    requires !Occurs(Join(" ", ws), command + " ")
    ensures PreCommand(command, args, command + " " + Join(" ", ws)) == Some(command + " " + Join(" ", Markers(|ws|)))
    ensures Words(Join(" ", Markers(|ws|))) == Markers(|ws|)
  {
    var printable := command + " " + Join(" ", ws);
    var x := Join(" ", Markers(|ws|));
    WordsJoin(ws);
    CommandLine(command, Join(" ", ws), x);
    MarkersAreWords(|ws|);
    PasswdBranch(command, args, printable);
    assert SplitOn(printable, command + " ") == [[], Join(" ", ws)];
  }

  /** The passwd branch of `PreCommand`. */
  lemma PasswdBranch(command: string, args: seq<string>, printable: string)
    requires Lower(command) == "passwd"
    ensures var parts := SplitOn(printable, command + " ");
      PreCommand(command, args, printable)
      == if |parts| < 2 then None
         else Some(Join(command + " ", [parts[0], Join(" ", Markers(|Words(parts[1])|))] + parts[2..]))
  {
  }

  /** The markers, joined by spaces, read back as that many words. */
  lemma MarkersAreWords(n: nat)
    ensures Words(Join(" ", Markers(n))) == Markers(n)
  {
    RedactedIsWord();
    WordsJoin(Markers(n));
  }

  /** A passwd line without any space after the command makes the hook
      fail instead of redacting. */
  lemma BarePasswdFails(args: seq<string>)
    ensures PreCommand("passwd", args, "passwd").None?
  {
    LowerKeeps("passwd");
    SplitAbsent("passwd", "passwd ");
  }

  // ---------------------------------------------------------------------
  // Command decision flows
  // ---------------------------------------------------------------------

  /** The objects a command handler receives, as the auth handler sees
      them when they are passed along: the calling user, the channel or
      query the command came from, the protocol, and (when arguments are
      passed out of place) the argument list. */
  datatype Party = Caller | Source | Protocol | ArgList

  /** The roles of `login_command`'s caller, source and protocol parameters. */
  datatype Roles = Roles(caller: Party, source: Party, protocol: Party)

  /** The roles as the command manager passes them. */
  const Direct := Roles(Caller, Source, Protocol)

  /** A call the plugin makes on a handler. */
  datatype Call =
    | IsAuthorized(caller: Party, source: Party, protocol: Party)
    | LogIn(caller: Party, protocol: Party, username: string, password: string)
    | BlacklistPassword(password: string, username: string)
    | UserExists(username: string)
    | PasswordBlacklisted(password: string, username: string)
    | CreateUser(username: string, password: string)
    | CreatePermissionsUser(username: string)
    | ChangePassword(username: string, current: string, replacement: string)

  /** What the user is told. */
  datatype Reply =
    | Usage
    | AlreadyLoggedIn | BadCredentials | LoggedIn(username: string)
    | ChannelRefused
    | UsernameTaken | PasswordRefused | Registered | RegistrationFailed
    | MustLogIn | PasswordChanged | WrongOldPassword

  /** The handler calls made, in order, the replies given, and whether an
      exception escaped the command afterwards. */
  datatype Flow = Flow(calls: seq<Call>, replies: seq<Reply>, raised: bool := false)

  /** The handlers' answers: true or false for each call. */
  type Oracle = Call -> bool

  /** `login_command`, with its caller, source and protocol bound to the
      parties in `roles`. */
  function LoginCommand(ask: Oracle, roles: Roles, rawArgs: string): (f: Flow)
    ensures |Words(rawArgs)| < 2 ==> f == Flow([], [Usage])
    ensures |Words(rawArgs)| >= 2 ==>
      var auth := IsAuthorized(roles.caller, roles.source, roles.protocol);
      var args := Words(rawArgs);
      && |f.calls| >= 1 && f.calls[0] == auth
      && (ask(auth) ==> f == Flow([auth], [AlreadyLoggedIn]))
      && (!ask(auth) ==> f.calls == [auth, LogIn(roles.caller, roles.protocol, args[0], args[1])])
  {
    var args := Words(rawArgs);
    if |args| < 2 then Flow([], [Usage])
    else
      var auth := IsAuthorized(roles.caller, roles.source, roles.protocol);
      if ask(auth) then Flow([auth], [AlreadyLoggedIn])
      else
        var login := LogIn(roles.caller, roles.protocol, args[0], args[1]);
        Flow([auth, login], [if ask(login) then LoggedIn(args[0]) else BadCredentials])
  }

  /** A login is attempted exactly when there are two arguments and the
      caller is not already logged in, and it logs in the caller. */
  lemma LoginAttemptedIff(ask: Oracle, rawArgs: string)
    ensures (exists c :: c in LoginCommand(ask, Direct, rawArgs).calls && c.LogIn?)
        <==> |Words(rawArgs)| >= 2 && !ask(IsAuthorized(Caller, Source, Protocol))
    ensures forall c :: c in LoginCommand(ask, Direct, rawArgs).calls && c.LogIn? ==> c.caller == Caller && c.protocol == Protocol
  {
    var f := LoginCommand(ask, Direct, rawArgs);
    if |Words(rawArgs)| >= 2 && !ask(IsAuthorized(Caller, Source, Protocol)) {
      assert f.calls[1].LogIn?;
    }
  }

  /** `register_command` up to account creation, then the permissions
      account and the login with `followUp`'s roles. `permsH` is the
      plugin's permissions handler attribute: when it is absent, the
      `create_user` call on it raises once the account exists, and no
      login follows. */
  function RegisterWith(ask: Oracle, permsH: Option<Handler>, inChannel: bool, rawArgs: string, followUp: Roles): (f: Flow)
    ensures forall c :: c in f.calls && c.LogIn? ==> c.caller == followUp.caller && c.protocol == followUp.protocol
    ensures f.raised ==> permsH.None?
    ensures permsH.None? ==> forall c :: c in f.calls ==> !c.LogIn? && !c.CreatePermissionsUser?
  {
    var args := Words(rawArgs);
    if |args| < 2 then Flow([], [Usage])
    else
      var username := args[0];
      var password := args[1];
      if inChannel then Flow([BlacklistPassword(password, username)], [ChannelRefused])
      else if ask(UserExists(username)) then Flow([UserExists(username)], [UsernameTaken])
      else if ask(PasswordBlacklisted(password, username)) then
        Flow([UserExists(username), PasswordBlacklisted(password, username)], [PasswordRefused])
      else
        var checks := [UserExists(username), PasswordBlacklisted(password, username), CreateUser(username, password)];
        if !ask(CreateUser(username, password)) then Flow(checks, [RegistrationFailed])
        else if permsH.None? then Flow(checks, [Registered], true)
        else
          var login := LoginCommand(ask, followUp, rawArgs);
          Flow(checks + [CreatePermissionsUser(username)] + login.calls, [Registered] + login.replies)
  }

  /** `register_command`, the follow-up login made on the registering user's
      behalf as evidently intended (see `RegisterAsWritten`). An account is
      created only from a private message, for a new username and a
      password not blacklisted; a channel use blacklists the password. The
      command raises exactly when an account was created while the plugin
      has no permissions handler. */
  function Register(ask: Oracle, permsH: Option<Handler>, inChannel: bool, rawArgs: string): (f: Flow)
    ensures |Words(rawArgs)| < 2 ==> f == Flow([], [Usage])
    ensures forall c :: c in f.calls && c.LogIn? ==> c.caller == Caller && c.protocol == Protocol
    ensures |Words(rawArgs)| >= 2 && inChannel ==>
      f.calls == [BlacklistPassword(Words(rawArgs)[1], Words(rawArgs)[0])]
    ensures |Words(rawArgs)| >= 2 ==>
      var args := Words(rawArgs);
      var created := CreateUser(args[0], args[1]) in f.calls;
      && (created <==> !inChannel && !ask(UserExists(args[0])) && !ask(PasswordBlacklisted(args[1], args[0])))
      && (f.raised <==> created && ask(CreateUser(args[0], args[1])) && permsH.None?)
      && (created && ask(CreateUser(args[0], args[1])) && permsH.Some? ==>
            CreatePermissionsUser(args[0]) in f.calls && !f.raised)
    ensures permsH.None? ==> forall c :: c in f.calls ==> !c.LogIn? && !c.CreatePermissionsUser?
  {
    RegisterWith(ask, permsH, inChannel, rawArgs, Direct)
  }

  /** As written, the follow-up `login_command` call passes its arguments
      out of place: the source arrives as the caller, the argument list as
      the source and the caller as the protocol. */
  function RegisterAsWritten(ask: Oracle, permsH: Option<Handler>, inChannel: bool, rawArgs: string): (f: Flow)
    ensures forall c :: c in f.calls && c.LogIn? ==> c.caller == Source && c.protocol == Caller
    ensures permsH.None? ==> forall c :: c in f.calls ==> !c.LogIn?
  {
    RegisterWith(ask, permsH, inChannel, rawArgs, Roles(Source, ArgList, Caller))
  }

  /** A successful registration: as written, the handler is asked whether
      the source is authorized and then to log the source in over the
      caller; as intended, both concern the caller over the protocol. */
  lemma RegisterLoginMisdirected(ask: Oracle, h: Handler, username: string, password: string)
    requires username != [] && NoSpace(username) && password != [] && NoSpace(password)
    requires !ask(UserExists(username)) && !ask(PasswordBlacklisted(password, username))
    requires ask(CreateUser(username, password))
    requires !ask(IsAuthorized(Source, ArgList, Caller)) && !ask(IsAuthorized(Caller, Source, Protocol))
    ensures LogIn(Source, Caller, username, password) in RegisterAsWritten(ask, Some(h), false, username + " " + password).calls
    ensures LogIn(Caller, Protocol, username, password) in Register(ask, Some(h), false, username + " " + password).calls
  {
    var raw := username + " " + password;
    assert Join(" ", [username, password]) == raw;
    WordsJoin([username, password]);
    var n := 4;
    assert RegisterAsWritten(ask, Some(h), false, raw).calls[n + 1] == LogIn(Source, Caller, username, password);
    assert Register(ask, Some(h), false, raw).calls[n + 1] == LogIn(Caller, Protocol, username, password);
  }

  /** With `use-permissions` off, `setup` leaves no permissions handler, so
      a successful registration creates the account, says so, and then
      raises instead of logging the new user in. */
  lemma RegisterWithoutPermissions(ask: Oracle, cfg: Config, permsLoaded: bool, authLoaded: bool,
                                   username: string, password: string)
    requires !cfg.usePermissions
    requires username != [] && NoSpace(username) && password != [] && NoSpace(password)
    requires !ask(UserExists(username)) && !ask(PasswordBlacklisted(password, username))
    requires ask(CreateUser(username, password))
    ensures var f := Register(ask, Setup(cfg, permsLoaded, authLoaded, 0, 1).permsH, false, username + " " + password);
      && f.raised && f.replies == [Registered]
      && CreateUser(username, password) in f.calls
      && forall c :: c in f.calls ==> !c.LogIn?
  {
    var raw := username + " " + password;
    assert Join(" ", [username, password]) == raw;
    WordsJoin([username, password]);
    var f := Register(ask, None, false, raw);
    assert f.calls[2] == CreateUser(username, password);
  }

  /** `passwd_command`: `authName` is the caller's account. */
  function Passwd(ask: Oracle, authName: string, rawArgs: string): (f: Flow)
    ensures |Words(rawArgs)| < 2 ==> f == Flow([], [Usage])
    ensures |Words(rawArgs)| >= 2 ==>
      var args := Words(rawArgs);
      var change := ChangePassword(authName, args[0], args[1]);
      && (change in f.calls <==> ask(IsAuthorized(Caller, Source, Protocol)) && !ask(PasswordBlacklisted(args[1], authName)))
      && (forall c :: c in f.calls && c.ChangePassword? ==> c == change)
  {
    var args := Words(rawArgs);
    if |args| < 2 then Flow([], [Usage])
    else
      var auth := IsAuthorized(Caller, Source, Protocol);
      if !ask(auth) then Flow([auth], [MustLogIn])
      else
        var current := args[0];
        var replacement := args[1];
        var black := PasswordBlacklisted(replacement, authName);
        if ask(black) then Flow([auth, black], [PasswordRefused])
        else
          var change := ChangePassword(authName, current, replacement);
          Flow([auth, black, change], [if ask(change) then PasswordChanged else WrongOldPassword])
  }

  /** A passwd command gives exactly one reply after at most three
      handler calls. */
  lemma PasswdAnswersOnce(ask: Oracle, authName: string, rawArgs: string)
    ensures |Passwd(ask, authName, rawArgs).replies| == 1
    ensures |Passwd(ask, authName, rawArgs).calls| <= 3
  {
  }

  // ---------------------------------------------------------------------
  // Handler accessors and deactivation
  // ---------------------------------------------------------------------

  /** The plugin's `use-auth` and `use-permissions` settings. */
  datatype Config = Config(useAuth: bool, usePermissions: bool)

  /** A handler object, by identity and by class. */
  datatype HandlerKind = AuthHandlerKind | PermissionsHandlerKind | OtherKind
  datatype Handler = Handler(id: nat, kind: HandlerKind)

  /** The plugin's handlers (absent when never set up). */
  datatype Plugin = Plugin(config: Config, authH: Option<Handler>, permsH: Option<Handler>)

  /** The handlers `setup` leaves: a permissions handler only when
      `use-permissions` is on and its data file loaded, an auth handler
      only when `use-auth` is on and both account files loaded. Each is a
      new object of this plugin's class. */
  function Setup(cfg: Config, permsLoaded: bool, authLoaded: bool, permsId: nat, authId: nat): (p: Plugin)
    ensures p.config == cfg
    ensures p.permsH.Some? <==> cfg.usePermissions && permsLoaded
    ensures p.authH.Some? <==> cfg.useAuth && authLoaded
    ensures p.permsH.Some? ==> p.permsH.value.kind == PermissionsHandlerKind
    ensures p.authH.Some? ==> p.authH.value.kind == AuthHandlerKind
  {
    Plugin(cfg,
           if cfg.useAuth && authLoaded then Some(Handler(authId, AuthHandlerKind)) else None,
           if cfg.usePermissions && permsLoaded then Some(Handler(permsId, PermissionsHandlerKind)) else None)
  }

  /** `get_auth_handler`. */
  function GetAuthHandler(p: Plugin): (r: Option<Handler>)
    ensures r.Some? ==> p.config.useAuth && r == p.authH
    ensures p.config.useAuth ==> r == p.authH
  {
    if p.config.useAuth then p.authH else None
  }

  /** `get_permissions_handler`. */
  function GetPermissionsHandler(p: Plugin): (r: Option<Handler>)
    ensures r.Some? ==> p.config.usePermissions && r == p.permsH
    ensures p.config.usePermissions ==> r == p.permsH
  {
    if p.config.usePermissions then p.permsH else None
  }

  /** After `setup`, each accessor hands out a handler exactly when its
      setting is on and its files loaded, and always one of the matching
      class. */
  lemma AccessorsAfterSetup(cfg: Config, permsLoaded: bool, authLoaded: bool, permsId: nat, authId: nat)
    ensures var p := Setup(cfg, permsLoaded, authLoaded, permsId, authId);
      && (GetAuthHandler(p).Some? <==> cfg.useAuth && authLoaded)
      && (GetPermissionsHandler(p).Some? <==> cfg.usePermissions && permsLoaded)
      && (GetAuthHandler(p).Some? ==> GetAuthHandler(p).value.kind == AuthHandlerKind)
      && (GetPermissionsHandler(p).Some? ==> GetPermissionsHandler(p).value.kind == PermissionsHandlerKind)
  {
  }

  /** Whatever handlers `setup` installed in the command manager, which
      are the ones the accessors hand out, `deactivate` clears again. */
  lemma DeactivateUndoesSetup(cfg: Config, permsLoaded: bool, authLoaded: bool, permsId: nat, authId: nat)
    ensures var p := Setup(cfg, permsLoaded, authLoaded, permsId, authId);
      Deactivate(cfg, Commands(GetAuthHandler(p), GetPermissionsHandler(p))) == Commands(None, None)
  {
  }

  /** The command manager's current handlers. */
  datatype Commands = Commands(authHandler: Option<Handler>, permHandler: Option<Handler>)

  /** `deactivate`: a handler slot is cleared when the matching setting is
      on and the slot holds a handler of this plugin's class (whoever
      created it); otherwise it is left alone. */
  function Deactivate(cfg: Config, cm: Commands): (r: Commands)
    ensures r.authHandler == None || r.authHandler == cm.authHandler
    ensures r.permHandler == None || r.permHandler == cm.permHandler
    ensures r.authHandler != cm.authHandler <==>
      cfg.useAuth && cm.authHandler.Some? && cm.authHandler.value.kind == AuthHandlerKind
    ensures r.permHandler != cm.permHandler <==>
      cfg.usePermissions && cm.permHandler.Some? && cm.permHandler.value.kind == PermissionsHandlerKind
  {
    var a := if cfg.useAuth && cm.authHandler.Some? && cm.authHandler.value.kind == AuthHandlerKind
             then None else cm.authHandler;
    var p := if cfg.usePermissions && cm.permHandler.Some? && cm.permHandler.value.kind == PermissionsHandlerKind
             then None else cm.permHandler;
    Commands(a, p)
  }

  /** Deactivating twice is deactivating once. */
  lemma DeactivateIdempotent(cfg: Config, cm: Commands)
    ensures Deactivate(cfg, Deactivate(cfg, cm)) == Deactivate(cfg, cm)
  {
  }
}
