/** The factoid store: short named notes kept per (key, location), where a
    location is a channel, a protocol or global. The SQLite table becomes a
    map, permission checks an oracle, Deferreds a `Reply` value. */
module Factoids {
  import opened Base
  import opened Text

  const Channel := "channel"
  const Protocol := "protocol"
  const Global := "global"

  predicate IsLocation(l: string) {
    l == Channel || l == Protocol || l == Global
  }

  /** The location names are already lower case. */
  lemma LocationsLower()
    ensures Lower(Channel) == Channel && Lower(Protocol) == Protocol && Lower(Global) == Global
  {
    LowerKeeps(Channel);
    LowerKeeps(Protocol);
    LowerKeeps(Global);
  }

  /** The errors a factoid operation reports to its caller. */
  datatype Error = InvalidLocation | InvalidMethod | NoPermission | MissingFactoid

  // ---------------------------------------------------------------------
  // Argument parsing and validation
  // ---------------------------------------------------------------------

  /** `<location> <factoid> <info>` as split by `_parse_args`. */
  datatype Args = Args(location: string, factoid: string, info: string)

  /** `_parse_args`: the text before the first space, the text between the
      first and second spaces (possibly empty), and all the rest, which must
      not be empty. Only the space character separates; tabs do not. */
  function ParseArgs(raw: string): (r: Option<Args>)
    ensures r.Some? ==>
      && ' ' !in r.value.location && ' ' !in r.value.factoid && r.value.info != []
      && raw == r.value.location + " " + r.value.factoid + " " + r.value.info
  {
    var pos := IndexOf(raw, ' ', 0);
    if pos < 0 then None
    else
      var pos2 := IndexOf(raw, ' ', pos + 1);
      if pos2 < 0 || raw[pos2 + 1..] == [] then None
      else
        assert raw == raw[..pos] + " " + raw[pos + 1..pos2] + " " + raw[pos2 + 1..];
        Some(Args(raw[..pos], raw[pos + 1..pos2], raw[pos2 + 1..]))
  }

  /** Every well-formed argument string parses back into its parts, so
      together with `ParseArgs`'s own contract the parse succeeds exactly on
      strings of that shape. */
  lemma ParseArgsComplete(location: string, factoid: string, info: string)
    requires ' ' !in location && ' ' !in factoid && info != []
    ensures ParseArgs(location + " " + factoid + " " + info) == Some(Args(location, factoid, info))
  {
    var raw := location + " " + factoid + " " + info;
    var pos := |location|;
    assert raw[pos] == ' ' && forall j :: 0 <= j < pos ==> raw[j] == location[j];
    assert IndexOf(raw, ' ', 0) == pos;
    var pos2 := pos + 1 + |factoid|;
    assert raw[pos2] == ' ' && forall j :: pos + 1 <= j < pos2 ==> raw[j] == factoid[j - pos - 1];
    assert IndexOf(raw, ' ', pos + 1) == pos2;
    assert raw[..pos] == location && raw[pos + 1..pos2] == factoid && raw[pos2 + 1..] == info;
  }

  /** Where a command came from: nowhere given, a channel, or elsewhere (a
      private message). */
  datatype Source = NoSource | ChannelSource | PrivateSource

  /** `valid_location`: the location, lower-cased, must be one of the three;
      the channel location is refused outside a channel when a source is
      given. `None` means valid. */
  function ValidLocation(location: string, source: Source): (r: Option<Error>)
    ensures r == Some(InvalidLocation) <==> !IsLocation(Lower(location))
    ensures r == Some(InvalidMethod) <==> Lower(location) == Channel && source == PrivateSource
    ensures r == None || r == Some(InvalidLocation) || r == Some(InvalidMethod)
  {
    var l := Lower(location);
    if !IsLocation(l) then Some(InvalidLocation)
    else if source == PrivateSource && l == Channel then Some(InvalidMethod)
    else None
  }

  /** Validation does not depend on the case of the location. */
  lemma ValidLocationIgnoresCase(location: string, source: Source)
    ensures ValidLocation(Lower(location), source) == ValidLocation(location, source)
  {
    LowerIdempotent(location);
  }

  // ---------------------------------------------------------------------
  // The table
  // ---------------------------------------------------------------------

  /** The unique key of a row: the lower-cased factoid and its location. */
  datatype RowKey = RowKey(key: string, location: string)

  /** The name as first given (for display) and the newline-separated info. */
  datatype Row = Row(name: string, info: string)

  type Table = map<RowKey, Row>

  /** What every operation leaves behind: keys lower-cased, locations valid. */
  predicate WellKeyed(t: Table) {
    forall k :: k in t ==> k.key == Lower(k.key) && IsLocation(k.location)
  }

  /** The lines a stored info shows as. */
  function Lines(info: string): seq<string> {
    SplitOn(info, "\n")
  }

  /** `_add_factoid_interaction`: append the info as a new line of an
      existing row, keeping its name, or insert a new row. Reports whether
      the row existed. */
  function AddRow(t: Table, key: string, location: string, name: string, info: string): (r: (Table, bool))
    ensures var k := RowKey(key, location);
      && (r.1 <==> k in t)
      && k in r.0 && r.0 - {k} == t - {k}
      && r.0[k].name == (if r.1 then t[k].name else name)
      && Lines(r.0[k].info) == (if r.1 then Lines(t[k].info) else []) + Lines(info)
  {
    var k := RowKey(key, location);
    if k in t then
      SplitAppend(t[k].info, "\n", info);
      (t[k := Row(t[k].name, t[k].info + "\n" + info)], true)
    else
      (t[k := Row(name, info)], false)
  }

  /** The `INSERT` of `set_factoid`: the unique key replaces any row. */
  function SetRow(t: Table, key: string, location: string, name: string, info: string): (r: Table)
    ensures var k := RowKey(key, location);
      k in r && r[k] == Row(name, info) && r - {k} == t - {k}
  {
    t[RowKey(key, location) := Row(name, info)]
  }

  /** A second set wins over the first. */
  lemma SetOverwrites(t: Table, key: string, location: string, n1: string, i1: string, n2: string, i2: string)
    ensures SetRow(SetRow(t, key, location, n1, i1), key, location, n2, i2) == SetRow(t, key, location, n2, i2)
  {
  }

  /** `_delete_factoid_interaction`: remove the row, or report it missing. */
  function DeleteRow(t: Table, key: string, location: string): (r: Result<Table, Error>)
    ensures r.Ok? <==> RowKey(key, location) in t
    ensures r.Ok? ==> RowKey(key, location) !in r.value && r.value - {RowKey(key, location)} == t - {RowKey(key, location)}
    ensures r.Err? ==> r.error == MissingFactoid
  {
    var k := RowKey(key, location);
    if k in t then Ok(t - {k}) else Err(MissingFactoid)
  }

  /** Adding a fresh row and deleting it again gives the table back. */
  lemma AddThenDelete(t: Table, key: string, location: string, name: string, info: string)
    requires RowKey(key, location) !in t
    ensures DeleteRow(AddRow(t, key, location, name, info).0, key, location) == Ok(t)
  {
    var k := RowKey(key, location);
    assert t[k := Row(name, info)] - {k} == t;
  }

  /** The precedence of the locations in a lookup without a location. */
  function Precedence(l: string): nat {
    if l == Channel then 0 else if l == Protocol then 1 else 2
  }

  /** A row the lookup may return: it exists for the key at a valid
      location and, when a location is asked for, at that one. */
  predicate Admits(t: Table, key: string, location: Option<string>, l: string) {
    IsLocation(l) && RowKey(key, l) in t && (location.None? || location.value == l)
  }

  /** The location whose row `_get_factoid_interaction` returns: the
      admitted one first in channel, protocol, global order. */
  function Choose(t: Table, key: string, location: Option<string>): (r: Option<string>)
    ensures r.Some? ==> Admits(t, key, location, r.value)
    ensures r.Some? ==> forall l :: Admits(t, key, location, l) ==> Precedence(r.value) <= Precedence(l)
    ensures r.None? ==> forall l :: !Admits(t, key, location, l)
  {
    if Admits(t, key, location, Channel) then Some(Channel)
    else if Admits(t, key, location, Protocol) then Some(Protocol)
    else if Admits(t, key, location, Global) then Some(Global)
    else None
  }

  /** A factoid as shown: its name and its lines. */
  datatype Found = Found(name: string, lines: seq<string>)

  /** `_get_factoid_interaction`. */
  function GetRow(t: Table, key: string, location: Option<string>): (r: Result<Found, Error>)
    ensures r.Err? <==> Choose(t, key, location).None?
    ensures r.Err? ==> r.error == MissingFactoid
    ensures r.Ok? ==> var k := RowKey(key, Choose(t, key, location).value);
      r.value == Found(t[k].name, Lines(t[k].info))
  {
    match Choose(t, key, location)
    case None => Err(MissingFactoid)
    case Some(l) => var row := t[RowKey(key, l)]; Ok(Found(row.name, Lines(row.info)))
  }

  /** With a location given, exactly that location's row is returned. */
  lemma GetAtLocation(t: Table, key: string, l: string)
    requires IsLocation(l)
    ensures RowKey(key, l) in t ==> GetRow(t, key, Some(l)) == Ok(Found(t[RowKey(key, l)].name, Lines(t[RowKey(key, l)].info)))
    ensures RowKey(key, l) !in t ==> GetRow(t, key, Some(l)) == Err(MissingFactoid)
  {
  }

  /** Without a location a channel row shadows a protocol row, which
      shadows a global row. */
  lemma ChannelShadowsOthers(t: Table, key: string)
    requires RowKey(key, Channel) in t
    ensures GetRow(t, key, None) == GetRow(t, key, Some(Channel))
  {
  }

  lemma ProtocolShadowsGlobal(t: Table, key: string)
    requires RowKey(key, Channel) !in t && RowKey(key, Protocol) in t
    ensures GetRow(t, key, None) == GetRow(t, key, Some(Protocol))
  {
  }

  // ---------------------------------------------------------------------
  // The API: lower-casing, validation and permission before the table
  // ---------------------------------------------------------------------

  /** The permission oracle, asked for the caller and then, as a fallback,
      for the default group. */
  datatype Perms = Perms(caller: string -> bool, defaultGroup: string -> bool)

  /** `__check_perm`. */
  predicate Allowed(p: Perms, perm: string) {
    p.caller(perm) || p.defaultGroup(perm)
  }

  /** The permission guarding `verb` (add, set, delete, get) at a location. */
  function PermName(verb: string, l: string): string {
    "factoids." + verb + "." + l
  }

  /** A table left behind and the result or error delivered. */
  datatype Reply<T> = Reply(table: Table, result: Result<T, Error>)

  /** The checks every API function makes: validation of the (already
      lower-cased) location, then the permission `factoids.<verb>.<location>`. */
  function Admit(p: Perms, source: Source, verb: string, l: string): (r: Option<Error>)
    ensures r.None? <==> ValidLocation(l, source).None? && Allowed(p, PermName(verb, l))
    ensures ValidLocation(l, source).Some? ==> r == ValidLocation(l, source)
    ensures ValidLocation(l, source).None? && r.Some? ==> r == Some(NoPermission)
  {
    match ValidLocation(l, source)
    case Some(e) => Some(e)
    case None => if Allowed(p, PermName(verb, l)) then None else Some(NoPermission)
  }

  /** `add_factoid`: on success the table is `AddRow` under the lower-cased
      key and location, with the name as typed; on any error it is
      unchanged. */
  function AddFactoid(t: Table, p: Perms, source: Source, location: string, factoid: string, info: string): (r: Reply<bool>)
    ensures var l := Lower(location);
      && (r.result.Ok? <==> Admit(p, source, "add", l).None?)
      && (r.result.Err? ==> r.table == t && Some(r.result.error) == Admit(p, source, "add", l))
      && (r.result.Ok? ==> (r.table, r.result.value) == AddRow(t, Lower(factoid), l, factoid, info))
  {
    var l := Lower(location);
    match Admit(p, source, "add", l)
    case Some(e) => Reply(t, Err(e))
    case None =>
      var added := AddRow(t, Lower(factoid), l, factoid, info);
      Reply(added.0, Ok(added.1))
  }

  /** `set_factoid`. */
  function SetFactoid(t: Table, p: Perms, source: Source, location: string, factoid: string, info: string): (r: Reply<()>)
    ensures var l := Lower(location);
      && (r.result.Ok? <==> Admit(p, source, "set", l).None?)
      && (r.result.Err? ==> r.table == t && Some(r.result.error) == Admit(p, source, "set", l))
      && (r.result.Ok? ==> r.table == SetRow(t, Lower(factoid), l, factoid, info))
  {
    var l := Lower(location);
    match Admit(p, source, "set", l)
    case Some(e) => Reply(t, Err(e))
    case None => Reply(SetRow(t, Lower(factoid), l, factoid, info), Ok(()))
  }

  /** `delete_factoid`: a missing row is an error and changes nothing. */
  function DeleteFactoid(t: Table, p: Perms, source: Source, location: string, factoid: string): (r: Reply<()>)
    ensures var l := Lower(location);
      && (r.result.Ok? <==> Admit(p, source, "delete", l).None? && RowKey(Lower(factoid), l) in t)
      && (r.result.Err? ==> r.table == t)
      && (Admit(p, source, "delete", l).Some? ==> r.result.Err? && Some(r.result.error) == Admit(p, source, "delete", l))
      && (Admit(p, source, "delete", l).None? && r.result.Err? ==> r.result.error == MissingFactoid)
      && (r.result.Ok? ==> r.table == t - {RowKey(Lower(factoid), l)})
  {
    var l := Lower(location);
    match Admit(p, source, "delete", l)
    case Some(e) => Reply(t, Err(e))
    case None =>
      match DeleteRow(t, Lower(factoid), l)
      case Err(e) => Reply(t, Err(e))
      case Ok(t') => Reply(t', Ok(()))
  }

  /** `get_factoid`: no location means "any, by precedence" and is not
      validated; the permission asked for is then `factoids.get.None`. The
      table never changes. */
  function GetFactoid(t: Table, p: Perms, source: Source, location: Option<string>, factoid: string): (r: Reply<Found>)
    ensures r.table == t
    ensures location.None? ==>
      r.result == (if Allowed(p, PermName("get", "None")) then GetRow(t, Lower(factoid), None) else Err(NoPermission))
    ensures location.Some? ==> var l := Lower(location.value);
      && (Admit(p, source, "get", l).Some? ==> r.result.Err? && Some(r.result.error) == Admit(p, source, "get", l))
      && (Admit(p, source, "get", l).None? ==> r.result == GetRow(t, Lower(factoid), Some(l)))
  {
    match location
    case None =>
      if Allowed(p, PermName("get", "None")) then Reply(t, GetRow(t, Lower(factoid), None))
      else Reply(t, Err(NoPermission))
    case Some(loc) =>
      var l := Lower(loc);
      match Admit(p, source, "get", l)
      case Some(e) => Reply(t, Err(e))
      case None => Reply(t, GetRow(t, Lower(factoid), Some(l)))
  }

  /** The writing operations keep every key lower-cased and every location
      one of the three. */
  lemma ApiKeepsWellKeyed(t: Table, p: Perms, source: Source, location: string, factoid: string, info: string)
    requires WellKeyed(t)
    ensures WellKeyed(AddFactoid(t, p, source, location, factoid, info).table)
    ensures WellKeyed(SetFactoid(t, p, source, location, factoid, info).table)
    ensures WellKeyed(DeleteFactoid(t, p, source, location, factoid).table)
  {
    LowerIdempotent(factoid);
    LowerIdempotent(location);
  }

  /** What was added is what a lookup at that location shows: a new row
      under the name as typed, an existing one keeping its name and gaining
      the info as further lines. Factoid and location match in any case. */
  lemma AddThenGet(t: Table, p: Perms, source: Source, location: string, factoid: string, info: string,
                   factoid': string, location': string)
    requires AddFactoid(t, p, source, location, factoid, info).result.Ok?
    requires Lower(factoid') == Lower(factoid) && Lower(location') == Lower(location)
    requires Admit(p, source, "get", Lower(location)).None?
    ensures var k := RowKey(Lower(factoid), Lower(location));
      GetFactoid(AddFactoid(t, p, source, location, factoid, info).table, p, source, Some(location'), factoid').result
      == Ok(Found(if k in t then t[k].name else factoid,
                  (if k in t then Lines(t[k].info) else []) + Lines(info)))
  {
    var l := Lower(location);
    assert IsLocation(l);
  }

  /** A set row is what a lookup at its location shows, name as typed. */
  lemma SetThenGet(t: Table, p: Perms, source: Source, location: string, factoid: string, info: string)
    requires SetFactoid(t, p, source, location, factoid, info).result.Ok?
    requires Admit(p, source, "get", Lower(location)).None?
    ensures GetFactoid(SetFactoid(t, p, source, location, factoid, info).table, p, source, Some(location), factoid).result
      == Ok(Found(factoid, Lines(info)))
  {
    assert IsLocation(Lower(location));
  }

  /** A deleted row is no longer found at its location. */
  lemma DeleteThenGet(t: Table, p: Perms, source: Source, location: string, factoid: string)
    requires DeleteFactoid(t, p, source, location, factoid).result.Ok?
    requires Admit(p, source, "get", Lower(location)).None?
    ensures GetFactoid(DeleteFactoid(t, p, source, location, factoid).table, p, source, Some(location), factoid).result
      == Err(MissingFactoid)
  {
  }

  // ---------------------------------------------------------------------
  // The ?? message commands
  // ---------------------------------------------------------------------

  /** A message cut as `message_handler` cuts it: the text before the first
      space, then the stripped text up to the second space, then the
      stripped rest. */
  datatype Message = Message(command: string, factoid: string, args: string)

  function SplitMessage(msg: string): (m: Message)
    ensures ' ' !in m.command && m.command <= msg
    ensures |m.command| < |msg| ==> msg[|m.command|] == ' '
    ensures |m.command| == |msg| ==> m.factoid == [] && m.args == []
  {
    var pos := IndexOf(msg, ' ', 0);
    if pos < 0 then
      SpaceFree(msg);
      Message(msg, "", "")
    else
      CutAtSpace(msg, pos);
      var head := msg[..pos];
      var pos2 := IndexOf(msg, ' ', pos + 1);
      if pos2 < 0 then Message(head, Strip(msg[pos + 1..], IsSpace), "")
      else Message(head, Strip(msg[pos + 1..pos2], IsSpace), Strip(msg[pos2 + 1..], IsSpace))
  }

  /** A message `find` finds no space in has none. */
  lemma SpaceFree(msg: string)
    requires IndexOf(msg, ' ', 0) < 0
    ensures ' ' !in msg
  {
    forall j | 0 <= j < |msg| ensures msg[j] != ' ' {
    }
  }

  /** The text before the first space found holds no space, and is a
      prefix of the message followed by that space. */
  lemma CutAtSpace(msg: string, pos: int)
    requires pos == IndexOf(msg, ' ', 0) && pos >= 0
    ensures pos < |msg| && msg[pos] == ' '
    ensures ' ' !in msg[..pos] && msg[..pos] <= msg && |msg[..pos]| == pos
  {
    forall j | 0 <= j < pos ensures msg[..pos][j] != ' ' {
      assert msg[..pos][j] == msg[j];
    }
  }

  /** A command, a bare word and further text are cut back apart, the
      further text stripped of surrounding whitespace. */
  lemma SplitMessageOf(command: string, factoid: string, rest: string)
    requires ' ' !in command && ' ' !in factoid && NoSpace(factoid)
    ensures SplitMessage(command + " " + factoid + " " + rest) == Message(command, factoid, Strip(rest, IsSpace))
  {
    var msg := command + " " + factoid + " " + rest;
    var pos := |command|;
    assert msg[pos] == ' ' && forall j :: 0 <= j < pos ==> msg[j] == command[j];
    assert IndexOf(msg, ' ', 0) == pos;
    var pos2 := pos + 1 + |factoid|;
    assert msg[pos2] == ' ' && forall j :: pos + 1 <= j < pos2 ==> msg[j] == factoid[j - pos - 1];
    assert IndexOf(msg, ' ', pos + 1) == pos2;
    assert msg[..pos] == command && msg[pos + 1..pos2] == factoid && msg[pos2 + 1..] == rest;
    StripKeeps(factoid, IsSpace);
  }

  /** What a recognised message asks for. */
  datatype Request =
    | GetRequest(factoid: string)
    | AddRequest(factoid: string, info: string)
    | SetRequest(factoid: string, info: string)
    | DeleteRequest(factoid: string)
    | Usage(text: string)

  /** The four ?? commands. */
  predicate IsFactoidCommand(c: string) {
    c == "??" || c == "??+" || c == "??~" || c == "??-"
  }

  /** `message_handler` with the four `_message_handler_*` guards: usage
      when a needed part is empty, otherwise the request. The ??- guard is
      the one evidently intended (see `DispatchAsWritten`). */
  function Dispatch(m: Message): (r: Option<Request>)
    ensures r.Some? <==> IsFactoidCommand(m.command)
    ensures r.Some? && !r.value.Usage? ==> m.factoid != []
    ensures r.Some? && (r.value.AddRequest? || r.value.SetRequest?) ==> r.value.info == m.args && m.args != []
  {
    if m.command == "??" then
      Some(if m.factoid == [] then Usage("Usage: ?? <factoid>") else GetRequest(m.factoid))
    else if m.command == "??+" then
      Some(if m.factoid == [] || m.args == [] then Usage("Usage: ??+ <factoid> <info>") else AddRequest(m.factoid, m.args))
    else if m.command == "??~" then
      Some(if m.factoid == [] || m.args == [] then Usage("Usage: ??~ <factoid> <info>") else SetRequest(m.factoid, m.args))
    else if m.command == "??-" then
      Some(if m.factoid == [] then Usage("Usage: ??- <factoid>") else DeleteRequest(m.factoid))
    else None
  }

  /** The dispatcher as the source has it: the ??- guard tests the factoid
      for `None`, which it never is, so a bare `??-` asks to delete the
      empty-named factoid instead of printing usage. */
  function DispatchAsWritten(m: Message): (r: Option<Request>)
    ensures m.command != "??-" ==> r == Dispatch(m)
    ensures m.command == "??-" ==> r == Some(DeleteRequest(m.factoid))
  {
    if m.command == "??-" then Some(DeleteRequest(m.factoid)) else Dispatch(m)
  }

  /** The bare `??-` message: as written it becomes a deletion of the
      factoid named "", where usage was intended. */
  lemma BareDeleteAsWritten()
    ensures DispatchAsWritten(SplitMessage("??-")) == Some(DeleteRequest(""))
    ensures Dispatch(SplitMessage("??-")) == Some(Usage("Usage: ??- <factoid>"))
  {
    assert IndexOf("??-", ' ', 0) == -1;
  }

  /** The reply text of each error. */
  function FailText(e: Error): string {
    match e
    case InvalidLocation => "Invalid location given - possible locations are: channel, protocol, global"
    case InvalidMethod => "You must do that in a channel"
    case NoPermission => "You don't have permission to do that"
    case MissingFactoid => "That factoid doesn't exist"
  }

  /** `_factoid_get_command_success`: one `(name) line` reply per line. */
  function ShowLines(f: Found): (r: seq<string>)
    ensures |r| == |f.lines| && forall i :: 0 <= i < |r| ==> r[i] == "(" + f.name + ") " + f.lines[i]
  {
    seq(|f.lines|, i requires 0 <= i < |f.lines| => "(" + f.name + ") " + f.lines[i])
  }

  /** Carrying a request out, from the channel or query `target` the
      message arrived in: lookups use any location, changes the channel
      location. Returns the table and the replies. */
  function Perform(t: Table, p: Perms, target: Source, req: Request): (r: (Table, seq<string>))
    ensures req.GetRequest? || req.Usage? ==> r.0 == t
    ensures req.Usage? ==> r.1 == [req.text]
    ensures req.AddRequest? ==> r.0 == AddFactoid(t, p, target, Channel, req.factoid, req.info).table
    ensures req.SetRequest? ==> r.0 == SetFactoid(t, p, target, Channel, req.factoid, req.info).table
    ensures req.DeleteRequest? ==> r.0 == DeleteFactoid(t, p, target, Channel, req.factoid).table
  {
    match req
    case Usage(text) => (t, [text])
    case GetRequest(f) =>
      var g := GetFactoid(t, p, target, None, f);
      (t, if g.result.Ok? then ShowLines(g.result.value) else [FailText(g.result.error)])
    case AddRequest(f, info) =>
      var a := AddFactoid(t, p, target, Channel, f, info);
      (a.table, [if a.result.Ok? then "Factoid added" else FailText(a.result.error)])
    case SetRequest(f, info) =>
      var s := SetFactoid(t, p, target, Channel, f, info);
      (s.table, [if s.result.Ok? then "Factoid set" else FailText(s.result.error)])
    case DeleteRequest(f) =>
      var d := DeleteFactoid(t, p, target, Channel, f);
      (d.table, [if d.result.Ok? then "Factoid deleted" else FailText(d.result.error)])
  }

  /** `message_handler`: messages not starting with a ?? command are
      ignored entirely. */
  function HandleMessage(t: Table, p: Perms, target: Source, msg: string): (r: (Table, seq<string>))
    ensures !IsFactoidCommand(SplitMessage(msg).command) ==> r == (t, [])
  {
    match Dispatch(SplitMessage(msg))
    case None => (t, [])
    case Some(req) => Perform(t, p, target, req)
  }

  /** `??+ name info` in a channel, when allowed, appends `info` to the
      channel's factoid `name` (or creates it) and answers "Factoid added". */
  lemma AddByMessage(t: Table, p: Perms, name: string, info: string)
    requires name != [] && ' ' !in name && NoSpace(name)
    requires info != [] && !IsSpace(info[0]) && !IsSpace(info[|info| - 1])
    requires Allowed(p, PermName("add", Channel))
    ensures HandleMessage(t, p, ChannelSource, "??+ " + name + " " + info)
         == (AddRow(t, Lower(name), Channel, name, info).0, ["Factoid added"])
  {
    AddMessageParsed(name, info);
    AddInChannel(t, p, name, info);
    var msg := "??+ " + name + " " + info;
    assert HandleMessage(t, p, ChannelSource, msg) == Perform(t, p, ChannelSource, AddRequest(name, info));
  }

  lemma AddMessageParsed(name: string, info: string)
    requires name != [] && ' ' !in name && NoSpace(name)
    requires info != [] && !IsSpace(info[0]) && !IsSpace(info[|info| - 1])
    ensures Dispatch(SplitMessage("??+ " + name + " " + info)) == Some(AddRequest(name, info))
  {
    assert "??+ " + name + " " + info == "??+" + " " + name + " " + info;
    SplitMessageOf("??+", name, info);
    StripKeeps(info, IsSpace);
  }

  lemma AddInChannel(t: Table, p: Perms, name: string, info: string)
    requires Allowed(p, PermName("add", Channel))
    ensures var added := AddRow(t, Lower(name), Channel, name, info);
      AddFactoid(t, p, ChannelSource, Channel, name, info) == Reply(added.0, Ok(added.1))
  {
    LocationsLower();
    assert Admit(p, ChannelSource, "add", Channel).None?;
  }

  /** The channel location cannot be written from a private message. */
  lemma PrivateAddRefused(t: Table, p: Perms, name: string, info: string)
    ensures AddFactoid(t, p, PrivateSource, Channel, name, info) == Reply(t, Err(InvalidMethod))
  {
    LocationsLower();
  }
}
