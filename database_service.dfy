/** The MySQL database service without its I/O: how the server is chosen, how the
    connection string is assembled from configuration with defaults, how caller
    parameters are named on a stored-procedure command, and how the procedure's
    status output is read. */
module Database {
  import opened Runtime
  import opened Text
  import opened Seqs

  const ReleaseServer := "172.16.1.104"
  const DevelopmentServer := "localhost"
  const ReleaseNetworkPrefix := "172.16.1."

  const DefaultDatabase := "mtm_wip_application"
  const DefaultUserId := "root"
  const DefaultPassword := ""
  const DefaultPort := "3306"

  datatype AddressFamily = InterNetwork | InterNetworkV6 | OtherFamily
  /** A host address, as the DNS lookup lists it, with its textual form. */
  datatype HostAddress = HostAddress(family: AddressFamily, text: string)

  predicate IsIPv4(a: HostAddress) { a.family == InterNetwork }

  /** GetCurrentIPAddress: the first IPv4 address of the host entry, none when the
      lookup throws or lists no IPv4 address. */
  function CurrentIpAddress(lookup: Call<seq<HostAddress>>): (ip: Option<string>)
    ensures lookup.Threw? ==> ip.None?
    ensures lookup.Returned? ==>
      (ip.None? <==> forall j :: 0 <= j < |lookup.value| ==> !IsIPv4(lookup.value[j]))
    ensures ip.Some? ==> exists i :: 0 <= i < |lookup.value| && lookup.value[i].text == ip.value
                                    && IsIPv4(lookup.value[i])
                                    && forall j :: 0 <= j < i ==> !IsIPv4(lookup.value[j])
  {
    match lookup
    case Threw(_) => None
    case Returned(addresses) =>
      match FirstWhere(addresses, IsIPv4)
      case None => None
      case Some(a) => Some(a.text)
  }

  /** GetServerAddress: the release server exactly when the machine sits on its
      network, the local server otherwise (an unknown address included). */
  function ServerAddress(currentIp: Option<string>): (server: string)
    ensures server == ReleaseServer <==> currentIp.Some? && StartsWith(currentIp.value, ReleaseNetworkPrefix)
    ensures server != ReleaseServer ==> server == DevelopmentServer
  {
    if currentIp.Some? && StartsWith(currentIp.value, ReleaseNetworkPrefix) then ReleaseServer
    else DevelopmentServer
  }

  /** `configuration[key] ?? fallback`. */
  function Setting(config: map<string, string>, key: string, fallback: string): (v: string)
    ensures key in config ==> v == config[key]
    ensures key !in config ==> v == fallback
  {
    if key in config then config[key] else fallback
  }

  datatype ConnectionSettings = ConnectionSettings(
    server: string, database: string, userId: string, password: string, port: string)

  /** The settings BuildConnectionString reads. */
  function SettingsFor(currentIp: Option<string>, config: map<string, string>): (s: ConnectionSettings)
    ensures s.server == ServerAddress(currentIp)
    ensures s.database == Setting(config, "Database:Name", DefaultDatabase)
    ensures s.userId == Setting(config, "Database:UserId", DefaultUserId)
    ensures s.password == Setting(config, "Database:Password", DefaultPassword)
    ensures s.port == Setting(config, "Database:Port", DefaultPort)
  {
    ConnectionSettings(ServerAddress(currentIp),
                       Setting(config, "Database:Name", DefaultDatabase),
                       Setting(config, "Database:UserId", DefaultUserId),
                       Setting(config, "Database:Password", DefaultPassword),
                       Setting(config, "Database:Port", DefaultPort))
  }

  /** Each string followed by a semicolon. */
  function Terminated(fields: seq<string>): string
    decreases |fields|
  {
    if fields == [] then "" else fields[0] + ";" + Terminated(fields[1..])
  }

  /** The `key=value` pairs of a connection string, in order. */
  function SettingFields(s: ConnectionSettings): seq<string> {
    ["Server=" + s.server, "Database=" + s.database, "Uid=" + s.userId,
     "Pwd=" + s.password, "Port=" + s.port]
  }

  /** The connection string of some settings: each `key=value` pair closed by a semicolon. */
  function Render(s: ConnectionSettings): string {
    Terminated(SettingFields(s))
  }

  /** BuildConnectionString: `Server=…;Database=…;Uid=…;Pwd=…;Port=…;` over the
      chosen server and the configured values or their defaults. */
  function BuildConnectionString(currentIp: Option<string>, config: map<string, string>): (cs: string)
    ensures |Split(cs)| == 6 + ValueSemicolons(SettingsFor(currentIp, config))
    ensures Unambiguous(SettingsFor(currentIp, config))
            ==> ParseConnectionString(cs) == Some(SettingsFor(currentIp, config))
    ensures !Unambiguous(SettingsFor(currentIp, config)) ==> ParseConnectionString(cs) == None
  {
    var settings := SettingsFor(currentIp, config);
    RenderPieces(settings);
    if Unambiguous(settings) then RenderRoundTrip(settings); Render(settings)
    else Render(settings)
  }

  /** A string cut at every semicolon; the piece after the last one comes last. */
  function Split(s: string): (pieces: seq<string>)
    ensures |pieces| >= 1
    decreases |s|
  {
    if s == [] then [""]
    else if s[0] == ';' then [""] + Split(s[1..])
    else var rest := Split(s[1..]); [[s[0]] + rest[0]] + rest[1..]
  }

  predicate NoSemicolon(t: string) { forall i :: 0 <= i < |t| ==> t[i] != ';' }

  /** A piece without semicolons is split off whole. */
  lemma {:induction false} SplitPiece(piece: string, rest: string)
    requires NoSemicolon(piece)
    ensures Split(piece + ";" + rest) == [piece] + Split(rest)
    decreases |piece|
  {
    if piece == [] {
      assert piece + ";" + rest == [';'] + rest;
      assert ([';'] + rest)[1..] == rest;
    } else {
      var s := piece + ";" + rest;
      assert s[0] == piece[0] && s[1..] == piece[1..] + ";" + rest;
      SplitPiece(piece[1..], rest);
      assert [piece[0]] + piece[1..] == piece;
    }
  }

  /** Splitting undoes Terminated when no field holds a semicolon. */
  lemma {:induction false} SplitTerminated(fields: seq<string>)
    requires forall i :: 0 <= i < |fields| ==> NoSemicolon(fields[i])
    ensures Split(Terminated(fields)) == fields + [""]
    decreases |fields|
  {
    if fields != [] {
      SplitPiece(fields[0], Terminated(fields[1..]));
      SplitTerminated(fields[1..]);
      assert fields == [fields[0]] + fields[1..];
    }
  }

  /** The value of one `key=value` piece, when it has that key. */
  function ValueAfter(key: string, piece: string): (v: Option<string>)
    ensures v.Some? <==> StartsWith(piece, key + "=")
    ensures v.Some? ==> piece == key + "=" + v.value
  {
    if StartsWith(piece, key + "=") then Some(piece[|key| + 1..]) else None
  }

  /** Reads back a connection string in the layout Render produces. */
  function ParseConnectionString(cs: string): Option<ConnectionSettings> {
    var pieces := Split(cs);
    if |pieces| != 6 || pieces[5] != "" then None
    else match (ValueAfter("Server", pieces[0]), ValueAfter("Database", pieces[1]),
                ValueAfter("Uid", pieces[2]), ValueAfter("Pwd", pieces[3]), ValueAfter("Port", pieces[4]))
      case (Some(server), Some(database), Some(userId), Some(password), Some(port)) =>
        Some(ConnectionSettings(server, database, userId, password, port))
      case _ => None
  }

  predicate Unambiguous(s: ConnectionSettings) {
    NoSemicolon(s.server) && NoSemicolon(s.database) && NoSemicolon(s.userId)
    && NoSemicolon(s.password) && NoSemicolon(s.port)
  }

  lemma NoSemicolonPrefixed(prefix: string, t: string)
    requires NoSemicolon(prefix) && NoSemicolon(t)
    ensures NoSemicolon(prefix + t)
  {
    assert forall i :: 0 <= i < |prefix| ==> (prefix + t)[i] == prefix[i];
    assert forall i :: |prefix| <= i < |prefix + t| ==> (prefix + t)[i] == t[i - |prefix|];
  }

  lemma StripKey(key: string, value: string)
    ensures ValueAfter(key, key + "=" + value) == Some(value)
  {
    var piece := key + "=" + value;
    assert piece[..|key| + 1] == key + "=";
    assert piece[|key| + 1..] == value;
  }

  /** The number of semicolons in a string. */
  function Semicolons(t: string): nat
    decreases |t|
  {
    if t == [] then 0 else (if t[0] == ';' then 1 else 0) + Semicolons(t[1..])
  }

  lemma {:induction false} SemicolonsAppend(a: string, b: string)
    ensures Semicolons(a + b) == Semicolons(a) + Semicolons(b)
    decreases |a|
  {
    if a == [] {
      assert a + b == b;
    } else {
      assert (a + b)[0] == a[0] && (a + b)[1..] == a[1..] + b;
      SemicolonsAppend(a[1..], b);
    }
  }

  lemma {:induction false} NoSemicolonCount(t: string)
    ensures NoSemicolon(t) <==> Semicolons(t) == 0
    decreases |t|
  {
    if t != [] {
      NoSemicolonCount(t[1..]);
      assert forall i :: 1 <= i < |t| ==> t[1..][i - 1] == t[i];
    }
  }

  /** Splitting yields one piece more than there are semicolons. */
  lemma {:induction false} SplitCount(t: string)
    ensures |Split(t)| == Semicolons(t) + 1
    decreases |t|
  {
    if t != [] {
      SplitCount(t[1..]);
    }
  }

  /** The semicolons inside a list of fields. */
  function FieldSemicolons(fields: seq<string>): nat
    decreases |fields|
  {
    if fields == [] then 0 else Semicolons(fields[0]) + FieldSemicolons(fields[1..])
  }

  lemma {:induction false} TerminatedSemicolons(fields: seq<string>)
    ensures Semicolons(Terminated(fields)) == |fields| + FieldSemicolons(fields)
    decreases |fields|
  {
    if fields != [] {
      SemicolonsAppend(fields[0] + ";", Terminated(fields[1..]));
      SemicolonsAppend(fields[0], ";");
      TerminatedSemicolons(fields[1..]);
    }
  }

  /** The semicolons inside the five values. */
  function ValueSemicolons(s: ConnectionSettings): nat {
    Semicolons(s.server) + Semicolons(s.database) + Semicolons(s.userId)
    + Semicolons(s.password) + Semicolons(s.port)
  }

  lemma KeySemicolons(key: string, value: string)
    requires NoSemicolon(key)
    ensures Semicolons(key + value) == Semicolons(value)
  {
    SemicolonsAppend(key, value);
    NoSemicolonCount(key);
  }

  /** A rendered string splits into the five fields, the empty tail, and one more
      piece per semicolon inside a value; unambiguous exactly when there are none. */
  lemma RenderPieces(s: ConnectionSettings)
    ensures |Split(Render(s))| == 6 + ValueSemicolons(s)
    ensures Unambiguous(s) <==> ValueSemicolons(s) == 0
  {
    var fields := SettingFields(s);
    SplitCount(Render(s));
    TerminatedSemicolons(fields);
    KeySemicolons("Server=", s.server);
    KeySemicolons("Database=", s.database);
    KeySemicolons("Uid=", s.userId);
    KeySemicolons("Pwd=", s.password);
    KeySemicolons("Port=", s.port);
    assert fields[1..] == fields[1..5] && fields[1..][1..] == fields[2..5];
    assert fields[2..5][1..] == fields[3..5] && fields[3..5][1..] == fields[4..5];
    assert fields[4..5][1..] == [];
    assert FieldSemicolons(fields[4..5]) == Semicolons(fields[4]);
    assert FieldSemicolons(fields[3..5]) == Semicolons(fields[3]) + Semicolons(fields[4]);
    assert FieldSemicolons(fields[2..5]) == Semicolons(fields[2]) + FieldSemicolons(fields[3..5]);
    assert FieldSemicolons(fields[1..5]) == Semicolons(fields[1]) + FieldSemicolons(fields[2..5]);
    NoSemicolonCount(s.server);
    NoSemicolonCount(s.database);
    NoSemicolonCount(s.userId);
    NoSemicolonCount(s.password);
    NoSemicolonCount(s.port);
  }

  /** A password holding a semicolon: the built string no longer reads back. */
  lemma SemicolonPasswordUnreadable(currentIp: Option<string>)
    ensures ParseConnectionString(BuildConnectionString(currentIp, map["Database:Password" := "a;b"])) == None
  {
  }

  /** A connection string with no semicolon inside its values reads back as the
      settings it was built from. */
  lemma RenderRoundTrip(s: ConnectionSettings)
    requires Unambiguous(s)
    ensures ParseConnectionString(Render(s)) == Some(s)
  {
    var fields := SettingFields(s);
    NoSemicolonPrefixed("Server=", s.server);
    NoSemicolonPrefixed("Database=", s.database);
    NoSemicolonPrefixed("Uid=", s.userId);
    NoSemicolonPrefixed("Pwd=", s.password);
    NoSemicolonPrefixed("Port=", s.port);
    SplitTerminated(fields);
    StripKey("Server", s.server);
    StripKey("Database", s.database);
    StripKey("Uid", s.userId);
    StripKey("Pwd", s.password);
    StripKey("Port", s.port);
    assert "Server" + "=" + s.server == fields[0];
    assert "Database" + "=" + s.database == fields[1];
    assert "Uid" + "=" + s.userId == fields[2];
    assert "Pwd" + "=" + s.password == fields[3];
    assert "Port" + "=" + s.port == fields[4];
  }

  lemma DefaultsHaveNoSemicolon()
    ensures NoSemicolon(ReleaseServer) && NoSemicolon(DevelopmentServer)
    ensures NoSemicolon(DefaultDatabase) && NoSemicolon(DefaultUserId)
    ensures NoSemicolon(DefaultPassword) && NoSemicolon(DefaultPort)
  {
  }

  lemma SettingsUnambiguous(currentIp: Option<string>, config: map<string, string>)
    requires forall k :: k in config ==> NoSemicolon(config[k])
    ensures Unambiguous(SettingsFor(currentIp, config))
  {
    DefaultsHaveNoSemicolon();
  }

  /** The built connection string carries the chosen server and each configured value,
      or its default, in the fixed key order. */
  lemma ConnectionStringCarriesSettings(currentIp: Option<string>, config: map<string, string>)
    requires forall k :: k in config ==> NoSemicolon(config[k])
    ensures ParseConnectionString(BuildConnectionString(currentIp, config))
         == Some(ConnectionSettings(ServerAddress(currentIp),
                                    Setting(config, "Database:Name", DefaultDatabase),
                                    Setting(config, "Database:UserId", DefaultUserId),
                                    Setting(config, "Database:Password", DefaultPassword),
                                    Setting(config, "Database:Port", DefaultPort)))
  {
    SettingsUnambiguous(currentIp, config);
    RenderRoundTrip(SettingsFor(currentIp, config));
  }

  /** A value handed to MySQL. */
  datatype DbValue = DbNull | DbInt(i: int32) | DbText(t: string)
  datatype Direction = Input | Output
  datatype Parameter = Parameter(name: string, value: DbValue, direction: Direction)

  /** `$"p_{key}"`. */
  function ParameterName(key: string): (name: string)
    ensures |name| == |key| + 2 && name[..2] == "p_" && name[2..] == key
  {
    "p_" + key
  }

  /** Different keys give different parameter names. */
  lemma ParameterNameInjective(a: string, b: string)
    requires ParameterName(a) == ParameterName(b)
    ensures a == b
  {
    assert a == ParameterName(a)[2..];
  }

  /** `value ?? DBNull.Value`, where `None` is a null value. */
  function OrDbNull(value: Option<DbValue>): DbValue {
    if value.Some? then value.value else DbNull
  }

  /** The parameters AddWithValue attaches for the caller's entries, in enumeration
      order; a null dictionary attaches none. */
  function InputParameters(entries: Option<seq<(string, Option<DbValue>)>>): (r: seq<Parameter>)
    ensures entries.None? ==> r == []
    ensures entries.Some? ==> |r| == |entries.value|
    ensures entries.Some? ==> forall i :: 0 <= i < |r| ==>
      r[i] == Parameter(ParameterName(entries.value[i].0), OrDbNull(entries.value[i].1), Input)
  {
    if entries.None? then []
    else seq(|entries.value|, i requires 0 <= i < |entries.value| =>
               Parameter(ParameterName(entries.value[i].0), OrDbNull(entries.value[i].1), Input))
  }

  /** The two outputs ExecuteStoredProcedureAsync adds after the inputs. */
  const StatusParameters: seq<Parameter> :=
    [Parameter("p_Status", DbNull, Output), Parameter("p_ErrorMsg", DbNull, Output)]

  /** The keys of a dictionary, which its default comparer keeps distinct. */
  predicate DistinctEntryKeys(entries: seq<(string, Option<DbValue>)>) {
    forall i, j :: 0 <= i < j < |entries| ==> entries[i].0 != entries[j].0
  }

  /** Two names the parameter collection takes for the same parameter: its lookup
      ignores letter case. */
  predicate SameName(a: string, b: string) {
    Lower(a) == Lower(b)
  }

  predicate DistinctNames(ps: seq<Parameter>) {
    forall i, j :: 0 <= i < j < |ps| ==> !SameName(ps[i].name, ps[j].name)
  }

  /** The exception the parameter collection throws for a name it already holds. */
  function DuplicateParameter(name: string): Exception {
    Exception(Other("MySqlException"), "Parameter '" + name + "' has already been defined.")
  }

  /** Adding a parameter to a command: refused when a parameter of the same name,
      ignoring case, is already there, else appended. */
  function AddParameter(ps: seq<Parameter>, p: Parameter): (r: Call<seq<Parameter>>)
    ensures r.Returned? <==> forall j :: 0 <= j < |ps| ==> !SameName(ps[j].name, p.name)
    ensures r.Returned? ==> r.value == ps + [p]
    ensures r.Threw? ==> r.error == DuplicateParameter(p.name)
  {
    if exists j :: 0 <= j < |ps| && SameName(ps[j].name, p.name) then Threw(DuplicateParameter(p.name))
    else Returned(ps + [p])
  }

  /** Different keys, even ignoring case, give different parameter names ignoring case. */
  lemma ParameterNameSameName(a: string, b: string)
    requires SameName(ParameterName(a), ParameterName(b))
    ensures Lower(a) == Lower(b)
  {
    LowerAppend("p_", a);
    LowerAppend("p_", b);
    assert Lower(a) == Lower(ParameterName(a))[2..];
  }

  /** Keys that differ even ignoring case are attached under distinct names. */
  lemma InputNamesDistinct(entries: seq<(string, Option<DbValue>)>)
    requires forall i, j :: 0 <= i < j < |entries| ==> Lower(entries[i].0) != Lower(entries[j].0)
    ensures DistinctNames(InputParameters(Some(entries)))
  {
    var ps := InputParameters(Some(entries));
    forall i, j | 0 <= i < j < |ps|
      ensures !SameName(ps[i].name, ps[j].name)
    {
      if SameName(ps[i].name, ps[j].name) {
        ParameterNameSameName(entries[i].0, entries[j].0);
      }
    }
  }

  /** A dictionary may hold keys that differ only in case; their names clash. */
  lemma CaseVariantKeysCollide(a: string, b: string, va: Option<DbValue>, vb: Option<DbValue>)
    requires a != b && Lower(a) == Lower(b)
    ensures DistinctEntryKeys([(a, va), (b, vb)])
    ensures !DistinctNames(InputParameters(Some([(a, va), (b, vb)])))
  {
    LowerAppend("p_", a);
    LowerAppend("p_", b);
    var ps := InputParameters(Some([(a, va), (b, vb)]));
    assert SameName(ps[0].name, ps[1].name);
  }

  lemma LowerStatus()
    ensures Lower("Status") == "status"
  {
    var l := Lower("Status");
    assert l[0] == 's' && l[1] == 't' && l[2] == 'a' && l[3] == 't' && l[4] == 'u' && l[5] == 's';
  }

  /** A caller key "Status", in any case, is attached as "p_Status" under the name of
      the status output. */
  lemma StatusKeyCollides(key: string, value: Option<DbValue>)
    requires Lower(key) == "status"
    ensures !DistinctNames(InputParameters(Some([(key, value)])) + StatusParameters)
  {
    var ps := InputParameters(Some([(key, value)])) + StatusParameters;
    LowerAppend("p_", key);
    LowerAppend("p_", "Status");
    LowerStatus();
    assert SameName(ps[0].name, ps[1].name);
  }

  /** A pair of clashing names breaks distinctness. */
  lemma NameClashNotDistinct(ps: seq<Parameter>, j: nat, k: nat)
    requires j < k < |ps| && SameName(ps[j].name, ps[k].name)
    ensures !DistinctNames(ps)
  {
  }

  lemma DistinctNamesPrefix(ps: seq<Parameter>, qs: seq<Parameter>)
    requires DistinctNames(ps + qs)
    ensures DistinctNames(ps)
  {
    assert forall i :: 0 <= i < |ps| ==> (ps + qs)[i] == ps[i];
  }

  lemma DistinctNamesSnoc(ps: seq<Parameter>, p: Parameter)
    requires DistinctNames(ps)
    requires forall j :: 0 <= j < |ps| ==> !SameName(ps[j].name, p.name)
    ensures DistinctNames(ps + [p])
  {
    var qs := ps + [p];
    forall i, j | 0 <= i < j < |qs|
      ensures !SameName(qs[i].name, qs[j].name)
    {
      if j < |ps| {
        assert qs[i] == ps[i] && qs[j] == ps[j];
      } else {
        assert qs[i] == ps[i] && qs[j] == p;
      }
    }
  }

  /** Adding to a list of distinct names succeeds exactly when the result is distinct. */
  lemma AddParameterDistinct(ps: seq<Parameter>, p: Parameter)
    requires DistinctNames(ps)
    ensures AddParameter(ps, p).Returned? <==> DistinctNames(ps + [p])
  {
    if AddParameter(ps, p).Returned? {
      DistinctNamesSnoc(ps, p);
    } else {
      var j :| 0 <= j < |ps| && SameName(ps[j].name, p.name);
      assert (ps + [p])[j] == ps[j] && (ps + [p])[|ps|] == p;
      NameClashNotDistinct(ps + [p], j, |ps|);
    }
  }

  /** The loop over the caller's dictionary: each entry is added as `p_` + key, and
      the first clashing name ends it with the collection's exception. */
  method AttachInputs(entries: seq<(string, Option<DbValue>)>) returns (r: Call<seq<Parameter>>)
    ensures r.Returned? <==> DistinctNames(InputParameters(Some(entries)))
    ensures r.Returned? ==> r.value == InputParameters(Some(entries))
    ensures r.Threw? ==> r.error.kind == Other("MySqlException")
  {
    ghost var all := InputParameters(Some(entries));
    var parameters: seq<Parameter> := [];
    var i := 0;
    while i < |entries|
      invariant 0 <= i <= |entries|
      invariant parameters == all[..i]
      invariant DistinctNames(parameters)
    {
      var p := Parameter(ParameterName(entries[i].0), OrDbNull(entries[i].1), Input);
      assert all[..i + 1] == parameters + [p];
      AddParameterDistinct(parameters, p);
      var added := AddParameter(parameters, p);
      if added.Threw? {
        assert all == all[..i + 1] + all[i + 1..];
        if DistinctNames(all) {
          DistinctNamesPrefix(all[..i + 1], all[i + 1..]);
        }
        return added;
      }
      parameters := added.value;
      i := i + 1;
    }
    assert all[..i] == all;
    r := Returned(parameters);
  }

  /** The parameters of the three execute methods: the caller's entries, then for a
      stored procedure the two status outputs. Any clash, ignoring case, makes the
      command throw, and the execute method rethrows. */
  method AttachParameters(entries: Option<seq<(string, Option<DbValue>)>>, withStatusOutputs: bool)
    returns (r: Call<seq<Parameter>>)
    ensures var all := InputParameters(entries) + (if withStatusOutputs then StatusParameters else []);
      && (r.Returned? <==> DistinctNames(all))
      && (r.Returned? ==> r.value == all)
    ensures r.Threw? ==> r.error.kind == Other("MySqlException")
  {
    var es := if entries.Some? then entries.value else [];
    assert InputParameters(entries) == InputParameters(Some(es));
    ghost var inputs := InputParameters(Some(es));
    var added := AttachInputs(es);
    if added.Threw? {
      if withStatusOutputs && DistinctNames(inputs + StatusParameters) {
        DistinctNamesPrefix(inputs, StatusParameters);
      }
      assert inputs + [] == inputs;
      return added;
    }
    if !withStatusOutputs {
      assert inputs + [] == inputs;
      return added;
    }
    var ps := added.value;
    AddParameterDistinct(ps, StatusParameters[0]);
    var withStatus := AddParameter(ps, StatusParameters[0]);
    if withStatus.Threw? {
      assert inputs + StatusParameters == (ps + [StatusParameters[0]]) + [StatusParameters[1]];
      if DistinctNames(inputs + StatusParameters) {
        DistinctNamesPrefix(ps + [StatusParameters[0]], [StatusParameters[1]]);
      }
      return withStatus;
    }
    AddParameterDistinct(withStatus.value, StatusParameters[1]);
    assert withStatus.value + [StatusParameters[1]] == inputs + StatusParameters;
    r := AddParameter(withStatus.value, StatusParameters[1]);
  }

  /** What the stored-procedure call makes of its two outputs. */
  datatype StatusReport = StatusReport(status: int, errorMessage: string, warns: bool)

  /** Reading the two outputs after the call: a status that is not an integer, or
      null, reads as -1, and a message that is not a string reads as empty. A
      non-zero status is only logged as a warning, and the table is returned either way. */
  function CheckStatus(statusOut: DbValue, errorOut: DbValue): (r: StatusReport)
    ensures r.warns <==> r.status != 0
    ensures statusOut.DbInt? ==> r.status == statusOut.i
    ensures !statusOut.DbInt? ==> r.status == -1 && r.warns
    ensures r.errorMessage == if errorOut.DbText? then errorOut.t else ""
  {
    var status := if statusOut.DbInt? then statusOut.i else -1;
    var errorMessage := if errorOut.DbText? then errorOut.t else "";
    StatusReport(status, errorMessage, status != 0)
  }
}
