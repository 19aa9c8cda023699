/** Instance construction (`newDataSourceInstance`): decode the datasource
    options, look up the password and build the driver's connection string. */
module Instance {
  import opened Wrappers

  /** `myDataSourceOptions`, the unsecured JSON settings. */
  datatype DataSourceOptions = DataSourceOptions(host: string, port: string, database: string, user: string)

  /** What the instance factory is handed: the datasource name, the outcome of
      decoding its JSON settings, and the decrypted secure settings. */
  datatype DataSourceInstanceSettings = DataSourceInstanceSettings(
    name: string,
    jsonData: Result<DataSourceOptions, string>,
    decryptedSecureJsonData: map<string, string>)

  /** `instanceSettings`, without the pool handle created for each instance. */
  datatype InstanceSettings = InstanceSettings(constr: string, name: string)

  /** The five values a connection string carries, in the order it carries them. */
  datatype ConnectionParams = ConnectionParams(host: string, port: string, database: string, user: string, password: string)

  const PASSWORD_KEY: string := "password"

  /** The secure `password` entry; a missing entry reads as the empty string. */
  function Password(secure: map<string, string>): string {
    if PASSWORD_KEY in secure then secure[PASSWORD_KEY] else ""
  }

  /** The `HOSTNAME=...;PORT=...;DATABASE=...;UID=...;PWD=...` string. */
  function ConnectionString(o: DataSourceOptions, password: string): string {
    "HOSTNAME=" + o.host + ";PORT=" + o.port + ";DATABASE=" + o.database + ";UID=" + o.user + ";PWD=" + password
  }

  /** `newDataSourceInstance`: malformed options give the decode error and no
      instance; otherwise the instance keeps the datasource name and a
      connection string from which the five values can be read back, in
      order, whenever none of them contains the separator `;`. */
  function NewDataSourceInstance(s: DataSourceInstanceSettings): (r: Result<InstanceSettings, string>)
    ensures r.Failure? <==> s.jsonData.Failure?
    ensures s.jsonData.Failure? ==> r.error == s.jsonData.error
    ensures r.Success? ==> r.value.name == s.name
    ensures r.Success? ==> r.value.constr == ConnectionString(s.jsonData.value, Password(s.decryptedSecureJsonData))
    ensures r.Success? ==> var o := s.jsonData.value;
      Separable(o, Password(s.decryptedSecureJsonData)) ==>
        ParseConnectionString(r.value.constr)
          == Some(ConnectionParams(o.host, o.port, o.database, o.user, Password(s.decryptedSecureJsonData)))
  {
    match s.jsonData
    case Failure(e) => Failure(e)
    case Success(o) =>
      var password := Password(s.decryptedSecureJsonData);
      ConnectionStringRoundTrip(o, password);
      Success(InstanceSettings(ConnectionString(o, password), s.name))
  }

  /** None of the values contains the separator. */
  predicate Separable(o: DataSourceOptions, password: string) {
    ';' !in o.host && ';' !in o.port && ';' !in o.database && ';' !in o.user && ';' !in password
  }

  /** The `;`-separated segments of s, in order. */
  function Split(s: string): (parts: seq<string>)
    ensures |parts| >= 1
  {
    if s == [] then [""]
    else if s[0] == ';' then [""] + Split(s[1..])
    else var rest := Split(s[1..]); [[s[0]] + rest[0]] + rest[1..]
  }

  /** The value after `key` when `part` starts with it. */
  function ValueOf(part: string, key: string): Option<string> {
    if key <= part then Some(part[|key|..]) else None
  }

  /** Reads a connection string back into its five values: exactly five
      `;`-separated segments with the keys in the builder's order. */
  function ParseConnectionString(s: string): Option<ConnectionParams> {
    var parts := Split(s);
    if |parts| != 5 then None
    else
      match (ValueOf(parts[0], "HOSTNAME="), ValueOf(parts[1], "PORT="), ValueOf(parts[2], "DATABASE="),
             ValueOf(parts[3], "UID="), ValueOf(parts[4], "PWD="))
      case (Some(h), Some(p), Some(d), Some(u), Some(pw)) => Some(ConnectionParams(h, p, d, u, pw))
      case _ => None
  }

  /** A segment free of `;` splits off whole in front of the rest. */
  lemma {:induction false} SplitSegment(a: string, b: string)
    requires ';' !in a
    ensures Split(a + ";" + b) == [a] + Split(b)
  {
    if a == [] {
      assert a + ";" + b == [';'] + b;
      assert (a + ";" + b)[1..] == b;
    } else {
      var s := a + ";" + b;
      assert s[0] == a[0] && s[0] != ';';
      assert s[1..] == a[1..] + ";" + b;
      SplitSegment(a[1..], b);
      assert [a[0]] + a[1..] == a;
    }
  }

  /** A string free of `;` is a single segment. */
  lemma {:induction false} SplitWhole(a: string)
    requires ';' !in a
    ensures Split(a) == [a]
  {
    if a != [] {
      SplitWhole(a[1..]);
      assert [a[0]] + a[1..] == a;
    }
  }

  /** The five `key=value` segments of a connection string, in order. */
  function Segments(o: DataSourceOptions, password: string): seq<string> {
    ["HOSTNAME=" + o.host, "PORT=" + o.port, "DATABASE=" + o.database, "UID=" + o.user, "PWD=" + password]
  }

  /** The connection string is its segments joined by `;`. */
  lemma ConnectionStringJoins(o: DataSourceOptions, password: string)
    ensures var g := Segments(o, password);
      ConnectionString(o, password) == g[0] + ";" + (g[1] + ";" + (g[2] + ";" + (g[3] + ";" + g[4])))
  {
  }

  /** Splitting a connection string on `;` gives back its five segments when no value contains `;`. */
  lemma SplitConnectionString(o: DataSourceOptions, password: string)
    requires Separable(o, password)
    ensures Split(ConnectionString(o, password)) == Segments(o, password)
  {
    var g := Segments(o, password);
    ConnectionStringJoins(o, password);
    SplitWhole(g[4]);
    SplitSegment(g[3], g[4]);
    SplitSegment(g[2], g[3] + ";" + g[4]);
    SplitSegment(g[1], g[2] + ";" + (g[3] + ";" + g[4]));
    SplitSegment(g[0], g[1] + ";" + (g[2] + ";" + (g[3] + ";" + g[4])));
  }

  /** Reading a built connection string back gives the values it was built
      from, whenever none of them contains `;`. */
  lemma ConnectionStringRoundTrip(o: DataSourceOptions, password: string)
    ensures Separable(o, password) ==>
      ParseConnectionString(ConnectionString(o, password))
        == Some(ConnectionParams(o.host, o.port, o.database, o.user, password))
  {
    if Separable(o, password) {
      SplitConnectionString(o, password);
      var g := Segments(o, password);
      assert ValueOf(g[0], "HOSTNAME=") == Some(o.host);
      assert ValueOf(g[1], "PORT=") == Some(o.port);
      assert ValueOf(g[2], "DATABASE=") == Some(o.database);
      assert ValueOf(g[3], "UID=") == Some(o.user);
      assert ValueOf(g[4], "PWD=") == Some(password);
    }
  }

  /** A datasource without a stored password gets an empty `PWD=` value at the end. */
  lemma MissingPasswordGivesEmptyPwd(s: DataSourceInstanceSettings)
    requires s.jsonData.Success? && PASSWORD_KEY !in s.decryptedSecureJsonData
    ensures var constr := NewDataSourceInstance(s).value.constr;
      |constr| >= 5 && constr[|constr| - 5..] == ";PWD="
  {
  }

  /** The builder reproduces the driver's grammar literally. */
  lemma ConnectionStringExample()
    ensures ConnectionString(DataSourceOptions("h", "5432", "d", "u"), "secret")
         == "HOSTNAME=h;PORT=5432;DATABASE=d;UID=u;PWD=secret"
  {
  }
}
