/** The command itself: configuration, the default bind DN, the split of the
    positional arguments, and the run of `main` from the usage check to the
    printed result. The directory server is reached only through the LDAP
    client library; the model takes the library's answers as a parameter and
    records the calls the program makes. */
module Goldap {
  import opened ByteStrings
  import opened Ldap
  import Format

  const DefaultHostname: Bytes := Ascii("ldap.puppetlabs.com")
  const DefaultPort: int := 389
  const DefaultSearchBase: Bytes := Ascii("dc=puppetlabs,dc=com")

  const BindDNPrefix: Bytes := Ascii("uid=")
  const BindDNSuffix: Bytes := Ascii(",ou=users,dc=puppetlabs,dc=com")

  /** The usage line, built in two pieces to keep the ASCII check of each literal small. */
  const UsageMessage: Bytes := Ascii("usage: goldap <query> ") + Ascii("[attribute attribute...]")

  // ---------------------------------------------------------------------
  // Configuration

  /** The two environment variables the program reads; an unset variable
      reads as the empty string. */
  datatype Environment = Environment(username: Bytes, password: Bytes)

  /** The options given on the command line, each absent or with its value. */
  datatype Flags = Flags(
    hostname: Option<Bytes>,
    port: Option<int>,
    searchBase: Option<Bytes>,
    userDN: Option<Bytes>,
    password: Option<Bytes>)

  datatype Config = Config(
    hostname: Bytes,
    port: int,
    searchBase: Bytes,
    bindDN: Bytes,
    password: Bytes)

  /** The bind DN used when no DN is given: the username templated into the
      users subtree. The username can be read back from it, so distinct
      usernames give distinct DNs; the empty username is no exception. */
  function DefaultBindDN(username: Bytes): (dn: Bytes)
    ensures |dn| == |username| + |BindDNPrefix| + |BindDNSuffix|
    ensures BindUsername(dn) == Some(username)
  {
    var dn := BindDNPrefix + username + BindDNSuffix;
    assert dn[..|BindDNPrefix|] == BindDNPrefix;
    assert dn[|dn| - |BindDNSuffix|..] == BindDNSuffix;
    assert dn[|BindDNPrefix|..|dn| - |BindDNSuffix|] == username;
    dn
  }

  /** The username of a DN of the default form, if it has that form. */
  function BindUsername(dn: Bytes): Option<Bytes> {
    if |dn| >= |BindDNPrefix| + |BindDNSuffix|
       && dn[..|BindDNPrefix|] == BindDNPrefix
       && dn[|dn| - |BindDNSuffix|..] == BindDNSuffix
    then Some(dn[|BindDNPrefix|..|dn| - |BindDNSuffix|])
    else None
  }

  /** Every DN of the default form is the default DN of the username read from it. */
  lemma BindUsernameInverse(dn: Bytes)
    requires BindUsername(dn).Some?
    ensures DefaultBindDN(BindUsername(dn).value) == dn
  {
  }

  /** Different usernames are bound as different users. */
  lemma DefaultBindDNInjective(u: Bytes, v: Bytes)
    requires u != v
    ensures DefaultBindDN(u) != DefaultBindDN(v)
  {
  }

  /** The configuration: built-in defaults and the environment, each overridden
      by its flag when the flag is given. The bind DN is the default one for
      the environment's username unless a DN flag is given. */
  function ResolveConfig(env: Environment, flags: Flags): (config: Config)
    ensures config.hostname == (if flags.hostname.Some? then flags.hostname.value else DefaultHostname)
    ensures config.port == (if flags.port.Some? then flags.port.value else DefaultPort)
    ensures config.searchBase == (if flags.searchBase.Some? then flags.searchBase.value else DefaultSearchBase)
    ensures flags.userDN.Some? ==> config.bindDN == flags.userDN.value
    ensures flags.userDN.None? ==> BindUsername(config.bindDN) == Some(env.username)
    ensures config.password == (if flags.password.Some? then flags.password.value else env.password)
  {
    Config(
      if flags.hostname.Some? then flags.hostname.value else DefaultHostname,
      if flags.port.Some? then flags.port.value else DefaultPort,
      if flags.searchBase.Some? then flags.searchBase.value else DefaultSearchBase,
      if flags.userDN.Some? then flags.userDN.value else DefaultBindDN(env.username),
      if flags.password.Some? then flags.password.value else env.password)
  }

  // ---------------------------------------------------------------------
  // Positional arguments

  /** A query filter and the attributes asked for (none means all of them). */
  datatype Invocation = Invocation(query: Bytes, desiredAttributes: seq<Bytes>)

  /** The positional arguments: nothing is a usage error; otherwise the first
      is the query and the others, in order, the desired attributes. */
  function SplitArgs(args: seq<Bytes>): (r: Option<Invocation>)
    ensures r.None? <==> |args| < 1
    ensures r.Some? ==> [r.value.query] + r.value.desiredAttributes == args
    ensures r.Some? ==> |r.value.desiredAttributes| == |args| - 1
  {
    if |args| < 1 then None
    else
      assert args == [args[0]] + args[1..];
      Some(Invocation(args[0], args[1..]))
  }

  // ---------------------------------------------------------------------
  // A run of the program

  /** The answer of one library call that can only succeed or fail. */
  datatype Reply = Accepted | Refused(error: Bytes)

  datatype SearchReply = Found(entries: seq<Entry>) | SearchFailed(error: Bytes)

  /** How the directory answers the program's calls, in the order they are made. */
  datatype Directory = Directory(dial: Reply, startTLS: Reply, bind: Reply, search: SearchReply)

  /** The library calls the program makes. */
  datatype Event =
    | Dialled(hostname: Bytes, port: int)
    | StartedTLS(serverName: Bytes, insecureSkipVerify: bool)
    | Bound(dn: Bytes, password: Bytes)
    | Searched(request: SearchRequest)
    | Closed

  /** How the process ends: normally, or by a fatal log message. */
  datatype Exit = Success | Fatal(message: Bytes)

  datatype Run = Run(events: seq<Event>, stdout: seq<Bytes>, exit: Exit)

  /** The request the program sends for a query. */
  function RequestFor(config: Config, invocation: Invocation): SearchRequest {
    SearchRequest(config.searchBase, WholeSubtree, NeverDerefAliases, 0, 0, false,
                  invocation.query, invocation.desiredAttributes)
  }

  /** `main` after flag parsing. Every stage stops the run at its first error,
      with nothing printed; the connection is closed only when the run
      completes, since a fatal log message exits before deferred calls run. */
  method Execute(config: Config, args: seq<Bytes>, directory: Directory) returns (run: Run)
    // the usage error comes before any connection is attempted
    ensures run.events == [] <==> |args| < 1
    ensures |args| < 1 ==> run == Run([], [], Fatal(UsageMessage))
    // the calls, in order, each made only when the previous one succeeded
    ensures |args| >= 1 ==> run.events[0] == Dialled(config.hostname, config.port)
    ensures |args| >= 1 && directory.dial.Refused? ==>
      run == Run([Dialled(config.hostname, config.port)], [], Fatal(directory.dial.error))
    ensures |args| >= 1 && directory.dial.Accepted? ==>
      |run.events| >= 2 && run.events[1] == StartedTLS(config.hostname, false)
    ensures |args| >= 1 && directory.dial.Accepted? && directory.startTLS.Refused? ==>
      |run.events| == 2 && run.exit == Fatal(directory.startTLS.error)
    ensures |args| >= 1 && directory.dial.Accepted? && directory.startTLS.Accepted? ==>
      |run.events| >= 3 && run.events[2] == Bound(config.bindDN, config.password)
    ensures |args| >= 1 && directory.dial.Accepted? && directory.startTLS.Accepted? && directory.bind.Refused? ==>
      |run.events| == 3 && run.exit == Fatal(directory.bind.error)
    ensures |args| >= 1 && directory.dial.Accepted? && directory.startTLS.Accepted? && directory.bind.Accepted? ==>
      |run.events| >= 4 && run.events[3] == Searched(RequestFor(config, Invocation(args[0], args[1..])))
    ensures |args| >= 1 && directory.dial.Accepted? && directory.startTLS.Accepted? && directory.bind.Accepted?
            && directory.search.SearchFailed? ==>
      |run.events| == 4 && run.exit == Fatal(directory.search.error)
    // success: the results are printed and the connection closed
    ensures run.exit == Success <==>
      |args| >= 1 && directory.dial.Accepted? && directory.startTLS.Accepted? && directory.bind.Accepted?
      && directory.search.Found?
    ensures run.exit == Success ==>
      |run.events| == 5 && run.events[4] == Closed && run.stdout == Format.OutputLines(directory.search.entries)
    // a failed run prints nothing and never closes the connection
    ensures run.exit.Fatal? ==> run.stdout == [] && Closed !in run.events
  {
    var invocation := SplitArgs(args);
    if invocation.None? {
      return Run([], [], Fatal(UsageMessage));
    }

    var events := [Dialled(config.hostname, config.port)];
    if directory.dial.Refused? {
      return Run(events, [], Fatal(directory.dial.error));
    }

    events := events + [StartedTLS(config.hostname, false)];
    if directory.startTLS.Refused? {
      return Run(events, [], Fatal(directory.startTLS.error));
    }

    events := events + [Bound(config.bindDN, config.password)];
    if directory.bind.Refused? {
      return Run(events, [], Fatal(directory.bind.error));
    }

    var request := RequestFor(config, invocation.value);
    events := events + [Searched(request)];
    if directory.search.SearchFailed? {
      return Run(events, [], Fatal(directory.search.error));
    }

    var stdout := Format.PrintResults(directory.search.entries);
    events := events + [Closed];
    return Run(events, stdout, Success);
  }
}
