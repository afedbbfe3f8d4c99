/** The `ws` command (main.go): option defaults, the exit decisions of `root`,
    the Origin header it derives, and the fan-out of one session per
    (round, parameter) pair.

    `url.Parse`, `URL.String` and `fmt.Sprintf` are library code whose
    internals are not part of this model; they are passed in as functions. */
module Command {
  import opened GoValues
  import Connection

  const Version: GoString := "0.2.1"

  /** The flag values `root` reads (main.go:15-22). */
  datatype Options = Options(
    origin: GoString,
    printVersion: bool,
    insecure: bool,
    readOnly: bool,
    numberOfConcurrency: int,
    queryParams: seq<GoString>)

  /** The flag defaults registered in `main` (main.go:30-35). */
  const DefaultOptions: Options := Options("", false, false, false, 1, ["genba00"])

  /** The parts of a parsed `url.URL` the command touches. */
  datatype URL = URL(
    scheme: GoString,
    opaquePart: GoString,
    user: GoString,
    host: GoString,
    path: GoString,
    rawQuery: GoString,
    fragment: GoString)

  /** The Origin derived from the destination (main.go:62-68): a copy of the
      parsed URL with only the scheme rewritten. */
  function DeriveOrigin(dest: URL): (o: URL)
    ensures o.scheme == "https" <==> dest.scheme == "wss"
    ensures o.scheme == "http" <==> dest.scheme != "wss"
    ensures o.(scheme := dest.scheme) == dest
  {
    dest.(scheme := if dest.scheme == "wss" then "https" else "http")
  }

  /** The Origin header value (main.go:58-69): a non-empty `--origin` wins,
      otherwise the derived URL rendered by `show`. */
  function ChooseOrigin(override: GoString, dest: URL, show: URL -> GoString): (origin: GoString)
    ensures override != "" ==> origin == override
    ensures override == "" ==>
              exists o :: origin == show(o) && o.(scheme := dest.scheme) == dest &&
                          (o.scheme == "https" <==> dest.scheme == "wss") &&
                          (o.scheme == "http" <==> dest.scheme != "wss")
  {
    if override != "" then override
    else
      var o := DeriveOrigin(dest);
      show(o)
  }

  /** What one spawned session is given by `root` (main.go:75-78). */
  datatype Target = Target(url: GoString, origin: GoString, insecure: bool, readOnly: bool)

  /** One `go func` of the nested loop: its outer round, its parameter and
      its target. */
  datatype Launch = Launch(round: nat, param: GoString, target: Target)

  /** The launches of round `n`, one per parameter in list order. */
  function Round(n: nat, params: seq<GoString>, mk: GoString -> Target): (row: seq<Launch>)
    ensures |row| == |params|
    ensures forall j :: 0 <= j < |params| ==> row[j] == Launch(n, params[j], mk(params[j]))
  {
    seq(|params|, j requires 0 <= j < |params| => Launch(n, params[j], mk(params[j])))
  }

  /** The nested loop of `root` (main.go:72-84): rounds `0 .. n-1` outside,
      parameters in list order inside. A non-positive `n` launches nothing. */
  function Fanout(n: int, params: seq<GoString>, mk: GoString -> Target): (launches: seq<Launch>)
    ensures |launches| == Max0(n) * |params|
    ensures forall k :: 0 <= k < |launches| ==>
              && launches[k].round == k / |params|
              && launches[k].param == params[k % |params|]
              && launches[k].target == mk(params[k % |params|])
    decreases n
  {
    if n <= 0 then []
    else
      var before := Fanout(n - 1, params, mk);
      var row := Round(n - 1, params, mk);
      var all := before + row;
      assert forall k :: |before| <= k < |all| ==> all[k] == row[k - |before|];
      forall k | |before| <= k < |all|
        ensures k / |params| == n - 1 && k % |params| == k - |before|
      {
        DivModOf(k, |params|, n - 1, k - |before|);
      }
      all
  }

  /** Why `root` ended the process, or the sessions it launched. */
  datatype RootOutcome =
    | VersionPrinted(line: GoString) // `--version`: exit 0
    | UsageShown                     // wrong argument count: help, exit 1
    | BadURL(err: Error)             // `url.Parse` failed: exit 1
    | Sessions(launches: seq<Launch>)

  /** `root` (main.go:40-86) up to the launch of the sessions. */
  function Root(opts: Options, args: seq<GoString>, parse: GoString -> Result<URL>,
                show: URL -> GoString, sprintf: (GoString, GoString) -> GoString): (r: RootOutcome)
    ensures opts.printVersion <==> r.VersionPrinted?
    ensures r.VersionPrinted? ==> r.line == "ws v" + Version + "\n"
    ensures r.UsageShown? <==> !opts.printVersion && |args| != 1
    ensures r.BadURL? <==> !opts.printVersion && |args| == 1 && parse(args[0]).Err?
    ensures r.BadURL? ==> r.err == parse(args[0]).error
    ensures r.Sessions? ==>
              && |args| == 1 && parse(args[0]).Ok?
              && |r.launches| == Max0(opts.numberOfConcurrency) * |opts.queryParams|
              && (forall k :: 0 <= k < |r.launches| ==>
                    r.launches[k].round == k / |opts.queryParams| &&
                    r.launches[k].param == opts.queryParams[k % |opts.queryParams|])
              && forall l :: l in r.launches ==>
                   && l.param in opts.queryParams
                   && l.target.url == sprintf(show(parse(args[0]).value), l.param)
                   && l.target.origin == ChooseOrigin(opts.origin, parse(args[0]).value, show)
                   && l.target.insecure == opts.insecure
                   && l.target.readOnly == opts.readOnly
  {
    if opts.printVersion then VersionPrinted("ws v" + Version + "\n")
    else if |args| != 1 then UsageShown
    else match parse(args[0])
      case Err(e) => BadURL(e)
      case Ok(dest) =>
        var destURLString := show(dest);
        var origin := ChooseOrigin(opts.origin, dest, show);
        var mk := (param: GoString) => Target(sprintf(destURLString, param), origin, opts.insecure, opts.readOnly);
        var launches := Fanout(opts.numberOfConcurrency, opts.queryParams, mk);
        assert forall l :: l in launches ==> l.param in opts.queryParams && l.target == mk(l.param) by {
          forall l | l in launches
            ensures l.param in opts.queryParams && l.target == mk(l.param)
          {
            var k :| 0 <= k < |launches| && launches[k] == l;
          }
        }
        Sessions(launches)
  }

  /** How the process ends: its exit code and the errors printed to standard
      error by the sessions, each session's own result in launch order. In
      Go every session assigns and then prints the one shared `err`
      (main.go:51, 78-80), so a session may print another session's error
      and lose its own; the model does not reproduce that race. */
  datatype ProcessEnd = ProcessEnd(exitCode: int, sessionErrors: seq<Error>)

  /** The errors `root` prints for the sessions whose `connect` returned a
      non-nil error (main.go:78-81); `results[k]` is what session `k`
      returned, `None` for a session that has not returned; `Process` uses
      this only once every session has returned. */
  function SessionErrors(results: seq<Option<Error>>): (errs: seq<Error>)
    ensures |errs| <= |results|
    ensures (forall k :: 0 <= k < |results| ==> results[k].Some?) ==>
              |errs| == |results| && forall k :: 0 <= k < |results| ==> errs[k] == results[k].value
    ensures (forall k :: 0 <= k < |results| ==> results[k].None?) ==> errs == []
    ensures forall e :: e in errs ==> Some(e) in results
  {
    if |results| == 0 then []
    else
      var rest := SessionErrors(results[1..]);
      assert forall k :: 0 <= k < |results| - 1 ==> results[1..][k] == results[k + 1];
      assert forall x :: x in results[1..] ==> x in results;
      match results[0]
      case Some(e) => [e] + rest
      case None => rest
  }

  /** What each launched session did; session `k` runs `connect` in the
      environment `env(k)`, so sessions with equal targets can still differ. */
  function Runs(launches: seq<Launch>, env: nat -> Connection.SessionEnv): (runs: seq<Connection.SessionRun>)
    ensures |runs| == |launches|
    ensures forall k :: 0 <= k < |launches| ==> runs[k] == Connection.Connect(launches[k].target.readOnly, env(k))
  {
    seq(|launches|, k requires 0 <= k < |launches| => Connection.Connect(launches[k].target.readOnly, env(k)))
  }

  /** Every session has returned from `connect`. */
  predicate AllReturned(runs: seq<Connection.SessionRun>) {
    forall k :: 0 <= k < |runs| ==> runs[k].result.Some?
  }

  function Results(runs: seq<Connection.SessionRun>): (results: seq<Option<Error>>)
    ensures |results| == |runs|
    ensures forall k :: 0 <= k < |runs| ==> results[k] == runs[k].result
  {
    seq(|runs|, k requires 0 <= k < |runs| => runs[k].result)
  }

  /** The whole process: `root`, then one `connect` per launch and
      `wg.Wait()` for all of them (main.go:40-86). `None` means the process
      has not exited: some launched session has not returned yet. */
  function Process(opts: Options, args: seq<GoString>, parse: GoString -> Result<URL>,
                   show: URL -> GoString, sprintf: (GoString, GoString) -> GoString,
                   env: nat -> Connection.SessionEnv): (p: Option<ProcessEnd>)
    ensures opts.printVersion ==> p == Some(ProcessEnd(0, []))
    ensures !opts.printVersion && (|args| != 1 || parse(args[0]).Err?) ==> p == Some(ProcessEnd(1, []))
    ensures p.Some? && p.value.exitCode == 1 <==> !opts.printVersion && (|args| != 1 || parse(args[0]).Err?)
    ensures var r := Root(opts, args, parse, show, sprintf);
            r.Sessions? ==>
              var runs := Runs(r.launches, env);
              && (p.Some? <==> AllReturned(runs))
              && (p.Some? ==>
                    && p.value.exitCode == 0
                    && |p.value.sessionErrors| == |r.launches|
                    && forall k :: 0 <= k < |r.launches| ==> Some(p.value.sessionErrors[k]) == runs[k].result)
  {
    match Root(opts, args, parse, show, sprintf)
    case VersionPrinted(_) => Some(ProcessEnd(0, []))
    case UsageShown => Some(ProcessEnd(1, []))
    case BadURL(_) => Some(ProcessEnd(1, []))
    case Sessions(launches) =>
      var runs := Runs(launches, env);
      if AllReturned(runs) then Some(ProcessEnd(0, SessionErrors(Results(runs)))) else None
  }

  /** Session failures never change the exit code: whatever the sessions
      return, once all have returned the process exits with the same code. */
  lemma SessionFailuresDoNotChangeExit(opts: Options, args: seq<GoString>, parse: GoString -> Result<URL>,
                                       show: URL -> GoString, sprintf: (GoString, GoString) -> GoString,
                                       env1: nat -> Connection.SessionEnv, env2: nat -> Connection.SessionEnv)
    requires Process(opts, args, parse, show, sprintf, env1).Some?
    requires Process(opts, args, parse, show, sprintf, env2).Some?
    ensures Process(opts, args, parse, show, sprintf, env1).value.exitCode ==
            Process(opts, args, parse, show, sprintf, env2).value.exitCode
  {
  }

  /** Session `k` whose dial fails returns that error at once and sends
      nothing; once all sessions have returned, the process prints it as
      session `k`'s error and still exits 0. */
  lemma DialFailureIsReportedOnly(opts: Options, args: seq<GoString>, parse: GoString -> Result<URL>,
                                  show: URL -> GoString, sprintf: (GoString, GoString) -> GoString,
                                  env: nat -> Connection.SessionEnv, k: nat)
    requires !opts.printVersion && |args| == 1 && parse(args[0]).Ok?
    requires env(k).dialError.Some?
    ensures Root(opts, args, parse, show, sprintf).Sessions?
    ensures var launches := Root(opts, args, parse, show, sprintf).launches;
            var p := Process(opts, args, parse, show, sprintf, env);
            k < |launches| ==>
              && Connection.Connect(launches[k].target.readOnly, env(k)) == Connection.SessionRun([], [], env(k).dialError)
              && (p.Some? ==> p.value.exitCode == 0 && p.value.sessionErrors[k] == env(k).dialError.value)
  {
  }

  /** If every session's dial fails, the process does not wait on any pump:
      it exits 0 having printed each session's dial error in turn. */
  lemma AllDialsFailing(opts: Options, args: seq<GoString>, parse: GoString -> Result<URL>,
                        show: URL -> GoString, sprintf: (GoString, GoString) -> GoString,
                        env: nat -> Connection.SessionEnv)
    requires !opts.printVersion && |args| == 1 && parse(args[0]).Ok?
    requires forall k: nat :: env(k).dialError.Some?
    ensures var launches := Root(opts, args, parse, show, sprintf).launches;
            var p := Process(opts, args, parse, show, sprintf, env);
            && p.Some? && p.value.exitCode == 0
            && |p.value.sessionErrors| == |launches|
            && forall k :: 0 <= k < |launches| ==> p.value.sessionErrors[k] == env(k).dialError.value
  {
  }

  /** With `--readonly`, no launched session writes a message. */
  lemma ReadOnlyWritesNothing(opts: Options, args: seq<GoString>, parse: GoString -> Result<URL>,
                              show: URL -> GoString, sprintf: (GoString, GoString) -> GoString,
                              env: nat -> Connection.SessionEnv)
    requires opts.readOnly
    ensures var r := Root(opts, args, parse, show, sprintf);
            r.Sessions? ==> forall k :: 0 <= k < |r.launches| ==> Runs(r.launches, env)[k].sent == []
  {
  }

  /** With the default flags, one URL that parses launches exactly one session
      for the parameter "genba00". */
  lemma DefaultsLaunchOneSession(url: GoString, parse: GoString -> Result<URL>,
                                 show: URL -> GoString, sprintf: (GoString, GoString) -> GoString)
    requires parse(url).Ok?
    ensures var r := Root(DefaultOptions, [url], parse, show, sprintf);
            r.Sessions? && |r.launches| == 1 && r.launches[0].param == "genba00" &&
            r.launches[0].round == 0 && !r.launches[0].target.readOnly && !r.launches[0].target.insecure
  {
  }

  /** Example: `ws://host/path` without `--origin` gets the origin URL
      `http://host/path`, path kept. */
  lemma PlainSchemeOrigin(host: GoString, path: GoString)
    ensures var dest := URL("ws", "", "", host, path, "", "");
            DeriveOrigin(dest) == URL("http", "", "", host, path, "", "")
  {
  }
}
