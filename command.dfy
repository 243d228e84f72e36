/**
  The `spark-submit` command line that `spark_submit` launches, and a reading
  of that command line by the subset of `spark-submit`'s option grammar it
  uses, so that what the launched program receives can be stated.
 */
module Command {
  import opened Wrappers
  import opened Events
  import opened Environment

  /** Where the downloaded Spark script is kept. */
  const ScriptPath: string := "/tmp/spark_script.py"

  const DriverExtraJavaOptions: string := "spark.driver.extraJavaOptions"
  const ExecutorExtraJavaOptions: string := "spark.executor.extraJavaOptions"

  /**
    The argument list passed to the subprocess. `dumps` stands for
    `json.dumps`, whose serialisation is not modelled.
   */
  function SubmitCommand(event: Event, dumps: Event -> string): (cmd: seq<string>)
    ensures |cmd| == 10
    ensures cmd[9] == dumps(event)
  {
    [
      "spark-submit",
      "--driver-java-options", Shim,
      "--conf", DriverExtraJavaOptions + "=" + Shim,
      "--conf", ExecutorExtraJavaOptions + "=" + Shim,
      ScriptPath,
      "--event", dumps(event)
    ]
  }

  /** What `spark-submit` makes of its arguments. */
  datatype Submission = Submission(
    driverJavaOptions: Option<string>,
    conf: map<string, string>,
    resource: string,
    appArgs: seq<string>)

  /** The empty submission that option parsing starts from. */
  const NoOptions: Submission := Submission(None, map[], "", [])

  /**
    Splits a `--conf` argument at its first `=` into a property name and a
    value; `None` when there is no `=`.
   */
  function SplitConf(s: string): (r: Option<(string, string)>)
    ensures r.Some? ==> s == r.value.0 + "=" + r.value.1 && '=' !in r.value.0
    ensures r.None? ==> '=' !in s
  {
    if |s| == 0 then None
    else if s[0] == '=' then
      assert s == "" + "=" + s[1..];
      Some(("", s[1..]))
    else
      match SplitConf(s[1..])
      case None => None
      case Some((name, value)) =>
        assert s == ([s[0]] + name) + "=" + value;
        Some(([s[0]] + name, value))
  }

  /** A property name without `=` is recovered from `name=value`. */
  lemma {:induction false} SplitConfJoin(name: string, value: string)
    requires '=' !in name
    ensures SplitConf(name + "=" + value) == Some((name, value))
  {
    var s := name + "=" + value;
    if |name| == 0 {
      assert s[0] == '=' && s[1..] == value;
    } else {
      assert s[0] == name[0] != '=';
      assert s[1..] == name[1..] + "=" + value;
      SplitConfJoin(name[1..], value);
      assert [s[0]] + name[1..] == name;
    }
  }

  /**
    `spark-submit`'s reading of the arguments after the program name:
    `--driver-java-options` takes the next argument, `--conf` the next
    `name=value`, the first argument not starting with `-` is the application
    resource and everything after it belongs to the application. Any other
    option, a missing option argument or a missing resource is an error.
   */
  function ParseOptions(args: seq<string>, acc: Submission): (r: Option<Submission>)
    decreases |args|
  {
    if |args| == 0 then None
    else if args[0] == "--driver-java-options" then
      if |args| < 2 then None
      else ParseOptions(args[2..], acc.(driverJavaOptions := Some(args[1])))
    else if args[0] == "--conf" then
      if |args| < 2 then None
      else
        match SplitConf(args[1])
        case None => None
        case Some((name, value)) => ParseOptions(args[2..], acc.(conf := acc.conf[name := value]))
    else if |args[0]| > 0 && args[0][0] == '-' then None
    else Some(acc.(resource := args[0], appArgs := args[1..]))
  }

  /** `spark-submit`'s reading of a whole command line. */
  function ParseSubmit(cmd: seq<string>): (r: Option<Submission>)
  {
    if |cmd| == 0 || cmd[0] != "spark-submit" then None
    else ParseOptions(cmd[1..], NoOptions)
  }

  /**
    The launched command asks for the shim on the driver's command line and
    in both the driver's and the executors' extra Java options, runs the
    downloaded script, and hands the script `--event` followed by the
    serialised event.
   */
  lemma CommandParses(event: Event, dumps: Event -> string)
    ensures ParseSubmit(SubmitCommand(event, dumps)) == Some(Submission(
      Some(Shim),
      map[DriverExtraJavaOptions := Shim, ExecutorExtraJavaOptions := Shim],
      ScriptPath,
      ["--event", dumps(event)]))
  {
    var cmd := SubmitCommand(event, dumps);
    var args := cmd[1..];
    SplitConfJoin(DriverExtraJavaOptions, Shim);
    SplitConfJoin(ExecutorExtraJavaOptions, Shim);
    var s1 := NoOptions.(driverJavaOptions := Some(Shim));
    var s2 := s1.(conf := map[DriverExtraJavaOptions := Shim]);
    var s3 := s2.(conf := s2.conf[ExecutorExtraJavaOptions := Shim]);
    assert ScriptPath[0] == '/';
    assert ParseOptions(args[6..], s3) == Some(s3.(resource := ScriptPath, appArgs := ["--event", dumps(event)]));
    assert ParseOptions(args[4..], s2) == ParseOptions(args[6..], s3);
    assert ParseOptions(args[2..], s1) == ParseOptions(args[4..], s2);
    assert ParseOptions(args, NoOptions) == ParseOptions(args[2..], s1);
  }
}
