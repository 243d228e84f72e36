/**
  The Lambda entry point and `spark_submit` as operations on the process
  environment, which the source changes in place through `os.environ`.
 */
module Handler {
  import opened Wrappers
  import opened PyStrings
  import opened Events
  import opened Environment
  import opened Command

  const ScriptBucket: string := "SCRIPT_BUCKET"
  const SparkScript: string := "SPARK_SCRIPT"
  const InputPath: string := "INPUT_PATH"
  const OutputPath: string := "OUTPUT_PATH"

  /** The exceptions the modelled part of the handler can raise. */
  datatype HandlerError =
    | MissingSetting(name: string)  // KeyError reading a required variable
    | NotAString(key: string)       // TypeError storing a non-str value in the environment
    | Refused(key: string)          // ValueError or OSError: the environment refused the name or the value

  /** How an invocation ends, up to the launch of the subprocess. */
  datatype Outcome =
    | Launched(bucket: string, script: string, cmd: seq<string>)
    | Failed(error: HandlerError)

  /** An outcome together with the environment it leaves behind. */
  datatype Invocation = Invocation(outcome: Outcome, vars: Vars)

  /** The result of one pre-seeding assignment. */
  datatype Seeded = Stored(vars: Vars) | Raised(error: HandlerError)

  /** `os.environ[key] = event.get(key, '')`, which only accepts a `str` without NUL. */
  function Preseed(vars: Vars, event: Event, key: string): (r: Seeded)
  {
    match GetOr(event, key, Text(""))
    case Other(_) => Raised(NotAString(key))
    case Text(s) => if Storable(key, s) then Stored(vars[key := s]) else Raised(Refused(key))
  }

  /** The event's value for a path is absent, or a string the environment accepts. */
  predicate PathAccepted(event: Event, key: string)
  {
    GetOr(event, key, Text("")).Text? && ValidValue(GetOr(event, key, Text("")).text)
  }

  /** `spark_submit`: prepare the environment, then launch unless a write raised. */
  function Submitted(vars: Vars, bucket: string, script: string, event: Event, dumps: Event -> string): (r: Invocation)
  {
    match PrepareRefused(vars, event)
    case None => Invocation(Launched(bucket, script, SubmitCommand(event, dumps)), Prepared(vars, event))
    case Some(key) => Invocation(Failed(Refused(key)), Prepared(vars, event))
  }

  /** The invocation `lambda_handler` performs, from the environment it starts in. */
  function Handled(vars: Vars, event: Event, dumps: Event -> string): (r: Invocation)
  {
    if ScriptBucket !in vars then Invocation(Failed(MissingSetting(ScriptBucket)), vars)
    else if SparkScript !in vars then Invocation(Failed(MissingSetting(SparkScript)), vars)
    else
      match Preseed(vars, event, InputPath)
      case Raised(e) => Invocation(Failed(e), vars)
      case Stored(withInput) =>
        match Preseed(withInput, event, OutputPath)
        case Raised(e) => Invocation(Failed(e), withInput)
        case Stored(seeded) => Submitted(seeded, vars[ScriptBucket], vars[SparkScript], event, dumps)
  }

  /** The value `event.get(key, '')` stores when it is a string. */
  function PathOrEmpty(event: Event, key: string): (v: string)
  {
    if key in Keys(event) then Str(Get(event, key).value) else ""
  }

  /** The process environment, `os.environ`. */
  class Env {
    var vars: Vars

    /** Every value is NUL-free, as the values of a process environment are. */
    ghost predicate Valid()
      reads this
    {
      NulFree(vars)
    }

    constructor (initial: Vars)
      requires NulFree(initial)
      ensures Valid() && vars == initial
    {
      vars := initial;
    }

    /** `os.environ.get(key, default)`. */
    function GetVar(key: string, default: string): (v: string)
      reads this
    {
      Lookup(vars, key, default)
    }

    /**
      Appends the shim to a reserved variable, stripping the result; the
      environment accepts the write.
     */
    method AppendShimTo(key: string)
      requires Valid() && key in Reserved
      modifies this
      ensures Valid() && vars == AppendShim(old(vars), key)
    {
      ShimmedStorable(vars, key);
      vars := vars[key := Strip(GetVar(key, "") + " " + Shim)];
    }

    /**
      Copies the event's items in order as strings, skipping the reserved
      keys; returns the key of the first write the environment refuses, at
      which the copy stops.
     */
    method CopyEventIn(event: Event) returns (refused: Option<string>)
      requires Valid()
      modifies this
      ensures Valid() && Applied(vars, refused) == CopyRun(old(vars), event)
    {
      refused := None;
      var i := 0;
      while i < |event|
        invariant 0 <= i <= |event|
        invariant Valid() && Applied(vars, refused) == CopyRun(old(vars), event[..i])
        invariant refused.None?
      {
        var (key, value) := event[i];
        assert event[..i + 1][..i] == event[..i];
        assert event[..i + 1][i] == (key, value);
        if key !in Reserved {
          if !Storable(key, Str(value)) {
            refused := Some(key);
            CopyRunStays(old(vars), event, i + 1);
            return;
          }
          vars := vars[key := Str(value)];
        }
        i := i + 1;
      }
      assert event[..|event|] == event;
    }

    /**
      `spark_submit`: appends the shim to both reserved variables, copies the
      event in, and builds the command handed to the subprocess.
     */
    method SparkSubmit(bucket: string, script: string, event: Event, dumps: Event -> string) returns (outcome: Outcome)
      requires Valid()
      modifies this
      ensures Valid() && Invocation(outcome, vars) == Submitted(old(vars), bucket, script, event, dumps)
    {
      AppendShimTo(JavaToolOptions);
      AppendShimTo(JavaOptions);
      var refused := CopyEventIn(event);
      if refused.Some? {
        return Failed(Refused(refused.value));
      }
      var cmd := SubmitCommand(event, dumps);
      outcome := Launched(bucket, script, cmd);
    }

    /**
      `lambda_handler`: read the two required settings, pre-seed the input and
      output paths from the event, then run `spark_submit`.
     */
    method LambdaHandler(event: Event, dumps: Event -> string) returns (outcome: Outcome)
      requires Valid()
      modifies this
      ensures Valid() && Invocation(outcome, vars) == Handled(old(vars), event, dumps)
    {
      if ScriptBucket !in vars {
        return Failed(MissingSetting(ScriptBucket));
      }
      var bucket := vars[ScriptBucket];
      if SparkScript !in vars {
        return Failed(MissingSetting(SparkScript));
      }
      var script := vars[SparkScript];
      var input := GetOr(event, InputPath, Text(""));
      if !input.Text? {
        return Failed(NotAString(InputPath));
      }
      if !Storable(InputPath, input.text) {
        return Failed(Refused(InputPath));
      }
      vars := vars[InputPath := input.text];
      var output := GetOr(event, OutputPath, Text(""));
      if !output.Text? {
        return Failed(NotAString(OutputPath));
      }
      if !Storable(OutputPath, output.text) {
        return Failed(Refused(OutputPath));
      }
      vars := vars[OutputPath := output.text];
      outcome := SparkSubmit(bucket, script, event, dumps);
    }
  }

  /** The environment after both paths have been pre-seeded from the event. */
  function Seed(vars: Vars, event: Event): (r: Vars)
    requires PathAccepted(event, InputPath) && PathAccepted(event, OutputPath)
  {
    vars[InputPath := GetOr(event, InputPath, Text("")).text]
        [OutputPath := GetOr(event, OutputPath, Text("")).text]
  }

  /** With both settings present and both paths accepted, the handler runs `spark_submit` on the seeded environment. */
  lemma HandledSubmits(vars: Vars, event: Event, dumps: Event -> string)
    requires ScriptBucket in vars && SparkScript in vars
    requires PathAccepted(event, InputPath) && PathAccepted(event, OutputPath)
    ensures Handled(vars, event, dumps) == Submitted(Seed(vars, event), vars[ScriptBucket], vars[SparkScript], event, dumps)
  {
    assert ValidName(InputPath) && ValidName(OutputPath);
  }

  /**
    From a NUL-free environment, an invocation launches exactly when both settings are present, the
    event's input and output paths are absent or NUL-free strings, and every
    event item is reserved or has a name and value the environment accepts.
   */
  lemma HandlerLaunchesIff(vars: Vars, event: Event, dumps: Event -> string)
    requires NulFree(vars)
    ensures Handled(vars, event, dumps).outcome.Launched? <==>
      && ScriptBucket in vars && SparkScript in vars
      && PathAccepted(event, InputPath) && PathAccepted(event, OutputPath)
      && EventAccepted(event)
  {
    if ScriptBucket in vars && SparkScript in vars && PathAccepted(event, InputPath) && PathAccepted(event, OutputPath) {
      HandledSubmits(vars, event, dumps);
      CopyRunCompletes(Shimmed(Seed(vars, event)), event);
    } else {
      FailedBeforeSubmit(vars, event, dumps);
    }
  }

  /**
    A failure before `spark_submit` leaves the environment as it was, except
    that a failing output path fails after the input path has been stored.
   */
  lemma FailedBeforeSubmit(vars: Vars, event: Event, dumps: Event -> string)
    requires !(ScriptBucket in vars && SparkScript in vars && PathAccepted(event, InputPath) && PathAccepted(event, OutputPath))
    ensures Handled(vars, event, dumps).outcome.Failed?
    ensures ScriptBucket in vars && SparkScript in vars && PathAccepted(event, InputPath) ==>
      Handled(vars, event, dumps).vars == vars[InputPath := GetOr(event, InputPath, Text("")).text]
    ensures !(ScriptBucket in vars && SparkScript in vars && PathAccepted(event, InputPath)) ==>
      Handled(vars, event, dumps).vars == vars
  {
  }

  /**
    When the event item at index `i` is the first the environment refuses,
    the invocation fails with its key after the reserved variables have been
    given the shim and the items before it have been copied.
   */
  lemma FailedInCopy(vars: Vars, event: Event, dumps: Event -> string, i: nat)
    requires NulFree(vars)
    requires ScriptBucket in vars && SparkScript in vars
    requires PathAccepted(event, InputPath) && PathAccepted(event, OutputPath)
    requires i < |event| && !ItemAccepted(event[i]) && EventAccepted(event[..i])
    ensures Handled(vars, event, dumps).outcome == Failed(Refused(event[i].0))
    ensures Handled(vars, event, dumps).vars == Prepared(Seed(vars, event), event[..i])
  {
    HandledSubmits(vars, event, dumps);
    CopyRunStopsAt(Shimmed(Seed(vars, event)), event, i);
  }

  /** One pre-seeded path ends as `str` of its event value, or `""` when absent. */
  lemma PathDefaulted(seeded: Vars, event: Event, key: string)
    requires key !in Reserved && EventAccepted(event)
    requires key in seeded && (key !in Keys(event) ==> seeded[key] == "")
    ensures key in Prepared(seeded, event)
    ensures Prepared(seeded, event)[key] == PathOrEmpty(event, key)
  {
    if key in Keys(event) {
      EventCopied(seeded, event, key);
    } else {
      OthersUnchanged(seeded, event, key);
    }
  }

  /**
    After a launch `INPUT_PATH` and `OUTPUT_PATH` hold `""` when the event
    lacks them and `str` of the event value otherwise: the copy loop runs
    after the pre-seeding and overwrites it.
   */
  lemma PathsDefaulted(vars: Vars, event: Event, dumps: Event -> string)
    requires NulFree(vars)
    requires Handled(vars, event, dumps).outcome.Launched?
    ensures InputPath in Handled(vars, event, dumps).vars
    ensures OutputPath in Handled(vars, event, dumps).vars
    ensures Handled(vars, event, dumps).vars[InputPath] == PathOrEmpty(event, InputPath)
    ensures Handled(vars, event, dumps).vars[OutputPath] == PathOrEmpty(event, OutputPath)
  {
    HandlerLaunchesIff(vars, event, dumps);
    var seeded := Seed(vars, event);
    HandledSubmits(vars, event, dumps);
    PathDefaulted(seeded, event, InputPath);
    PathDefaulted(seeded, event, OutputPath);
  }

  /**
    A launch runs the command built from the event, and leaves every variable
    other than an input or output path the event lacks as `spark_submit`
    alone would have left it.
   */
  lemma LaunchedIsPrepared(vars: Vars, event: Event, dumps: Event -> string, key: string)
    requires NulFree(vars)
    requires Handled(vars, event, dumps).outcome.Launched?
    requires key !in {InputPath, OutputPath} || key in Keys(event)
    ensures Handled(vars, event, dumps).outcome.cmd == SubmitCommand(event, dumps)
    ensures key in Handled(vars, event, dumps).vars <==> key in Prepared(vars, event)
    ensures key in Prepared(vars, event) ==> Handled(vars, event, dumps).vars[key] == Prepared(vars, event)[key]
  {
    HandlerLaunchesIff(vars, event, dumps);
    var seeded := Seed(vars, event);
    HandledSubmits(vars, event, dumps);
    if key in Reserved {
      assert Lookup(seeded, key, "") == Lookup(vars, key, "");
      ReservedAfterPrepare(seeded, event, key);
      ReservedAfterPrepare(vars, event, key);
    } else if key in Keys(event) {
      EventCopied(seeded, event, key);
      EventCopied(vars, event, key);
    } else {
      OthersUnchanged(seeded, event, key);
      OthersUnchanged(vars, event, key);
    }
  }
}
