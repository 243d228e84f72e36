# Spark-on-Lambda handler: environment preparation and launch command

This project models the logic of `sparkLambdaHandler.py`, an AWS Lambda
handler that downloads a Spark script and runs it with `spark-submit`. The
modelled part is what happens to the process environment and which command
line is built:

* `lambda_handler` reads the required settings `SCRIPT_BUCKET` and
  `SPARK_SCRIPT`, then stores the event's `INPUT_PATH` and `OUTPUT_PATH`
  (default `""`) in the environment;
* `spark_submit` appends a fixed JVM option string (the *shim*: three
  `--add-exports`/`--add-opens` flags) to `JAVA_TOOL_OPTIONS` and
  `_JAVA_OPTIONS`, each followed by Python's `strip()`, then copies every event
  item into the environment as `str(value)`, skipping those two reserved keys;
* it then builds the ten-element `spark-submit` argument list.

Every assignment to `os.environ` goes through `putenv`, which raises
`ValueError` for a name holding `=` or NUL or a value holding NUL, and
`OSError` for an empty name (`setenv` refuses it). The model keeps both as
one failure, `Handler.Refused`: the copy loop stops at the first refused
item with the reserved variables already given the shim and the earlier
items already written, and the invocation fails without launching.

Modules:

* `PyStrings` (`py_strings.dfy`): `str.isspace`, `lstrip`, `rstrip`, `strip`
  and their characterisations.
* `Events` (`events.dfy`): the event as the list of its items in iteration
  order; `str(value)`, `dict.get`.
* `Environment` (`environment.dfy`): the environment as a `map<string,
  string>`, the shim, and the specification function `Prepared` of what
  `spark_submit` does to it, with the protection and frame lemmas.
* `Command` (`command.dfy`): the command line, and a reading of it by the
  part of `spark-submit`'s option grammar it uses (`--driver-java-options`,
  `--conf name=value`, the application resource, the application arguments).
* `Handler` (`handler.dfy`): `os.environ` as the class `Env`, whose methods
  change its `vars` field in place as the source does, proved against
  `Prepared` and `Handled`; and the lemmas about a whole invocation.

`json.dumps` is a function parameter `dumps` of the operations that need it.
`str()` of a non-string event value is carried in the value itself
(`Events.Other`), since how Python renders numbers, lists or objects is not
modelled. A string value is `Events.Text`, so the `TypeError` that
`os.environ[...] = event.get(...)` raises for a non-string is an error outcome
of the model, next to the `KeyError` of a missing setting and the
`ValueError` or `OSError` of a refused name or value. The lemmas about a whole
invocation assume the starting environment's values hold no NUL, as the
values of a process environment never do.

The append is easily taken for idempotent, and the reserved variables for
holding exactly the three flags. The code does neither: it keeps any prior
value in front of the shim, and run twice it leaves the shim twice
(`Environment.PrepareTwice`); the model follows the code.

## Model

| member | source | states |
|---|---|---|
| PyStrings.LStripSpec | sparkLambdaHandler.py:44-45 | `lstrip()` returns a suffix of its input, what it removes is all whitespace, and the result is empty or starts with non-whitespace |
| PyStrings.RStripSpec | sparkLambdaHandler.py:44-45 | `rstrip()` returns a prefix of its input, what it removes is all whitespace, and the result is empty or ends with non-whitespace |
| PyStrings.StripSpec | sparkLambdaHandler.py:44-45 | `strip()` returns the infix after the leading whitespace; both removed parts are whitespace and the result neither starts nor ends with whitespace |
| PyStrings.LStripConcat | sparkLambdaHandler.py:44-45 | leading whitespace of `a + b` reaches into `b` exactly when `a` is all whitespace |
| PyStrings.StripAppend | sparkLambdaHandler.py:44-45 | `(a + " " + t).strip()` is `t` when `a` is all whitespace, else `a.lstrip() + " " + t`, for `t` with non-whitespace ends |
| Events.Get | sparkLambdaHandler.py:93-94 | `event.get(key)` finds a value exactly when the key is present, and the value is that key's item |
| Events.GetOr | sparkLambdaHandler.py:93-94 | `event.get(key, default)` gives the default when the key is absent and the item's value when present |
| Environment.ShimEdges | sparkLambdaHandler.py:36-40 | the shim starts and ends with non-whitespace, so it is not blank and is its own `lstrip()` |
| Environment.ShimAppended | sparkLambdaHandler.py:44-45 | appending the shim and stripping gives the shim alone for a blank prior value, else the prior value less leading whitespace, a space, the shim |
| Environment.CopyRunCompletes | sparkLambdaHandler.py:48-51 | the copy loop completes exactly when every item is reserved or has a name and a `str` value the environment accepts |
| Environment.CopyRunStays | sparkLambdaHandler.py:48-51 | once a write is refused the loop has ended: later items change nothing |
| Environment.CopyRunStopsAt | sparkLambdaHandler.py:48-51 | when item `i` is the first refused, the loop raises with its key and leaves the environment the items before it produced |
| Environment.CopyEventAt | sparkLambdaHandler.py:47-51 | a reserved key or a key not in the event keeps its presence and value even when the loop raises; when it completes, a non-reserved event key holds `str` of its value |
| Environment.ReservedAfterPrepare | sparkLambdaHandler.py:44-50 | each reserved variable ends as `(prior or "" + " " + shim).strip()`: the shim if the prior value was absent or blank, otherwise the prior text kept in front of `" " + shim` |
| Environment.ReservedIgnoresEvent | sparkLambdaHandler.py:47-50 | the final reserved values are the same whatever the event holds |
| Environment.EventCopied | sparkLambdaHandler.py:48-51 | when no write is refused, every non-reserved event key maps to `str` of its event value afterwards |
| Environment.OthersUnchanged | sparkLambdaHandler.py:44-51 | a variable neither reserved nor in the event keeps its presence and its value |
| Environment.PreparedKeys | sparkLambdaHandler.py:44-51 | after a completed preparation the variables are exactly the prior ones, the two reserved ones and the event keys |
| Environment.ReservedAfterTwice | sparkLambdaHandler.py:44-45 | a reserved variable absent at first holds `shim + " " + shim` after two preparations |
| Environment.PrepareTwice | sparkLambdaHandler.py:44-45 | preparation is not idempotent: twice from an environment without the reserved variables leaves both as `shim + " " + shim` |
| Environment.ShimFlagsIn | sparkLambdaHandler.py:36-40 | each of the three compatibility flags occurs in any string ending with the shim |
| Environment.FlagsPresent | sparkLambdaHandler.py:36-45 | after preparation both reserved variables contain each of the three flags as a substring |
| Environment.ShimValid | sparkLambdaHandler.py:36-40 | the shim holds no NUL character |
| Environment.StripValid | sparkLambdaHandler.py:44-45 | stripping a NUL-free string leaves it NUL-free |
| Environment.ShimmedStorable | sparkLambdaHandler.py:44-45 | from a NUL-free environment the two writes of the reserved variables are accepted and the environment stays NUL-free |
| Command.SubmitCommand | sparkLambdaHandler.py:53-67 | the command has ten arguments and ends with the serialised event |
| Command.SplitConf | sparkLambdaHandler.py:60-63 | a `--conf` argument splits at its first `=` into a name without `=` and the rest; no split when there is no `=` |
| Command.SplitConfJoin | sparkLambdaHandler.py:60-63 | `name=value` splits back into `name` and `value` when `name` has no `=` |
| Command.CommandParses | sparkLambdaHandler.py:53-67 | `spark-submit` reads the command as: driver Java options = shim, driver and executor extra Java options both = shim, resource `/tmp/spark_script.py`, application arguments `--event` and the serialised event |
| Handler.Env.AppendShimTo | sparkLambdaHandler.py:44-45 | one accepted read-modify-write of a reserved variable: the new environment is `AppendShim` of the old and stays NUL-free |
| Handler.Env.CopyEventIn | sparkLambdaHandler.py:48-51 | the loop leaves the environment and the refused key (if any) given by `CopyRun` of the old environment |
| Handler.Env.SparkSubmit | sparkLambdaHandler.py:31-67 | outcome and new environment are those of `Submitted`: prepared environment, and a launch of `SubmitCommand` unless a write was refused |
| Handler.Env.LambdaHandler | sparkLambdaHandler.py:81-99 | outcome and new environment are those of `Handled` on the old environment |
| Handler.HandledSubmits | sparkLambdaHandler.py:91-99 | with both settings present and both paths accepted, the handler is `spark_submit` on the pre-seeded environment |
| Handler.HandlerLaunchesIff | sparkLambdaHandler.py:91-94 | from a NUL-free environment, an invocation launches exactly when both settings exist, the input and output paths are absent or NUL-free strings, and every event item is reserved or accepted by the environment |
| Handler.FailedBeforeSubmit | sparkLambdaHandler.py:91-94 | a failure reading the settings or pre-seeding leaves the environment unchanged, except that a bad `OUTPUT_PATH` fails after `INPUT_PATH` was stored |
| Handler.FailedInCopy | sparkLambdaHandler.py:48-51 | when item `i` is the first refused, the invocation fails with its key, leaving the environment prepared with the items before it |
| Handler.PathDefaulted | sparkLambdaHandler.py:48-51 | a pre-seeded path variable ends as `str` of its event value, or `""` when the event lacks it |
| Handler.PathsDefaulted | sparkLambdaHandler.py:93-99 | after a launch `INPUT_PATH` and `OUTPUT_PATH` are `""` when absent from the event and `str` of the event value otherwise, since the copy runs after the pre-seeding |
| Handler.LaunchedIsPrepared | sparkLambdaHandler.py:93-99 | a launch runs `SubmitCommand` of the event, and every variable except an input or output path the event lacks ends as `spark_submit` alone would leave it |

## Left out

- The S3 download (`s3_script_download`, sparkLambdaHandler.py:16-28, called at line 96): a network call, not modelled. Failures of `download_file` (line 23) are logged and swallowed and change neither the environment nor the outcome; a failure creating the S3 resource (line 19, outside the `try`) propagates out of `lambda_handler` after the pre-seeding and before `spark_submit`, and that failure is not modelled.
- Running the command (`subprocess.run`, sparkLambdaHandler.py:69-78) and the log-and-re-raise on its failure: the model stops at the command that would be run (`Launched`).
- Logging setup and every `logger` call: output only.
- `json.dumps` is an uninterpreted parameter; `str()` of non-string values is given with the value, not computed.
- `str(key)` on event keys: the keys of a JSON object are strings, for which `str` is the identity.
- The names already in the initial environment are taken as they are; only its values are assumed NUL-free (`Handler.Env.Valid`), as those of a process environment are.
- Strings holding a lone surrogate: `json.loads` turns an escape such as `"\ud800"` into one, and storing it in `os.environ` raises `UnicodeEncodeError` (a `ValueError`; U+DC80-U+DCFF alone pass through `surrogateescape`). A Dafny `string` cannot hold a surrogate, so such events, and initial environment values with bytes that are not UTF-8, cannot be expressed. `Environment.CopyRunCompletes` and `Handler.HandlerLaunchesIff` are exact only over the events the model represents.
- Reuse of the environment across warm invocations and the fixed `/tmp` file: lifetime concerns of the platform.
- Events.GetOr: states only that the result is an item of the event when the key is present, not which one when a key repeats; a dict never repeats a key.
