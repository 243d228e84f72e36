/**
  The process environment and the preparation `spark_submit` applies to it
  before launching: the JVM compatibility options appended to the two
  reserved Java option variables, then the event copied in as strings with
  those two keys skipped.
 */
module Environment {
  import opened Wrappers
  import opened PyStrings
  import opened Events

  /** The process environment: a string-to-string table. */
  type Vars = map<string, string>

  const JavaToolOptions: string := "JAVA_TOOL_OPTIONS"
  const JavaOptions: string := "_JAVA_OPTIONS"

  /** The two variables the event may never overwrite. */
  const Reserved: set<string> := {JavaToolOptions, JavaOptions}

  /** The three module-access flags that let Spark run on a Java 17 runtime. */
  const ShimFlags: seq<string> := [
    AddExports + "java.base/sun.nio.ch=ALL-UNNAMED",
    AddOpens + "java.base/sun.nio.ch=ALL-UNNAMED",
    AddOpens + "java.base/java.nio=ALL-UNNAMED"
  ]

  const AddExports: string := "--add-exports="
  const AddOpens: string := "--add-opens="

  /** The JVM option string: the three flags separated by single spaces. */
  const Shim: string := ShimFlags[0] + " " + ShimFlags[1] + " " + ShimFlags[2]

  /** `os.environ.get(key, default)`. */
  function Lookup(vars: Vars, key: string, default: string): (v: string)
  {
    if key in vars then vars[key] else default
  }

  /**
    A name `os.environ` accepts: `putenv` raises `ValueError` for a name
    holding `=` or a NUL character, and `OSError` (from `setenv`) for an
    empty name.
   */
  predicate ValidName(key: string)
  {
    |key| > 0 && '=' !in key && '\0' !in key
  }

  /** A value `os.environ` accepts: `putenv` raises `ValueError` on a NUL character. */
  predicate ValidValue(value: string)
  {
    '\0' !in value
  }

  /** `os.environ[key] = value` succeeds. */
  predicate Storable(key: string, value: string)
  {
    ValidName(key) && ValidValue(value)
  }

  /** No value in the environment holds a NUL character, as in any process environment. */
  ghost predicate NulFree(vars: Vars)
  {
    forall key :: key in vars ==> ValidValue(vars[key])
  }

  /** `os.environ[key] = (os.environ.get(key, "") + " " + shim).strip()`. */
  function AppendShim(vars: Vars, key: string): (r: Vars)
  {
    vars[key := Strip(Lookup(vars, key, "") + " " + Shim)]
  }

  /** The environment after both reserved variables have had the shim appended. */
  function Shimmed(vars: Vars): (r: Vars)
  {
    AppendShim(AppendShim(vars, JavaToolOptions), JavaOptions)
  }

  /**
    An environment after a run of writes, and the key whose assignment raised
    `ValueError` and ended the run, if one did.
   */
  datatype Applied = Applied(vars: Vars, refused: Option<string>)

  /** An event item the copy loop skips, or writes and `os.environ` accepts. */
  predicate ItemAccepted(item: (string, Value))
  {
    item.0 in Reserved || Storable(item.0, Str(item.1))
  }

  /** Every item of the event is skipped or accepted. */
  predicate EventAccepted(event: Event)
  {
    forall i :: 0 <= i < |event| ==> ItemAccepted(event[i])
  }

  /**
    The loop that copies the event's items in order, writing `str(value)`
    under each key except the two reserved ones, and stopping at the first
    write `os.environ` refuses.
   */
  function CopyRun(vars: Vars, event: Event): (r: Applied)
    decreases |event|
  {
    if |event| == 0 then Applied(vars, None)
    else
      var (key, value) := event[|event| - 1];
      var before := CopyRun(vars, event[..|event| - 1]);
      if before.refused.Some? || key in Reserved then before
      else if Storable(key, Str(value)) then Applied(before.vars[key := Str(value)], None)
      else Applied(before.vars, Some(key))
  }

  /** The environment the copy loop leaves, whether it completed or raised. */
  function CopyEvent(vars: Vars, event: Event): (r: Vars)
  {
    CopyRun(vars, event).vars
  }

  /** The environment `spark_submit` leaves behind, whether or not the copy raised. */
  function Prepared(vars: Vars, event: Event): (r: Vars)
  {
    CopyEvent(Shimmed(vars), event)
  }

  /** The event key whose assignment raised during preparation, if any. */
  function PrepareRefused(vars: Vars, event: Event): (k: Option<string>)
  {
    CopyRun(Shimmed(vars), event).refused
  }

  /** `part` occurs in `s` starting at index `i`. */
  predicate OccursAt(s: string, part: string, i: int)
  {
    0 <= i && i + |part| <= |s| && s[i..i + |part|] == part
  }

  /** `part` occurs in `s` as a contiguous substring. */
  ghost predicate Contains(s: string, part: string)
  {
    exists i :: OccursAt(s, part, i)
  }

  /** The shim begins and ends with non-whitespace, so it is its own `lstrip()`. */
  lemma ShimEdges()
    ensures |Shim| > 0 && !IsSpace(Shim[0]) && !IsSpace(Shim[|Shim| - 1])
    ensures !AllSpace(Shim) && LStrip(Shim) == Shim
  {
  }

  /**
    Appending the shim to a prior value and stripping gives the shim alone when
    the prior value is empty or all whitespace, and otherwise keeps the prior
    value (less its leading whitespace) in front of a space and the shim.
   */
  lemma ShimAppended(prior: string)
    ensures Strip(prior + " " + Shim) == if AllSpace(prior) then Shim else LStrip(prior) + " " + Shim
  {
    ShimEdges();
    StripAppend(prior, Shim);
  }

  /** The copy loop completes exactly when every item is skipped or accepted. */
  lemma {:induction false} CopyRunCompletes(vars: Vars, event: Event)
    ensures CopyRun(vars, event).refused.None? <==> EventAccepted(event)
    decreases |event|
  {
    if |event| > 0 {
      var init := event[..|event| - 1];
      CopyRunCompletes(vars, init);
      assert EventAccepted(event) <==> EventAccepted(init) && ItemAccepted(event[|event| - 1]) by {
        if EventAccepted(init) && ItemAccepted(event[|event| - 1]) {
          forall i | 0 <= i < |event| ensures ItemAccepted(event[i]) {
            if i < |event| - 1 { assert event[i] == init[i]; }
          }
        }
        if EventAccepted(event) {
          forall i | 0 <= i < |init| ensures ItemAccepted(init[i]) {
            assert init[i] == event[i];
          }
        }
      }
    }
  }

  /** Once a write has been refused, later items change nothing. */
  lemma {:induction false} CopyRunStays(vars: Vars, event: Event, n: nat)
    requires n <= |event| && CopyRun(vars, event[..n]).refused.Some?
    ensures CopyRun(vars, event) == CopyRun(vars, event[..n])
    decreases |event|
  {
    if n < |event| {
      var init := event[..|event| - 1];
      assert init[..n] == event[..n];
      CopyRunStays(vars, init, n);
    } else {
      assert event[..n] == event;
    }
  }

  /**
    When the item at index `i` is the first one refused, the loop raises with
    its key, leaving the environment the items before it produced.
   */
  lemma CopyRunStopsAt(vars: Vars, event: Event, i: nat)
    requires i < |event| && !ItemAccepted(event[i]) && EventAccepted(event[..i])
    ensures CopyRun(vars, event) == Applied(CopyEvent(vars, event[..i]), Some(event[i].0))
  {
    var prefix := event[..i + 1];
    assert prefix[..i] == event[..i];
    assert prefix[i] == event[i];
    CopyRunCompletes(vars, event[..i]);
    CopyRunStays(vars, event, i + 1);
  }

  /**
    What the copy loop does to one key: a reserved key or one not in the event
    keeps its presence and value even when the loop raises; when the loop
    completes, every other event key holds `str` of its value.
   */
  lemma {:induction false} CopyEventAt(vars: Vars, event: Event, key: string)
    ensures key in Reserved || key !in Keys(event) ==>
      (key in CopyEvent(vars, event) <==> key in vars) &&
      (key in vars ==> CopyEvent(vars, event)[key] == vars[key])
    ensures key !in Reserved && key in Keys(event) && EventAccepted(event) ==>
      key in CopyEvent(vars, event) && CopyEvent(vars, event)[key] == Str(Get(event, key).value)
    decreases |event|
  {
    if |event| > 0 {
      var init := event[..|event| - 1];
      CopyEventAt(vars, init, key);
      CopyRunCompletes(vars, init);
      CopyRunCompletes(vars, event);
      if EventAccepted(event) {
        assert EventAccepted(init) by {
          forall i | 0 <= i < |init| ensures ItemAccepted(init[i]) {
            assert init[i] == event[i];
          }
        }
        assert ItemAccepted(event[|event| - 1]);
      }
      assert Get(event, key) == if event[|event| - 1].0 == key then Some(event[|event| - 1].1) else Get(init, key);
    }
  }

  /**
    After preparation each reserved variable holds its prior value (or `""`)
    with a space and the shim appended, then stripped: exactly the shim if the
    prior value was absent, empty or whitespace, and otherwise the prior text
    without its leading whitespace followed by a space and the shim.
   */
  lemma ReservedAfterPrepare(vars: Vars, event: Event, key: string)
    requires key in Reserved
    ensures key in Prepared(vars, event)
    ensures Prepared(vars, event)[key] == Strip(Lookup(vars, key, "") + " " + Shim)
    ensures AllSpace(Lookup(vars, key, "")) ==> Prepared(vars, event)[key] == Shim
    ensures !AllSpace(Lookup(vars, key, "")) ==> Prepared(vars, event)[key] == LStrip(vars[key]) + " " + Shim
  {
    var shimmed := Shimmed(vars);
    assert key in shimmed && shimmed[key] == Strip(Lookup(vars, key, "") + " " + Shim) by {
      assert JavaToolOptions != JavaOptions;
    }
    CopyEventAt(shimmed, event, key);
    ShimAppended(Lookup(vars, key, ""));
  }

  /** The final values of the reserved variables do not depend on the event. */
  lemma ReservedIgnoresEvent(vars: Vars, event1: Event, event2: Event, key: string)
    requires key in Reserved
    ensures key in Prepared(vars, event1) && key in Prepared(vars, event2)
    ensures Prepared(vars, event1)[key] == Prepared(vars, event2)[key]
  {
    ReservedAfterPrepare(vars, event1, key);
    ReservedAfterPrepare(vars, event2, key);
  }

  /**
    When no write is refused, every non-reserved event key ends up holding
    `str` of its event value.
   */
  lemma EventCopied(vars: Vars, event: Event, key: string)
    requires EventAccepted(event)
    requires key !in Reserved && key in Keys(event)
    ensures key in Prepared(vars, event)
    ensures Prepared(vars, event)[key] == Str(Get(event, key).value)
  {
    CopyEventAt(Shimmed(vars), event, key);
  }

  /** A variable that is neither reserved nor an event key is left as it was. */
  lemma OthersUnchanged(vars: Vars, event: Event, key: string)
    requires key !in Reserved && key !in Keys(event)
    ensures key in Prepared(vars, event) <==> key in vars
    ensures key in vars ==> Prepared(vars, event)[key] == vars[key]
  {
    CopyEventAt(Shimmed(vars), event, key);
  }

  /** A completed preparation adds exactly the reserved variables and the event keys. */
  lemma PreparedKeys(vars: Vars, event: Event)
    requires EventAccepted(event)
    ensures Prepared(vars, event).Keys == vars.Keys + Reserved + Keys(event)
  {
    var shimmed := Shimmed(vars);
    assert shimmed.Keys == vars.Keys + Reserved;
    forall key | key in vars.Keys + Reserved + Keys(event) || key in Prepared(vars, event)
      ensures key in Prepared(vars, event) <==> key in shimmed.Keys + Keys(event)
    {
      CopyEventAt(shimmed, event, key);
    }
  }

  /** A reserved variable absent at first holds the shim twice after two preparations. */
  lemma ReservedAfterTwice(vars: Vars, event: Event, key: string)
    requires key in Reserved && key !in vars
    ensures key in Prepared(Prepared(vars, event), event)
    ensures Prepared(Prepared(vars, event), event)[key] == Shim + " " + Shim
  {
    var once := Prepared(vars, event);
    ShimEdges();
    assert AllSpace(Lookup(vars, key, ""));
    ReservedAfterPrepare(vars, event, key);
    assert Lookup(once, key, "") == Shim;
    ReservedAfterPrepare(once, event, key);
  }

  /**
    Preparation is not idempotent: run twice from an environment without the
    reserved variables, each of them holds the shim twice.
   */
  lemma PrepareTwice(vars: Vars, event: Event)
    requires JavaToolOptions !in vars && JavaOptions !in vars
    ensures JavaToolOptions in Prepared(Prepared(vars, event), event)
    ensures JavaOptions in Prepared(Prepared(vars, event), event)
    ensures Prepared(Prepared(vars, event), event)[JavaToolOptions] == Shim + " " + Shim
    ensures Prepared(Prepared(vars, event), event)[JavaOptions] == Shim + " " + Shim
  {
    ReservedAfterTwice(vars, event, JavaToolOptions);
    ReservedAfterTwice(vars, event, JavaOptions);
  }

  /** `part` occurs in `a + part + b`. */
  lemma ContainsInfix(a: string, part: string, b: string)
    ensures Contains(a + part + b, part)
  {
    var s := a + part + b;
    assert s[|a|..|a| + |part|] == part;
    assert OccursAt(s, part, |a|);
  }

  /** Each of three space-separated words occurs in a string that ends with them. */
  lemma WordsIn(prefix: string, w0: string, w1: string, w2: string)
    ensures Contains(prefix + (w0 + " " + w1 + " " + w2), w0)
    ensures Contains(prefix + (w0 + " " + w1 + " " + w2), w1)
    ensures Contains(prefix + (w0 + " " + w1 + " " + w2), w2)
  {
    var s := prefix + (w0 + " " + w1 + " " + w2);
    assert s == prefix + w0 + (" " + w1 + " " + w2);
    ContainsInfix(prefix, w0, " " + w1 + " " + w2);
    assert s == (prefix + w0 + " ") + w1 + (" " + w2);
    ContainsInfix(prefix + w0 + " ", w1, " " + w2);
    assert s == (prefix + w0 + " " + w1 + " ") + w2 + "";
    ContainsInfix(prefix + w0 + " " + w1 + " ", w2, "");
  }

  /** Each of the three flags occurs in any string that ends with the shim. */
  lemma ShimFlagsIn(prefix: string)
    ensures forall f :: f in ShimFlags ==> Contains(prefix + Shim, f)
  {
    WordsIn(prefix, ShimFlags[0], ShimFlags[1], ShimFlags[2]);
  }

  /** After preparation both reserved variables contain all three compatibility flags. */
  lemma FlagsPresent(vars: Vars, event: Event, key: string)
    requires key in Reserved
    ensures key in Prepared(vars, event)
    ensures forall f :: f in ShimFlags ==> Contains(Prepared(vars, event)[key], f)
  {
    ReservedAfterPrepare(vars, event, key);
    var prior := Lookup(vars, key, "");
    var v := Prepared(vars, event)[key];
    if AllSpace(prior) {
      assert v == "" + Shim;
      ShimFlagsIn("");
    } else {
      assert v == (LStrip(prior) + " ") + Shim;
      ShimFlagsIn(LStrip(prior) + " ");
    }
  }

  /** The shim holds no NUL character. */
  lemma ShimValid()
    ensures ValidValue(Shim)
  {
    assert ValidValue(ShimFlags[0]) && ValidValue(ShimFlags[1]) && ValidValue(ShimFlags[2]);
  }

  /** Stripping a NUL-free string leaves it NUL-free. */
  lemma StripValid(s: string)
    requires ValidValue(s)
    ensures ValidValue(Strip(s))
  {
    StripSpec(s);
    var i := |s| - |LStrip(s)|;
    assert Strip(s) == s[i..i + |Strip(s)|];
  }

  /**
    The writes to the reserved variables are never refused: their names are
    valid, and from a NUL-free environment the stripped value is NUL-free, so
    the environment stays NUL-free.
   */
  lemma ShimmedStorable(vars: Vars, key: string)
    requires NulFree(vars) && key in Reserved
    ensures Storable(key, Strip(Lookup(vars, key, "") + " " + Shim))
    ensures NulFree(AppendShim(vars, key))
  {
    ShimValid();
    var s := Lookup(vars, key, "") + " " + Shim;
    assert ValidValue(s);
    StripValid(s);
    assert ValidName(key) by {
      assert ValidName(JavaToolOptions) && ValidName(JavaOptions);
    }
  }
}
