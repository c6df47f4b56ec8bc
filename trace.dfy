/** The values the two kafka topic commands inspect, and the events they
    produce. Each command is modelled as a function from its inputs to the
    sequence of observable events of one invocation: writes to standard
    output, reports on the error channel, the interactive prompt, the calls
    into the cluster client, and `process.exit`. */
module Trace {

  datatype Option<+T> = None | Some(value: T)

  /** A JavaScript value, as far as the commands look at it. An `undefined`
      flag is a key that is missing from the flags map, so it has no case
      here. Numbers are integers: NaN is not modelled. */
  datatype Value = Null | Bool(b: bool) | Num(n: int) | Str(s: string) | Obj(id: nat)

  /** JavaScript truthiness: what `if (v)` and `a && b` test. */
  predicate Truthy(v: Value) {
    match v
    case Null => false
    case Bool(b) => b
    case Num(n) => n != 0
    case Str(s) => s != ""
    case Obj(_) => true
  }

  /** Truthiness of `flags[name]`; a missing key reads as `undefined`. */
  predicate FlagSet(flags: map<string, Value>, name: string) {
    name in flags && Truthy(flags[name])
  }

  /** Truthiness of an optional positional argument such as `CLUSTER`. */
  predicate ArgGiven(arg: Option<string>) {
    arg.Some? && arg.value != ""
  }

  /** The messages the commands write, tagged rather than spelled out. */
  datatype Message =
    | CannotParseRetention(value: Value)
    | BothCompactionFlags
    | Configuring(topic: string)
    | ConfiguringOn(topic: string, cluster: string)
    | Newline
    | Failure(err: Value)
    | Done
    | MonitorHint(topic: string)
    | DestructiveWarning(target: Option<string>, topic: string)
    | ConfirmationMismatch(topic: string)
    | Deleting(topic: string)
    | MarkedForDeletion

  datatype Event =
    | Stdout(msg: Message)    // process.stdout.write or console.log
    | Stderr(msg: Message)    // cli.error
    | Prompt                  // an interactive read of one line
    | CallConfigure(cluster: Option<string>, topic: string, flags: map<string, Value>)
    | CallDelete(cluster: Option<string>, topic: string)
    | Exit(code: int)         // process.exit(code)

  predicate IsConfigureCall(e: Event) { e.CallConfigure? }
  predicate IsDeleteCall(e: Event) { e.CallDelete? }
  predicate IsPrompt(e: Event) { e.Prompt? }

  /** How many events of `t` satisfy `p`. */
  function Occurrences(t: seq<Event>, p: Event -> bool): (n: nat)
    ensures n <= |t|
    ensures n == 0 <==> forall i :: 0 <= i < |t| ==> !p(t[i])
  {
    if t == [] then 0
    else
      assert forall i :: 0 < i < |t| ==> t[i] == t[1..][i - 1];
      (if p(t[0]) then 1 else 0) + Occurrences(t[1..], p)
  }

  lemma {:induction false} OccurrencesAppend(a: seq<Event>, b: seq<Event>, p: Event -> bool)
    ensures Occurrences(a + b, p) == Occurrences(a, p) + Occurrences(b, p)
  {
    if a == [] {
      assert a + b == b;
    } else {
      assert (a + b)[1..] == a[1..] + b;
      OccurrencesAppend(a[1..], b, p);
    }
  }

  /** A process stops at its first `process.exit`: nothing follows an Exit. */
  predicate StopsAtExit(t: seq<Event>) {
    forall i :: 0 <= i < |t| && t[i].Exit? ==> i == |t| - 1
  }

  /** The status passed to the first `process.exit` of the trace, or None
      when the command returns without calling it. */
  function ExitCode(t: seq<Event>): (r: Option<int>)
    ensures r.None? <==> forall i :: 0 <= i < |t| ==> !t[i].Exit?
    ensures r.Some? ==> exists i :: 0 <= i < |t| && t[i] == Exit(r.value) && forall j :: 0 <= j < i ==> !t[j].Exit?
  {
    if t == [] then None
    else if t[0].Exit? then Some(t[0].code)
    else
      assert forall i :: 0 < i < |t| ==> t[i] == t[1..][i - 1];
      ExitCode(t[1..])
  }

  lemma {:induction false} ExitCodeAppend(a: seq<Event>, b: seq<Event>)
    ensures ExitCode(a + b) == if ExitCode(a).Some? then ExitCode(a) else ExitCode(b)
  {
    if a == [] {
      assert a + b == b;
    } else {
      assert (a + b)[0] == a[0];
      assert (a + b)[1..] == a[1..] + b;
      ExitCodeAppend(a[1..], b);
    }
  }
}
