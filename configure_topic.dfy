/** `heroku kafka:configure TOPIC [CLUSTER]`: whitelist the flags against the
    command's schema, reject contradictory compaction flags, make one remote
    configure call and report its outcome. */
module ConfigureTopic {
  import opened Trace

  /** One entry of the flag schema the command declares. */
  datatype FlagSpec = FlagSpec(name: string, description: string, hasValue: bool, optional: bool)

  const RetentionTime := "retention-time"
  const Compaction := "compaction"
  const NoCompaction := "no-compaction"

  /** The command's flag schema, in declaration order. */
  const Flags: seq<FlagSpec> := [
    FlagSpec(RetentionTime, "length of time messages in the topic should be retained for", true, true),
    FlagSpec(Compaction, "enables compaction on the topic if passed", false, true),
    FlagSpec(NoCompaction, "disables compaction on the topic if passed", false, true)
  ]

  function Names(specs: seq<FlagSpec>): set<string> {
    set i | 0 <= i < |specs| :: specs[i].name
  }

  lemma NamesSnoc(specs: seq<FlagSpec>, f: FlagSpec)
    ensures Names(specs + [f]) == Names(specs) + {f.name}
  {
    var s := specs + [f];
    assert s[|specs|] == f;
    assert forall i :: 0 <= i < |specs| ==> s[i] == specs[i];
  }

  /** The value a recognised flag is copied as: `retention-time` goes through
      the duration parser, the others are copied unchanged. */
  function Transform(name: string, value: Value, parse: Value -> Value): Value {
    if name == RetentionTime then parse(value) else value
  }

  /** The flags among `names` that are defined, each transformed. */
  function Copied(flags: map<string, Value>, parse: Value -> Value, names: set<string>): map<string, Value> {
    map k | k in flags && k in names :: Transform(k, flags[k], parse)
  }

  lemma CopiedAdd(flags: map<string, Value>, parse: Value -> Value, names: set<string>, n: string)
    ensures Copied(flags, parse, names + {n}) ==
      if n in flags then Copied(flags, parse, names)[n := Transform(n, flags[n], parse)]
      else Copied(flags, parse, names)
  {
  }

  /** What extractFlags returns when it does not exit: the declarative filter
      of the flags against the schema. */
  function Whitelist(flags: map<string, Value>, parse: Value -> Value): (out: map<string, Value>)
    ensures out.Keys == flags.Keys * {RetentionTime, Compaction, NoCompaction}
    ensures forall k :: k in out && k != RetentionTime ==> out[k] == flags[k]
    ensures RetentionTime in out ==> out[RetentionTime] == parse(flags[RetentionTime])
  {
    assert Flags[0].name == RetentionTime && Flags[1].name == Compaction && Flags[2].name == NoCompaction;
    assert Names(Flags) == {RetentionTime, Compaction, NoCompaction};
    Copied(flags, parse, Names(Flags))
  }

  /** The guard of extractFlags as written: it tests the raw flag value, not
      the parser's result, so only an explicit `null` is refused. */
  predicate RetentionUnparsable(flags: map<string, Value>) {
    RetentionTime in flags && flags[RetentionTime] == Null
  }

  /** The outcome of extractFlags: the whitelisted map, or the error report
      and `process.exit(1)` for the value it could not parse. That value is
      always `null` (the guard admits nothing else); it is kept because the
      error message quotes it. */
  datatype Extraction = Extracted(out: map<string, Value>) | Unparsable(value: Value)

  /** extractFlags as a value: it exits exactly on a `null` retention time,
      and otherwise yields only schema keys. */
  function Extract(flags: map<string, Value>, parse: Value -> Value): (r: Extraction)
    ensures r.Unparsable? <==> RetentionTime in flags && flags[RetentionTime] == Null
    ensures r.Unparsable? ==> r.value == Null
    ensures r.Extracted? ==> r.out.Keys <= {RetentionTime, Compaction, NoCompaction}
  {
    if RetentionUnparsable(flags) then Unparsable(Null) else Extracted(Whitelist(flags, parse))
  }

  /** extractFlags: one pass over the schema that copies each defined,
      recognised flag into `out`. */
  method ExtractFlags(contextFlags: map<string, Value>, parse: Value -> Value) returns (r: Extraction)
    ensures r == Extract(contextFlags, parse)
  {
    var out: map<string, Value> := map[];
    var i := 0;
    while i < |Flags|
      invariant 0 <= i <= |Flags|
      invariant out == Copied(contextFlags, parse, Names(Flags[..i]))
      invariant i > 0 ==> !RetentionUnparsable(contextFlags)
    {
      var flag := Flags[i];
      NamesSnoc(Flags[..i], flag);
      assert Flags[..i + 1] == Flags[..i] + [flag];
      CopiedAdd(contextFlags, parse, Names(Flags[..i]), flag.name);
      if flag.name in contextFlags {
        var value := contextFlags[flag.name];
        if flag.name == RetentionTime {
          var parsed := parse(value);
          if value == Null {
            return Unparsable(value);
          }
          value := parsed;
        }
        out := out[flag.name := value];
      }
      i := i + 1;
    }
    assert Flags[..i] == Flags;
    r := Extracted(out);
  }

  /** The header line: the cluster is named only when the argument is truthy. */
  function Header(topic: string, cluster: Option<string>): Message {
    if ArgGiven(cluster) then ConfiguringOn(topic, cluster.value) else Configuring(topic)
  }

  /** The report after the remote call; the failure branch does not exit. */
  function Report(topic: string, remote: Value): seq<Event> {
    if Truthy(remote) then [Stdout(Newline), Stderr(Failure(remote))]
    else [Stdout(Done), Stdout(MonitorHint(topic))]
  }

  /** configureTopic: the events of one invocation, given the flags, the
      positional arguments, the duration parser and the remote result. */
  function ConfigureTopic(flags: map<string, Value>, topic: string, cluster: Option<string>,
                          parse: Value -> Value, remote: Value): (t: seq<Event>)
    ensures |t| > 0 && StopsAtExit(t)
    ensures t[0] == Stderr(BothCompactionFlags) <==> FlagSet(flags, Compaction) && FlagSet(flags, NoCompaction)
    ensures t[|t| - 1].Exit? <==>
      (FlagSet(flags, Compaction) && FlagSet(flags, NoCompaction)) || RetentionUnparsable(flags)
  {
    if FlagSet(flags, NoCompaction) && FlagSet(flags, Compaction) then
      [Stderr(BothCompactionFlags), Exit(1)]
    else
      [Stdout(Header(topic, cluster))] +
      match Extract(flags, parse)
      case Unparsable(v) => [Stderr(CannotParseRetention(v)), Exit(1)]
      case Extracted(out) => [CallConfigure(cluster, topic, out)] + Report(topic, remote)
  }

  // Properties of the flag extraction.

  /** A flag is dropped exactly when it is outside the schema or undefined;
      `compaction` and `no-compaction` are copied unchanged. */
  lemma {:induction false} WhitelistKeeps(flags: map<string, Value>, parse: Value -> Value, k: string)
    ensures k in Whitelist(flags, parse) <==> k in flags && k in Names(Flags)
    ensures k in flags && (k == Compaction || k == NoCompaction) ==> Whitelist(flags, parse)[k] == flags[k]
  {
    assert Flags[0].name == RetentionTime && Flags[1].name == Compaction && Flags[2].name == NoCompaction;
    assert Names(Flags) == {RetentionTime, Compaction, NoCompaction};
  }

  /** Only an explicit `null` retention time aborts the extraction; any
      other defined value, including one the parser rejects, yields the
      parser's result in the output. */
  lemma ExtractAbortsOnlyOnNull(flags: map<string, Value>, parse: Value -> Value)
    ensures Extract(flags, parse).Unparsable? <==> RetentionTime in flags && flags[RetentionTime] == Null
    ensures RetentionTime in flags && flags[RetentionTime] != Null ==>
      Extract(flags, parse).Extracted? && Extract(flags, parse).out[RetentionTime] == parse(flags[RetentionTime])
  {
  }

  /** The quirk of the guard: a string the parser cannot read (it returns
      null) is passed on as null instead of being reported. */
  lemma UnparsableStringPassesThrough(flags: map<string, Value>, parse: Value -> Value, s: string)
    requires RetentionTime in flags && flags[RetentionTime] == Str(s)
    requires parse(Str(s)) == Null
    ensures Extract(flags, parse).Extracted?
    ensures Extract(flags, parse).out[RetentionTime] == Null
  {
  }

  // Properties of the command.

  /** Both compaction flags truthy: an error and exit 1, before the header,
      before the flags are extracted and before any remote call. */
  lemma ConfigureRejectsBothCompactions(flags: map<string, Value>, topic: string, cluster: Option<string>,
                                        parse: Value -> Value, remote: Value)
    requires FlagSet(flags, Compaction) && FlagSet(flags, NoCompaction)
    ensures ConfigureTopic(flags, topic, cluster, parse, remote) == [Stderr(BothCompactionFlags), Exit(1)]
    ensures Occurrences(ConfigureTopic(flags, topic, cluster, parse, remote), IsConfigureCall) == 0
    ensures ExitCode(ConfigureTopic(flags, topic, cluster, parse, remote)) == Some(1)
  {
  }

  /** Otherwise the first event is the header, which names the cluster
      exactly when the cluster argument is truthy. */
  lemma ConfigureHeader(flags: map<string, Value>, topic: string, cluster: Option<string>,
                        parse: Value -> Value, remote: Value)
    requires !(FlagSet(flags, Compaction) && FlagSet(flags, NoCompaction))
    ensures var t := ConfigureTopic(flags, topic, cluster, parse, remote);
      |t| > 0 &&
      (ArgGiven(cluster) ==> t[0] == Stdout(ConfiguringOn(topic, cluster.value))) &&
      (!ArgGiven(cluster) ==> t[0] == Stdout(Configuring(topic)))
  {
  }

  /** The remote configure call is made once exactly when neither check
      fails, and it always carries the cluster, the topic and the
      whitelisted flags. */
  lemma {:induction false} ConfigureCallsOnce(flags: map<string, Value>, topic: string, cluster: Option<string>,
                                              parse: Value -> Value, remote: Value)
    ensures var t := ConfigureTopic(flags, topic, cluster, parse, remote);
      Occurrences(t, IsConfigureCall) ==
        (if !(FlagSet(flags, Compaction) && FlagSet(flags, NoCompaction)) && !RetentionUnparsable(flags) then 1 else 0)
    ensures var t := ConfigureTopic(flags, topic, cluster, parse, remote);
      forall i :: 0 <= i < |t| && t[i].CallConfigure? ==> t[i] == CallConfigure(cluster, topic, Whitelist(flags, parse))
  {
    var t := ConfigureTopic(flags, topic, cluster, parse, remote);
    if !(FlagSet(flags, Compaction) && FlagSet(flags, NoCompaction)) {
      var head := [Stdout(Header(topic, cluster))];
      if RetentionUnparsable(flags) {
        var tail := [Stderr(CannotParseRetention(Null)), Exit(1)];
        assert t == head + tail;
        OccurrencesAppend(head, tail, IsConfigureCall);
      } else {
        var call := [CallConfigure(cluster, topic, Whitelist(flags, parse))];
        var report := Report(topic, remote);
        assert t == head + (call + report);
        OccurrencesAppend(head, call + report, IsConfigureCall);
        OccurrencesAppend(call, report, IsConfigureCall);
      }
    }
  }

  /** The exit status: 1 for either rejected input; otherwise the command
      returns without calling process.exit, on success and on a remote
      failure alike. Nothing is written after an exit. */
  lemma {:induction false} ConfigureExitCode(flags: map<string, Value>, topic: string, cluster: Option<string>,
                                             parse: Value -> Value, remote: Value)
    ensures var t := ConfigureTopic(flags, topic, cluster, parse, remote);
      ExitCode(t) ==
        if (FlagSet(flags, Compaction) && FlagSet(flags, NoCompaction)) || RetentionUnparsable(flags)
        then Some(1) else None
    ensures StopsAtExit(ConfigureTopic(flags, topic, cluster, parse, remote))
  {
    var t := ConfigureTopic(flags, topic, cluster, parse, remote);
    if !(FlagSet(flags, Compaction) && FlagSet(flags, NoCompaction)) {
      var head := [Stdout(Header(topic, cluster))];
      if RetentionUnparsable(flags) {
        var tail := [Stderr(CannotParseRetention(Null)), Exit(1)];
        assert t == head + tail;
        ExitCodeAppend(head, tail);
      }
    }
  }

  /** A `null` retention time, once the compaction check has passed: the
      header, then the report that it cannot be parsed, then exit 1. */
  lemma ConfigureRejectsNullRetention(flags: map<string, Value>, topic: string, cluster: Option<string>,
                                      parse: Value -> Value, remote: Value)
    requires !(FlagSet(flags, Compaction) && FlagSet(flags, NoCompaction))
    requires RetentionTime in flags && flags[RetentionTime] == Null
    ensures ConfigureTopic(flags, topic, cluster, parse, remote) ==
      [Stdout(Header(topic, cluster)), Stderr(CannotParseRetention(Null)), Exit(1)]
  {
  }

  /** When the call is made, the trace is the header, the call and the
      report: on a truthy remote error a newline and the error, otherwise
      " done." and the hint to monitor the topic. */
  lemma ConfigureReports(flags: map<string, Value>, topic: string, cluster: Option<string>,
                         parse: Value -> Value, remote: Value)
    requires !(FlagSet(flags, Compaction) && FlagSet(flags, NoCompaction))
    requires !RetentionUnparsable(flags)
    ensures var t := ConfigureTopic(flags, topic, cluster, parse, remote);
      && |t| == 4
      && t[1] == CallConfigure(cluster, topic, Whitelist(flags, parse))
      && (Truthy(remote) ==> t[2..] == [Stdout(Newline), Stderr(Failure(remote))])
      && (!Truthy(remote) ==> t[2..] == [Stdout(Done), Stdout(MonitorHint(topic))])
  {
  }

  /** `configure page-visits --retention-time "1 day"` with a remote call
      that resolves to null ends with " done." and the hint, and no exit. */
  lemma ScenarioRetentionDay(parse: Value -> Value)
    ensures var t := ConfigureTopic(map[RetentionTime := Str("1 day")], "page-visits", None, parse, Null);
      t == [Stdout(Configuring("page-visits")),
            CallConfigure(None, "page-visits", map[RetentionTime := parse(Str("1 day"))]),
            Stdout(Done), Stdout(MonitorHint("page-visits"))]
  {
    var flags := map[RetentionTime := Str("1 day")];
    var out := Whitelist(flags, parse);
    assert out.Keys == {RetentionTime};
    assert out == map[RetentionTime := parse(Str("1 day"))];
  }
}
