/** `heroku kafka:delete TOPIC [CLUSTER]`: a confirmation gate in front of one
    remote delete call, whose outcome decides the exit status. */
module DeleteTopic {
  import opened Trace

  const Confirm := "confirm"

  /** `--confirm` strictly equals the topic name. A missing flag reads as
      `undefined`, which never equals a string. */
  predicate ConfirmedUpFront(flags: map<string, Value>, topic: string) {
    Confirm in flags && flags[Confirm] == Str(topic)
  }

  /** doDeletion: the remote call is issued, then the "Deleting topic" line
      is written, and the process always exits: 1 on a truthy error, 0
      otherwise. */
  function DoDeletion(topic: string, cluster: Option<string>, remote: Value): (t: seq<Event>)
    ensures |t| == 5 && StopsAtExit(t)
    ensures t[0] == CallDelete(cluster, topic)
    ensures t[|t| - 1] == Exit(if Truthy(remote) then 1 else 0)
  {
    [CallDelete(cluster, topic), Stdout(Deleting(topic))] +
    if Truthy(remote) then [Stdout(Newline), Stderr(Failure(remote)), Exit(1)]
    else [Stdout(Done), Stdout(MarkedForDeletion), Exit(0)]
  }

  /** deleteTopic: the events of one invocation, given the flags, the
      positional arguments, the line typed at the prompt and the remote
      result. */
  function DeleteTopic(flags: map<string, Value>, topic: string, cluster: Option<string>,
                       response: string, remote: Value): (t: seq<Event>)
    ensures |t| > 0 && StopsAtExit(t) && t[|t| - 1].Exit?
    ensures Prompt in t <==> !ConfirmedUpFront(flags, topic)
  {
    if ConfirmedUpFront(flags, topic) then
      DoDeletion(topic, cluster, remote)
    else
      [Stdout(DestructiveWarning(cluster, topic)), Prompt] +
      if response == topic then DoDeletion(topic, cluster, remote)
      else [Stdout(ConfirmationMismatch(topic)), Exit(1)]
  }

  /** The deletion goes ahead when `--confirm` matches or, failing that,
      when the typed answer matches. */
  predicate Confirmed(flags: map<string, Value>, topic: string, response: string) {
    ConfirmedUpFront(flags, topic) || response == topic
  }

  // Properties of doDeletion.

  /** doDeletion calls the remote delete once, with the cluster and topic,
      before anything is written, and always ends in an exit whose status
      reflects the remote result. */
  lemma {:induction false} DoDeletionOutcome(topic: string, cluster: Option<string>, remote: Value)
    ensures var t := DoDeletion(topic, cluster, remote);
      && t[0] == CallDelete(cluster, topic)
      && t[1] == Stdout(Deleting(topic))
      && Occurrences(t, IsDeleteCall) == 1
      && t[|t| - 1] == Exit(if Truthy(remote) then 1 else 0)
      && StopsAtExit(t)
      && ExitCode(t) == Some(if Truthy(remote) then 1 else 0)
  {
    var t := DoDeletion(topic, cluster, remote);
    var head := [CallDelete(cluster, topic), Stdout(Deleting(topic))];
    var tail := t[2..];
    assert t == head + tail;
    OccurrencesAppend(head, tail, IsDeleteCall);
    ExitCodeAppend(head, tail);
  }

  /** A truthy remote error is written out before the exit with status 1;
      otherwise the advisory that deletion is asynchronous precedes exit 0. */
  lemma DoDeletionReports(topic: string, cluster: Option<string>, remote: Value)
    ensures var t := DoDeletion(topic, cluster, remote);
      && |t| == 5
      && (Truthy(remote) ==> t[3] == Stderr(Failure(remote)))
      && (!Truthy(remote) ==> t[3] == Stdout(MarkedForDeletion))
  {
  }

  // Properties of the confirmation gate.

  /** A matching `--confirm` skips the warning and the prompt. */
  lemma {:induction false} ConfirmFlagSkipsPrompt(flags: map<string, Value>, topic: string, cluster: Option<string>,
                                                  response: string, remote: Value)
    requires ConfirmedUpFront(flags, topic)
    ensures DeleteTopic(flags, topic, cluster, response, remote) == DoDeletion(topic, cluster, remote)
    ensures Occurrences(DeleteTopic(flags, topic, cluster, response, remote), IsPrompt) == 0
  {
    var t := DoDeletion(topic, cluster, remote);
    assert forall i :: 0 <= i < |t| ==> !t[i].Prompt?;
  }

  /** Without a matching `--confirm` the warning naming the cluster and the
      topic is written and the prompt is issued before anything else. */
  lemma WarnsThenPrompts(flags: map<string, Value>, topic: string, cluster: Option<string>,
                         response: string, remote: Value)
    requires !ConfirmedUpFront(flags, topic)
    ensures var t := DeleteTopic(flags, topic, cluster, response, remote);
      |t| > 2 && t[0] == Stdout(DestructiveWarning(cluster, topic)) && t[1] == Prompt
  {
  }

  /** A wrong answer aborts with status 1 and the remote delete is never
      called. */
  lemma {:induction false} MismatchAborts(flags: map<string, Value>, topic: string, cluster: Option<string>,
                                          response: string, remote: Value)
    requires !ConfirmedUpFront(flags, topic) && response != topic
    ensures var t := DeleteTopic(flags, topic, cluster, response, remote);
      && t == [Stdout(DestructiveWarning(cluster, topic)), Prompt, Stdout(ConfirmationMismatch(topic)), Exit(1)]
      && Occurrences(t, IsDeleteCall) == 0
      && ExitCode(t) == Some(1)
  {
    var t := DeleteTopic(flags, topic, cluster, response, remote);
    assert forall i :: 0 <= i < |t| ==> !t[i].CallDelete?;
    var head := [Stdout(DestructiveWarning(cluster, topic)), Prompt, Stdout(ConfirmationMismatch(topic))];
    assert forall i :: 0 <= i < |head| ==> !head[i].Exit?;
    assert t == head + [Exit(1)];
    ExitCodeAppend(head, [Exit(1)]);
  }

  /** The remote delete is called exactly once when the deletion is
      confirmed and never otherwise, and every call is for this cluster and
      this topic. Each call is directly followed by the "Deleting topic"
      line. */
  lemma {:induction false} DeleteCalledIffConfirmed(flags: map<string, Value>, topic: string, cluster: Option<string>,
                                                    response: string, remote: Value)
    ensures var t := DeleteTopic(flags, topic, cluster, response, remote);
      Occurrences(t, IsDeleteCall) == if Confirmed(flags, topic, response) then 1 else 0
    ensures var t := DeleteTopic(flags, topic, cluster, response, remote);
      forall i :: 0 <= i < |t| && t[i].CallDelete? ==>
        t[i] == CallDelete(cluster, topic) && i + 1 < |t| && t[i + 1] == Stdout(Deleting(topic))
  {
    var t := DeleteTopic(flags, topic, cluster, response, remote);
    var d := DoDeletion(topic, cluster, remote);
    DoDeletionOutcome(topic, cluster, remote);
    assert forall i :: 2 <= i < |d| ==> !d[i].CallDelete?;
    if !ConfirmedUpFront(flags, topic) {
      var head := [Stdout(DestructiveWarning(cluster, topic)), Prompt];
      if response == topic {
        assert t == head + d;
        OccurrencesAppend(head, d, IsDeleteCall);
      } else {
        MismatchAborts(flags, topic, cluster, response, remote);
      }
    }
  }

  /** Every invocation ends in process.exit, and nothing follows it: status
      0 only when the deletion was confirmed and the remote result is not a
      truthy error, 1 in every other case. */
  lemma {:induction false} DeleteExitCode(flags: map<string, Value>, topic: string, cluster: Option<string>,
                                          response: string, remote: Value)
    ensures var t := DeleteTopic(flags, topic, cluster, response, remote);
      ExitCode(t) == Some(if Confirmed(flags, topic, response) && !Truthy(remote) then 0 else 1)
    ensures StopsAtExit(DeleteTopic(flags, topic, cluster, response, remote))
  {
    var t := DeleteTopic(flags, topic, cluster, response, remote);
    var d := DoDeletion(topic, cluster, remote);
    DoDeletionOutcome(topic, cluster, remote);
    if !ConfirmedUpFront(flags, topic) {
      var head := [Stdout(DestructiveWarning(cluster, topic)), Prompt];
      if response == topic {
        assert t == head + d;
        ExitCodeAppend(head, d);
      } else {
        MismatchAborts(flags, topic, cluster, response, remote);
      }
    }
  }

  /** `delete page-visits --confirm page-visits` against a remote call that
      fails with "boom": no prompt, the error is reported, exit 1. */
  lemma ScenarioConfirmedFailure()
    ensures DeleteTopic(map[Confirm := Str("page-visits")], "page-visits", None, "", Str("boom")) ==
      [CallDelete(None, "page-visits"), Stdout(Deleting("page-visits")),
       Stdout(Newline), Stderr(Failure(Str("boom"))), Exit(1)]
  {
  }
}
