/**
 * The bounded status-poll loop of an AssemblyAI transcription job: poll, stop on
 * "completed" or "error", otherwise sleep and poll again, at most MaxAttempts times.
 *
 * `polls[j]` is the provider's reply to the j-th poll of the job.
 */
module Polling {
  import opened Common
  import opened Providers

  const MaxAttempts: nat := 30
  const PollIntervalSeconds: nat := 2

  /** A status that ends the loop: "completed" or "error". */
  predicate IsTerminal(r: PollReply)
  {
    r.Completed? || r.Errored?
  }

  /** The three ways the loop can end. */
  datatype PollOutcome = PollCompleted(text: string) | PollFailed(error: string) | PollTimedOut

  datatype Polled = Polled(outcome: PollOutcome, effects: seq<Effect>)

  /** The loop from attempt `i` up to (excluding) attempt `n`, for job `id`. */
  function PollFrom(id: string, polls: seq<PollReply>, i: nat, n: nat): Polled
    requires i <= n <= |polls|
    decreases n - i
  {
    if i == n then Polled(PollTimedOut, [])
    else if polls[i].Completed? then Polled(PollCompleted(polls[i].text), [AssemblyPoll(id)])
    else if polls[i].Errored? then Polled(PollFailed(polls[i].error), [AssemblyPoll(id)])
    else
      var rest := PollFrom(id, polls, i + 1, n);
      Polled(rest.outcome, [AssemblyPoll(id), Sleep(PollIntervalSeconds)] + rest.effects)
  }

  /** What `k` non-terminal attempts leave behind: a poll and a sleep each. */
  function Waiting(id: string, k: nat): seq<Effect>
  {
    if k == 0 then [] else Waiting(id, k - 1) + [AssemblyPoll(id), Sleep(PollIntervalSeconds)]
  }

  /**
   * After `i` attempts that all got a non-terminal reply, the loop has polled and
   * slept `i` times and the rest of the run is the loop from attempt `i`.
   */
  lemma {:induction false} PollResumesAfterWaiting(id: string, polls: seq<PollReply>, i: nat, n: nat)
    requires i <= n <= |polls|
    requires forall j :: 0 <= j < i ==> !IsTerminal(polls[j])
    ensures var rest := PollFrom(id, polls, i, n);
            PollFrom(id, polls, 0, n) == Polled(rest.outcome, Waiting(id, i) + rest.effects)
  {
    if i == 0 {
      assert Waiting(id, 0) + PollFrom(id, polls, 0, n).effects == PollFrom(id, polls, 0, n).effects;
    } else {
      PollResumesAfterWaiting(id, polls, i - 1, n);
      var rest := PollFrom(id, polls, i, n);
      assert PollFrom(id, polls, i - 1, n).effects == [AssemblyPoll(id), Sleep(PollIntervalSeconds)] + rest.effects;
      assert Waiting(id, i - 1) + ([AssemblyPoll(id), Sleep(PollIntervalSeconds)] + rest.effects)
          == Waiting(id, i) + rest.effects;
    }
  }

  /** Reference definition: the first attempt in [i, n) whose reply is terminal, or n if none is. */
  function FirstTerminal(polls: seq<PollReply>, i: nat, n: nat): (k: nat)
    requires i <= n <= |polls|
    ensures i <= k <= n
    ensures forall j :: i <= j < k ==> !IsTerminal(polls[j])
    ensures k < n ==> IsTerminal(polls[k])
    decreases n - i
  {
    if i == n || IsTerminal(polls[i]) then i else FirstTerminal(polls, i + 1, n)
  }

  /** Number of replies that are neither "completed" nor "error". */
  function CountNonTerminal(rs: seq<PollReply>): nat
  {
    if rs == [] then 0
    else (if IsTerminal(rs[0]) then 0 else 1) + CountNonTerminal(rs[1..])
  }

  /**
   * The loop ends at the first terminal reply: "completed" gives that reply's text,
   * "error" gives its error, and no terminal reply within the bound is a timeout.
   * Every attempt up to and including that reply polls once, each non-terminal one
   * sleeps PollIntervalSeconds afterwards, and nothing is polled after it.
   */
  lemma {:induction false} PollEndsAtFirstTerminal(id: string, polls: seq<PollReply>, i: nat, n: nat)
    requires i <= n <= |polls|
    ensures var p := PollFrom(id, polls, i, n);
            var k := FirstTerminal(polls, i, n);
            && p.outcome == (if k == n then PollTimedOut
                             else if polls[k].Completed? then PollCompleted(polls[k].text)
                             else PollFailed(polls[k].error))
            && PollCount(p.effects) == (if k < n then k - i + 1 else n - i)
            && SleepCount(p.effects) == k - i
            && SleptSeconds(p.effects) == PollIntervalSeconds * (k - i)
            && MurfCalls(p.effects) == []
    decreases n - i
  {
    if i < n && !IsTerminal(polls[i]) {
      var rest := PollFrom(id, polls, i + 1, n);
      PollEndsAtFirstTerminal(id, polls, i + 1, n);
      CountsDistribute([AssemblyPoll(id), Sleep(PollIntervalSeconds)], rest.effects);
    }
  }

  /**
   * The loop polls at most n - i times and sleeps exactly once for each polled
   * reply whose status was neither "completed" nor "error".
   */
  lemma {:induction false} SleepsMatchNonTerminalPolls(id: string, polls: seq<PollReply>, i: nat, n: nat)
    requires i <= n <= |polls|
    ensures var p := PollFrom(id, polls, i, n);
            && i + PollCount(p.effects) <= n
            && SleepCount(p.effects) == CountNonTerminal(polls[i .. i + PollCount(p.effects)])
    decreases n - i
  {
    var p := PollFrom(id, polls, i, n);
    if i == n {
    } else if IsTerminal(polls[i]) {
      assert polls[i .. i + 1][1..] == [];
    } else {
      var rest := PollFrom(id, polls, i + 1, n);
      SleepsMatchNonTerminalPolls(id, polls, i + 1, n);
      CountsDistribute([AssemblyPoll(id), Sleep(PollIntervalSeconds)], rest.effects);
      var m := PollCount(p.effects);
      assert m == 1 + PollCount(rest.effects);
      assert polls[i .. i + m][1..] == polls[i + 1 .. i + m];
    }
  }

  /**
   * The polling bounds of a request: at most MaxAttempts polls, one sleep of
   * PollIntervalSeconds per polled reply that was neither "completed" nor "error",
   * and so at most MaxAttempts * PollIntervalSeconds seconds asleep.
   */
  predicate PollingBounded(effects: seq<Effect>, polls: seq<PollReply>)
  {
    && PollCount(effects) <= MaxAttempts
    && PollCount(effects) <= |polls|
    && SleepCount(effects) == CountNonTerminal(polls[..PollCount(effects)])
    && SleptSeconds(effects) == PollIntervalSeconds * SleepCount(effects)
    && SleptSeconds(effects) <= MaxAttempts * PollIntervalSeconds
  }

  /** The poll loop, run from its first attempt, keeps the polling bounds. */
  lemma PollLoopIsBounded(id: string, polls: seq<PollReply>)
    requires |polls| >= MaxAttempts
    ensures PollingBounded(PollFrom(id, polls, 0, MaxAttempts).effects, polls)
  {
    PollEndsAtFirstTerminal(id, polls, 0, MaxAttempts);
    SleepsMatchNonTerminalPolls(id, polls, 0, MaxAttempts);
  }

  /** Requests before the loop that neither poll nor sleep leave the bounds as they were. */
  lemma QuietPrefixKeepsBounds(head: seq<Effect>, rest: seq<Effect>, polls: seq<PollReply>)
    requires forall e :: e in head ==> !e.AssemblyPoll? && !e.Sleep?
    requires PollingBounded(rest, polls)
    ensures PollingBounded(head + rest, polls)
  {
    NoPollingIn(head);
    CountsDistribute(head, rest);
  }
}
