/** Waiting on a remote export job. The tool polls in an unbounded loop;
    here the loop runs over the finite sequence of observations the server
    gave, each already classified as a verdict or as the exception raised
    while fetching it. */
module Polling {
  import opened Values

  datatype Verdict = Succeeded | Failed | Pending

  /** Where the wait stopped: the index of the terminal observation and
      whether it reported success. */
  datatype Stop = Stop(index: nat, success: bool)

  predicate AllPending(obs: seq<Result<Verdict>>) {
    forall i | 0 <= i < |obs| :: obs[i] == Ok(Pending)
  }

  /** Every reply of a poll loop, classified by `classify`. */
  function ClassifyAll<T>(polls: seq<T>, classify: T -> Result<Verdict>): (r: seq<Result<Verdict>>)
    ensures |r| == |polls|
    ensures forall i | 0 <= i < |polls| :: r[i] == classify(polls[i])
  {
    seq(|polls|, i requires 0 <= i < |polls| => classify(polls[i]))
  }

  /** The poll loop: skip pending observations, stop at the first terminal
      one, propagate the first exception; still polling if none came. */
  function Await(obs: seq<Result<Verdict>>): (r: Outcome<Stop>)
    ensures r.Done? ==>
      && r.value.index < |obs|
      && AllPending(obs[..r.value.index])
      && obs[r.value.index] == Ok(if r.value.success then Succeeded else Failed)
    ensures r.Raised? ==>
      exists i | 0 <= i < |obs| :: AllPending(obs[..i]) && obs[i] == Err(r.error)
    ensures r.Polling? <==> AllPending(obs)
  {
    if obs == [] then Polling
    else match obs[0]
      case Err(e) =>
        assert AllPending(obs[..0]);
        Raised(e)
      case Ok(Succeeded) =>
        assert AllPending(obs[..0]);
        Done(Stop(0, true))
      case Ok(Failed) =>
        assert AllPending(obs[..0]);
        Done(Stop(0, false))
      case Ok(Pending) =>
        var rest := Await(obs[1..]);
        match rest
        case Done(stop) =>
          PendingHead(obs, stop.index);
          Done(Stop(stop.index + 1, stop.success))
        case Raised(e) =>
          var i :| 0 <= i < |obs[1..]| && AllPending(obs[1..][..i]) && obs[1..][i] == Err(e);
          PendingHead(obs, i);
          Raised(e)
        case Polling =>
          PendingHead(obs, |obs| - 1);
          assert obs[..|obs|] == obs;
          Polling
  }

  /** The converse of Await: the first observation that is not pending
      decides the wait, an exception raising it and a verdict ending it. */
  lemma {:induction false} AwaitStopsAt(obs: seq<Result<Verdict>>, i: nat)
    requires i < |obs| && AllPending(obs[..i]) && obs[i] != Ok(Pending)
    ensures obs[i].Err? ==> Await(obs) == Raised(obs[i].error)
    ensures obs[i].Ok? ==> Await(obs) == Done(Stop(i, obs[i].value == Succeeded))
  {
    if i > 0 {
      assert obs[0] == obs[..i][0];
      assert obs[1..][..i - 1] == obs[..i][1..];
      AwaitStopsAt(obs[1..], i - 1);
    }
  }

  /** A pending head extends a pending prefix of the tail by one. */
  lemma PendingHead(obs: seq<Result<Verdict>>, k: nat)
    requires 0 < |obs| && obs[0] == Ok(Pending) && k < |obs|
    ensures AllPending(obs[..k + 1]) <==> AllPending(obs[1..][..k])
  {
    assert obs[..k + 1] == [obs[0]] + obs[1..][..k];
  }
}
