/**
 Two loops of the deployment helpers around calls that may fail: approving DEX routers, and
 verifying a contract with retries. Which calls fail is an arbitrary input.
 */
module DeploymentSteps {
  import opened Options
  import Protocol = RegistryProtocol

  /** A router, and whether sending its approval and confirming it will succeed. */
  datatype Router = Router(address: string, sendOk: bool, confirmOk: bool)

  predicate Sent(r: Router) { r.sendOk }
  predicate NotSent(r: Router) { !r.sendOk }
  predicate Confirmed(r: Router) { r.confirmOk }
  predicate NotConfirmed(r: Router) { !r.confirmOk }
  predicate Approved(r: Router) { r.sendOk && r.confirmOk }

  /** The routers that satisfy `p`, in input order. */
  function Filter(s: seq<Router>, p: Router -> bool): seq<Router> {
    if s == [] then [] else
      Filter(s[..|s| - 1], p) + (if p(s[|s| - 1]) then [s[|s| - 1]] else [])
  }

  lemma {:induction false} FilterMembers(s: seq<Router>, p: Router -> bool)
    ensures forall r :: r in Filter(s, p) <==> r in s && p(r)
  {
    if s != [] {
      assert s == s[..|s| - 1] + [s[|s| - 1]];
      FilterMembers(s[..|s| - 1], p);
    }
  }

  lemma FilterSnoc(s: seq<Router>, i: nat, p: Router -> bool)
    requires i < |s|
    ensures Filter(s[..i + 1], p) == Filter(s[..i], p) + (if p(s[i]) then [s[i]] else [])
  {
    assert s[..i + 1][..i] == s[..i];
  }

  /** Filtering twice is filtering once by both questions. */
  lemma {:induction false} FilterFilter(s: seq<Router>, p: Router -> bool, q: Router -> bool, both: Router -> bool)
    requires forall r :: both(r) <==> p(r) && q(r)
    ensures Filter(Filter(s, p), q) == Filter(s, both)
  {
    if s != [] {
      var front, last := s[..|s| - 1], s[|s| - 1];
      var inner := Filter(front, p);
      FilterFilter(front, p, q, both);
      if p(last) {
        assert Filter(s, p) == inner + [last] && (inner + [last])[..|inner|] == inner;
      } else {
        assert Filter(s, p) == inner;
      }
    }
  }

  /** A filtered list keeps the input order: its elements stand at ever higher positions of the input. */
  lemma {:induction false} FilterKeepsOrder(s: seq<Router>, p: Router -> bool) returns (at: seq<nat>)
    ensures |at| == |Filter(s, p)|
    ensures forall k :: 0 <= k < |at| ==> at[k] < |s| && s[at[k]] == Filter(s, p)[k]
    ensures forall j, k :: 0 <= j < k < |at| ==> at[j] < at[k]
    ensures forall i :: 0 <= i < |s| && p(s[i]) ==> i in at
  {
    at := [];
    if s != [] {
      var n := |s| - 1;
      at := FilterKeepsOrder(s[..n], p);
      if p(s[n]) {
        at := at + [n];
        assert at[|at| - 1] == n;
      }
    }
  }

  /** A yes/no question splits a list without loss or duplication. */
  lemma {:induction false} FilterPartitions(s: seq<Router>, p: Router -> bool, q: Router -> bool)
    requires forall r :: q(r) <==> !p(r)
    ensures multiset(s) == multiset(Filter(s, p)) + multiset(Filter(s, q))
  {
    if s != [] {
      var front, last := s[..|s| - 1], s[|s| - 1];
      FilterPartitions(front, p, q);
      assert Filter(s, p) == Filter(front, p) + (if p(last) then [last] else []);
      assert Filter(s, q) == Filter(front, q) + (if q(last) then [last] else []);
      hide Filter;
      assert s == front + [last];
      Regroup(Filter(front, p), Filter(front, q), last);
    }
  }

  lemma Regroup(yes: seq<Router>, no: seq<Router>, r: Router)
    ensures multiset(yes + [r]) + multiset(no + []) == multiset(yes) + multiset(no) + multiset{r}
    ensures multiset(yes + []) + multiset(no + [r]) == multiset(yes) + multiset(no) + multiset{r}
  {
  }

  lemma {:induction false} FilterKeepsAll(s: seq<Router>, p: Router -> bool)
    requires forall r :: r in s ==> p(r)
    ensures Filter(s, p) == s
  {
    if s != [] {
      assert s == s[..|s| - 1] + [s[|s| - 1]];
      FilterKeepsAll(s[..|s| - 1], p);
    }
  }

  datatype Approval = Approval(succeeded: seq<Router>, failed: seq<Router>)

  /** Sends every approval, in order; stops at the first failure unless told to continue. */
  method SendApprovals(routers: seq<Router>, continueOnError: bool)
    returns (pending: seq<Router>, failed: seq<Router>, threw: bool)
    ensures threw <==> !continueOnError && exists r :: r in routers && !r.sendOk
    ensures !threw ==> pending == Filter(routers, Sent) && failed == Filter(routers, NotSent)
  {
    pending, failed, threw := [], [], false;
    for i := 0 to |routers|
      invariant pending == Filter(routers[..i], Sent)
      invariant failed == Filter(routers[..i], NotSent)
      invariant !continueOnError ==> failed == []
    {
      FilterSnoc(routers, i, Sent);
      FilterSnoc(routers, i, NotSent);
      if routers[i].sendOk {
        pending := pending + [routers[i]];
      } else {
        failed := failed + [routers[i]];
        if !continueOnError {
          threw := true;
          return;
        }
      }
    }
    assert routers[..|routers|] == routers;
    FilterMembers(routers, NotSent);
  }

  /** Goes through the settled confirmations, in the order of the sends. */
  method SettleApprovals(pending: seq<Router>, failedBefore: seq<Router>, continueOnError: bool)
    returns (succeeded: seq<Router>, failed: seq<Router>, threw: bool)
    ensures threw <==> !continueOnError && exists r :: r in pending && !r.confirmOk
    ensures !threw ==> succeeded == Filter(pending, Confirmed) && failed == failedBefore + Filter(pending, NotConfirmed)
  {
    succeeded, failed, threw := [], failedBefore, false;
    for i := 0 to |pending|
      invariant succeeded == Filter(pending[..i], Confirmed)
      invariant failed == failedBefore + Filter(pending[..i], NotConfirmed)
      invariant !continueOnError ==> Filter(pending[..i], NotConfirmed) == []
    {
      FilterSnoc(pending, i, Confirmed);
      FilterSnoc(pending, i, NotConfirmed);
      if pending[i].confirmOk {
        succeeded := succeeded + [pending[i]];
      } else {
        failed := failed + [pending[i]];
        if !continueOnError {
          threw := true;
          return;
        }
      }
    }
    assert pending[..|pending|] == pending;
    FilterMembers(pending, NotConfirmed);
  }

  /**
   With continueOnError every router ends up in exactly one of the two lists, succeeded keeps
   the input order, and a router succeeds exactly when both its send and its confirmation did;
   without it the call returns normally if and only if every router succeeded. None is the
   thrown error.
   */
  method ApproveRouters(routers: seq<Router>, continueOnError: bool) returns (result: Option<Approval>)
    ensures result.Some? <==> continueOnError || forall r :: r in routers ==> Approved(r)
    ensures result.Some? ==> result.value.succeeded == Filter(routers, Approved)
    ensures result.Some? ==>
              result.value.failed == Filter(routers, NotSent) + Filter(Filter(routers, Sent), NotConfirmed)
    ensures result.Some? ==> multiset(result.value.succeeded) + multiset(result.value.failed) == multiset(routers)
    ensures result.Some? ==> forall r :: r in result.value.failed ==> !Approved(r)
    ensures result.Some? && !continueOnError ==> result.value == Approval(routers, [])
  {
    hide Filter;
    var pending, unsent, threw := SendApprovals(routers, continueOnError);
    if threw {
      return None;
    }
    FilterMembers(routers, Sent);
    var succeeded, failed, alsoThrew := SettleApprovals(pending, unsent, continueOnError);
    if alsoThrew {
      return None;
    }
    Accounting(routers);
    if !continueOnError {
      AllApproved(routers);
    }
    result := Some(Approval(succeeded, failed));
  }

  /** The two lists together are the input, and what failed was not approved. */
  lemma Accounting(routers: seq<Router>)
    ensures var pending := Filter(routers, Sent);
            var failed := Filter(routers, NotSent) + Filter(pending, NotConfirmed);
            && Filter(pending, Confirmed) == Filter(routers, Approved)
            && multiset(Filter(pending, Confirmed)) + multiset(failed) == multiset(routers)
            && (forall r :: r in failed ==> !Approved(r))
  {
    hide Filter;
    var pending := Filter(routers, Sent);
    FilterMembers(routers, NotSent);
    FilterMembers(pending, NotConfirmed);
    FilterPartitions(routers, Sent, NotSent);
    FilterPartitions(pending, Confirmed, NotConfirmed);
    FilterFilter(routers, Sent, Confirmed, Approved);
  }

  lemma AllApproved(routers: seq<Router>)
    requires forall r :: r in routers ==> r.sendOk
    requires forall r :: r in Filter(routers, Sent) ==> r.confirmOk
    ensures forall r :: r in routers ==> Approved(r)
    ensures Filter(routers, Approved) == routers
    ensures Filter(routers, NotSent) + Filter(Filter(routers, Sent), NotConfirmed) == []
  {
    hide Filter;
    FilterMembers(routers, Sent);
    FilterMembers(routers, NotSent);
    FilterMembers(Filter(routers, Sent), NotConfirmed);
    FilterKeepsAll(routers, Approved);
    FirstIsMember(Filter(routers, NotSent));
    FirstIsMember(Filter(Filter(routers, Sent), NotConfirmed));
  }

  lemma FirstIsMember(s: seq<Router>)
    ensures s != [] ==> exists r :: r in s
  {
    if s != [] {
      assert s[0] in s;
    }
  }

  // ---------------------------------------------------------------------------
  // Verification with retries
  // ---------------------------------------------------------------------------

  datatype Attempt = Verified | AlreadyVerified | Failed(retryable: bool)

  predicate Accepts(a: Attempt) {
    a.Verified? || a.AlreadyVerified?
  }

  const RETRY_DELAY: nat := 10000

  /**
   The retry loop over the answers of the block explorer. It succeeds exactly when some attempt
   within the limit succeeds after retryable failures only; r retries have slept
   10000 * (2^r - 1) ms in total.
   */
  method VerifyContractWithRetry(answers: seq<Attempt>, maxRetries: nat) returns (ok: bool, slept: nat, retries: nat)
    requires |answers| == maxRetries
    ensures ok <==> exists k :: 0 <= k < maxRetries && (answers[k] == Verified || answers[k] == AlreadyVerified) &&
                                forall j :: 0 <= j < k ==> answers[j] == Failed(true)
    ensures slept == 10000 * (Protocol.Pow2(retries) - 1)
    ensures retries <= maxRetries && (maxRetries > 0 ==> retries < maxRetries)
    ensures forall j :: 0 <= j < retries ==> answers[j] == Failed(true)
    ensures ok ==> maxRetries > 0 && !answers[retries].Failed?
    ensures !ok && maxRetries > 0 ==>
              answers[retries].Failed? && (answers[retries].retryable ==> retries == maxRetries - 1)
  {
    slept, retries := 0, 0;
    var attempt := 1;
    while attempt <= maxRetries
      invariant 1 <= attempt <= maxRetries + 1
      invariant maxRetries > 0 ==> attempt <= maxRetries && retries == attempt - 1
      invariant maxRetries == 0 ==> retries == 0
      invariant slept == RETRY_DELAY * (Protocol.Pow2(retries) - 1)
      invariant forall j :: 0 <= j < retries ==> answers[j] == Failed(true)
    {
      var answer := answers[attempt - 1];
      if Accepts(answer) {
        ok := true;
        return;
      }
      if !answer.retryable || attempt == maxRetries {
        ok := false;
        return;
      }
      slept := slept + Protocol.Pow2(attempt - 1) * RETRY_DELAY;
      retries := retries + 1;
      attempt := attempt + 1;
    }
    ok := false;
  }
}
