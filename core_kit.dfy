/**
 * The MPC core-kit instance the hooks drive. Its behaviour is foreign, so
 * it is a scripted stand-in: it holds the `status` and `shareDescriptions`
 * the application reads, answers each asynchronous call with the next
 * reply of its script (a reply that returns also sets the new status and
 * share descriptions; one that throws carries the error's `code`; the
 * synchronous `getKeyDetails` and `getUserInfo` consume a reply too, but
 * leave the state as it is), and keeps the log of calls that the hooks'
 * contracts speak about. `Served` states that a log is what the service
 * answered, call after call, from a given state.
 */
module CoreKit {
  import opened Wrappers

  datatype Status = NotInitialized | Initialized | RequiredShare | LoggedIn

  /** One `[factorPub, descriptions]` pair of `Object.entries(shareDescriptions)`. */
  type Entry = (string, seq<string>)

  datatype TssShareType = Device | Recovery

  /** A secp256k1 point as `Point.fromSEC1` yields it. */
  datatype Point = Point(x: nat, y: nat)

  datatype Op =
    | Init
    | EnableMfa
    | CreateFactor(shareType: TssShareType, factorKey: string, shareDescription: string)
    | DeleteFactor(pub: Point)
    | CommitChanges
    | InputFactorKey(key: nat)
    | GetDeviceFactor
    | Logout
    | GetUserInfo
    | GetKeyDetails

  /** What a call did: returned (with the state it left and its value) or threw. */
  datatype Reply =
    | Returned(status: Status, shares: seq<Entry>, value: Option<string>)
    | Threw(code: Option<int>)

  /** A call as the log records it: the operation, the state it met, and its reply. */
  datatype Call = Call(op: Op, status: Status, shares: seq<Entry>, reply: Reply)

  /** The reply the next call gets; an exhausted script answers by changing nothing. */
  function NextReply(script: seq<Reply>, status: Status, shares: seq<Entry>): (r: Reply)
    ensures script == [] ==> r == Returned(status, shares, None)
    ensures script != [] ==> r == script[0]
  {
    if script == [] then Returned(status, shares, None) else script[0]
  }

  /** `getKeyDetails` and `getUserInfo` are synchronous reads of the instance's state. */
  predicate Synchronous(op: Op)
  {
    op.GetKeyDetails? || op.GetUserInfo?
  }

  /** What the service holds: its status, its share descriptions and the replies it has yet to give. */
  datatype State = State(status: Status, shares: seq<Entry>, script: seq<Reply>)

  /**
   * The reply `op` gets in state `s`: the next reply of the script, except
   * that a synchronous read that does not throw reports the state as it is.
   */
  function Answer(op: Op, s: State): (r: Reply)
    ensures r.Threw? ==> r == NextReply(s.script, s.status, s.shares)
    ensures !Synchronous(op) ==> r == NextReply(s.script, s.status, s.shares)
    ensures Synchronous(op) && r.Returned? ==> r.status == s.status && r.shares == s.shares
  {
    var next := NextReply(s.script, s.status, s.shares);
    if Synchronous(op) && next.Returned? then Returned(s.status, s.shares, next.value) else next
  }

  /** The state after a call in state `s` got `r`: one reply fewer, and the reply's state if it returned. */
  function Step(s: State, r: Reply): State
  {
    State(if r.Returned? then r.status else s.status,
          if r.Returned? then r.shares else s.shares,
          if s.script == [] then [] else s.script[1..])
  }

  /**
   * The calls of `t`, made one after another from state `s`, each on the
   * state the one before it left, got the replies the service gives, and
   * left the service in state `s'`.
   */
  predicate Served(s: State, t: seq<Call>, s': State)
    decreases |t|
  {
    if t == [] then s' == s
    else
      && t[0].status == s.status && t[0].shares == s.shares
      && t[0].reply == Answer(t[0].op, s)
      && Served(Step(s, t[0].reply), t[1..], s')
  }

  /** Two traces served one after the other are served together. */
  lemma {:induction false} ServedAppend(s: State, a: seq<Call>, m: State, b: seq<Call>, s': State)
    requires Served(s, a, m) && Served(m, b, s')
    ensures Served(s, a + b, s')
    decreases |a|
  {
    if a == [] {
      assert a + b == b;
    } else {
      assert (a + b)[0] == a[0] && (a + b)[1..] == a[1..] + b;
      ServedAppend(Step(s, a[0].reply), a[1..], m, b, s');
    }
  }

  /** A served trace is answered by the script alone: from one state, one trace leads to one state. */
  lemma {:induction false} ServedDeterministic(s: State, t: seq<Call>, s1: State, s2: State)
    requires Served(s, t, s1) && Served(s, t, s2)
    ensures s1 == s2
    decreases |t|
  {
    if t != [] {
      ServedDeterministic(Step(s, t[0].reply), t[1..], s1, s2);
    }
  }

  /**
   * A served trace consumed the script in order: each asynchronous call got
   * the script's reply at its position (while the script lasts), and what
   * is left is the script without its first `|t|` replies.
   */
  lemma {:induction false} ServedConsumes(s: State, t: seq<Call>, s': State)
    requires Served(s, t, s')
    ensures s'.script == if |t| <= |s.script| then s.script[|t|..] else []
    ensures forall i :: 0 <= i < |t| && i < |s.script| && !Synchronous(t[i].op) ==> t[i].reply == s.script[i]
    decreases |t|
  {
    if t != [] {
      var s1 := Step(s, t[0].reply);
      ServedConsumes(s1, t[1..], s');
      forall i | 0 < i < |t| && i < |s.script| && !Synchronous(t[i].op)
        ensures t[i].reply == s.script[i]
      {
        assert t[1..][i - 1] == t[i] && s1.script[i - 1] == s.script[i];
      }
      if |t| <= |s.script| {
        assert s1.script[|t| - 1..] == s.script[|t|..];
      }
    }
  }

  /** A log that grew by `head` and then by `rest` grew by `head + rest`. */
  lemma LogGrows(before: seq<Call>, mid: seq<Call>, after: seq<Call>, head: seq<Call>, rest: seq<Call>)
    requires mid == before + head && after == mid + rest
    ensures after == before + (head + rest)
  {
    assert (before + head) + rest == before + (head + rest);
  }

  class Service {
    var status: Status
    var shareDescriptions: seq<Entry>
    var script: seq<Reply>
    var calls: seq<Call>

    /** The service's state as `Served` speaks of it. */
    function Now(): State
      reads this
    {
      State(status, shareDescriptions, script)
    }

    constructor(status0: Status, shares0: seq<Entry>, script0: seq<Reply>)
      ensures status == status0 && shareDescriptions == shares0 && script == script0 && calls == []
    {
      status, shareDescriptions, script, calls := status0, shares0, script0, [];
    }

    /** An asynchronous call: consumes one reply and, if it returned, takes on its state. */
    method Invoke(op: Op) returns (r: Reply)
      requires !Synchronous(op)
      modifies this
      ensures Served(old(Now()), [Call(op, old(status), old(shareDescriptions), r)], Now())
      ensures r == NextReply(old(script), old(status), old(shareDescriptions))
      ensures script == if old(script) == [] then [] else old(script)[1..]
      ensures r.Returned? ==> status == r.status && shareDescriptions == r.shares
      ensures r.Threw? ==> status == old(status) && shareDescriptions == old(shareDescriptions)
      ensures calls == old(calls) + [Call(op, old(status), old(shareDescriptions), r)]
    {
      r := NextReply(script, status, shareDescriptions);
      calls := calls + [Call(op, status, shareDescriptions, r)];
      if script != [] {
        script := script[1..];
      }
      if r.Returned? {
        status, shareDescriptions := r.status, r.shares;
      }
    }

    /**
     * A synchronous read (`getKeyDetails()`, `getUserInfo()`). It consumes
     * one reply of the script: a reply that throws is its error; any other
     * means it returned, with the reply's value, and left the status and
     * the share descriptions as they are.
     */
    method Query(op: Op) returns (r: Reply)
      requires Synchronous(op)
      modifies this
      ensures Served(old(Now()), [Call(op, old(status), old(shareDescriptions), r)], Now())
      ensures var next := NextReply(old(script), old(status), old(shareDescriptions));
        r == if next.Threw? then next else Returned(old(status), old(shareDescriptions), next.value)
      ensures status == old(status) && shareDescriptions == old(shareDescriptions)
      ensures script == if old(script) == [] then [] else old(script)[1..]
      ensures calls == old(calls) + [Call(op, status, shareDescriptions, r)]
    {
      var next := NextReply(script, status, shareDescriptions);
      r := if next.Threw? then next else Returned(status, shareDescriptions, next.value);
      calls := calls + [Call(op, status, shareDescriptions, r)];
      if script != [] {
        script := script[1..];
      }
    }
  }
}
