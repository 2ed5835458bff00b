/** Invoking a remote behaviour: a reply name drawn from the nonce, a one-shot registration for it, and
    what is left of that registration when sending fails. */
module Invocations {
  import opened Envelopes
  import opened Decimals
  import opened Kernels
  import opened Dispatching
  import opened ActorSystem
  import opened KernelDispatch
  import opened KernelFates

  const TWO64: int := 0x1_0000_0000_0000_0000

  /** The nonce is a 64-bit counter that wraps around. */
  function NonceAfter(nonce: int, draws: nat): int {
    (nonce + draws) % TWO64
  }

  function ReplyName(nonce: nat): string {
    "/dms/actor/replyto/" + Digits(nonce)
  }

  function ReplyOptions(name: string, expire: nat): Options {
    DefaultOptions(name).(expire := expire, oneShot := true)
  }

  class Invoker {
    const dispatch: Dispatch
    var nonce: int

    ghost predicate Valid()
      reads this, dispatch
    {
      0 <= nonce < TWO64 && dispatch.Valid()
    }

    constructor (dispatch: Dispatch, nonce: int)
      requires 0 <= nonce < TWO64 && dispatch.Valid()
      ensures Valid() && this.dispatch == dispatch && this.nonce == nonce
    {
      this.dispatch, this.nonce := dispatch, nonce;
    }

    method Nonce() returns (n: nat)
      requires Valid()
      modifies this
      ensures Valid() && n == old(nonce) && nonce == NonceAfter(old(nonce), 1)
    {
      n := nonce;
      nonce := if nonce == TWO64 - 1 then 0 else nonce + 1;
    }

    /** A new security context brings its own nonce. */
    method UpdateSecurityContext(sctx: SecurityContext, nonce: int)
      requires Valid() && 0 <= nonce < TWO64 && !Locked(dispatch.View())
      modifies this, dispatch
      ensures Valid() && this.nonce == nonce
      ensures dispatch.View() == old(dispatch.View()).(sctx := sctx)
    {
      this.nonce := nonce;
      dispatch.UpdateSecurityContext(sctx);
    }

    /** An invocation begins: the reply behaviour is registered, under the preset name or, when that is
        empty, under one drawn from the nonce. Sending comes next, outside the lock. */
    method Register(replyTo: string, cont: nat, expire: nat) returns (name: string)
      requires Valid() && !Locked(dispatch.View())
      modifies this, dispatch
      ensures Valid()
      ensures name == if replyTo == "" then ReplyName(old(nonce)) else replyTo
      ensures nonce == NonceAfter(old(nonce), if replyTo == "" then 1 else 0)
      ensures dispatch.View() == AddBehavior(old(dispatch.View()), name, cont, ReplyOptions(name, expire))
      ensures && name in dispatch.behaviors
              && var reg := dispatch.behaviors[name];
              reg.oneShot && reg.capability == [name] && reg.expire == expire && reg.topic == "" && reg.cont == cont
    {
      name := replyTo;
      if replyTo == "" {
        var n := Nonce();
        name := ReplyName(n);
      }
      dispatch.AddBehavior(name, cont, Options([name], expire, true, ""));
    }

    /** Sending failed: the reply behaviour is removed. */
    method Abandon(name: string)
      requires Valid() && !Locked(dispatch.View())
      modifies dispatch
      ensures Valid() && dispatch.View() == RemoveBehavior(old(dispatch.View()), name)
    {
      dispatch.RemoveBehavior(name);
    }
  }

  /** The invocation's own handler is registered once, and only as an invocation registers it. */
  ghost predicate InvokedOnce(acts: seq<Action>, a: nat, name: string, cont: nat, expire: nat) {
    && Registrations(acts, a, cont) <= 1
    && forall i | 0 <= i < |acts| && Registers(acts[i], a, cont) ::
         acts[i].move == Add(name, cont, ReplyOptions(name, expire))
  }

  /** Over every run, the handler of an invocation starts at most once, so that its channel gets at most one
      value and is never sent to after it was closed. It starts for a message to the reply name, and is
      registered with the capability of that name and the invocation's expiry. */
  lemma InvocationIsAnsweredAtMostOnce(
    s: System, acts: seq<Action>, a: nat, name: string, cont: nat, expire: nat, i: nat, j: nat)
    requires Init(s) && a in Exec(s, acts).kernels && InvokedOnce(acts, a, name, cont, expire)
    requires var started := Exec(s, acts).kernels[a].started;
             i < |started| && j < |started| && started[i].reg.cont == cont == started[j].reg.cont
    ensures i == j
    ensures var job := Exec(s, acts).kernels[a].started[i];
            && job.item.env.behavior == name
            && job.reg.capability == [name] && job.reg.expire == expire && job.reg.topic == ""
  {
    ReplyIsSentAtMostOnce(s, acts, a, cont, i, j);
    RegistrationsAreAsked(s, acts, a);
    var job := Exec(s, acts).kernels[a].started[i];
    assert JobAsked(acts, a, job);
  }

  /** Such a reply is only answered in time: its handler's message was matched no later than the
      invocation's expiry, if it has one. */
  lemma InvocationIsAnsweredInTime(
    states: seq<System>, acts: seq<Action>, a: nat, name: string, cont: nat, expire: nat, job: Job)
    requires IsRun(states, acts) && a in states[|acts|].kernels && InvokedOnce(acts, a, name, cont, expire)
    requires job in states[|acts|].kernels[a].started && job.reg.cont == cont && expire > 0
    ensures exists i: nat :: MatchedAt(states, acts, i, a, job.item, job.reg) && states[i].now <= expire
  {
    StartedHandlersAreJustified(states, acts, |acts|, a, job);
    var i := MatchOf(states, acts, a, job);
    RunIsExec(states, acts, |acts|);
    assert acts[..|acts|] == acts;
    RegistrationsAreAsked(states[0], acts, a);
    assert JobAsked(acts, a, job);
  }

  lemma MatchOf(states: seq<System>, acts: seq<Action>, a: nat, job: Job) returns (i: nat)
    requires |states| == |acts| + 1 && Justified(states, acts, |acts|, a, job)
    ensures MatchedAt(states, acts, i, a, job.item, job.reg)
  {
    var h: nat, j: nat, l: nat :|
      && h < j <= l < |acts| && VerifiedAt(states, acts, h, a, job.item)
      && MatchedAt(states, acts, j, a, job.item, job.reg) && PassedAt(states, acts, l, a, job);
    i := j;
  }

  lemma {:induction false} RunIsExec(states: seq<System>, acts: seq<Action>, n: nat)
    requires IsRun(states, acts) && n <= |acts|
    ensures states[n] == Exec(states[0], acts[..n])
  {
    if n > 0 {
      RunIsExec(states, acts, n - 1);
      assert IsStep(states, acts, n - 1);
      ExecStep(states[0], acts, n - 1);
    }
  }

  lemma ReplyNameInjective(m: nat, n: nat)
    requires ReplyName(m) == ReplyName(n)
    ensures m == n
  {
    var prefix := "/dms/actor/replyto/";
    assert ReplyName(m)[|prefix|..] == Digits(m) && ReplyName(n)[|prefix|..] == Digits(n);
    DigitsInjective(m, n);
  }

  /** Reply names drawn from two nonces, of one security context or of two that were swapped, are equal
      exactly when the draws meet modulo 2^64. */
  lemma ReplyNamesMeetIff(first: nat, i: nat, second: nat, j: nat)
    ensures ReplyName(NonceAfter(first, i)) == ReplyName(NonceAfter(second, j)) <==>
            (first + i) % TWO64 == (second + j) % TWO64
  {
    var m, n := NonceAfter(first, i), NonceAfter(second, j);
    if ReplyName(m) == ReplyName(n) {
      ReplyNameInjective(m, n);
    }
  }

  lemma CongruentIff(x: int, y: int)
    requires x <= y
    ensures x % TWO64 == y % TWO64 <==> (y - x) % TWO64 == 0
    ensures x < y < x + TWO64 ==> (y - x) % TWO64 != 0
  {
  }

  /** Within one context two reply names are equal exactly when the draws are a multiple of 2^64 apart. */
  lemma ReplyNamesDistinctIff(nonce: nat, i: nat, j: nat)
    requires i <= j
    ensures ReplyName(NonceAfter(nonce, i)) == ReplyName(NonceAfter(nonce, j)) <==> (j - i) % TWO64 == 0
  {
    ReplyNamesMeetIff(nonce, i, nonce, j);
    CongruentIff(nonce + i, nonce + j);
  }

  /** A context whose nonce starts no earlier than the number of draws after the previous one repeats
      none of its names, as long as both stay within 2^64 of each other. */
  lemma SwapRepeatsNoName(first: nat, draws: nat, second: nat, i: nat, j: nat)
    requires i < draws && first + draws <= second && second + j < first + i + TWO64
    ensures ReplyName(NonceAfter(first, i)) != ReplyName(NonceAfter(second, j))
  {
    ReplyNamesMeetIff(first, i, second, j);
    CongruentIff(first + i, second + j);
  }

  /** What a name is registered for. */
  function Lookup(table: map<string, Registration>, name: string): Option<Registration> {
    if name in table then Some(table[name]) else None
  }

  /** A failed invocation leaves its reply name registered as it was, whatever happens between
      registering and abandoning it, exactly when the name was not registered before: a behaviour under
      a preset name that is in use is lost. No other name is touched. */
  lemma FailedInvokeRestoresNameIff(s: System, a: nat, name: string, cont: nat, expire: nat, during: seq<Action>)
    requires a in s.kernels && !Locked(s.kernels[a])
    requires var sent := Exec(Step(s, By(a, Add(name, cont, ReplyOptions(name, expire)))), during);
             a in sent.kernels && !Locked(sent.kernels[a])
    ensures var before := s.kernels[a].table;
            var registered := Step(s, By(a, Add(name, cont, ReplyOptions(name, expire))));
            var sent := Exec(registered, during);
            var after := Step(sent, By(a, Remove(name)));
            && (Lookup(after.kernels[a].table, name) == Lookup(before, name) <==> name !in before)
            && registered.kernels[a].table - {name} == before - {name}
            && after.kernels[a].table == sent.kernels[a].table - {name}
  {
    var sent := Exec(Step(s, By(a, Add(name, cont, ReplyOptions(name, expire)))), during);
    OnlyTheActorMoves(sent, By(a, Remove(name)), a);
    OnlyTheActorMoves(s, By(a, Add(name, cont, ReplyOptions(name, expire))), a);
  }
}
