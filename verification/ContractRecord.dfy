/** The stored contract record and the handlers that read, change and write it back. The kernel runs
    every handler in its own goroutine, so reads and writes of different handlers interleave and a
    write may overwrite what others wrote since its read. */
module ContractRecord {
  import opened Sequences
  import opened Envelopes
  import opened Contracts

  datatype Signature = Signature(did: string, bytes: string)

  /** `termination` is None when the record has no termination option; `end` is the end date. */
  datatype Record = Record(
    provider: string, requestor: string, termination: Option<bool>, end: int,
    signatures: seq<Signature>, state: State, log: seq<Transition>, paid: bool)

  // ---------------------------------------------------------------------
  // What each handler makes of the record it read; None when it writes nothing.

  predicate HasSigned(r: Record, did: string) {
    exists i | 0 <= i < |r.signatures| :: r.signatures[i].did == did
  }

  predicate Participates(r: Record, did: string) {
    r.provider == did || r.requestor == did
  }

  function LastState(r: Record): State {
    if r.log == [] then Unset else r.log[|r.log| - 1].into
  }

  function Logged(r: Record, into: State, at: int, who: string): Record {
    r.(state := into, log := r.log + [Transition(LastState(r), into, at, who)])
  }

  function Signed(r: Record, did: string, bytes: string, at: int): Record {
    var r1 := r.(signatures := r.signatures + [Signature(did, bytes)]);
    if |r1.signatures| == 2
    then r1.(state := Accepted, log := [Transition(Draft, Accepted, at, "")])
    else r1
  }

  datatype Request =
    | Sign(did: string, bytes: string)
    | Terminate(who: string)
    | Complete(who: string)
    | Settle(who: string)
    | Pay
    | EndDateCheck

  function Change(r: Record, req: Request, at: int): Option<Record> {
    match req
    case Sign(did, bytes) =>
      if HasSigned(r, did) || !Participates(r, did) then None else Some(Signed(r, did, bytes, at))
    case Terminate(who) =>
      if r.termination == Some(true) then Some(Logged(r, Terminated, at, who)) else None
    case Complete(who) => Some(Logged(r, Completed, at, who))
    case Settle(who) => Some(Logged(r, Settled, at, who))
    case Pay => Some(r.(paid := true))
    // the end-date ticker changes the state without logging
    case EndDateCheck => if at > r.end then Some(r.(state := Completed)) else None
  }

  /** Terminating a record without a termination option is a nil dereference: the process goes down. */
  predicate Crashes(r: Record, req: Request) {
    req.Terminate? && r.termination.None?
  }

  /** The reply of the validation handler for the record it read. */
  predicate Valid(r: Record) {
    r.state == Accepted || r.state == Active
  }

  // ---------------------------------------------------------------------
  // The handlers, as the source has them, when nothing interleaves.

  datatype Outcome = Done | Refused | Crashed

  class ContractHost {
    var record: Record

    constructor (record: Record)
      ensures this.record == record
    {
      this.record := record;
    }

    method HandleSign(did: string, bytes: string, now: int) returns (ok: bool)
      modifies this
      ensures ok <==> Change(old(record), Sign(did, bytes), now).Some?
      ensures record == if ok then Change(old(record), Sign(did, bytes), now).value else old(record)
    {
      var contract := record;
      var signed := false;
      for i := 0 to |contract.signatures|
        invariant record == old(record)
        invariant !signed && forall j | 0 <= j < i :: contract.signatures[j].did != did
      {
        if contract.signatures[i].did == did {
          signed := true;
          break;
        }
      }
      if signed {
        return false;
      }
      if contract.provider == did || contract.requestor == did {
        contract := contract.(signatures := contract.signatures + [Signature(did, bytes)]);
        if |contract.signatures| == 2 {
          contract := contract.(state := Accepted, log := [Transition(Draft, Accepted, now, "")]);
        }
        record := contract;
        return true;
      }
      return false;
    }

    method HandleTerminate(who: string, now: int) returns (outcome: Outcome)
      modifies this
      ensures outcome == Crashed <==> Crashes(old(record), Terminate(who))
      ensures outcome == Done <==> Change(old(record), Terminate(who), now).Some?
      ensures record == if outcome == Done then Change(old(record), Terminate(who), now).value else old(record)
    {
      if record.termination.None? {
        return Crashed;
      }
      if !record.termination.value {
        return Refused;
      }
      var last := Unset;
      if |record.log| > 0 {
        last := record.log[|record.log| - 1].into;
      }
      record := record.(state := Terminated, log := record.log + [Transition(last, Terminated, now, who)]);
      return Done;
    }

    /** On a record that handlers made, a positive reply means that both participants signed. */
    method HandleValidation() returns (valid: bool)
      ensures valid <==> record.state == Accepted || record.state == Active
      ensures valid && WellFormed(record) ==> HasSigned(record, record.provider) && HasSigned(record, record.requestor)
    {
      return record.state == Accepted || record.state == Active;
    }
  }

  // ---------------------------------------------------------------------
  // Interleaved handlers.

  /** A handler that has read the record and not yet written. */
  datatype Handler = Handler(req: Request, seen: Record)

  /** `down` once a handler has crashed. */
  datatype Store = Store(record: Record, handlers: seq<Handler>, down: bool)

  datatype Action =
    | Read(req: Request)
    | Write(handler: nat, at: int, stored: bool)

  /** Whether the action changes the stored record: its handler is there and writes, and the database
      accepts it. */
  predicate Writes(s: Store, act: Action) {
    && !s.down && act.Write? && act.stored && act.handler < |s.handlers|
    && Change(s.handlers[act.handler].seen, s.handlers[act.handler].req, act.at).Some?
  }

  function Step(s: Store, act: Action): Store {
    if s.down then s
    else match act
      case Read(req) => s.(handlers := s.handlers + [Handler(req, s.record)])
      case Write(h, at, _) =>
        if h >= |s.handlers| then s
        else if Crashes(s.handlers[h].seen, s.handlers[h].req) then s.(down := true)
        else if Writes(s, act) then
          Store(Change(s.handlers[h].seen, s.handlers[h].req, at).value, Without(s.handlers, h), false)
        else s.(handlers := Without(s.handlers, h))
  }

  function Exec(s: Store, acts: seq<Action>): Store
  {
    if acts == [] then s else Step(Exec(s, acts[..|acts| - 1]), acts[|acts| - 1])
  }

  /** A record as created: nobody has signed it and nothing was logged. */
  predicate UnsignedDraft(r: Record) {
    r.signatures == [] && r.log == [] && r.state == Draft && !r.paid
  }

  /** Signatures are from distinct participants. */
  ghost predicate DistinctParticipants(r: Record) {
    && (forall i | 0 <= i < |r.signatures| :: Participates(r, r.signatures[i].did))
    && (forall i, j | 0 <= i < j < |r.signatures| :: r.signatures[i].did != r.signatures[j].did)
  }

  ghost predicate BothSigned(r: Record) {
    HasSigned(r, r.provider) && HasSigned(r, r.requestor)
  }

  /** Every entry of the log continues from where the one before it led. */
  ghost predicate Chained(log: seq<Transition>) {
    forall i | 0 < i < |log| :: log[i].from == log[i - 1].into
  }

  ghost predicate WellFormed(r: Record) {
    && DistinctParticipants(r)
    && (Valid(r) <==> r.state == Accepted) && (Valid(r) ==> BothSigned(r))
    && Chained(r.log)
  }

  lemma TwoSignersAreBoth(r: Record)
    requires DistinctParticipants(r) && |r.signatures| == 2
    ensures BothSigned(r)
  {
    var a, b := r.signatures[0].did, r.signatures[1].did;
    assert Participates(r, a) && Participates(r, b) && a != b;
    assert HasSigned(r, a) && HasSigned(r, b);
  }

  lemma SignKeepsWellFormed(r: Record, did: string, bytes: string, at: int)
    requires WellFormed(r) && !HasSigned(r, did) && Participates(r, did)
    ensures WellFormed(Signed(r, did, bytes, at))
  {
    var r' := Signed(r, did, bytes, at);
    assert forall i | 0 <= i < |r.signatures| :: r'.signatures[i] == r.signatures[i];
    if |r'.signatures| == 2 {
      TwoSignersAreBoth(r');
    }
  }

  lemma ChangeKeepsWellFormed(r: Record, req: Request, at: int)
    requires WellFormed(r) && Change(r, req, at).Some?
    ensures WellFormed(Change(r, req, at).value)
    ensures Change(r, req, at).value.provider == r.provider && Change(r, req, at).value.requestor == r.requestor
  {
    if req.Sign? {
      SignKeepsWellFormed(r, req.did, req.bytes, at);
    }
  }

  ghost predicate AllWellFormed(s: Store, provider: string, requestor: string) {
    && WellFormed(s.record) && s.record.provider == provider && s.record.requestor == requestor
    && forall i | 0 <= i < |s.handlers| ::
         && WellFormed(s.handlers[i].seen)
         && s.handlers[i].seen.provider == provider && s.handlers[i].seen.requestor == requestor
  }

  lemma StepKeepsWellFormed(s: Store, act: Action, provider: string, requestor: string)
    requires AllWellFormed(s, provider, requestor)
    ensures AllWellFormed(Step(s, act), provider, requestor)
  {
    if act.Write? && act.handler < |s.handlers| {
      var h := s.handlers[act.handler];
      if Change(h.seen, h.req, act.at).Some? {
        ChangeKeepsWellFormed(h.seen, h.req, act.at);
      }
    }
  }

  /** However handlers interleave and whatever updates get lost, every record reachable from an unsigned
      draft has signatures from distinct participants only, is accepted (or reported valid) only when
      both provider and requestor signed it, and has a chained log. */
  lemma {:induction false} ReachableRecordsAreWellFormed(r: Record, acts: seq<Action>)
    requires UnsignedDraft(r)
    ensures AllWellFormed(Exec(Store(r, [], false), acts), r.provider, r.requestor)
  {
    if acts != [] {
      ReachableRecordsAreWellFormed(r, acts[..|acts| - 1]);
      StepKeepsWellFormed(Exec(Store(r, [], false), acts[..|acts| - 1]), acts[|acts| - 1], r.provider, r.requestor);
    }
  }

  // ---------------------------------------------------------------------
  // What every write does, and what every state and log entry comes from.

  /** `r` with one more entry in its log, and in the state that entry leads to. */
  ghost predicate LogsInto(r: Record, r': Record, into: State, at: int, who: string) {
    && r' == r.(state := into, log := r'.log)
    && |r'.log| == |r.log| + 1 && r'.log[..|r.log|] == r.log
    && var entry := r'.log[|r.log|];
    && entry.into == into && entry.at == at && entry.who == who
    && entry.from == if |r.log| > 0 then r.log[|r.log| - 1].into else Unset
  }

  /** `r` with the signature, and accepted with a log of its own if it is the second one. */
  ghost predicate AddsSignature(r: Record, r': Record, did: string, bytes: string, at: int) {
    && r'.signatures == r.signatures + [Signature(did, bytes)]
    && (if |r.signatures| == 1 then r'.state == Accepted && r'.log == [Transition(Draft, Accepted, at, "")]
        else r'.state == r.state && r'.log == r.log)
    && r' == r.(signatures := r'.signatures, state := r'.state, log := r'.log)
  }

  /** Whether a handler that saw `r` has something to write at time `at`. */
  ghost predicate Enabled(r: Record, req: Request, at: int) {
    match req
    case Sign(did, _) =>
      did in {r.provider, r.requestor} && forall i | 0 <= i < |r.signatures| :: r.signatures[i].did != did
    case Terminate(_) => r.termination == Some(true)
    case EndDateCheck => at > r.end
    case _ => true
  }

  /** What a handler that saw `r` writes. */
  ghost predicate Effect(r: Record, r': Record, req: Request, at: int) {
    match req
    case Sign(did, bytes) => AddsSignature(r, r', did, bytes, at)
    case Terminate(who) => LogsInto(r, r', Terminated, at, who)
    case Complete(who) => LogsInto(r, r', Completed, at, who)
    case Settle(who) => LogsInto(r, r', Settled, at, who)
    case Pay => r'.paid && r' == r.(paid := true)
    case EndDateCheck => r'.state == Completed && r' == r.(state := Completed)
  }

  /** A handler that is there when the store is up takes the store down if it terminates a record without
      a termination option. Otherwise it is done, and changes the stored record exactly when it has
      something to write and the write is accepted. */
  lemma EveryWriteIs(s: Store, act: Action)
    requires !s.down && act.Write? && act.handler < |s.handlers|
    ensures var h, s' := s.handlers[act.handler], Step(s, act);
            && (s'.down <==> h.req.Terminate? && h.seen.termination == None)
            && (!s'.down ==> s'.handlers == s.handlers[..act.handler] + s.handlers[act.handler + 1..])
            && if !s'.down && act.stored && Enabled(h.seen, h.req, act.at)
               then Effect(h.seen, s'.record, h.req, act.at) else s'.record == s.record
  {
    var h := s.handlers[act.handler];
    var change := Change(h.seen, h.req, act.at);
    assert change.Some? <==> Enabled(h.seen, h.req, act.at);
    if change.Some? && h.req.Sign? {
      assert AddsSignature(h.seen, change.value, h.req.did, h.req.bytes, act.at);
    }
  }

  /** Once a handler has crashed, nothing happens any more. */
  lemma {:induction false} DownStaysDown(s: Store, acts: seq<Action>)
    requires s.down
    ensures Exec(s, acts) == s
  {
    if acts != [] {
      DownStaysDown(s, acts[..|acts| - 1]);
    }
  }

  /** Step `i` of the run stores the write of a handler for `req` that had something to write. */
  ghost predicate WroteAt(s: Store, acts: seq<Action>, i: nat, req: Request, at: int) {
    && i < |acts| && acts[i].Write? && acts[i].stored && acts[i].at == at
    && var before := Exec(s, acts[..i]);
    && !before.down && acts[i].handler < |before.handlers|
    && before.handlers[acts[i].handler].req == req && Enabled(before.handlers[acts[i].handler].seen, req, at)
  }

  /** Whether a request can lead to a state. */
  predicate LeadsTo(req: Request, state: State) {
    match state
    case Accepted => req.Sign?
    case Terminated => req.Terminate?
    case Completed => req.Complete? || req.EndDateCheck?
    case Settled => req.Settle?
    case _ => false
  }

  /** Who the log names for a request. */
  function AskedBy(req: Request): string {
    match req
    case Terminate(who) => who
    case Complete(who) => who
    case Settle(who) => who
    case _ => ""
  }

  ghost predicate Caused(s: Store, acts: seq<Action>, state: State) {
    exists i: nat, req, at :: WroteAt(s, acts, i, req, at) && LeadsTo(req, state)
  }

  /** The write that the entry tells of, by the requester and at the time it names. */
  ghost predicate EntryCaused(s: Store, acts: seq<Action>, entry: Transition) {
    exists i: nat, req ::
      WroteAt(s, acts, i, req, entry.at) && LeadsTo(req, entry.into) && !req.EndDateCheck? && entry.who == AskedBy(req)
  }

  /** The record has the end date and termination option of the first one, and its state and log entries come
      from writes of the run. */
  ghost predicate Told(s: Store, acts: seq<Action>, r: Record) {
    && r.end == s.record.end && r.termination == s.record.termination
    && (r.state == Draft || Caused(s, acts, r.state))
    && forall i | 0 <= i < |r.log| :: EntryCaused(s, acts, r.log[i])
  }

  ghost predicate AllTold(s: Store, acts: seq<Action>, now: Store) {
    Told(s, acts, now.record) && forall i | 0 <= i < |now.handlers| :: Told(s, acts, now.handlers[i].seen)
  }

  lemma WroteLater(s: Store, acts: seq<Action>, act: Action, i: nat, req: Request, at: int)
    requires WroteAt(s, acts, i, req, at)
    ensures WroteAt(s, acts + [act], i, req, at)
  {
    assert (acts + [act])[..i] == acts[..i];
  }

  lemma ToldLater(s: Store, acts: seq<Action>, act: Action, r: Record)
    requires Told(s, acts, r)
    ensures Told(s, acts + [act], r)
  {
    var more := acts + [act];
    if r.state != Draft {
      var i: nat, req, at :| WroteAt(s, acts, i, req, at) && LeadsTo(req, r.state);
      WroteLater(s, acts, act, i, req, at);
    }
    forall j | 0 <= j < |r.log|
      ensures EntryCaused(s, more, r.log[j])
    {
      EntryLater(s, acts, act, r.log[j]);
    }
  }

  lemma EntryLater(s: Store, acts: seq<Action>, act: Action, entry: Transition)
    requires EntryCaused(s, acts, entry)
    ensures EntryCaused(s, acts + [act], entry)
  {
    var i: nat, req :|
      WroteAt(s, acts, i, req, entry.at) && LeadsTo(req, entry.into) && !req.EndDateCheck? && entry.who == AskedBy(req);
    WroteLater(s, acts, act, i, req, entry.at);
  }

  lemma EffectTold(s: Store, acts: seq<Action>, i: nat, seen: Record, r: Record, req: Request, at: int)
    requires Told(s, acts, seen) && WroteAt(s, acts, i, req, at) && Effect(seen, r, req, at)
    ensures Told(s, acts, r)
  {
    forall j | 0 <= j < |r.log|
      ensures EntryCaused(s, acts, r.log[j])
    {
      if j < |seen.log| && r.log[j] == seen.log[j] {
        assert EntryCaused(s, acts, seen.log[j]);
      } else {
        EntryIsNew(seen, r, req, at, j);
      }
    }
  }

  /** An entry that was not in the log before tells of the write. */
  lemma EntryIsNew(seen: Record, r: Record, req: Request, at: int, j: nat)
    requires Effect(seen, r, req, at) && j < |r.log| && (j < |seen.log| ==> r.log[j] != seen.log[j])
    ensures LeadsTo(req, r.log[j].into) && !req.EndDateCheck? && r.log[j].who == AskedBy(req) && r.log[j].at == at
  {
    assert r.log[..|r.log|] == r.log;
    assert forall k | 0 <= k < |seen.log| && |seen.log| <= |r.log| :: r.log[..|seen.log|][k] == r.log[k];
  }

  lemma StepTold(s: Store, acts: seq<Action>, act: Action)
    requires AllTold(s, acts, Exec(s, acts))
    ensures AllTold(s, acts + [act], Exec(s, acts + [act]))
  {
    var before, more := Exec(s, acts), acts + [act];
    assert more[..|acts|] == acts && Exec(s, more) == Step(before, act);
    ToldLater(s, acts, act, before.record);
    forall i | 0 <= i < |before.handlers|
      ensures Told(s, more, before.handlers[i].seen)
    {
      ToldLater(s, acts, act, before.handlers[i].seen);
    }
    if !before.down && act.Write? && act.handler < |before.handlers| {
      var h := before.handlers[act.handler];
      EveryWriteIs(before, act);
      if Step(before, act).record != before.record {
        assert WroteAt(s, more, |acts|, h.req, act.at);
        EffectTold(s, more, |acts|, h.seen, Step(before, act).record, h.req, act.at);
      }
    }
  }

  /** However handlers interleave: every state that a record reaches from an unsigned draft, and every
      entry of its log, comes from a stored write that leads there, made by a handler that was entitled
      to it; the entry carries the time of that write and who asked for it. */
  lemma {:induction false} RecordTellsTheRun(r: Record, acts: seq<Action>)
    requires UnsignedDraft(r)
    ensures AllTold(Store(r, [], false), acts, Exec(Store(r, [], false), acts))
  {
    var s := Store(r, [], false);
    if acts != [] {
      var front, act := acts[..|acts| - 1], acts[|acts| - 1];
      RecordTellsTheRun(r, front);
      StepTold(s, front, act);
      assert front + [act] == acts;
    }
  }

  /** Without a Complete request, a record is not completed before its end date. */
  lemma NotCompletedBeforeEnd(r: Record, acts: seq<Action>)
    requires UnsignedDraft(r)
    requires forall i | 0 <= i < |acts| && acts[i].Read? :: !acts[i].req.Complete?
    requires forall i | 0 <= i < |acts| && acts[i].Write? :: acts[i].at <= r.end
    ensures Exec(Store(r, [], false), acts).record.state != Completed
  {
    var s := Store(r, [], false);
    RecordTellsTheRun(r, acts);
    forall i: nat, req, at | WroteAt(s, acts, i, req, at)
      ensures !LeadsTo(req, Completed)
    {
      NoEarlyCompletion(r, acts, i, req, at);
    }
  }

  lemma NoEarlyCompletion(r: Record, acts: seq<Action>, i: nat, req: Request, at: int)
    requires UnsignedDraft(r) && WroteAt(Store(r, [], false), acts, i, req, at)
    requires at <= r.end && forall j | 0 <= j < i && acts[j].Read? :: !acts[j].req.Complete?
    ensures !LeadsTo(req, Completed)
  {
    RecordTellsTheRun(r, acts[..i]);
    RequestWasRead(Store(r, [], false), acts, i, acts[i].handler);
  }

  ghost predicate WasRead(acts: seq<Action>, i: nat, req: Request)
    requires i <= |acts|
  {
    exists j: nat :: j < i && acts[j] == Read(req)
  }

  /** A step brings no handler but the one for a request that it reads. */
  lemma HandlerWasThere(s: Store, act: Action, h: nat) returns (i: nat)
    requires h < |Step(s, act).handlers| && act != Read(Step(s, act).handlers[h].req)
    ensures i < |s.handlers| && s.handlers[i] == Step(s, act).handlers[h]
  {
    i := if Step(s, act).handlers == s.handlers || act.Read? || h < act.handler then h else h + 1;
  }

  /** Every waiting handler is for a request that was read. */
  lemma {:induction false} RequestWasRead(s: Store, acts: seq<Action>, i: nat, h: nat)
    requires s.handlers == [] && i <= |acts| && h < |Exec(s, acts[..i]).handlers|
    ensures WasRead(acts, i, Exec(s, acts[..i]).handlers[h].req)
  {
    if i > 0 {
      ExecStep(s, acts, i - 1);
      if acts[i - 1] != Read(Exec(s, acts[..i]).handlers[h].req) {
        var before := HandlerWasThere(Exec(s, acts[..i - 1]), acts[i - 1], h);
        RequestWasRead(s, acts, i - 1, before);
      }
    }
  }

  // ---------------------------------------------------------------------
  // What interleaving can and cannot lose.

  /** `r'` keeps the signatures and the payment of `r`. */
  predicate Keeps(r: Record, r': Record) {
    r.signatures <= r'.signatures && (r.paid ==> r'.paid)
  }

  lemma ChangeKeeps(r: Record, req: Request, at: int)
    requires Change(r, req, at).Some?
    ensures Keeps(r, Change(r, req, at).value)
  {
  }

  /** Whether writing back what the handler saw keeps what is stored: it saw all of it, except for what
      it adds itself. */
  predicate SeesEnough(stored: Record, seen: Record, req: Request) {
    match req
    case Pay => stored.signatures <= seen.signatures
    case Sign(did, bytes) =>
      stored.signatures <= seen.signatures + [Signature(did, bytes)] && (stored.paid ==> seen.paid)
    case _ => Keeps(stored, seen)
  }

  predicate WriterSeesEnough(s: Store, act: Action) {
    Writes(s, act) ==> SeesEnough(s.record, s.handlers[act.handler].seen, s.handlers[act.handler].req)
  }

  /** A step keeps the stored signatures and payment exactly when its handler, if it writes, saw enough. */
  lemma StepKeepsIffSeen(s: Store, act: Action)
    ensures Keeps(s.record, Step(s, act).record) <==> WriterSeesEnough(s, act)
  {
    if Writes(s, act) {
      var h := s.handlers[act.handler];
      ChangeKeeps(h.seen, h.req, act.at);
    }
  }

  lemma KeepsTransitive(a: Record, b: Record, c: Record)
    requires Keeps(a, b) && Keeps(b, c)
    ensures Keeps(a, c)
  {
  }

  lemma {:induction false} RunKeeps(s: Store, acts: seq<Action>, i: nat, j: nat)
    requires i <= j <= |acts|
    requires forall n | i <= n < j :: WriterSeesEnough(Exec(s, acts[..n]), acts[n])
    ensures Keeps(Exec(s, acts[..i]).record, Exec(s, acts[..j]).record)
  {
    if i < j {
      RunKeeps(s, acts, i, j - 1);
      NextKeepsIffSeen(s, acts, j - 1);
      KeepsTransitive(Exec(s, acts[..i]).record, Exec(s, acts[..j - 1]).record, Exec(s, acts[..j]).record);
    }
  }

  lemma ExecStep(s: Store, acts: seq<Action>, i: nat)
    requires i < |acts|
    ensures Exec(s, acts[..i + 1]) == Step(Exec(s, acts[..i]), acts[i])
  {
    assert acts[..i + 1][..i] == acts[..i];
  }

  lemma NextKeepsIffSeen(s: Store, acts: seq<Action>, n: nat)
    requires n < |acts|
    ensures Keeps(Exec(s, acts[..n]).record, Exec(s, acts[..n + 1]).record) <==>
            WriterSeesEnough(Exec(s, acts[..n]), acts[n])
  {
    ExecStep(s, acts, n);
    StepKeepsIffSeen(Exec(s, acts[..n]), acts[n]);
  }

  /** Every record of a run keeps what earlier ones had. */
  ghost predicate LosesNothing(s: Store, acts: seq<Action>) {
    forall i, j | 0 <= i <= j <= |acts| :: Keeps(Exec(s, acts[..i]).record, Exec(s, acts[..j]).record)
  }

  /** A run of interleaved handlers loses no signature and no payment exactly when every handler that
      writes saw what is stored at that moment, except for what it adds itself. */
  lemma RunLosesNothingIff(s: Store, acts: seq<Action>)
    ensures LosesNothing(s, acts) <==> forall n | 0 <= n < |acts| :: WriterSeesEnough(Exec(s, acts[..n]), acts[n])
  {
    if LosesNothing(s, acts) {
      forall n | 0 <= n < |acts|
        ensures WriterSeesEnough(Exec(s, acts[..n]), acts[n])
      {
        NextKeepsIffSeen(s, acts, n);
      }
    } else {
      var i, j :| 0 <= i <= j <= |acts| && !Keeps(Exec(s, acts[..i]).record, Exec(s, acts[..j]).record);
      if forall n | 0 <= n < |acts| :: WriterSeesEnough(Exec(s, acts[..n]), acts[n]) {
        RunKeeps(s, acts, i, j);
      }
    }
  }

  datatype Timed = Timed(req: Request, at: int)

  function SerialRun(r: Record, reqs: seq<Timed>): Record
  {
    if reqs == [] then r
    else
      var before, last := SerialRun(r, reqs[..|reqs| - 1]), reqs[|reqs| - 1];
      var change := Change(before, last.req, last.at);
      if change.Some? then change.value else before
  }

  /** Handlers that run one after the other never lose a signature or a payment. */
  lemma {:induction false} SerialRunsKeep(r: Record, reqs: seq<Timed>)
    ensures Keeps(r, SerialRun(r, reqs))
  {
    if reqs != [] {
      SerialRunsKeep(r, reqs[..|reqs| - 1]);
    }
  }

  /** Interleaved, a signature can be lost: two participants that read before either writes leave one. */
  lemma InterleavingLosesSignature(r: Record)
    requires UnsignedDraft(r) && r.provider != r.requestor
    ensures var p, q := Sign(r.provider, ""), Sign(r.requestor, "");
            var s := Exec(Store(r, [], false), [Read(p), Read(q), Write(0, 0, true), Write(0, 0, true)]);
            s.record.signatures == [Signature(r.requestor, "")] && s.record.state != Accepted
  {
    var p, q := Sign(r.provider, ""), Sign(r.requestor, "");
    var s0 := Store(r, [], false);
    var s1 := Step(s0, Read(p));
    var s2 := Step(s1, Read(q));
    var s3 := Step(s2, Write(0, 0, true));
    FourSteps(s0, Read(p), Read(q), Write(0, 0, true), Write(0, 0, true));
    assert s2.handlers == [Handler(p, r), Handler(q, r)];
    assert s3.handlers == [Handler(q, r)];
  }

  /** And a stale write undoes a payment. */
  lemma InterleavingLosesPayment(r: Record)
    requires UnsignedDraft(r)
    ensures var s0 := Store(r, [], false);
            var acts := [Read(Settle("")), Read(Pay), Write(1, 0, true), Write(0, 0, true)];
            Exec(s0, acts[..3]).record.paid && !Exec(s0, acts).record.paid
  {
    var s0 := Store(r, [], false);
    var acts := [Read(Settle("")), Read(Pay), Write(1, 0, true), Write(0, 0, true)];
    var s1 := Step(s0, Read(Settle("")));
    var s2 := Step(s1, Read(Pay));
    var s3 := Step(s2, Write(1, 0, true));
    FourSteps(s0, Read(Settle("")), Read(Pay), Write(1, 0, true), Write(0, 0, true));
    assert s2.handlers == [Handler(Settle(""), r), Handler(Pay, r)];
    assert s3.handlers == [Handler(Settle(""), r)];
    assert acts[..3] == [Read(Settle("")), Read(Pay), Write(1, 0, true)];
  }

  lemma FourSteps(s: Store, a: Action, b: Action, c: Action, d: Action)
    ensures Exec(s, [a, b, c]) == Step(Step(Step(s, a), b), c)
    ensures Exec(s, [a, b, c, d]) == Step(Step(Step(Step(s, a), b), c), d)
  {
    assert [a, b, c, d][..3] == [a, b, c];
    assert [a, b, c][..2] == [a, b];
    assert [a, b][..1] == [a];
    assert Exec(s, [a]) == Step(s, a);
    assert Exec(s, [a, b]) == Step(Exec(s, [a]), b);
    assert Exec(s, [a, b, c]) == Step(Exec(s, [a, b]), c);
  }

  // ---------------------------------------------------------------------
  // Terminal states.

  predicate Terminal(state: State) {
    state == Terminated || state == Completed || state == Settled
  }

  /** Handlers that run alone leave a terminal state exactly with the second signature. */
  lemma TerminalIsKeptIff(r: Record, req: Request, at: int)
    requires Terminal(r.state) && Change(r, req, at).Some?
    ensures Terminal(Change(r, req, at).value.state) <==> !(req.Sign? && |r.signatures| == 1)
  {
  }

  /** A step of interleaved handlers leaves a terminal state exactly when its handler writes a second
      signature, or a signature or payment onto a record it saw before that state was reached. */
  lemma TerminalIsLeftIff(s: Store, act: Action)
    requires Terminal(s.record.state)
    ensures !Terminal(Step(s, act).record.state) <==>
            && Writes(s, act)
            && var h := s.handlers[act.handler];
            || (h.req.Sign? && |h.seen.signatures| == 1)
            || ((h.req.Sign? || h.req.Pay?) && !Terminal(h.seen.state))
  {
    if Writes(s, act) {
      var h := s.handlers[act.handler];
      if Terminal(h.seen.state) {
        TerminalIsKeptIff(h.seen, h.req, act.at);
      }
    }
  }

  lemma {:induction false} Appended(s: Store, acts: seq<Action>, req: Request, at: int)
    requires var last := Exec(s, acts);
             !last.down && last.handlers == [] && Change(last.record, req, at).Some? && !Crashes(last.record, req)
    ensures Exec(s, acts + [Read(req), Write(0, at, true)]) ==
            Store(Change(Exec(s, acts).record, req, at).value, [], false)
  {
    var more := acts + [Read(req), Write(0, at, true)];
    var last := Exec(s, acts);
    assert more[..|acts| + 1][..|acts|] == acts && more[..|acts| + 1] == acts + [Read(req)];
    assert Exec(s, more[..|acts| + 1]) == last.(handlers := [Handler(req, last.record)]);
  }

  /** A run from an unsigned draft: one participant signs, the contract is terminated, the other signs.
      It ends accepted, and its log has forgotten the termination. */
  lemma TerminatedContractIsAccepted(r: Record, who: string, at: int)
    requires UnsignedDraft(r) && r.provider != r.requestor && r.termination == Some(true)
    ensures var acts := [Read(Sign(r.provider, "")), Write(0, at, true)] + [Read(Terminate(who)), Write(0, at, true)];
            var again := acts + [Read(Sign(r.requestor, "")), Write(0, at, true)];
            && Exec(Store(r, [], false), acts).record.state == Terminated
            && Exec(Store(r, [], false), again).record.state == Accepted
            && Exec(Store(r, [], false), again).record.log == [Transition(Draft, Accepted, at, "")]
  {
    var s := Store(r, [], false);
    var first := [Read(Sign(r.provider, "")), Write(0, at, true)];
    Appended(s, [], Sign(r.provider, ""), at);
    assert [] + first == first;
    Appended(s, first, Terminate(who), at);
    var acts := first + [Read(Terminate(who)), Write(0, at, true)];
    var terminated := Exec(s, acts).record;
    assert terminated.signatures == [Signature(r.provider, "")];
    Appended(s, acts, Sign(r.requestor, ""), at);
  }
}
