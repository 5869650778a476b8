/** The client side of a gRPC call with retries: one sender and one receiver on a `clientStream`.

    A section under the stream's lock is one step, except that every operation replayed under it is a
    step of its own; an operation on an attempt is a step without the lock. What the transport, the
    server and the clock answer is chosen freely. `aux` and the `missing` of an attempt are auxiliary. */
module RetryStream {
  import opened Common

  // ---------------------------------------------------------------- data

  /** A send operation: opening the stream is number zero, messages and the half-close follow. A lenient
      one, the message of a call that does not stream and the half-close, hides that its write failed. */
  datatype Op = Op(id: nat, size: nat, lenient: bool)

  /** How an operation ended: without an error, with the end of a stream whose status is OK, or badly. */
  datatype Res = Fine | EndOk | Bad

  /** The sends written to an attempt, in order, and the numbers of the sends that were accepted and that
      it has not got. */
  datatype Attempt = Attempt(log: seq<Op>, missing: set<nat>)

  datatype Job = Send(op: Op) | Recv

  /** Where a thread is in `withRetry`; `written` says whether the transport took the send. */
  datatype Local =
    | Idle
    | Enter(job: Job)
    | Exec(job: Job, a: nat)
    | Done(job: Job, a: nat, res: Res, written: bool)
    | ExecLast(job: Job)
    | Retry(job: Job)
    | Replay(job: Job, i: nat)
    | Crashed(job: Job)

  datatype Policy = Policy(maxAttempts: nat, codes: set<int>)

  datatype Config = Config(failFast: bool, disableRetry: bool, policy: Option<Policy>, maxBuffer: nat)

  /** The number of sends begun, the sends accepted and of those the ones acknowledged, in order, how often
      the commit callback was called and a retry was transparent, and whether a call has failed. */
  datatype Aux = Aux(nextId: nat, sent: seq<Op>, ackSet: set<nat>, acks: seq<Op>, commits: nat,
                     transparent: nat, failed: bool)

  datatype Stream = Stream(
    cfg: Config, attempts: seq<Attempt>, committed: bool, finished: bool,
    buffer: seq<Op>, bufferSize: nat, firstAttempt: bool, numRetries: nat, live: bool,
    snd: Local, rcv: Local, aux: Aux)

  datatype Who = Sender | Receiver

  // ---------------------------------------------------------------- the policy

  /** What `convertRetryPolicy` keeps of a configured policy. */
  function ConvertPolicy(maxAttempts: int, backoffsPositive: bool, codes: set<int>): Option<Policy> {
    if maxAttempts <= 1 || !backoffsPositive || codes == {} then None
    else Some(Policy(if maxAttempts > 5 then 5 else maxAttempts, codes))
  }

  datatype Pushback = Absent | Millis(n: nat) | Malformed | Several

  /** What an attempt that failed has to say for itself. */
  datatype Facts = Facts(performedIO: bool, unprocessed: bool, trailersOnly: bool, pushback: Pushback,
                         code: int, throttled: bool, ctxDone: bool)

  datatype Verdict = GiveUp | RetryFreely | RetryTransparently | RetryCounted

  function Cur(s: Stream): int {
    |s.attempts| - 1
  }

  const OPEN: Op := Op(0, 0, false)

  predicate HasStream(a: Attempt) {
    OPEN in a.log
  }

  /** `shouldRetry`. */
  function ShouldRetry(s: Stream, f: Facts): Verdict
    requires s.attempts != []
  {
    var stream := HasStream(s.attempts[Cur(s)]);
    if !stream && !f.performedIO && !s.cfg.failFast then RetryFreely
    else if s.finished || s.committed then GiveUp
    else if s.firstAttempt && (if stream then f.unprocessed else !f.performedIO) then RetryTransparently
    else if s.cfg.disableRetry then GiveUp
    else if stream && (!f.trailersOnly || f.pushback == Malformed || f.pushback == Several) then GiveUp
    else if s.cfg.policy == None || f.code !in s.cfg.policy.value.codes then GiveUp
    else if f.throttled || s.numRetries + 1 >= s.cfg.policy.value.maxAttempts || f.ctxDone then GiveUp
    else RetryCounted
  }

  // ---------------------------------------------------------------- sections under the lock

  /** `commitAttemptLocked`. */
  function Commit(s: Stream): Stream {
    s.(committed := true, buffer := [], aux := s.aux.(commits := s.aux.commits + if s.committed then 0 else 1))
  }

  /** `bufferForRetryLocked`. */
  function BufferForRetry(s: Stream, op: Op): Stream {
    if s.committed then s
    else
      var size := s.bufferSize + op.size;
      if size > s.cfg.maxBuffer then Commit(s.(bufferSize := size))
      else s.(bufferSize := size, buffer := s.buffer + [op])
  }

  function At(s: Stream, who: Who): Local {
    if who == Sender then s.snd else s.rcv
  }

  function Move(s: Stream, who: Who, l: Local): Stream {
    if who == Sender then s.(snd := l) else s.(rcv := l)
  }

  predicate Holds(l: Local) {
    l.Retry? || l.Replay?
  }

  predicate LockFree(s: Stream) {
    !Holds(s.snd) && !Holds(s.rcv)
  }

  /** What an operation may answer: only what was written is fine, except that a lenient one says so
      whatever happened; opening never answers that a stream has ended. */
  predicate Possible(job: Job, res: Res, written: bool) {
    if job.Recv? then !written
    else
      && (written ==> res == Fine) && (res == Fine && !written ==> job.op.lenient)
      && (job.op.lenient ==> res == Fine) && (job.op == OPEN ==> res != EndOk)
  }

  /** An operation on attempt `a`; only a send that is written leaves a trace. */
  function Apply(s: Stream, job: Job, a: nat, written: bool): Stream
    requires a < |s.attempts|
  {
    if job.Recv? || !written then s
    else
      var at := s.attempts[a];
      s.(attempts := s.attempts[a := at.(log := at.log + [job.op])])
  }

  /** A send that is accepted, and acknowledged if it returns no error. */
  function Accept(s: Stream, op: Op, res: Res, written: bool): Stream
    requires s.attempts != []
  {
    var at := s.attempts[Cur(s)];
    s.(aux := s.aux.(sent := s.aux.sent + [op],
                     acks := s.aux.acks + (if res == Fine then [op] else []),
                     ackSet := s.aux.ackSet + (if res == Fine then {op.id} else {})),
       live := s.live || res == Fine,
       attempts := s.attempts[Cur(s) := at.(missing := at.missing + if written then {} else {op.id})])
  }

  /** A call returns. */
  function Return(s: Stream, who: Who, job: Job, res: Res, written: bool): Stream
    requires s.attempts != []
  {
    var t := Move(s, who, Idle);
    if res == Bad then t.(aux := t.aux.(failed := true))
    else if job.Send? then Accept(t, job.op, res, written)
    else t
  }

  // ---------------------------------------------------------------- steps

  datatype Step =
    | CallSend(size: nat, lenient: bool) | CallRecv
    | Lock(who: Who) | Run(who: Who, res: Res, written: bool) | RunLast(who: Who, res: Res, written: bool)
    | Settle(who: Who) | Decide(who: Who, facts: Facts, transportOk: bool)
    | ReplayOne(who: Who, res: Res, written: bool) | ReplayEnd(who: Who)
    | Finish | CommitNow

  /** Only opening works without a transport stream. */
  predicate Usable(s: Stream, job: Job, a: nat) {
    a < |s.attempts| && (HasStream(s.attempts[a]) || job == Send(OPEN))
  }

  predicate CallSendStep(s: Stream, size: nat, lenient: bool, t: Stream) {
    && s.snd.Idle? && (s.live || (s.aux.nextId == 0 && size == 0 && !lenient && !s.finished))
    && t == s.(snd := Enter(Send(Op(s.aux.nextId, size, lenient))), aux := s.aux.(nextId := s.aux.nextId + 1))
  }

  predicate LockStep(s: Stream, who: Who, t: Stream) {
    var l := At(s, who);
    && l.Enter? && LockFree(s) && s.attempts != []
    && t == Move(s, who, if s.committed then ExecLast(l.job) else Exec(l.job, |s.attempts| - 1))
  }

  /** Without the lock. An attempt that has no transport stream ends the program. */
  predicate RunStep(s: Stream, who: Who, res: Res, written: bool, t: Stream) {
    var l := At(s, who);
    && l.Exec? && Possible(l.job, res, written)
    && if Usable(s, l.job, l.a) then t == Move(Apply(s, l.job, l.a, written), who, Done(l.job, l.a, res, written))
       else t == Move(s, who, Crashed(l.job))
  }

  predicate RunLastStep(s: Stream, who: Who, res: Res, written: bool, t: Stream) {
    var l := At(s, who);
    && l.ExecLast? && s.attempts != [] && Possible(l.job, res, written)
    && if Usable(s, l.job, |s.attempts| - 1)
       then t == Return(Apply(s, l.job, |s.attempts| - 1, written), who, l.job, res, written)
       else t == Move(s, who, Crashed(l.job))
  }

  predicate SettleStep(s: Stream, who: Who, t: Stream) {
    var l := At(s, who);
    && l.Done? && LockFree(s) && s.attempts != []
    && t == if l.a != Cur(s) then Move(s, who, Enter(l.job))
            else if l.res == Bad then Move(s, who, Retry(l.job))
            else Return(if l.job.Send? then BufferForRetry(s, l.job.op) else Commit(s), who, l.job, l.res, l.written)
  }

  function Ids(s: seq<Op>): set<nat> {
    set k | 0 <= k < |s| :: s[k].id
  }

  /** One pass of the loop of `retryLocked` up to the replay. */
  predicate DecideStep(s: Stream, who: Who, facts: Facts, transportOk: bool, t: Stream) {
    var l := At(s, who);
    && l.Retry? && s.attempts != []
    && var v := ShouldRetry(s, facts);
    if v == GiveUp then t == Return(Commit(s), who, l.job, Bad, false)
    else
      var u := s.(firstAttempt := false,
                  numRetries := s.numRetries + (if v == RetryCounted then 1 else 0),
                  aux := s.aux.(transparent := s.aux.transparent + (if v == RetryTransparently then 1 else 0)));
      if !transportOk then t == Return(u, who, l.job, Bad, false)
      else t == Move(u.(attempts := u.attempts + [Attempt([], Ids(s.buffer))]), who, Replay(l.job, 0))
  }

  /** The attempt has got one more of what it lacked. */
  function Supply(s: Stream, op: Op, written: bool): Stream
    requires s.attempts != []
  {
    if !written then s
    else
      var at := s.attempts[Cur(s)];
      s.(attempts := s.attempts[Cur(s) := Attempt(at.log + [op], at.missing - {op.id})])
  }

  predicate ReplayOneStep(s: Stream, who: Who, res: Res, written: bool, t: Stream) {
    var l := At(s, who);
    && l.Replay? && l.i < |s.buffer| && s.attempts != [] && Usable(s, Send(s.buffer[l.i]), |s.attempts| - 1)
    && Possible(Send(s.buffer[l.i]), res, written)
    && t == Move(Supply(s, s.buffer[l.i], written), who, if res == Fine then Replay(l.job, l.i + 1) else Retry(l.job))
  }

  predicate ReplayEndStep(s: Stream, who: Who, t: Stream) {
    var l := At(s, who);
    l.Replay? && l.i == |s.buffer| && t == Move(s, who, Enter(l.job))
  }

  /** Nobody else has the stream before it is open. */
  predicate Reachable(s: Stream) {
    LockFree(s) && (s.live || s.snd.Idle?)
  }

  predicate Next(s: Stream, step: Step, t: Stream) {
    match step
    case CallSend(size, lenient) => CallSendStep(s, size, lenient, t)
    case CallRecv => s.rcv.Idle? && s.live && t == s.(rcv := Enter(Recv))
    case Lock(who) => LockStep(s, who, t)
    case Run(who, res, written) => RunStep(s, who, res, written, t)
    case RunLast(who, res, written) => RunLastStep(s, who, res, written, t)
    case Settle(who) => SettleStep(s, who, t)
    case Decide(who, facts, ok) => DecideStep(s, who, facts, ok, t)
    case ReplayOne(who, res, written) => ReplayOneStep(s, who, res, written, t)
    case ReplayEnd(who) => ReplayEndStep(s, who, t)
    case Finish => Reachable(s) && t == if s.finished then s else Commit(s.(finished := true))
    case CommitNow => Reachable(s) && s.live && t == Commit(s)
  }

  function Init(cfg: Config): Stream {
    Stream(cfg, [Attempt([], {})], false, false, [], 0, true, 0, false, Idle, Idle, Aux(0, [], {}, [], 0, 0, false))
  }

  predicate IsRun(run: seq<Stream>, steps: seq<Step>, cfg: Config) {
    && |run| == |steps| + 1 && run[0] == Init(cfg)
    && forall i :: 0 <= i < |steps| ==> Next(run[i], steps[i], run[i + 1])
  }

  // ---------------------------------------------------------------- bookkeeping

  /** The ops of `s` with a number in `ids`, in order. */
  function Keep(s: seq<Op>, ids: set<nat>): seq<Op> {
    if s == [] then []
    else Keep(s[..|s| - 1], ids) + if s[|s| - 1].id in ids then [s[|s| - 1]] else []
  }

  /** The ops of `s` without those with a number in `ids`. */
  function Drop(s: seq<Op>, ids: set<nat>): seq<Op> {
    if s == [] then []
    else Drop(s[..|s| - 1], ids) + if s[|s| - 1].id in ids then [] else [s[|s| - 1]]
  }

  predicate Rising(s: seq<Op>) {
    forall j, k :: 0 <= j < k < |s| ==> s[j].id < s[k].id
  }

  predicate Below(s: seq<Op>, n: nat) {
    forall k :: 0 <= k < |s| ==> s[k].id < n
  }

  lemma {:induction false} KeepSnoc(s: seq<Op>, op: Op, ids: set<nat>)
    ensures Keep(s + [op], ids) == Keep(s, ids) + if op.id in ids then [op] else []
  {
    assert (s + [op])[..|s|] == s;
  }

  lemma {:induction false} DropSnoc(s: seq<Op>, op: Op, ids: set<nat>)
    ensures Drop(s + [op], ids) == Drop(s, ids) + if op.id in ids then [] else [op]
  {
    assert (s + [op])[..|s|] == s;
  }

  lemma {:induction false} KeepMore(s: seq<Op>, ids: set<nat>, id: nat)
    requires Below(s, id)
    ensures Keep(s, ids + {id}) == Keep(s, ids)
  {
    if s != [] {
      KeepMore(s[..|s| - 1], ids, id);
    }
  }

  lemma {:induction false} DropSame(s: seq<Op>, ids: set<nat>, ids': set<nat>)
    requires forall k :: 0 <= k < |s| ==> (s[k].id in ids <==> s[k].id in ids')
    ensures Drop(s, ids) == Drop(s, ids')
  {
    hide Drop;
    if s == [] {
      Nothing(ids);
      Nothing(ids');
    } else {
      var n := |s| - 1;
      DropSame(s[..n], ids, ids');
      DropSnoc(s[..n], s[n], ids);
      DropSnoc(s[..n], s[n], ids');
      assert s == s[..n] + [s[n]];
    }
  }

  lemma {:induction false} DropConcat(s: seq<Op>, t: seq<Op>, ids: set<nat>)
    ensures Drop(s + t, ids) == Drop(s, ids) + Drop(t, ids)
  {
    hide Drop;
    if t == [] {
      assert s + t == s;
      Nothing(ids);
    } else {
      var init, x := t[..|t| - 1], t[|t| - 1];
      DropConcat(s, init, ids);
      DropSnoc(s + init, x, ids);
      DropSnoc(init, x, ids);
      assert s + t == (s + init) + [x] && t == init + [x];
    }
  }

  lemma {:induction false} DropAll(s: seq<Op>, ids: set<nat>)
    requires Ids(s) <= ids
    ensures Drop(s, ids) == []
  {
    hide Drop;
    if s == [] {
      Nothing(ids);
    } else {
      var n := |s| - 1;
      assert s[n].id in Ids(s) && forall k :: 0 <= k < n ==> s[..n][k].id in Ids(s);
      DropAll(s[..n], ids);
      DropSnoc(s[..n], s[n], ids);
      assert s == s[..n] + [s[n]];
    }
  }

  lemma {:induction false} DropNone(s: seq<Op>, ids: set<nat>)
    requires forall k :: 0 <= k < |s| ==> s[k].id !in ids
    ensures Drop(s, ids) == s
  {
    hide Drop;
    if s == [] {
      Nothing(ids);
    } else {
      var n := |s| - 1;
      DropNone(s[..n], ids);
      DropSnoc(s[..n], s[n], ids);
      assert s == s[..n] + [s[n]];
    }
  }

  lemma {:induction false} DropLength(s: seq<Op>, ids: set<nat>)
    ensures |Drop(s, ids)| <= |s|
    ensures |Drop(s, ids)| == |s| ==> forall k :: 0 <= k < |s| ==> s[k].id !in ids
  {
    hide Drop;
    if s == [] {
      Nothing(ids);
    } else {
      var n := |s| - 1;
      DropLength(s[..n], ids);
      DropSnoc(s[..n], s[n], ids);
      assert s == s[..n] + [s[n]];
    }
  }

  lemma {:induction false} DropMembers(s: seq<Op>, ids: set<nat>, op: Op)
    ensures op in Drop(s, ids) <==> op in s && op.id !in ids
  {
    hide Drop;
    if s == [] {
      Nothing(ids);
    } else {
      var n := |s| - 1;
      DropMembers(s[..n], ids, op);
      DropSnoc(s[..n], s[n], ids);
      assert s == s[..n] + [s[n]];
    }
  }

  lemma {:induction false} DropRising(s: seq<Op>, ids: set<nat>, n: nat)
    requires Rising(s) && Below(s, n)
    ensures Rising(Drop(s, ids)) && Below(Drop(s, ids), n)
  {
    if s != [] {
      var k := |s| - 1;
      assert Below(s[..k], s[k].id);
      DropRising(s[..k], ids, s[k].id);
      hide Drop;
      DropSnoc(s[..k], s[k], ids);
      assert s == s[..k] + [s[k]];
    }
  }

  /** Taking one op away from what is left out puts it in its place, if all that follow are left out. */
  lemma {:induction false} DropLess(s: seq<Op>, ids: set<nat>, i: nat)
    requires Rising(s) && i < |s| && Ids(s[i..]) <= ids
    ensures Drop(s, ids - {s[i].id}) == Drop(s, ids) + [s[i]]
  {
    hide Drop;
    var less, a, b := ids - {s[i].id}, s[..i], s[i + 1..];
    assert s == a + s[i..] && s == (a + [s[i]]) + b;
    DropConcat(a, s[i..], ids);
    DropAll(s[i..], ids);
    DropConcat(a + [s[i]], b, less);
    DropSnoc(a, s[i], less);
    DropSame(a, ids, less);
    forall k | 0 <= k < |b| ensures b[k].id in less {
      assert b[k] == s[i..][k + 1];
      assert s[i..][k + 1].id in Ids(s[i..]);
    }
    DropAll(b, less);
  }

  /** What an attempt has got is what was accepted, with what is in flight, less what it is missing; what
      was acknowledged is part of what was accepted; numbers below `pend` have been given out and used. */
  ghost predicate Book(log: seq<Op>, sent: seq<Op>, flight: seq<Op>, missing: set<nat>, acks: seq<Op>,
                       ackSet: set<nat>, pend: nat)
  {
    && log == Drop(sent + flight, missing) && missing <= Ids(sent)
    && Rising(sent) && Below(sent, pend) && (forall k :: 0 <= k < |flight| ==> flight[k].id == pend)
    && acks == Keep(sent, ackSet) && ackSet <= Ids(sent)
  }

  lemma {:induction false} IdsBelow(s: seq<Op>, n: nat, ids: set<nat>, id: nat)
    requires Below(s, n) && ids <= Ids(s) && id >= n
    ensures id !in ids
  {
  }

  lemma {:induction false} IdsSnoc(s: seq<Op>, op: Op)
    ensures Ids(s + [op]) == Ids(s) + {op.id}
  {
    var t := s + [op];
    assert t[|s|] == op && forall k :: 0 <= k < |s| ==> t[k] == s[k];
  }

  /** A send is written. */
  lemma {:induction false} BookFly(log: seq<Op>, sent: seq<Op>, missing: set<nat>, acks: seq<Op>, ackSet: set<nat>,
                                   pend: nat, op: Op)
    requires Book(log, sent, [], missing, acks, ackSet, pend) && op.id == pend
    ensures Book(log + [op], sent, [op], missing, acks, ackSet, pend)
  {
    hide Drop, Keep, Ids, Rising;
    IdsBelow(sent, pend, missing, op.id);
    DropSnoc(sent, op, missing);
    assert sent + [] == sent;
  }

  /** A send that was written is accepted and acknowledged. */
  lemma {:induction false} BookLand(log: seq<Op>, sent: seq<Op>, missing: set<nat>, acks: seq<Op>, ackSet: set<nat>,
                                    pend: nat, op: Op)
    requires Book(log, sent, [op], missing, acks, ackSet, pend)
    ensures Book(log, sent + [op], [], missing, acks + [op], ackSet + {op.id}, pend + 1)
  {
    hide Drop, Keep, Ids;
    IdsSnoc(sent, op);
    KeepSnoc(sent, op, ackSet + {op.id});
    KeepMore(sent, ackSet, op.id);
    assert [op][0].id == pend;
    assert (sent + [op]) + [] == sent + [op];
  }

  /** A send that was not written is accepted all the same. */
  lemma {:induction false} BookLose(log: seq<Op>, sent: seq<Op>, missing: set<nat>, acks: seq<Op>, ackSet: set<nat>,
                                    pend: nat, op: Op, ack: bool)
    requires Book(log, sent, [], missing, acks, ackSet, pend) && op.id == pend
    ensures Book(log, sent + [op], [], missing + {op.id}, acks + (if ack then [op] else []),
                 ackSet + (if ack then {op.id} else {}), pend + 1)
  {
    hide Drop, Keep, Ids;
    IdsSnoc(sent, op);
    IdsBelow(sent, pend, ackSet, op.id);
    DropSnoc(sent, op, missing + {op.id});
    DropSame(sent, missing, missing + {op.id});
    KeepSnoc(sent, op, ackSet + if ack then {op.id} else {});
    KeepMore(sent, ackSet, op.id);
    assert ackSet + {} == ackSet && acks + [] == acks;
    assert (sent + [op]) + [] == sent + [op] && sent + [] == sent;
  }

  lemma {:induction false} BookLater(log: seq<Op>, sent: seq<Op>, missing: set<nat>, acks: seq<Op>, ackSet: set<nat>,
                                     pend: nat)
    requires Book(log, sent, [], missing, acks, ackSet, pend)
    ensures Book(log, sent, [], missing, acks, ackSet, pend + 1)
  {
  }

  /** A new attempt is missing everything. */
  lemma {:induction false} BookFresh(log: seq<Op>, sent: seq<Op>, flight: seq<Op>, missing: set<nat>, acks: seq<Op>,
                                     ackSet: set<nat>, pend: nat)
    requires Book(log, sent, flight, missing, acks, ackSet, pend)
    ensures Book([], sent, [], Ids(sent), acks, ackSet, pend)
  {
    hide Keep;
    DropAll(sent, Ids(sent));
    assert sent + [] == sent;
  }

  /** A replayed send is written. */
  lemma {:induction false} BookSupply(log: seq<Op>, sent: seq<Op>, missing: set<nat>, acks: seq<Op>, ackSet: set<nat>,
                                      pend: nat, i: nat)
    requires Book(log, sent, [], missing, acks, ackSet, pend) && i < |sent| && Ids(sent[i..]) <= missing
    ensures Book(log + [sent[i]], sent, [], missing - {sent[i].id}, acks, ackSet, pend)
    ensures Ids(sent[i + 1..]) <= missing - {sent[i].id}
  {
    hide Keep, Drop;
    DropLess(sent, missing, i);
    assert sent + [] == sent;
    var after := sent[i + 1..];
    forall k | 0 <= k < |after| ensures after[k].id in missing - {sent[i].id} {
      assert after[k] == sent[i..][k + 1];
      assert sent[i..][k + 1].id in Ids(sent[i..]);
    }
  }

  /** An attempt has got everything exactly if it is missing nothing. */
  lemma {:induction false} BookComplete(log: seq<Op>, sent: seq<Op>, flight: seq<Op>, missing: set<nat>, acks: seq<Op>,
                                        ackSet: set<nat>, pend: nat)
    requires Book(log, sent, flight, missing, acks, ackSet, pend)
    ensures log == sent + flight <==> missing == {}
  {
    hide Keep, Drop;
    var all := sent + flight;
    if missing == {} {
      DropNone(all, missing);
    } else {
      DropLength(all, missing);
      var id :| id in missing;
      var k :| 0 <= k < |sent| && sent[k].id == id;
      assert all[k] == sent[k];
    }
  }

  /** It has got everything acknowledged exactly if nothing acknowledged is missing. */
  lemma {:induction false} BookAcknowledged(log: seq<Op>, sent: seq<Op>, flight: seq<Op>, missing: set<nat>,
                                            acks: seq<Op>, ackSet: set<nat>, pend: nat)
    requires Book(log, sent, flight, missing, acks, ackSet, pend) && |flight| <= 1
    ensures Keep(log, ackSet) == acks <==> missing !! ackSet
    ensures Rising(log)
  {
    hide Keep, Drop;
    var all := sent + flight;
    assert Rising(all) && Below(all, pend + 1);
    DropRising(all, missing, pend + 1);
    KeepDrop(all, missing, ackSet);
    if flight != [] {
      IdsBelow(sent, pend, ackSet, pend);
      KeepSnoc(sent, flight[0], ackSet);
      assert flight == [flight[0]];
    }
    assert sent + [] == sent;
    if missing !! ackSet {
      assert forall k :: 0 <= k < |all| ==> !(all[k].id in missing && all[k].id in ackSet);
    } else {
      var id :| id in missing && id in ackSet;
      var k :| 0 <= k < |sent| && sent[k].id == id;
      assert all[k] == sent[k];
    }
  }

  lemma {:induction false} KeepDrop(s: seq<Op>, gone: set<nat>, ids: set<nat>)
    ensures |Keep(Drop(s, gone), ids)| <= |Keep(s, ids)|
    ensures Keep(Drop(s, gone), ids) == Keep(s, ids) <==> forall k :: 0 <= k < |s| ==> !(s[k].id in gone && s[k].id in ids)
  {
    hide Keep, Drop;
    if s == [] {
      Nothing(gone);
      Nothing(ids);
    } else {
      var init, x := s[..|s| - 1], s[|s| - 1];
      assert s == init + [x];
      KeepDrop(init, gone, ids);
      KeepSnoc(init, x, ids);
      DropSnoc(init, x, gone);
      assert forall k :: 0 <= k < |init| ==> s[k] == init[k];
      assert x.id !in ids ==> Keep(s, ids) == Keep(init, ids);
      if x.id !in gone {
        KeepSnoc(Drop(init, gone), x, ids);
        assert x.id !in ids ==> Keep(Drop(s, gone), ids) == Keep(Drop(init, gone), ids);
        SnocSame(Keep(Drop(init, gone), ids), Keep(init, ids), x);
      } else {
        assert Drop(s, gone) == Drop(init, gone);
      }
    }
  }

  lemma {:induction false} Nothing(ids: set<nat>)
    ensures Keep([], ids) == [] && Drop([], ids) == []
  {
  }

  lemma {:induction false} SnocSame(a: seq<Op>, b: seq<Op>, x: Op)
    ensures a + [x] == b + [x] <==> a == b
  {
    if a + [x] == b + [x] {
      assert a == (a + [x])[..|a|] && b == (b + [x])[..|b|];
    }
  }

  // ---------------------------------------------------------------- what every run keeps

  function CurLog(s: Stream): seq<Op>
    requires s.attempts != []
  {
    s.attempts[Cur(s)].log
  }

  function Missing(s: Stream): set<nat>
    requires s.attempts != []
  {
    s.attempts[Cur(s)].missing
  }

  /** The send written to the current attempt whose caller has not taken the lock since. */
  function InFlight(s: Stream): seq<Op> {
    if s.snd.Done? && s.snd.a == Cur(s) && s.snd.written && s.snd.job.Send? then [s.snd.job.op] else []
  }

  function Replaying(s: Stream): Option<nat> {
    if s.snd.Replay? then Some(s.snd.i) else if s.rcv.Replay? then Some(s.rcv.i) else None
  }

  /** The number of the send in progress, or of the next one. */
  function Pend(s: Stream): nat {
    if s.snd.Idle? || s.aux.nextId == 0 then s.aux.nextId else s.aux.nextId - 1
  }

  predicate LocalOk(s: Stream, l: Local) {
    && (l.Exec? || l.Done? ==> l.a < |s.attempts|)
    && (l.Done? ==> Usable(s, l.job, l.a) && Possible(l.job, l.res, l.written))
    && (l.Retry? && s.committed ==> s.attempts != [] && HasStream(s.attempts[Cur(s)]))
    && (l.ExecLast? ==> s.committed)
  }

  predicate Threads(s: Stream) {
    && s.attempts != [] && !(Holds(s.snd) && Holds(s.rcv))
    && LocalOk(s, s.snd) && LocalOk(s, s.rcv)
    && (!s.snd.Idle? ==> s.aux.nextId > 0 && s.snd.job.Send? && s.snd.job.op.id == s.aux.nextId - 1)
    && (!s.snd.Idle? && s.snd.job.op.id == 0 ==> s.snd.job == Send(OPEN) && !s.live && !s.committed)
    && (!s.snd.Idle? && s.snd.job.op.id != 0 ==> s.live)
    && (!s.rcv.Idle? ==> s.rcv.job == Recv && s.live)
    && (s.aux.nextId == 0 ==> !s.live && (s.committed ==> s.finished))
  }

  ghost predicate Booked(s: Stream)
    requires s.attempts != []
  {
    Book(CurLog(s), s.aux.sent, InFlight(s), Missing(s), s.aux.acks, s.aux.ackSet, Pend(s))
  }

  /** No thread works on the attempt that is being filled. */
  predicate Unshared(s: Stream) {
    && (s.snd.Exec? || s.snd.Done? ==> s.snd.a != Cur(s))
    && (s.rcv.Exec? || s.rcv.Done? ==> s.rcv.a != Cur(s))
  }

  /** Until it is committed a stream can replay everything accepted; a replay still owes the rest of it. */
  ghost predicate Buffered(s: Stream)
    requires s.attempts != []
  {
    && (!s.committed ==> s.buffer == s.aux.sent)
    && s.aux.commits == (if s.committed then 1 else 0)
    && (Replaying(s).Some? ==>
          && !s.committed && Unshared(s) && Replaying(s).value <= |s.aux.sent|
          && Ids(s.aux.sent[Replaying(s).value..]) <= Missing(s))
  }

  /** Opening comes first. */
  predicate Opening(s: Stream) {
    && (s.aux.sent != [] ==> s.aux.sent[0] == OPEN)
    && (s.live ==> s.aux.sent != [] && 0 in s.aux.ackSet)
  }

  ghost predicate Inv(s: Stream) {
    Threads(s) && Booked(s) && Buffered(s) && Opening(s)
  }

  lemma {:induction false} InitInv(cfg: Config)
    ensures Inv(Init(cfg))
  {
  }

  lemma {:induction false} ThreadFacts(s: Stream)
    requires Threads(s)
    ensures s.attempts != [] && !(Holds(s.snd) && Holds(s.rcv))
    ensures !s.snd.Idle? ==> s.aux.nextId > 0 && s.snd.job.Send? && s.snd.job.op.id == Pend(s)
    ensures !s.snd.Idle? && s.snd.job.op.id == 0 ==> s.snd.job == Send(OPEN) && !s.live && !s.committed
    ensures !s.snd.Idle? && s.snd.job.op.id != 0 ==> s.live
    ensures !s.rcv.Idle? ==> s.rcv.job == Recv && s.live
    ensures LocalOk(s, s.snd) && LocalOk(s, s.rcv)
  {
  }

  /** A thread moves on without touching what is booked. */
  lemma {:induction false} MoveKeeps(s: Stream, t: Stream)
    requires s.attempts != [] && Booked(s) && Buffered(s) && Opening(s)
    requires t.attempts != [] && CurLog(t) == CurLog(s) && Missing(t) == Missing(s)
    requires t.aux.sent == s.aux.sent && t.aux.acks == s.aux.acks && t.aux.ackSet == s.aux.ackSet
    requires t.committed == s.committed && t.buffer == s.buffer && t.live == s.live && t.aux.commits == s.aux.commits
    requires InFlight(t) == InFlight(s) && Pend(t) == Pend(s)
    requires Replaying(t).Some? ==> Replaying(t) == Replaying(s) && Unshared(t)
    ensures Booked(t) && Buffered(t) && Opening(t)
  {
    hide Book, Ids;
  }

  lemma {:induction false} CallSendKeeps(s: Stream, size: nat, lenient: bool, t: Stream)
    requires Inv(s) && CallSendStep(s, size, lenient, t)
    ensures Inv(t)
  {
    hide Book, Ids, HasStream;
    MoveKeeps(s, t);
  }

  lemma {:induction false} CallRecvKeeps(s: Stream, t: Stream)
    requires Inv(s) && s.rcv.Idle? && s.live && t == s.(rcv := Enter(Recv))
    ensures Inv(t)
  {
    hide Book, Ids, HasStream;
    MoveKeeps(s, t);
  }

  lemma {:induction false} LockKeeps(s: Stream, who: Who, t: Stream)
    requires Inv(s) && LockStep(s, who, t)
    ensures Inv(t)
  {
    hide Book, Ids, HasStream;
    MoveKeeps(s, t);
  }

  lemma {:induction false} ReplayEndKeeps(s: Stream, who: Who, t: Stream)
    requires Inv(s) && ReplayEndStep(s, who, t)
    ensures Inv(t)
  {
    hide Book, Ids, HasStream;
    MoveKeeps(s, t);
  }

  /** Logs only grow. */
  lemma {:induction false} ApplyKeepsStream(s: Stream, job: Job, a: nat, written: bool, b: nat)
    requires a < |s.attempts| && b < |s.attempts| && HasStream(s.attempts[b])
    ensures HasStream(Apply(s, job, a, written).attempts[b])
  {
  }

  lemma {:induction false} RunKeepsThreads(s: Stream, who: Who, res: Res, written: bool, t: Stream)
    requires Inv(s) && RunStep(s, who, res, written, t)
    ensures Threads(t)
  {
    hide Booked, Buffered, Opening, HasStream;
    var l := At(s, who);
    if Usable(s, l.job, l.a) {
      forall b | 0 <= b < |s.attempts| && HasStream(s.attempts[b]) ensures HasStream(t.attempts[b]) {
        ApplyKeepsStream(s, l.job, l.a, written, b);
      }
    }
  }

  /** A send written to the current attempt is in flight. */
  lemma {:induction false} RanHere(s: Stream, t: Stream)
    requires Inv(s) && s.snd.Exec? && s.snd.a == Cur(s) && s.snd.job.Send? && s.snd.job.op.id == Pend(s)
    requires t.attempts != [] && CurLog(t) == CurLog(s) + [s.snd.job.op] && Missing(t) == Missing(s)
    requires t.aux == s.aux && t.committed == s.committed && t.buffer == s.buffer && t.live == s.live
    requires t.rcv == s.rcv && !t.snd.Idle? && !t.snd.Replay? && InFlight(t) == [s.snd.job.op]
    ensures Booked(t) && Buffered(t) && Opening(t)
  {
    hide Book, Ids, HasStream, Threads;
    BookFly(CurLog(s), s.aux.sent, Missing(s), s.aux.acks, s.aux.ackSet, Pend(s), s.snd.job.op);
  }

  lemma {:induction false} RunKeeps(s: Stream, who: Who, res: Res, written: bool, t: Stream)
    requires Inv(s) && RunStep(s, who, res, written, t)
    ensures Inv(t)
  {
    hide HasStream, Threads, Booked, Buffered, Opening;
    ThreadFacts(s);
    RunKeepsThreads(s, who, res, written, t);
    ReplayFacts(s);
    var l := At(s, who);
    if who == Sender && l.a == Cur(s) && written && Usable(s, l.job, l.a) {
      RanHere(s, t);
    } else {
      MoveKeeps(s, t);
    }
  }

  lemma {:induction false} ReplayFacts(s: Stream)
    requires Inv(s)
    ensures s.attempts != [] && s.aux.commits == (if s.committed then 1 else 0)
    ensures !s.committed ==> s.buffer == s.aux.sent
    ensures Replaying(s).Some? ==> !s.committed && Unshared(s) && Replaying(s).value <= |s.aux.sent|
    ensures Replaying(s).Some? ==> Ids(s.aux.sent[Replaying(s).value..]) <= Missing(s)
    ensures s.aux.sent != [] ==> s.aux.sent[0] == OPEN
    ensures s.live ==> s.aux.sent != []
  {
  }

  predicate LogsGrow(s: Stream, t: Stream) {
    |t.attempts| == |s.attempts| && forall b :: 0 <= b < |s.attempts| ==> s.attempts[b].log <= t.attempts[b].log
  }

  predicate SameThreads(s: Stream, t: Stream) {
    && LogsGrow(s, t) && t.finished == s.finished && t.aux.nextId == s.aux.nextId && (s.committed ==> t.committed)
  }

  lemma {:induction false} StreamKept(a: Attempt, b: Attempt)
    requires a.log <= b.log && HasStream(a)
    ensures HasStream(b)
  {
    var k :| 0 <= k < |a.log| && a.log[k] == OPEN;
    assert b.log[k] == OPEN;
  }

  /** A thread returns, possibly having committed the stream under the lock. */
  lemma {:induction false} IdleThreads(s: Stream, who: Who, t: Stream)
    requires Threads(s) && SameThreads(s, t)
    requires if who == Sender then t.snd.Idle? && t.rcv == s.rcv else t.rcv.Idle? && t.snd == s.snd
    requires !At(s, who).Idle? && (s.live ==> t.live) && (t.live ==> s.live || who == Sender)
    requires t.committed && !s.committed ==> LockFree(s) || Holds(At(s, who))
    ensures Threads(t)
  {
    hide HasStream;
    forall b | 0 <= b < |s.attempts| && HasStream(s.attempts[b]) ensures HasStream(t.attempts[b]) {
      StreamKept(s.attempts[b], t.attempts[b]);
    }
  }

  /** A send comes back accepted: it was in flight, or it was not written. */
  lemma {:induction false} AcceptKeeps(s: Stream, res: Res, written: bool, t: Stream)
    requires Inv(s) && !s.snd.Idle? && s.snd.job.Send? && s.snd.job.op.id == Pend(s) && s.aux.nextId > 0 && res != Bad
    requires InFlight(s) == if written then [s.snd.job.op] else []
    requires (written ==> res == Fine) && (s.snd.job.op.id == 0 ==> s.snd.job == Send(OPEN))
    requires s.snd.job.op.id != 0 ==> s.live
    requires t.attempts != [] && CurLog(t) == CurLog(s)
    requires Missing(t) == Missing(s) + if written then {} else {s.snd.job.op.id}
    requires t.snd.Idle? && t.rcv == s.rcv && Replaying(s).None? && t.aux.nextId == s.aux.nextId
    requires t.aux.sent == s.aux.sent + [s.snd.job.op] && t.live == (s.live || res == Fine)
    requires t.aux.acks == s.aux.acks + if res == Fine then [s.snd.job.op] else []
    requires t.aux.ackSet == s.aux.ackSet + if res == Fine then {s.snd.job.op.id} else {}
    requires (s.committed ==> t.committed) && (!t.committed ==> t.buffer == s.buffer + [s.snd.job.op])
    requires t.aux.commits == if t.committed then 1 else 0
    ensures Booked(t) && Buffered(t) && Opening(t)
  {
    hide Book, HasStream, Threads;
    ReplayFacts(s);
    var op := s.snd.job.op;
    if written {
      BookLand(CurLog(s), s.aux.sent, Missing(s), s.aux.acks, s.aux.ackSet, Pend(s), op);
      assert Missing(s) + {} == Missing(s);
    } else {
      BookLose(CurLog(s), s.aux.sent, Missing(s), s.aux.acks, s.aux.ackSet, Pend(s), op, res == Fine);
    }
  }

  /** A call that fails leaves nothing behind. */
  lemma {:induction false} FailKeeps(s: Stream, who: Who, t: Stream)
    requires Inv(s) && !At(s, who).Idle? && Replaying(s).None? && t.attempts == s.attempts
    requires if who == Sender then t.snd.Idle? && t.rcv == s.rcv && InFlight(s) == [] else t.rcv.Idle? && t.snd == s.snd
    requires t.aux == s.aux.(failed := t.aux.failed, transparent := t.aux.transparent)
    requires t.committed == s.committed && t.buffer == s.buffer && t.live == s.live
    ensures Booked(t) && Buffered(t) && Opening(t)
  {
    hide Book, Ids, HasStream;
    if who == Sender {
      BookLater(CurLog(s), s.aux.sent, Missing(s), s.aux.acks, s.aux.ackSet, Pend(s));
    } else {
      MoveKeeps(s, t);
    }
  }

  lemma {:induction false} LastFacts(s: Stream, who: Who)
    requires Inv(s) && At(s, who).ExecLast?
    ensures s.committed && Replaying(s).None?
  {
  }

  lemma {:induction false} RunLastKeepsThreads(s: Stream, who: Who, res: Res, written: bool, t: Stream)
    requires Inv(s) && RunLastStep(s, who, res, written, t)
    ensures Threads(t)
  {
    hide Booked, Buffered, Opening, HasStream, Threads;
    ThreadFacts(s);
    if Usable(s, At(s, who).job, |s.attempts| - 1) {
      IdleThreads(s, who, t);
    } else {
      CrashThreads(s, who, t);
    }
  }

  lemma {:induction false} CrashThreads(s: Stream, who: Who, t: Stream)
    requires Threads(s) && !At(s, who).Idle? && t == Move(s, who, Crashed(At(s, who).job))
    ensures Threads(t)
  {
    hide HasStream;
  }

  /** The state between the write and the return of an operation on a committed attempt. */
  function Between(s: Stream, res: Res, written: bool): Stream
    requires s.attempts != [] && s.snd.ExecLast?
  {
    Apply(s, s.snd.job, |s.attempts| - 1, written).(snd := Done(s.snd.job, |s.attempts| - 1, res, written))
  }

  lemma {:induction false} BetweenInv(s: Stream, res: Res, written: bool)
    requires Inv(s) && s.snd.ExecLast? && Possible(s.snd.job, res, written) && Usable(s, s.snd.job, |s.attempts| - 1)
    ensures Inv(Between(s, res, written))
  {
    hide HasStream, Book, Ids;
    LastFacts(s, Sender);
    var t := Between(s, res, written);
    forall b | 0 <= b < |s.attempts| && HasStream(s.attempts[b]) ensures HasStream(t.attempts[b]) {
      ApplyKeepsStream(s, s.snd.job, |s.attempts| - 1, written, b);
    }
    if written {
      BookFly(CurLog(s), s.aux.sent, Missing(s), s.aux.acks, s.aux.ackSet, Pend(s), s.snd.job.op);
    } else {
      MoveKeeps(s, t);
    }
  }

  lemma {:induction false} LastReturns(s: Stream, res: Res, written: bool, t: Stream)
    requires Inv(s) && RunLastStep(s, Sender, res, written, t) && Usable(s, s.snd.job, |s.attempts| - 1)
    ensures Booked(t) && Buffered(t) && Opening(t)
  {
    hide HasStream, Threads, Booked, Buffered, Opening;
    ThreadFacts(s);
    ReplayFacts(s);
    LastFacts(s, Sender);
    BetweenInv(s, res, written);
    if res == Bad {
      FailKeeps(Between(s, res, written), Sender, t);
    } else {
      AcceptKeeps(Between(s, res, written), res, written, t);
    }
  }

  lemma {:induction false} RunLastKeeps(s: Stream, who: Who, res: Res, written: bool, t: Stream)
    requires Inv(s) && RunLastStep(s, who, res, written, t)
    ensures Inv(t)
  {
    hide HasStream, Threads, Booked, Buffered, Opening;
    RunLastKeepsThreads(s, who, res, written, t);
    if who == Sender && Usable(s, s.snd.job, |s.attempts| - 1) {
      LastReturns(s, res, written, t);
    } else {
      ThreadFacts(s);
      LastFacts(s, who);
      if Usable(s, At(s, who).job, |s.attempts| - 1) { FailKeeps(s, who, t); } else { MoveKeeps(s, t); }
    }
  }

  /** Committing settles what the current attempt has seen. */
  lemma {:induction false} CommitKeeps(s: Stream, t: Stream)
    requires Inv(s) && Replaying(s).None? && t == Commit(s).(finished := t.finished)
    ensures Booked(t) && Buffered(t) && Opening(t)
  {
    hide Book, Ids, HasStream;
  }

  lemma {:induction false} FinishKeeps(s: Stream, t: Stream)
    requires Inv(s) && Reachable(s)
    requires t == Commit(s.(finished := true)) || (t == Commit(s) && s.live)
    ensures Inv(t)
  {
    hide Book, Ids, HasStream;
    CommitKeeps(s, t);
  }

  /** A thread takes the lock and goes round again, or starts to retry. */
  lemma {:induction false} MoveThreads(s: Stream, who: Who, t: Stream)
    requires Threads(s) && LockFree(s) && !At(s, who).Idle?
    requires t.attempts == s.attempts && t.finished == s.finished && t.aux == s.aux
    requires t.live == s.live && t.committed == s.committed
    requires if who == Sender then t.rcv == s.rcv else t.snd == s.snd
    requires At(t, who) == Enter(At(s, who).job) || At(t, who) == Retry(At(s, who).job)
    requires At(t, who).Retry? && s.committed ==> HasStream(s.attempts[Cur(s)])
    ensures Threads(t)
  {
    hide HasStream;
  }

  lemma {:induction false} BufferFrame(s: Stream, op: Op)
    ensures var t := BufferForRetry(s, op);
      && SameThreads(s, t) && t.snd == s.snd && t.rcv == s.rcv && t.live == s.live && t.attempts == s.attempts
      && t.aux == s.aux.(commits := t.aux.commits) && t.cfg == s.cfg
      && (s.aux.commits == (if s.committed then 1 else 0) ==> t.aux.commits == if t.committed then 1 else 0)
      && (!t.committed ==> t.buffer == s.buffer + [op])
  {
  }

  lemma {:induction false} SendReturns(s: Stream, t: Stream)
    requires Inv(s) && LockFree(s) && s.snd.Done? && s.snd.a == Cur(s) && s.snd.res != Bad
    requires t == Return(BufferForRetry(s, s.snd.job.op), Sender, s.snd.job, s.snd.res, s.snd.written)
    ensures Inv(t)
  {
    hide BufferForRetry, HasStream, Threads, Booked, Buffered, Opening;
    ThreadFacts(s);
    ReplayFacts(s);
    BufferFrame(s, s.snd.job.op);
    IdleThreads(s, Sender, t);
    AcceptKeeps(s, s.snd.res, s.snd.written, t);
  }

  lemma {:induction false} RecvReturns(s: Stream, t: Stream)
    requires Inv(s) && LockFree(s) && s.rcv.Done? && s.rcv.a == Cur(s) && s.rcv.res != Bad
    requires t == Return(Commit(s), Receiver, s.rcv.job, s.rcv.res, s.rcv.written)
    ensures Inv(t)
  {
    hide HasStream, Threads, Booked, Buffered, Opening;
    ThreadFacts(s);
    ReplayFacts(s);
    IdleThreads(s, Receiver, t);
    CommitKeeps(s, Commit(s));
    MoveKeeps(Commit(s), t);
  }

  lemma {:induction false} SettleKeeps(s: Stream, who: Who, t: Stream)
    requires Inv(s) && SettleStep(s, who, t)
    ensures Inv(t)
  {
    hide HasStream, Threads, Booked, Buffered, Opening, BufferForRetry, Commit, Return;
    ThreadFacts(s);
    ReplayFacts(s);
    var l := At(s, who);
    if l.a != Cur(s) || l.res == Bad {
      MoveThreads(s, who, t);
      MoveKeeps(s, t);
    } else if who == Sender {
      SendReturns(s, t);
    } else {
      RecvReturns(s, t);
    }
  }

  lemma {:induction false} NobodyReplays(s: Stream, who: Who)
    requires !(Holds(s.snd) && Holds(s.rcv)) && At(s, who).Retry?
    ensures Replaying(s).None?
  {
  }

  lemma {:induction false} DecideKeepsThreads(s: Stream, who: Who, facts: Facts, transportOk: bool, t: Stream)
    requires Inv(s) && DecideStep(s, who, facts, transportOk, t)
    ensures Threads(t)
    ensures ShouldRetry(s, facts) != GiveUp ==> !s.committed
  {
    hide Booked, Buffered, Opening, HasStream;
    if ShouldRetry(s, facts) == GiveUp || !transportOk {
      IdleThreads(s, who, t);
    }
  }

  lemma {:induction false} GiveUpKeeps(s: Stream, who: Who, t: Stream)
    requires Inv(s) && At(s, who).Retry? && t == Return(Commit(s), who, At(s, who).job, Bad, false)
    ensures Booked(t) && Buffered(t) && Opening(t)
  {
    hide Book, Ids, HasStream;
    NobodyReplays(s, who);
    CommitKeeps(s, Commit(s));
    if who == Sender {
      BookLater(CurLog(s), s.aux.sent, Missing(s), s.aux.acks, s.aux.ackSet, Pend(s));
    } else {
      MoveKeeps(Commit(s), t);
    }
  }

  /** A new attempt starts empty. */
  lemma {:induction false} FreshKeeps(s: Stream, who: Who, t: Stream)
    requires Inv(s) && At(s, who).Retry? && !s.committed
    requires t.attempts == s.attempts + [Attempt([], Ids(s.buffer))]
    requires t.committed == s.committed && t.buffer == s.buffer && t.live == s.live
    requires t.aux == s.aux.(transparent := t.aux.transparent)
    requires t.snd == (if who == Sender then Replay(s.snd.job, 0) else s.snd)
    requires t.rcv == (if who == Receiver then Replay(s.rcv.job, 0) else s.rcv)
    ensures Booked(t) && Buffered(t) && Opening(t)
  {
    hide Book, HasStream;
    BookFresh(CurLog(s), s.aux.sent, InFlight(s), Missing(s), s.aux.acks, s.aux.ackSet, Pend(s));
    assert s.aux.sent[0..] == s.aux.sent;
  }

  lemma {:induction false} DecideKeeps(s: Stream, who: Who, facts: Facts, transportOk: bool, t: Stream)
    requires Inv(s) && DecideStep(s, who, facts, transportOk, t)
    ensures Inv(t)
  {
    hide HasStream, Threads, ShouldRetry, Booked, Buffered, Opening, Commit;
    ThreadFacts(s);
    DecideKeepsThreads(s, who, facts, transportOk, t);
    NobodyReplays(s, who);
    if ShouldRetry(s, facts) == GiveUp {
      GiveUpKeeps(s, who, t);
    } else if transportOk {
      FreshKeeps(s, who, t);
    } else {
      FailKeeps(s, who, t);
    }
  }

  lemma {:induction false} ReplayOneKeepsThreads(s: Stream, who: Who, res: Res, written: bool, t: Stream)
    requires Inv(s) && ReplayOneStep(s, who, res, written, t)
    ensures Threads(t) && !s.committed && Replaying(s) == Some(At(s, who).i)
  {
    hide Booked, Opening, HasStream, Ids;
    forall b | 0 <= b < |s.attempts| && HasStream(s.attempts[b]) ensures HasStream(t.attempts[b]) {
      StreamKept(s.attempts[b], t.attempts[b]);
    }
  }

  lemma {:induction false} ReplayOneKeeps(s: Stream, who: Who, res: Res, written: bool, t: Stream)
    requires Inv(s) && ReplayOneStep(s, who, res, written, t)
    ensures Inv(t)
  {
    hide Book, Threads, HasStream, Ids;
    ThreadFacts(s);
    ReplayOneKeepsThreads(s, who, res, written, t);
    var i := At(s, who).i;
    if written {
      BookSupply(CurLog(s), s.aux.sent, Missing(s), s.aux.acks, s.aux.ackSet, Pend(s), i);
    } else {
      IdsTail(s.aux.sent, i);
    }
  }

  lemma {:induction false} IdsTail(s: seq<Op>, i: nat)
    requires i < |s|
    ensures Ids(s[i + 1..]) <= Ids(s[i..])
  {
    var a, b := s[i..], s[i + 1..];
    assert forall k :: 0 <= k < |b| ==> b[k] == a[k + 1];
  }

  lemma {:induction false} NextKeeps(s: Stream, step: Step, t: Stream)
    requires Inv(s) && Next(s, step, t)
    ensures Inv(t)
  {
    hide Inv, CallSendStep, LockStep, RunStep, RunLastStep, SettleStep, DecideStep, ReplayOneStep, ReplayEndStep,
         Reachable;
    match step
    case CallSend(size, lenient) => CallSendKeeps(s, size, lenient, t);
    case CallRecv => CallRecvKeeps(s, t);
    case Lock(who) => LockKeeps(s, who, t);
    case Run(who, res, written) => RunKeeps(s, who, res, written, t);
    case RunLast(who, res, written) => RunLastKeeps(s, who, res, written, t);
    case Settle(who) => SettleKeeps(s, who, t);
    case Decide(who, facts, ok) => DecideKeeps(s, who, facts, ok, t);
    case ReplayOne(who, res, written) => ReplayOneKeeps(s, who, res, written, t);
    case ReplayEnd(who) => ReplayEndKeeps(s, who, t);
    case Finish => if !s.finished { FinishKeeps(s, t); }
    case CommitNow => FinishKeeps(s, t);
  }

  lemma {:induction false} RunHasInv(run: seq<Stream>, steps: seq<Step>, cfg: Config, i: nat)
    requires IsRun(run, steps, cfg) && i < |run|
    ensures Inv(run[i])
  {
    hide Inv, Next;
    if i == 0 {
      InitInv(cfg);
    } else {
      RunHasInv(run, steps, cfg, i - 1);
      assert Next(run[i - 1], steps[i - 1], run[i]);
      NextKeeps(run[i - 1], steps[i - 1], run[i]);
    }
  }

  // ---------------------------------------------------------------- what an attempt is missing

  /** The step fails to replay an operation, and the rest of the buffer is left out. */
  predicate CutsShort(step: Step) {
    step.ReplayOne? && step.res != Fine
  }

  function LeftOut(s: Stream, step: Step): seq<Op> {
    if step.ReplayOne? && At(s, step.who).Replay? && At(s, step.who).i <= |s.buffer|
    then s.buffer[At(s, step.who).i..] else []
  }

  /** The send that the step accepts, or replays without complaint, although it was not written. */
  function LostNow(s: Stream, step: Step): set<nat> {
    match step
    case Settle(who) =>
      if who == Sender && s.snd.Done? && s.snd.job.Send? && s.snd.a == Cur(s) && s.snd.res != Bad && !s.snd.written
      then {s.snd.job.op.id} else {}
    case RunLast(who, res, written) =>
      if who == Sender && s.snd.ExecLast? && s.snd.job.Send? && s.attempts != []
         && Usable(s, s.snd.job, |s.attempts| - 1) && res != Bad && !written
      then {s.snd.job.op.id} else {}
    case ReplayOne(who, res, written) =>
      if res == Fine && !written && LeftOut(s, step) != [] then {LeftOut(s, step)[0].id} else {}
    case _ => {}
  }

  function SuppliedNow(s: Stream, step: Step): set<nat> {
    if step.ReplayOne? && step.written && LeftOut(s, step) != [] then {LeftOut(s, step)[0].id} else {}
  }

  /** What a step does to what the current attempt is missing and to how far its replay has got. */
  ghost predicate Effect(s: Stream, step: Step, t: Stream)
    requires s.attempts != [] && t.attempts != []
  {
    if |t.attempts| != |s.attempts| then
      step.Decide? && |t.attempts| == |s.attempts| + 1 && Replaying(t) == Some(0) && Missing(t) == Ids(t.aux.sent)
    else
      && Missing(t) == Missing(s) - SuppliedNow(s, step) + LostNow(s, step)
      && (Replaying(s).Some? ==> t.aux.sent == s.aux.sent && (!step.ReplayOne? ==> LostNow(s, step) == {}))
      && (step.ReplayOne? ==>
            && Replaying(s).Some? && Replaying(s).value < |s.aux.sent| && (step.written ==> step.res == Fine)
            && LeftOut(s, step) == s.aux.sent[Replaying(s).value..]
            && Replaying(t) == if step.res == Fine then Some(Replaying(s).value + 1) else None)
      && (step.ReplayEnd? ==> Replaying(s) == Some(|s.aux.sent|) && Replaying(t) == None)
      && (!step.ReplayOne? && !step.ReplayEnd? ==> Replaying(t) == Replaying(s))
  }

  lemma {:induction false} PlainEffect(s: Stream, step: Step, t: Stream)
    requires s.attempts != [] && |t.attempts| == |s.attempts| && !step.ReplayOne? && !step.ReplayEnd?
    requires Missing(t) == Missing(s) + LostNow(s, step) && Replaying(t) == Replaying(s)
    requires Replaying(s).Some? ==> t.aux.sent == s.aux.sent && LostNow(s, step) == {}
    ensures Effect(s, step, t)
  {
    assert Missing(s) - {} == Missing(s);
  }

  lemma {:induction false} SendReturnsEffect(s: Stream, t: Stream)
    requires Inv(s) && LockFree(s) && s.snd.Done? && s.snd.a == Cur(s) && s.snd.res != Bad
    requires t == Return(BufferForRetry(s, s.snd.job.op), Sender, s.snd.job, s.snd.res, s.snd.written)
    ensures t.attempts != [] && Effect(s, Settle(Sender), t)
  {
    hide Threads, Booked, Buffered, Opening, HasStream, Ids, BufferForRetry, Effect;
    ThreadFacts(s);
    BufferFrame(s, s.snd.job.op);
    PlainEffect(s, Settle(Sender), t);
  }

  lemma {:induction false} RecvReturnsEffect(s: Stream, t: Stream)
    requires Inv(s) && LockFree(s) && s.rcv.Done? && s.rcv.a == Cur(s) && s.rcv.res != Bad
    requires t == Return(Commit(s), Receiver, s.rcv.job, s.rcv.res, s.rcv.written)
    ensures t.attempts != [] && Effect(s, Settle(Receiver), t)
  {
    hide Threads, Booked, Buffered, Opening, HasStream, Ids, Effect;
    ThreadFacts(s);
    PlainEffect(s, Settle(Receiver), t);
  }

  lemma {:induction false} SettleEffect(s: Stream, who: Who, t: Stream)
    requires Inv(s) && SettleStep(s, who, t)
    ensures t.attempts != [] && Effect(s, Settle(who), t)
  {
    hide Threads, Booked, Buffered, Opening, HasStream, Ids, BufferForRetry, Effect, Return;
    ThreadFacts(s);
    var l := At(s, who);
    if l.a != Cur(s) || l.res == Bad {
      PlainEffect(s, Settle(who), t);
    } else if who == Sender {
      SendReturnsEffect(s, t);
    } else {
      RecvReturnsEffect(s, t);
    }
  }

  lemma {:induction false} RunLastEffect(s: Stream, who: Who, res: Res, written: bool, t: Stream)
    requires Inv(s) && RunLastStep(s, who, res, written, t)
    ensures t.attempts != [] && Effect(s, RunLast(who, res, written), t)
  {
    hide Threads, Booked, Buffered, Opening, HasStream, Ids, Effect;
    ThreadFacts(s);
    ReplayFacts(s);
    LastFacts(s, who);
    PlainEffect(s, RunLast(who, res, written), t);
  }

  lemma {:induction false} RunEffect(s: Stream, who: Who, res: Res, written: bool, t: Stream)
    requires Inv(s) && RunStep(s, who, res, written, t)
    ensures t.attempts != [] && Effect(s, Run(who, res, written), t)
  {
    hide Threads, Booked, Buffered, Opening, HasStream, Ids, Effect;
    ThreadFacts(s);
    ReplayFacts(s);
    PlainEffect(s, Run(who, res, written), t);
  }

  lemma {:induction false} GiveUpEffect(s: Stream, who: Who, step: Step, t: Stream)
    requires s.attempts != [] && At(s, who).Retry? && !(Holds(s.snd) && Holds(s.rcv)) && step.Decide?
    requires t == Return(Commit(s), who, At(s, who).job, Bad, false)
    ensures t.attempts != [] && Effect(s, step, t)
  {
    hide Ids, Effect;
    PlainEffect(s, step, t);
  }

  lemma {:induction false} DecideEffect(s: Stream, who: Who, facts: Facts, transportOk: bool, t: Stream)
    requires Inv(s) && DecideStep(s, who, facts, transportOk, t)
    ensures t.attempts != [] && Effect(s, Decide(who, facts, transportOk), t)
  {
    hide Booked, Buffered, Opening, HasStream, Ids, ShouldRetry, Threads, Effect, Commit;
    ThreadFacts(s);
    DecideKeepsThreads(s, who, facts, transportOk, t);
    if ShouldRetry(s, facts) == GiveUp {
      GiveUpEffect(s, who, Decide(who, facts, transportOk), t);
    } else if transportOk {
      ReplayFacts(s);
      FreshEffect(s, Decide(who, facts, transportOk), t);
    } else {
      NobodyReplays(s, who);
      PlainEffect(s, Decide(who, facts, transportOk), t);
    }
  }

  lemma {:induction false} FreshEffect(s: Stream, step: Step, t: Stream)
    requires s.attempts != [] && |t.attempts| == |s.attempts| + 1 && step.Decide?
    requires Replaying(t) == Some(0) && Missing(t) == Ids(t.aux.sent)
    ensures Effect(s, step, t)
  {
  }

  lemma {:induction false} InReplay(s: Stream, i: nat)
    requires s.attempts != [] && i < |s.aux.sent| && Ids(s.aux.sent[i..]) <= Missing(s)
    ensures s.aux.sent[i].id in Missing(s)
  {
    assert s.aux.sent[i..][0].id in Ids(s.aux.sent[i..]);
  }

  lemma {:induction false} ReplayOneEffect(s: Stream, who: Who, res: Res, written: bool, t: Stream)
    requires Inv(s) && ReplayOneStep(s, who, res, written, t)
    ensures t.attempts != [] && Effect(s, ReplayOne(who, res, written), t)
  {
    hide Threads, Booked, Buffered, Opening, HasStream, Ids;
    ThreadFacts(s);
    ReplayFacts(s);
    ReplayOneKeepsThreads(s, who, res, written, t);
    var i := At(s, who).i;
    assert s.aux.sent[i..][0] == s.aux.sent[i];
    InReplay(s, i);
  }

  lemma {:induction false} NextEffect(s: Stream, step: Step, t: Stream)
    requires Inv(s) && Next(s, step, t)
    ensures s.attempts != [] && t.attempts != [] && Effect(s, step, t)
  {
    hide RunStep, RunLastStep, SettleStep, DecideStep, ReplayOneStep, Booked, Opening, HasStream, Ids;
    if step.Run? {
      RunEffect(s, step.who, step.res, step.written, t);
    } else if step.RunLast? {
      RunLastEffect(s, step.who, step.res, step.written, t);
    } else if step.Settle? {
      SettleEffect(s, step.who, t);
    } else if step.Decide? {
      DecideEffect(s, step.who, step.facts, step.transportOk, t);
    } else if step.ReplayOne? {
      ReplayOneEffect(s, step.who, step.res, step.written, t);
    }
  }

  /** Step `k` cut the replay on the attempt of state `i` short, and left number `id` out. */
  ghost predicate CutOff(run: seq<Stream>, steps: seq<Step>, i: nat, k: nat, id: nat)
    requires i < |run| == |steps| + 1
  {
    k < i && CutsShort(steps[k]) && |run[k].attempts| == |run[i].attempts| && id in Ids(LeftOut(run[k], steps[k]))
  }

  /** Step `k` accepted number `id` on the attempt of state `i` without its being written. */
  ghost predicate LostAt(run: seq<Stream>, steps: seq<Step>, i: nat, k: nat, id: nat)
    requires i < |run| == |steps| + 1
  {
    k < i && |run[k].attempts| == |run[i].attempts| && id in LostNow(run[k], steps[k])
  }

  ghost predicate AnyCut(run: seq<Stream>, steps: seq<Step>, i: nat, id: nat)
    requires i < |run| == |steps| + 1
  {
    exists k: nat :: CutOff(run, steps, i, k, id)
  }

  ghost predicate AnyLost(run: seq<Stream>, steps: seq<Step>, i: nat, id: nat)
    requires i < |run| == |steps| + 1
  {
    exists k: nat :: LostAt(run, steps, i, k, id)
  }

  lemma {:induction false} RunEffects(run: seq<Stream>, steps: seq<Step>, cfg: Config, i: nat)
    requires IsRun(run, steps, cfg) && i < |steps|
    ensures Inv(run[i]) && Inv(run[i + 1]) && Next(run[i], steps[i], run[i + 1])
    ensures run[i].attempts != [] && run[i + 1].attempts != [] && Effect(run[i], steps[i], run[i + 1])
  {
    hide Inv, Next, Effect;
    RunHasInv(run, steps, cfg, i);
    assert Next(run[i], steps[i], run[i + 1]);
    NextKeeps(run[i], steps[i], run[i + 1]);
    NextEffect(run[i], steps[i], run[i + 1]);
  }

  lemma {:induction false} AttemptsGrow(run: seq<Stream>, steps: seq<Step>, cfg: Config, k: nat, i: nat)
    requires IsRun(run, steps, cfg) && k <= i < |run|
    ensures |run[k].attempts| <= |run[i].attempts|
    decreases i - k
  {
    hide IsRun, Inv, Next;
    if k < i {
      RunLengths(run, steps, cfg);
      AttemptsGrow(run, steps, cfg, k, i - 1);
      RunEffects(run, steps, cfg, i - 1);
    }
  }

  lemma {:induction false} RunLengths(run: seq<Stream>, steps: seq<Step>, cfg: Config)
    requires IsRun(run, steps, cfg)
    ensures |run| == |steps| + 1
  {
  }

  /** On the same attempt, one step adds only its own doing. */
  lemma {:induction false} OneMoreStep(run: seq<Stream>, steps: seq<Step>, i: nat, id: nat)
    requires i + 1 < |run| == |steps| + 1 && |run[i].attempts| == |run[i + 1].attempts|
    ensures AnyCut(run, steps, i + 1, id) <==>
      AnyCut(run, steps, i, id) || (CutsShort(steps[i]) && id in Ids(LeftOut(run[i], steps[i])))
    ensures AnyLost(run, steps, i + 1, id) <==> AnyLost(run, steps, i, id) || id in LostNow(run[i], steps[i])
  {
    hide CutsShort, LostNow, LeftOut, Ids;
    if AnyCut(run, steps, i, id) {
      var k: nat :| CutOff(run, steps, i, k, id);
      assert CutOff(run, steps, i + 1, k, id);
    }
    if CutsShort(steps[i]) && id in Ids(LeftOut(run[i], steps[i])) { assert CutOff(run, steps, i + 1, i, id); }
    if AnyCut(run, steps, i + 1, id) {
      var k: nat :| CutOff(run, steps, i + 1, k, id);
      assert k < i ==> CutOff(run, steps, i, k, id);
    }
    if AnyLost(run, steps, i, id) {
      var k: nat :| LostAt(run, steps, i, k, id);
      assert LostAt(run, steps, i + 1, k, id);
    }
    if id in LostNow(run[i], steps[i]) { assert LostAt(run, steps, i + 1, i, id); }
    if AnyLost(run, steps, i + 1, id) {
      var k: nat :| LostAt(run, steps, i + 1, k, id);
      assert k < i ==> LostAt(run, steps, i, k, id);
    }
  }

  /** A new attempt has no history. */
  lemma {:induction false} NoHistory(run: seq<Stream>, steps: seq<Step>, cfg: Config, i: nat, id: nat)
    requires IsRun(run, steps, cfg) && i < |steps| && |run[i].attempts| < |run[i + 1].attempts|
    ensures |run| == |steps| + 1 && !AnyCut(run, steps, i + 1, id) && !AnyLost(run, steps, i + 1, id)
  {
    hide IsRun, CutsShort, LostNow, LeftOut, Ids;
    RunLengths(run, steps, cfg);
    forall k: nat | k <= i ensures |run[k].attempts| < |run[i + 1].attempts| {
      AttemptsGrow(run, steps, cfg, k, i);
    }
  }

  /** The numbers at or after a place of a rising sequence. */
  lemma {:induction false} TailIds(s: seq<Op>, j: nat, id: nat)
    requires Rising(s) && j < |s|
    ensures id in Ids(s[j..]) <==> id == s[j].id || id in Ids(s[j + 1..])
    ensures id in Ids(s[..j + 1]) <==> id == s[j].id || id in Ids(s[..j])
    ensures s[j].id !in Ids(s[..j]) && s[j].id !in Ids(s[j + 1..])
  {
    var a, b := s[j..], s[j + 1..];
    assert a[0] == s[j] && forall k :: 0 <= k < |b| ==> b[k] == a[k + 1];
    IdsSnoc(s[..j], s[j]);
    assert s[..j + 1] == s[..j] + [s[j]];
  }

  /** Number `id` is missing for one of three reasons: the replay owes it still, the replay was cut short
      before it, or it was taken without being written. */
  ghost predicate Explained(s: Stream, id: nat, cut: bool, lost: bool)
    requires s.attempts != []
  {
    var j := Replaying(s);
    && (j.Some? ==> j.value <= |s.aux.sent| && !cut && (lost ==> id in Ids(s.aux.sent[..j.value])))
    && (id in Missing(s) <==> (j.Some? && id in Ids(s.aux.sent[j.value..])) || cut || lost)
  }

  lemma {:induction false} ExplainedStep(s: Stream, step: Step, t: Stream, id: nat, cut: bool, lost: bool)
    requires s.attempts != [] && |t.attempts| == |s.attempts| && Effect(s, step, t) && Rising(s.aux.sent)
    requires Explained(s, id, cut, lost)
    ensures Explained(t, id, cut || (CutsShort(step) && id in Ids(LeftOut(s, step))), lost || id in LostNow(s, step))
  {
    hide Ids;
    if step.ReplayOne? {
      var j := Replaying(s).value;
      TailIds(s.aux.sent, j, id);
      assert LeftOut(s, step)[0] == s.aux.sent[j];
    } else if step.ReplayEnd? {
      NoTail(s.aux.sent, id);
    }
  }

  lemma {:induction false} NoTail(s: seq<Op>, id: nat)
    ensures id !in Ids(s[|s|..])
  {
  }

  lemma {:induction false} ExplainedFresh(s: Stream, id: nat)
    requires s.attempts != [] && Replaying(s) == Some(0) && Missing(s) == Ids(s.aux.sent)
    ensures Explained(s, id, false, false)
  {
    hide Ids;
    assert s.aux.sent[0..] == s.aux.sent;
  }

  lemma {:induction false} SentRises(s: Stream)
    requires Inv(s)
    ensures Rising(s.aux.sent)
  {
  }

  lemma {:induction false} AtStart(run: seq<Stream>, steps: seq<Step>, cfg: Config, id: nat)
    requires IsRun(run, steps, cfg)
    ensures run[0].attempts != [] && !AnyCut(run, steps, 0, id) && !AnyLost(run, steps, 0, id)
    ensures Explained(run[0], id, false, false)
  {
  }

  /** What the current attempt is missing is what a replay on it still owes or has left out, and what was
      accepted on it without being written. */
  lemma {:induction false} MissingIs(run: seq<Stream>, steps: seq<Step>, cfg: Config, i: nat, id: nat)
    requires IsRun(run, steps, cfg) && i < |run|
    ensures |run| == |steps| + 1 && run[i].attempts != []
    ensures Explained(run[i], id, AnyCut(run, steps, i, id), AnyLost(run, steps, i, id))
  {
    hide Inv, Next, AnyCut, AnyLost, Explained, Ids, Replaying;
    RunLengths(run, steps, cfg);
    if i == 0 {
      AtStart(run, steps, cfg, id);
    } else {
      MissingIs(run, steps, cfg, i - 1, id);
      RunEffects(run, steps, cfg, i - 1);
      if |run[i - 1].attempts| != |run[i].attempts| {
        NoHistory(run, steps, cfg, i - 1, id);
        ExplainedFresh(run[i], id);
      } else {
        OneMoreStep(run, steps, i - 1, id);
        SentRises(run[i - 1]);
        ExplainedStep(run[i - 1], steps[i - 1], run[i], id, AnyCut(run, steps, i - 1, id),
                      AnyLost(run, steps, i - 1, id));
      }
    }
  }

  // ---------------------------------------------------------------- what it means

  predicate OnAttempt(run: seq<Stream>, k: nat, i: nat)
    requires i < |run|
  {
    k < i && |run[k].attempts| == |run[i].attempts|
  }

  /** While the current attempt was current no replay was cut short, and no send was taken without being
      written. */
  predicate Intact(run: seq<Stream>, steps: seq<Step>, i: nat)
    requires i < |run| == |steps| + 1
  {
    forall k: nat :: k < i && OnAttempt(run, k, i) ==> !CutsShort(steps[k]) && LostNow(run[k], steps[k]) == {}
  }

  /** The same of the sends that were acknowledged. */
  predicate AcksIntact(run: seq<Stream>, steps: seq<Step>, i: nat, acks: set<nat>)
    requires i < |run| == |steps| + 1
  {
    forall k: nat :: k < i && OnAttempt(run, k, i) ==>
      (CutsShort(steps[k]) ==> Ids(LeftOut(run[k], steps[k])) !! acks) && LostNow(run[k], steps[k]) !! acks
  }

  lemma {:induction false} CutLeavesOut(run: seq<Stream>, steps: seq<Step>, cfg: Config, k: nat)
    requires IsRun(run, steps, cfg) && k < |steps| && CutsShort(steps[k])
    ensures LeftOut(run[k], steps[k]) != [] && LeftOut(run[k], steps[k])[0].id in Ids(LeftOut(run[k], steps[k]))
  {
    hide IsRun, Next, Inv, LeftOut, LostNow;
    RunEffects(run, steps, cfg, k);
  }

  /** An attempt is missing nothing exactly if nothing went wrong on it. */
  lemma {:induction false} IntactIs(run: seq<Stream>, steps: seq<Step>, cfg: Config, i: nat)
    requires IsRun(run, steps, cfg) && i < |run| && Replaying(run[i]).None?
    ensures |run| == |steps| + 1 && run[i].attempts != []
    ensures Missing(run[i]) == {} <==> Intact(run, steps, i)
  {
    hide IsRun, Ids, LeftOut, LostNow, CutsShort;
    RunLengths(run, steps, cfg);
    MissingIs(run, steps, cfg, i, 0);
    if Intact(run, steps, i) {
      forall id: nat ensures id !in Missing(run[i]) {
        MissingIs(run, steps, cfg, i, id);
        assert forall k: nat :: CutOff(run, steps, i, k, id) ==> OnAttempt(run, k, i);
        assert forall k: nat :: LostAt(run, steps, i, k, id) ==> OnAttempt(run, k, i);
      }
    } else {
      var k: nat :| k < i && OnAttempt(run, k, i) && !(!CutsShort(steps[k]) && LostNow(run[k], steps[k]) == {});
      if CutsShort(steps[k]) {
        CutLeavesOut(run, steps, cfg, k);
        var id := LeftOut(run[k], steps[k])[0].id;
        assert CutOff(run, steps, i, k, id);
        MissingIs(run, steps, cfg, i, id);
      } else {
        var id :| id in LostNow(run[k], steps[k]);
        assert LostAt(run, steps, i, k, id);
        MissingIs(run, steps, cfg, i, id);
      }
    }
  }

  lemma {:induction false} AcksIntactIs(run: seq<Stream>, steps: seq<Step>, cfg: Config, i: nat, acks: set<nat>)
    requires IsRun(run, steps, cfg) && i < |run| && Replaying(run[i]).None?
    ensures |run| == |steps| + 1 && run[i].attempts != []
    ensures Missing(run[i]) !! acks <==> AcksIntact(run, steps, i, acks)
  {
    hide IsRun, Ids, LeftOut, LostNow, CutsShort;
    RunLengths(run, steps, cfg);
    MissingIs(run, steps, cfg, i, 0);
    if AcksIntact(run, steps, i, acks) {
      forall id: nat | id in acks ensures id !in Missing(run[i]) {
        MissingIs(run, steps, cfg, i, id);
        assert forall k: nat :: CutOff(run, steps, i, k, id) ==> OnAttempt(run, k, i);
        assert forall k: nat :: LostAt(run, steps, i, k, id) ==> OnAttempt(run, k, i);
      }
    } else {
      var k: nat :| k < i && OnAttempt(run, k, i) &&
        !((CutsShort(steps[k]) ==> Ids(LeftOut(run[k], steps[k])) !! acks) && LostNow(run[k], steps[k]) !! acks);
      if LostNow(run[k], steps[k]) !! acks {
        var id :| id in Ids(LeftOut(run[k], steps[k])) && id in acks;
        assert CutOff(run, steps, i, k, id);
        MissingIs(run, steps, cfg, i, id);
      } else {
        var id :| id in LostNow(run[k], steps[k]) && id in acks;
        assert LostAt(run, steps, i, k, id);
        MissingIs(run, steps, cfg, i, id);
      }
    }
  }

  /** In every state of every run that is not committed and in which no replay is under way: the current
      attempt has seen exactly the buffered sends, in order, plus at most one in flight, if and only if no
      replay on it was cut short and no send was taken on it without being written. */
  lemma {:induction false} AttemptSeesBuffer(run: seq<Stream>, steps: seq<Step>, cfg: Config, i: nat)
    requires IsRun(run, steps, cfg) && i < |run| && !run[i].committed && Replaying(run[i]).None?
    ensures |run| == |steps| + 1 && run[i].attempts != [] && |InFlight(run[i])| <= 1
    ensures CurLog(run[i]) == run[i].buffer + InFlight(run[i]) <==> Intact(run, steps, i)
  {
    hide IsRun, Intact, Book, Threads;
    IntactIs(run, steps, cfg, i);
    RunHasInv(run, steps, cfg, i);
    var s := run[i];
    BookComplete(CurLog(s), s.aux.sent, InFlight(s), Missing(s), s.aux.acks, s.aux.ackSet, Pend(s));
  }

  /** In every such state, committed or not: the current attempt has seen every send that returned without an
      error, once and in the order they were made, if and only if no replay on it left out an acknowledged
      one and none was acknowledged or replayed without being written. The commit callback is called once. */
  lemma {:induction false} CommittedSeesAll(run: seq<Stream>, steps: seq<Step>, cfg: Config, i: nat)
    requires IsRun(run, steps, cfg) && i < |run| && Replaying(run[i]).None?
    ensures |run| == |steps| + 1 && run[i].attempts != [] && Rising(CurLog(run[i]))
    ensures run[i].aux.commits == if run[i].committed then 1 else 0
    ensures Keep(CurLog(run[i]), run[i].aux.ackSet) == run[i].aux.acks <==>
      AcksIntact(run, steps, i, run[i].aux.ackSet)
  {
    hide IsRun, AcksIntact, Book, Threads;
    RunHasInv(run, steps, cfg, i);
    var s := run[i];
    AcksIntactIs(run, steps, cfg, i, s.aux.ackSet);
    BookAcknowledged(CurLog(s), s.aux.sent, InFlight(s), Missing(s), s.aux.acks, s.aux.ackSet, Pend(s));
  }

  predicate Troubled(s: Stream) {
    s.snd.Retry? || s.rcv.Retry? || s.aux.failed
  }

  lemma {:induction false} ReturnFrame(s: Stream, who: Who, job: Job, res: Res, written: bool)
    requires s.attempts != []
    ensures var t := Return(s, who, job, res, written);
      && (if who == Sender then t.snd.Idle? && t.rcv == s.rcv else t.rcv.Idle? && t.snd == s.snd)
      && (t.aux.failed <==> s.aux.failed || res == Bad)
  {
  }

  lemma {:induction false} SettleTroubled(s: Stream, who: Who, t: Stream)
    requires SettleStep(s, who, t) && Troubled(s)
    ensures t.aux.failed
  {
    hide BufferForRetry, Return;
    var l := At(s, who);
    if l.a == Cur(s) && l.res != Bad {
      if l.job.Send? { BufferFrame(s, l.job.op); }
      ReturnFrame(if l.job.Send? then BufferForRetry(s, l.job.op) else Commit(s), who, l.job, l.res, l.written);
    }
  }

  lemma {:induction false} DecideTroubled(s: Stream, who: Who, facts: Facts, transportOk: bool, t: Stream)
    requires DecideStep(s, who, facts, transportOk, t) && |t.attempts| == |s.attempts|
    ensures t.aux.failed
  {
    hide ShouldRetry, HasStream, Ids;
  }

  lemma {:induction false} RunTroubled(s: Stream, who: Who, res: Res, written: bool, t: Stream)
    requires RunStep(s, who, res, written, t) && Troubled(s)
    ensures Troubled(t)
  {
    hide Usable, Possible;
  }

  lemma {:induction false} RunLastTroubled(s: Stream, who: Who, res: Res, written: bool, t: Stream)
    requires RunLastStep(s, who, res, written, t) && Troubled(s)
    ensures Troubled(t)
  {
    hide Usable, Possible, Return;
    ReturnFrame(Apply(s, At(s, who).job, |s.attempts| - 1, written), who, At(s, who).job, res, written);
  }

  lemma {:induction false} ReplayOneTroubled(s: Stream, who: Who, res: Res, written: bool, t: Stream)
    requires ReplayOneStep(s, who, res, written, t) && (Troubled(s) || res != Fine)
    ensures Troubled(t)
  {
    hide Usable, Possible;
  }

  /** Whoever cut a replay short goes on retrying or reports a failure. */
  lemma {:induction false} NextTroubled(s: Stream, step: Step, t: Stream)
    requires Next(s, step, t) && |t.attempts| == |s.attempts| && (Troubled(s) || CutsShort(step))
    ensures Troubled(t)
  {
    hide RunStep, RunLastStep, SettleStep, DecideStep, ReplayOneStep;
    if step.Settle? {
      SettleTroubled(s, step.who, t);
    } else if step.Decide? {
      DecideTroubled(s, step.who, step.facts, step.transportOk, t);
    } else if step.Run? {
      RunTroubled(s, step.who, step.res, step.written, t);
    } else if step.RunLast? {
      RunLastTroubled(s, step.who, step.res, step.written, t);
    } else if step.ReplayOne? {
      ReplayOneTroubled(s, step.who, step.res, step.written, t);
    }
  }

  /** A replay that was cut short has made a call fail by the time the lock is free. */
  lemma {:induction false} CutIsReported(run: seq<Stream>, steps: seq<Step>, cfg: Config, k: nat, i: nat)
    requires IsRun(run, steps, cfg) && k < i < |run| && CutsShort(steps[k]) && OnAttempt(run, k, i)
    ensures LockFree(run[i]) ==> run[i].aux.failed
    ensures Troubled(run[i])
    decreases i
  {
    hide IsRun, Inv, Next, CutsShort, Effect;
    RunLengths(run, steps, cfg);
    RunEffects(run, steps, cfg, i - 1);
    AttemptsGrow(run, steps, cfg, k, i - 1);
    AttemptsGrow(run, steps, cfg, i - 1, i);
    if k < i - 1 {
      CutIsReported(run, steps, cfg, k, i - 1);
    }
    NextTroubled(run[i - 1], steps[i - 1], run[i]);
  }

  // ---------------------------------------------------------------- attempts without a stream

  predicate Busy(l: Local) {
    (l.Exec? || l.Done?) && l.job != Send(OPEN)
  }

  /** An operation other than opening works on the current attempt or on one that has a stream, and nobody
      works on an attempt without one that is about to be given up. */
  predicate Streamed(s: Stream) {
    && s.attempts != []
    && (Busy(s.snd) && s.snd.a < Cur(s) ==> HasStream(s.attempts[s.snd.a]))
    && (Busy(s.rcv) && s.rcv.a < Cur(s) ==> HasStream(s.attempts[s.rcv.a]))
    && ((s.snd.Retry? || s.rcv.Retry?) && s.live ==> HasStream(s.attempts[Cur(s)]) || Unshared(s))
  }

  /** A thread that works on an attempt did so before. */
  predicate Steady(l: Local, l': Local) {
    l'.Exec? || l'.Done? ==> (l.Exec? || l.Done?) && l.a == l'.a && l.job == l'.job
  }

  lemma {:induction false} StreamsKept(s: Stream, t: Stream)
    requires LogsGrow(s, t)
    ensures forall b :: 0 <= b < |s.attempts| && HasStream(s.attempts[b]) ==> HasStream(t.attempts[b])
  {
    hide HasStream;
    forall b | 0 <= b < |s.attempts| && HasStream(s.attempts[b]) ensures HasStream(t.attempts[b]) {
      StreamKept(s.attempts[b], t.attempts[b]);
    }
  }

  /** Nobody takes the lock. */
  lemma {:induction false} StreamedSteady(s: Stream, t: Stream)
    requires Streamed(s) && LogsGrow(s, t) && Steady(s.snd, t.snd) && Steady(s.rcv, t.rcv)
    requires t.snd.Retry? || t.rcv.Retry? ==> (s.snd.Retry? || s.rcv.Retry?) && t.live == s.live
    ensures Streamed(t)
  {
    hide HasStream;
    StreamsKept(s, t);
  }

  /** Somebody takes the lock. */
  lemma {:induction false} StreamedLocked(s: Stream, who: Who, t: Stream)
    requires Streamed(s) && LogsGrow(s, t)
    requires if who == Sender then Steady(s.rcv, t.rcv) else Steady(s.snd, t.snd)
    requires At(t, who).Exec? || At(t, who).Done? ==> At(t, who).a == Cur(s)
    requires (t.snd.Retry? || t.rcv.Retry?) && t.live ==> HasStream(s.attempts[Cur(s)]) || Unshared(t)
    ensures Streamed(t)
  {
    hide HasStream;
    StreamsKept(s, t);
  }

  lemma {:induction false} ApplyFrame(s: Stream, job: Job, a: nat, written: bool)
    requires a < |s.attempts|
    ensures var t := Apply(s, job, a, written);
      LogsGrow(s, t) && t.snd == s.snd && t.rcv == s.rcv && t.live == s.live && t.aux == s.aux
  {
  }

  lemma {:induction false} RunStreamed(s: Stream, who: Who, res: Res, written: bool, t: Stream)
    requires Threads(s) && Streamed(s) && RunStep(s, who, res, written, t)
    ensures Streamed(t)
  {
    hide Streamed, Possible, Apply, HasStream;
    if Usable(s, At(s, who).job, At(s, who).a) { ApplyFrame(s, At(s, who).job, At(s, who).a, written); }
    StreamedSteady(s, t);
  }

  lemma {:induction false} AcceptFrame(s: Stream, op: Op, res: Res, written: bool)
    requires s.attempts != []
    ensures var t := Accept(s, op, res, written); LogsGrow(s, t) && (s.live ==> t.live)
  {
  }

  lemma {:induction false} ReturnLogs(s: Stream, who: Who, job: Job, res: Res, written: bool)
    requires s.attempts != []
    ensures var t := Return(s, who, job, res, written);
      LogsGrow(s, t) && (s.live ==> t.live) && (t.live && !s.live ==> job.Send? && res != Bad)
  {
    hide Accept;
    if job.Send? {
      AcceptFrame(Move(s, who, Idle), job.op, res, written);
    }
  }

  lemma {:induction false} RunLastStreamed(s: Stream, who: Who, res: Res, written: bool, t: Stream)
    requires Threads(s) && Streamed(s) && RunLastStep(s, who, res, written, t)
    ensures Streamed(t)
  {
    hide Streamed, Possible, Apply, HasStream, Return;
    ThreadFacts(s);
    var l := At(s, who);
    if Usable(s, l.job, |s.attempts| - 1) {
      ApplyFrame(s, l.job, |s.attempts| - 1, written);
      var u := Apply(s, l.job, |s.attempts| - 1, written);
      ReturnFrame(u, who, l.job, res, written);
      ReturnLogs(u, who, l.job, res, written);
    }
    StreamedSteady(s, t);
  }

  lemma {:induction false} ReturnStreamed(s: Stream, u: Stream, who: Who, l: Local, t: Stream)
    requires Streamed(s) && LockFree(s) && l.Done? && u.attempts == s.attempts && u.snd == s.snd && u.rcv == s.rcv
    requires u.attempts != [] && t == Return(u, who, l.job, l.res, l.written)
    ensures Streamed(t)
  {
    hide Streamed, Return;
    ReturnFrame(u, who, l.job, l.res, l.written);
    ReturnLogs(u, who, l.job, l.res, l.written);
    StreamedLocked(s, who, t);
  }

  lemma {:induction false} SettleStreamed(s: Stream, who: Who, t: Stream)
    requires Threads(s) && Streamed(s) && SettleStep(s, who, t)
    ensures Streamed(t)
  {
    hide Streamed, Threads, Possible, HasStream, Return, BufferForRetry;
    ThreadFacts(s);
    var l := At(s, who);
    if l.a == Cur(s) && l.res != Bad {
      if l.job.Send? { BufferFrame(s, l.job.op); }
      ReturnStreamed(s, if l.job.Send? then BufferForRetry(s, l.job.op) else Commit(s), who, l, t);
    } else {
      StreamedLocked(s, who, t);
    }
  }

  lemma {:induction false} ReplayOneStreamed(s: Stream, who: Who, res: Res, written: bool, t: Stream)
    requires Inv(s) && Streamed(s) && ReplayOneStep(s, who, res, written, t)
    ensures Streamed(t)
  {
    hide Inv, Streamed, Usable, Possible, HasStream;
    ReplayFacts(s);
    ReplayOneKeepsThreads(s, who, res, written, t);
    StreamedLocked(s, who, t);
  }

  /** The attempt that is superseded has a stream or nobody works on it. */
  lemma {:induction false} FreshStreamed(s: Stream, who: Who, t: Stream)
    requires Threads(s) && Streamed(s) && At(s, who).Retry? && |t.attempts| == |s.attempts| + 1
    requires t.attempts[..|s.attempts|] == s.attempts
    requires if who == Sender then t.snd.Replay? && t.rcv == s.rcv else t.rcv.Replay? && t.snd == s.snd
    ensures Streamed(t)
  {
    hide HasStream;
    assert forall b :: 0 <= b < |s.attempts| ==> t.attempts[b] == t.attempts[..|s.attempts|][b];
  }

  lemma {:induction false} GiveUpStreamed(s: Stream, who: Who, t: Stream)
    requires Threads(s) && Streamed(s) && At(s, who).Retry? && s.attempts != []
    requires t == Return(Commit(s), who, At(s, who).job, Bad, false)
    ensures Streamed(t)
  {
    hide Streamed, HasStream;
    StreamedSteady(s, t);
  }

  lemma {:induction false} DecideStreamed(s: Stream, who: Who, facts: Facts, transportOk: bool, t: Stream)
    requires Threads(s) && Streamed(s) && DecideStep(s, who, facts, transportOk, t)
    ensures Streamed(t)
  {
    hide Streamed, Threads, HasStream, ShouldRetry, Commit, Ids;
    ThreadFacts(s);
    if ShouldRetry(s, facts) == GiveUp {
      GiveUpStreamed(s, who, t);
    } else if transportOk {
      FreshStreamed(s, who, t);
    } else {
      StreamedSteady(s, t);
    }
  }

  lemma {:induction false} LockStreamed(s: Stream, who: Who, t: Stream)
    requires Streamed(s) && LockStep(s, who, t)
    ensures Streamed(t)
  {
    hide Streamed, HasStream;
    StreamedLocked(s, who, t);
  }

  lemma {:induction false} PlainStreamed(s: Stream, step: Step, t: Stream)
    requires Streamed(s) && Next(s, step, t) && !step.Run? && !step.RunLast? && !step.Settle? && !step.Decide?
    requires !step.ReplayOne? && !step.Lock?
    ensures Streamed(t)
  {
    hide RunStep, RunLastStep, SettleStep, DecideStep, ReplayOneStep, LockStep, Streamed;
    StreamedSteady(s, t);
  }

  lemma {:induction false} NextStreamed(s: Stream, step: Step, t: Stream)
    requires Inv(s) && Streamed(s) && Next(s, step, t)
    ensures Streamed(t)
  {
    hide Inv, Threads, RunStep, RunLastStep, SettleStep, DecideStep, ReplayOneStep, LockStep, CallSendStep,
         ReplayEndStep, Reachable, Streamed;
    HasThreads(s);
    match step
    case Run(who, res, written) => RunStreamed(s, who, res, written, t);
    case RunLast(who, res, written) => RunLastStreamed(s, who, res, written, t);
    case Settle(who) => SettleStreamed(s, who, t);
    case Decide(who, facts, ok) => DecideStreamed(s, who, facts, ok, t);
    case ReplayOne(who, res, written) => ReplayOneStreamed(s, who, res, written, t);
    case Lock(who) => LockStreamed(s, who, t);
    case _ => PlainStreamed(s, step, t);
  }

  lemma {:induction false} HasThreads(s: Stream)
    requires Inv(s)
    ensures Threads(s) && s.attempts != []
  {
  }

  lemma {:induction false} RunStreams(run: seq<Stream>, steps: seq<Step>, cfg: Config, i: nat)
    requires IsRun(run, steps, cfg) && i < |run|
    ensures Streamed(run[i])
  {
    hide Inv, Next, Effect, Streamed;
    if i == 0 {
      StreamedInit(cfg);
    } else {
      RunStreams(run, steps, cfg, i - 1);
      RunEffects(run, steps, cfg, i - 1);
      NextStreamed(run[i - 1], steps[i - 1], run[i]);
    }
  }

  lemma {:induction false} StreamedInit(cfg: Config)
    ensures Streamed(Init(cfg))
  {
  }

  /** A replay on the current attempt failed at the opening. */
  predicate CutAtOpening(run: seq<Stream>, steps: seq<Step>, i: nat)
    requires i < |run| == |steps| + 1
  {
    exists k: nat :: k < i && OnAttempt(run, k, i) && CutsShort(steps[k]) && Replaying(run[k]) == Some(0)
  }

  lemma {:induction false} ZeroFirst(s: seq<Op>, j: nat)
    requires Rising(s) && j < |s| && s[0] == OPEN
    ensures 0 in Ids(s[j..]) <==> j == 0
    ensures 0 !in Ids(s[..j]) <==> j == 0
  {
    if j == 0 {
      assert s[0..][0] == OPEN;
    } else {
      assert s[..j][0] == OPEN;
    }
  }

  /** Opening is never taken without being written. */
  lemma {:induction false} OpeningNotLost(s: Stream, step: Step, t: Stream)
    requires Inv(s) && Next(s, step, t)
    ensures 0 !in LostNow(s, step)
  {
    hide Inv, Booked, Buffered, HasStream, Ids, Rising, CallSendStep, LockStep, RunStep, DecideStep, ReplayEndStep, Reachable;
    HasThreads(s);
    ThreadFacts(s);
    ReplayFacts(s);
    SentRises(s);
    if step.ReplayOne? && 0 in LostNow(s, step) {
      var j := At(s, step.who).i;
      ReplayOneKeepsThreads(s, step.who, step.res, step.written, t);
      assert s.buffer[j..][0] == s.buffer[j];
      NumberZero(s.aux.sent, j);
    }
  }

  lemma {:induction false} NumberZero(s: seq<Op>, j: nat)
    requires Rising(s) && j < |s| && s[0] == OPEN
    ensures s[j].id == 0 ==> s[j] == OPEN
  {
  }

  lemma {:induction false} OpeningCut(run: seq<Stream>, steps: seq<Step>, cfg: Config, k: nat)
    requires IsRun(run, steps, cfg) && k < |steps|
    ensures 0 !in LostNow(run[k], steps[k])
    ensures CutsShort(steps[k]) ==> (0 in Ids(LeftOut(run[k], steps[k])) <==> Replaying(run[k]) == Some(0))
  {
    hide IsRun, Inv, Next, LostNow, LeftOut, Ids, Rising;
    RunLengths(run, steps, cfg);
    RunEffects(run, steps, cfg, k);
    OpeningNotLost(run[k], steps[k], run[k + 1]);
    ReplayFacts(run[k]);
    SentRises(run[k]);
    if CutsShort(steps[k]) { ZeroFirst(run[k].aux.sent, Replaying(run[k]).value); }
  }

  lemma {:induction false} OpeningHistory(run: seq<Stream>, steps: seq<Step>, cfg: Config, i: nat)
    requires IsRun(run, steps, cfg) && i < |run|
    ensures |run| == |steps| + 1 && !AnyLost(run, steps, i, 0)
    ensures AnyCut(run, steps, i, 0) <==> CutAtOpening(run, steps, i)
  {
    hide IsRun, LostNow, LeftOut, Ids, CutsShort, Replaying;
    RunLengths(run, steps, cfg);
    forall k: nat | k < i
      ensures 0 !in LostNow(run[k], steps[k])
      ensures CutsShort(steps[k]) ==> (0 in Ids(LeftOut(run[k], steps[k])) <==> Replaying(run[k]) == Some(0))
    {
      OpeningCut(run, steps, cfg, k);
    }
    if AnyCut(run, steps, i, 0) {
      var k: nat :| CutOff(run, steps, i, k, 0);
      assert OnAttempt(run, k, i);
    }
    if CutAtOpening(run, steps, i) {
      var k: nat :| k < i && OnAttempt(run, k, i) && CutsShort(steps[k]) && Replaying(run[k]) == Some(0);
      assert CutOff(run, steps, i, k, 0);
    }
  }

  /** An attempt has a stream exactly if it is not missing the opening. */
  lemma {:induction false} BookStream(s: Stream)
    requires Inv(s) && s.aux.sent != []
    ensures s.attempts != [] && (HasStream(s.attempts[Cur(s)]) <==> 0 !in Missing(s))
  {
    hide Drop, Keep, Ids, Threads;
    HasThreads(s);
    var all := s.aux.sent + InFlight(s);
    DropMembers(all, Missing(s), OPEN);
    assert all[0] == OPEN;
  }

  /** Once the stream is open, an attempt that is not being filled lacks a transport stream exactly if the
      replay on it failed at the opening. */
  lemma {:induction false} StreamIs(run: seq<Stream>, steps: seq<Step>, cfg: Config, i: nat)
    requires IsRun(run, steps, cfg) && i < |run| && run[i].live && Replaying(run[i]).None?
    ensures |run| == |steps| + 1 && run[i].attempts != []
    ensures !HasStream(run[i].attempts[Cur(run[i])]) <==> CutAtOpening(run, steps, i)
  {
    hide IsRun, Inv, AnyCut, AnyLost, CutAtOpening, HasStream;
    RunHasInv(run, steps, cfg, i);
    ReplayFacts(run[i]);
    BookStream(run[i]);
    OpeningHistory(run, steps, cfg, i);
    MissingIs(run, steps, cfg, i, 0);
  }

  /** A replay never meets an attempt without a stream. */
  lemma {:induction false} ReplayUsable(run: seq<Stream>, steps: seq<Step>, cfg: Config, i: nat)
    requires IsRun(run, steps, cfg) && i < |run| && Replaying(run[i]).Some?
    requires Replaying(run[i]).value < |run[i].buffer|
    ensures run[i].attempts != []
    ensures Usable(run[i], Send(run[i].buffer[Replaying(run[i]).value]), |run[i].attempts| - 1)
  {
    hide IsRun, Inv, AnyCut, AnyLost, CutAtOpening, HasStream, Ids, Rising;
    RunHasInv(run, steps, cfg, i);
    var s := run[i];
    ReplayFacts(s);
    SentRises(s);
    BookStream(s);
    OpeningHistory(run, steps, cfg, i);
    MissingIs(run, steps, cfg, i, 0);
    ZeroFirst(s.aux.sent, Replaying(s).value);
  }

  /** An operation ends the program by using an attempt that has no transport stream exactly if it is not
      the opening and works on the current attempt, the replay on which failed at the opening. */
  lemma {:induction false} CrashIs(run: seq<Stream>, steps: seq<Step>, cfg: Config, i: nat)
    requires IsRun(run, steps, cfg) && i < |steps| && (steps[i].Run? || steps[i].RunLast?)
    ensures |run| == |steps| + 1
    ensures var l := At(run[i], steps[i].who);
      && (l.Exec? || l.ExecLast?)
      && (At(run[i + 1], steps[i].who).Crashed? <==>
            l.job != Send(OPEN) && (l.Exec? ==> l.a == Cur(run[i])) && CutAtOpening(run, steps, i))
  {
    hide IsRun, Inv, Streamed, CutAtOpening, HasStream, Effect;
    RunEffects(run, steps, cfg, i);
    RunLengths(run, steps, cfg);
    RunStreams(run, steps, cfg, i);
    CrashStep(run[i], steps[i], run[i + 1]);
    var l := At(run[i], steps[i].who);
    if l.job != Send(OPEN) && (l.Exec? ==> l.a == Cur(run[i])) {
      StreamIs(run, steps, cfg, i);
    }
  }

  lemma {:induction false} CrashStep(s: Stream, step: Step, t: Stream)
    requires Inv(s) && Streamed(s) && Next(s, step, t) && (step.Run? || step.RunLast?)
    ensures s.attempts != []
    ensures var l := At(s, step.who);
      && (l.Exec? || l.ExecLast?)
      && (At(t, step.who).Crashed? <==>
            l.job != Send(OPEN) && (l.Exec? ==> l.a == Cur(s)) && !HasStream(s.attempts[Cur(s)]))
      && (l.job != Send(OPEN) && (l.Exec? ==> l.a == Cur(s)) ==> s.live && Replaying(s).None?)
  {
    hide HasStream, Booked, Buffered, Opening, Return, Apply;
    ThreadFacts(s);
    ReplayFacts(s);
    if step.RunLast? { LastFacts(s, step.who); }
    if Usable(s, At(s, step.who).job, |s.attempts| - 1) {
      var u := Apply(s, At(s, step.who).job, |s.attempts| - 1, step.written);
      ApplyFrame(s, At(s, step.who).job, |s.attempts| - 1, step.written);
      ReturnFrame(u, step.who, At(s, step.who).job, step.res, step.written);
    }
  }

  // ---------------------------------------------------------------- runs on which the conditions fail

  lemma {:induction false} Extend(run: seq<Stream>, steps: seq<Step>, cfg: Config, step: Step, t: Stream)
    requires IsRun(run, steps, cfg) && Next(run[|run| - 1], step, t)
    ensures IsRun(run + [t], steps + [step], cfg)
  {
    hide Next, Init;
    var r, st := run + [t], steps + [step];
    forall i | 0 <= i < |st| ensures Next(r[i], st[i], r[i + 1]) {
      assert i < |steps| ==> Next(run[i], steps[i], run[i + 1]);
    }
  }

  const PLAIN: Config := Config(false, false, None, 1000)

  const FULL: Attempt := Attempt([OPEN], {})

  const TORN: Attempt := Attempt([], {0})

  /** The stream once it is open. */
  const OPENED: Stream := Stream(
    PLAIN, [FULL], false, false, [OPEN], 0, true, 0, true, Idle, Idle, Aux(1, [OPEN], {0}, [OPEN], 0, 0, false))

  lemma {:induction false} EmptyRun(cfg: Config)
    ensures IsRun([Init(cfg)], [], cfg)
  {
  }

  lemma {:induction false} OpeningRun() returns (run: seq<Stream>, steps: seq<Step>)
    ensures IsRun(run, steps, PLAIN) && |run| == 4 && run[3] == OPENED.(
      snd := Done(Send(OPEN), 0, Fine, true), buffer := [], live := false, aux := Aux(1, [], {}, [], 0, 0, false))
  {
    hide IsRun;
    var s0 := Init(PLAIN);
    EmptyRun(PLAIN);
    var s1 := s0.(snd := Enter(Send(OPEN)), aux := s0.aux.(nextId := 1));
    Extend([s0], [], PLAIN, CallSend(0, false), s1);
    run, steps := [s0] + [s1], [] + [CallSend(0, false)];
    var s2 := s1.(snd := Exec(Send(OPEN), 0));
    Extend(run, steps, PLAIN, Lock(Sender), s2);
    run, steps := run + [s2], steps + [Lock(Sender)];
    var s3 := s2.(snd := Done(Send(OPEN), 0, Fine, true), attempts := [FULL]);
    assert [] + [OPEN] == FULL.log && s2.attempts[0 := FULL] == [FULL];
    Extend(run, steps, PLAIN, Run(Sender, Fine, true), s3);
    run, steps := run + [s3], steps + [Run(Sender, Fine, true)];
  }

  lemma {:induction false} OpenedRun() returns (run: seq<Stream>, steps: seq<Step>)
    ensures IsRun(run, steps, PLAIN) && |run| == 5 && run[4] == OPENED
  {
    hide IsRun;
    run, steps := OpeningRun();
    assert {} + {0} == {0} && [] + [OPEN] == [OPEN] && FULL.missing + {} == {} && [FULL][0 := FULL] == [FULL];
    Extend(run, steps, PLAIN, Settle(Sender), OPENED);
    run, steps := run + [OPENED], steps + [Settle(Sender)];
  }

  lemma {:induction false} RetryingRun() returns (run: seq<Stream>, steps: seq<Step>)
    ensures IsRun(run, steps, PLAIN) && |run| == 9 && run[8] == OPENED.(rcv := Retry(Recv))
  {
    hide IsRun, Init;
    run, steps := OpenedRun();
    Extend(run, steps, PLAIN, CallRecv, OPENED.(rcv := Enter(Recv)));
    run, steps := run + [OPENED.(rcv := Enter(Recv))], steps + [CallRecv];
    Extend(run, steps, PLAIN, Lock(Receiver), OPENED.(rcv := Exec(Recv, 0)));
    run, steps := run + [OPENED.(rcv := Exec(Recv, 0))], steps + [Lock(Receiver)];
    Extend(run, steps, PLAIN, Run(Receiver, Bad, false), OPENED.(rcv := Done(Recv, 0, Bad, false)));
    run, steps := run + [OPENED.(rcv := Done(Recv, 0, Bad, false))], steps + [Run(Receiver, Bad, false)];
    Extend(run, steps, PLAIN, Settle(Receiver), OPENED.(rcv := Retry(Recv)));
    run, steps := run + [OPENED.(rcv := Retry(Recv))], steps + [Settle(Receiver)];
  }

  /** A refused stream, and later no transport. */
  const REFUSED: Facts := Facts(false, true, true, Absent, 14, false, false)

  /** The replay on the second attempt has just failed. */
  const CUT_SHORT: Stream := OPENED.(
    rcv := Retry(Recv), attempts := [FULL, TORN], firstAttempt := false, aux := OPENED.aux.(transparent := 1))

  lemma {:induction false} CutShortRun() returns (run: seq<Stream>, steps: seq<Step>)
    ensures IsRun(run, steps, PLAIN) && |run| == 11 && run[10] == CUT_SHORT
  {
    hide IsRun, Init;
    run, steps := RetryingRun();
    var s9 := CUT_SHORT.(rcv := Replay(Recv, 0));
    assert Ids([OPEN]) == {0} by { IdsSnoc([], OPEN); assert [] + [OPEN] == [OPEN]; }
    Extend(run, steps, PLAIN, Decide(Receiver, REFUSED, true), s9);
    run, steps := run + [s9], steps + [Decide(Receiver, REFUSED, true)];
    Extend(run, steps, PLAIN, ReplayOne(Receiver, Bad, false), CUT_SHORT);
    run, steps := run + [CUT_SHORT], steps + [ReplayOne(Receiver, Bad, false)];
  }

  /** A replay cut short followed by a transport that cannot be had leaves an uncommitted attempt that has
      not seen the acknowledged opening of the stream; the commit that follows keeps it that way. */
  lemma {:induction false} TornRun() returns (run: seq<Stream>, steps: seq<Step>)
    ensures IsRun(run, steps, PLAIN) && |run| == 13
    ensures var s := run[11];
      && LockFree(s) && !s.committed && s.attempts != []
      && s.buffer == [OPEN] && CurLog(s) == [] && InFlight(s) == []
    ensures var s := run[12];
      && s.committed && s.attempts != [] && s.aux.acks == [OPEN] && Keep(CurLog(s), s.aux.ackSet) == []
  {
    hide IsRun, Init;
    run, steps := CutShortRun();
    var s11 := CUT_SHORT.(rcv := Idle, aux := CUT_SHORT.aux.(failed := true));
    Extend(run, steps, PLAIN, Decide(Receiver, REFUSED, false), s11);
    run, steps := run + [s11], steps + [Decide(Receiver, REFUSED, false)];
    var s12 := Commit(s11.(finished := true));
    Extend(run, steps, PLAIN, Finish, s12);
    run, steps := run + [s12], steps + [Finish];
  }

  /** The sender has tried to write a message and has not yet taken the lock. */
  function Unwritten(lenient: bool): Stream {
    OPENED.(snd := Done(Send(Op(1, 0, lenient)), 0, if lenient then Fine else EndOk, false),
            aux := OPENED.aux.(nextId := 2))
  }

  lemma {:induction false} UnwrittenRun(lenient: bool) returns (run: seq<Stream>, steps: seq<Step>)
    ensures IsRun(run, steps, PLAIN) && |run| == 8 && run[7] == Unwritten(lenient)
  {
    hide IsRun, Init;
    run, steps := OpenedRun();
    var s := Unwritten(lenient);
    var job, res := Send(Op(1, 0, lenient)), if lenient then Fine else EndOk;
    Extend(run, steps, PLAIN, CallSend(0, lenient), s.(snd := Enter(job)));
    run, steps := run + [s.(snd := Enter(job))], steps + [CallSend(0, lenient)];
    Extend(run, steps, PLAIN, Lock(Sender), s.(snd := Exec(job, 0)));
    run, steps := run + [s.(snd := Exec(job, 0))], steps + [Lock(Sender)];
    Extend(run, steps, PLAIN, Run(Sender, res, false), s);
    run, steps := run + [s], steps + [Run(Sender, res, false)];
  }

  /** A message whose write fails on a stream whose status is OK is buffered all the same, so that the attempt
      has seen less than the buffer. A lenient one is acknowledged as well, and if the stream is committed
      then the committed attempt has not seen it. */
  lemma {:induction false} LossyRun(lenient: bool) returns (run: seq<Stream>, steps: seq<Step>)
    ensures IsRun(run, steps, PLAIN) && |run| == 10
    ensures var s := run[8];
      && LockFree(s) && !s.committed && s.attempts != [] && !s.aux.failed
      && s.buffer == [OPEN, Op(1, 0, lenient)] && CurLog(s) == [OPEN] && InFlight(s) == []
    ensures var s := run[9];
      && s.committed && s.attempts != [] && Keep(CurLog(s), s.aux.ackSet) == [OPEN]
      && s.aux.acks == if lenient then [OPEN, Op(1, 0, lenient)] else [OPEN]
  {
    hide IsRun, Init;
    run, steps := UnwrittenRun(lenient);
    var op := Op(1, 0, lenient);
    var s8 := OPENED.(
      attempts := [Attempt([OPEN], {1})], buffer := [OPEN, op],
      aux := Aux(2, [OPEN, op], if lenient then {0, 1} else {0}, if lenient then [OPEN, op] else [OPEN], 0, 0, false));
    assert [OPEN] + [op] == [OPEN, op] && [OPEN] + [] == [OPEN] && {0} + {1} == {0, 1} && {0} + {} == {0};
    assert {} + {1} == {1} && [FULL][0 := Attempt([OPEN], {1})] == [Attempt([OPEN], {1})];
    Extend(run, steps, PLAIN, Settle(Sender), s8);
    run, steps := run + [s8], steps + [Settle(Sender)];
    var s9 := Commit(s8.(finished := true));
    Extend(run, steps, PLAIN, Finish, s9);
    run, steps := run + [s9], steps + [Finish];
    KeepSnoc([], OPEN, s9.aux.ackSet);
    assert [] + [OPEN] == [OPEN];
  }

  // ---------------------------------------------------------------- how often it retries

  /** A configured policy allows two to five attempts. */
  lemma {:induction false} PolicyCapped(maxAttempts: int, backoffsPositive: bool, codes: set<int>)
    ensures var p := ConvertPolicy(maxAttempts, backoffsPositive, codes);
      p.Some? ==> 2 <= p.value.maxAttempts <= 5
  {
  }

  function MaxAttempts(cfg: Config): nat {
    if cfg.policy.Some? && cfg.policy.value.maxAttempts > 0 then cfg.policy.value.maxAttempts else 1
  }

  /** What is left of a fail-fast call's retries. */
  function Left(s: Stream): int {
    (if s.firstAttempt then 1 else 0) + MaxAttempts(s.cfg) - 1 - s.numRetries
  }

  /** Every retry of a fail-fast call uses some of it up, so the loop of `retryLocked` ends. */
  lemma {:induction false} RetryUsesUp(s: Stream, who: Who, facts: Facts, transportOk: bool, t: Stream)
    requires DecideStep(s, who, facts, transportOk, t) && ShouldRetry(s, facts) != GiveUp
    ensures t.cfg == s.cfg && !t.firstAttempt && |t.attempts| <= |s.attempts| + 1
    ensures s.numRetries <= t.numRetries && s.aux.transparent <= t.aux.transparent
    ensures t.numRetries > s.numRetries ==> t.numRetries <= MaxAttempts(s.cfg) - 1
    ensures t.aux.transparent > s.aux.transparent ==> s.firstAttempt && t.aux.transparent == s.aux.transparent + 1
    ensures s.cfg.failFast ==>
      Left(t) < Left(s) && t.numRetries + t.aux.transparent == s.numRetries + s.aux.transparent + 1
  {
    hide HasStream, Ids;
  }

  /** At most one retry is transparent and the policy bounds the others; only a call that waits for a
      connection retries freely. */
  predicate Budget(s: Stream) {
    && s.aux.transparent <= (if s.firstAttempt then 0 else 1)
    && s.numRetries <= MaxAttempts(s.cfg) - 1
    && (s.cfg.failFast ==> |s.attempts| <= 1 + s.aux.transparent + s.numRetries)
  }

  predicate SameBudget(s: Stream, t: Stream) {
    && t.cfg == s.cfg && |t.attempts| == |s.attempts| && t.firstAttempt == s.firstAttempt
    && t.numRetries == s.numRetries && t.aux.transparent == s.aux.transparent
  }

  lemma {:induction false} GiveUpSame(s: Stream, who: Who, facts: Facts, transportOk: bool, t: Stream)
    requires DecideStep(s, who, facts, transportOk, t) && ShouldRetry(s, facts) == GiveUp
    ensures SameBudget(s, t)
  {
    hide ShouldRetry;
  }

  lemma {:induction false} RunSame(s: Stream, who: Who, res: Res, written: bool, t: Stream)
    requires RunStep(s, who, res, written, t)
    ensures SameBudget(s, t)
  {
    hide HasStream, Possible;
  }

  lemma {:induction false} ReturnSame(s: Stream, who: Who, job: Job, res: Res, written: bool)
    requires s.attempts != []
    ensures SameBudget(s, Return(s, who, job, res, written))
  {
  }

  lemma {:induction false} RunLastSame(s: Stream, who: Who, res: Res, written: bool, t: Stream)
    requires RunLastStep(s, who, res, written, t)
    ensures SameBudget(s, t)
  {
    hide Usable, Possible, Return;
    var l := At(s, who);
    ReturnSame(Apply(s, l.job, |s.attempts| - 1, written), who, l.job, res, written);
  }

  lemma {:induction false} BufferSame(s: Stream, op: Op)
    ensures SameBudget(s, BufferForRetry(s, op))
  {
  }

  lemma {:induction false} SettleSame(s: Stream, who: Who, t: Stream)
    requires SettleStep(s, who, t)
    ensures SameBudget(s, t)
  {
    hide BufferForRetry, Return;
    var l := At(s, who);
    if l.a == Cur(s) && l.res != Bad {
      var u := if l.job.Send? then BufferForRetry(s, l.job.op) else Commit(s);
      if l.job.Send? { BufferSame(s, l.job.op); }
      ReturnSame(u, who, l.job, l.res, l.written);
    }
  }

  lemma {:induction false} ReplayOneSame(s: Stream, who: Who, res: Res, written: bool, t: Stream)
    requires ReplayOneStep(s, who, res, written, t)
    ensures SameBudget(s, t)
  {
    hide Usable, Possible;
  }

  lemma {:induction false} OtherSteps(s: Stream, step: Step, t: Stream)
    requires Next(s, step, t) && !step.Decide?
    ensures SameBudget(s, t)
  {
    hide RunStep, RunLastStep, SettleStep, ReplayOneStep, DecideStep;
    match step
    case Run(who, res, written) => RunSame(s, who, res, written, t);
    case RunLast(who, res, written) => RunLastSame(s, who, res, written, t);
    case Settle(who) => SettleSame(s, who, t);
    case ReplayOne(who, res, written) => ReplayOneSame(s, who, res, written, t);
    case _ =>
  }

  lemma {:induction false} DecideKeepsBudget(s: Stream, who: Who, facts: Facts, transportOk: bool, t: Stream)
    requires Budget(s) && s.attempts != [] && DecideStep(s, who, facts, transportOk, t)
    ensures Budget(t) && t.cfg == s.cfg
  {
    hide DecideStep, ShouldRetry;
    if ShouldRetry(s, facts) == GiveUp {
      GiveUpSame(s, who, facts, transportOk, t);
    } else {
      RetryUsesUp(s, who, facts, transportOk, t);
    }
  }

  lemma {:induction false} NextKeepsBudget(s: Stream, step: Step, t: Stream)
    requires Budget(s) && s.attempts != [] && Next(s, step, t)
    ensures Budget(t) && t.cfg == s.cfg
  {
    hide CallSendStep, LockStep, RunStep, RunLastStep, SettleStep, DecideStep, ReplayOneStep, ReplayEndStep, Reachable;
    if step.Decide? {
      DecideKeepsBudget(s, step.who, step.facts, step.transportOk, t);
    } else {
      OtherSteps(s, step, t);
    }
  }

  /** Over every run: at most one transparent retry, as many counted ones as the policy allows, and for a
      fail-fast call no attempt beyond those. */
  lemma {:induction false} RetriesBounded(run: seq<Stream>, steps: seq<Step>, cfg: Config, i: nat)
    requires IsRun(run, steps, cfg) && i < |run|
    ensures run[i].cfg == cfg && Budget(run[i])
  {
    hide Next, Inv, Effect;
    if i > 0 {
      RetriesBounded(run, steps, cfg, i - 1);
      RunEffects(run, steps, cfg, i - 1);
      NextKeepsBudget(run[i - 1], steps[i - 1], run[i]);
    }
  }

  /** With a policy that was configured: at most one transparent retry and four others, six attempts in all. */
  lemma {:induction false} RetriesCapped(run: seq<Stream>, steps: seq<Step>, cfg: Config, i: nat, maxAttempts: int,
                                         backoffsPositive: bool, codes: set<int>)
    requires IsRun(run, steps, cfg) && i < |run| && cfg.policy == ConvertPolicy(maxAttempts, backoffsPositive, codes)
    ensures run[i].aux.transparent <= 1 && run[i].numRetries <= 4
    ensures maxAttempts <= 1 ==> run[i].numRetries == 0
    ensures 1 < maxAttempts ==> run[i].numRetries < maxAttempts
    ensures cfg.failFast ==> |run[i].attempts| <= 6
  {
    hide IsRun;
    RetriesBounded(run, steps, cfg, i);
  }
}
