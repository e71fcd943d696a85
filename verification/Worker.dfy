/** The worker's handling of one claimed job (worker.py): exception paths, escrow and callback
    decisions. */
module Worker {
  import opened Common
  import opened Jobs

  /** How an awaited call ends: it returns, raises an exception, or is cancelled. Cancellation is
      not an `Exception`, so no handler of the worker catches it. */
  datatype Ending = Returns | Raises | Cancelled

  datatype AgentEnding = AgentOk | AgentFailed | AgentRaises | AgentCancelled

  /** Everything outside the worker's control while it handles one job. */
  datatype Script = Script(
    agent: AgentEnding,          // runtime.execute_agent
    upload: Ending,              // artifact upload, on success
    packingRaises: bool,         // JSON encoding of the result, on success
    updateRaises: bool,          // the status update of the try block
    handlerUpdateRaises: bool,   // the status update of the exception handler
    escrowPermitted: bool,       // escrow_guard.escrow_permitted
    payment: Ending,             // complete_escrow or release_escrow in the try block
    handlerPayment: Ending,      // release_escrow in the handler
    heartbeatDies: bool,         // a heartbeat call raises, which ends the heartbeat task
    callback: Ending)            // fire_callback

  /** What the worker does to the outside, in order. A call counts even if it raises. */
  datatype Effect =
    | StatusUpdate(status: string)
    | Settle
    | Refund
    | Callback(status: string)

  datatype Exit = Normal | Exception | Cancellation

  /** Effects so far, the final status if one was reached, and how the block was left. */
  datatype Part = Part(effects: seq<Effect>, final: Option<string>, exit: Exit)

  /** The worker pays only for escrow it owns: with a webhook the marketplace settles. */
  predicate OwnsEscrow(job: Job) {
    job.escrow != "" && job.webhook == ""
  }

  function Pays(job: Job, x: Script): bool {
    OwnsEscrow(job) && x.escrowPermitted
  }

  /** A status update followed by the payment it calls for. */
  function Conclude(job: Job, x: Script, status: string, pay: Effect, payment: Ending): Part {
    Part([StatusUpdate(status)] + (if Pays(job, x) then [pay] else []),
         Some(status),
         if Pays(job, x) && payment.Cancelled? then Cancellation else Normal)
  }

  function TryBlock(job: Job, x: Script): Part {
    match x.agent
    case AgentRaises => Part([], None, Exception)
    case AgentCancelled => Part([], None, Cancellation)
    case AgentOk =>
      if x.upload.Cancelled? then Part([], None, Cancellation)
      else
        var status := if x.upload.Raises? then "DELIVERED_WITH_ARTIFACT_WARNING" else "DELIVERED";
        if x.packingRaises then Part([], None, Exception)
        else if x.updateRaises then Part([StatusUpdate(status)], None, Exception)
        else Conclude(job, x, status, Settle, x.payment)
    case AgentFailed =>
      if x.updateRaises then Part([StatusUpdate("FAILED")], None, Exception)
      else Conclude(job, x, "FAILED", Refund, x.payment)
  }

  function Handler(job: Job, x: Script): Part {
    if x.handlerUpdateRaises then Part([StatusUpdate("FAILED")], None, Exception)
    else Conclude(job, x, "FAILED", Refund, x.handlerPayment)
  }

  /** What follows the try block: the handler if an exception was raised, otherwise nothing. */
  function Handled(job: Job, x: Script): Part {
    var t := TryBlock(job, x);
    if t.exit.Exception? then Handler(job, x) else Part([], t.final, t.exit)
  }

  /** The callback of the finally block. Awaiting the heartbeat task comes first and raises again what
      ended that task, so a dead heartbeat skips the callback. */
  function Callbacks(job: Job, x: Script, final: Option<string>): seq<Effect> {
    if job.webhook != "" && final.Some? && !x.heartbeatDies then [Callback(final.value)] else []
  }

  function Effects(job: Job, x: Script): seq<Effect> {
    TryBlock(job, x).effects + Handled(job, x).effects + Callbacks(job, x, Handled(job, x).final)
  }

  /** How the whole is left: the finally block can replace how the rest was left. */
  function ExitOf(job: Job, x: Script): Exit {
    var h := Handled(job, x);
    if x.heartbeatDies then Exception
    else if Callbacks(job, x, h.final) != [] && x.callback.Cancelled? then Cancellation
    else h.exit
  }

  // ----- as the worker runs it ----------------------------------------------------------------

  /** The payment after a status update. */
  method Pay(job: Job, x: Script, status: string, pay: Effect, payment: Ending) returns (p: Part)
    ensures p == Conclude(job, x, status, pay, payment)
  {
    var external := job.webhook != "";
    var effects := [StatusUpdate(status)];
    var exit := Normal;
    if job.escrow != "" && !external && x.escrowPermitted {
      effects := effects + [pay];
      if payment.Cancelled? { exit := Cancellation; }
    }
    return Part(effects, Some(status), exit);
  }

  method RunTry(job: Job, x: Script) returns (p: Part)
    ensures p == TryBlock(job, x)
  {
    match x.agent {
      case AgentRaises => return Part([], None, Exception);
      case AgentCancelled => return Part([], None, Cancellation);
      case AgentOk =>
        if x.upload.Cancelled? { return Part([], None, Cancellation); }
        var uploadOk := !x.upload.Raises?;
        var status := if uploadOk then "DELIVERED" else "DELIVERED_WITH_ARTIFACT_WARNING";
        if x.packingRaises { return Part([], None, Exception); }
        if x.updateRaises { return Part([StatusUpdate(status)], None, Exception); }
        p := Pay(job, x, status, Settle, x.payment);
      case AgentFailed =>
        if x.updateRaises { return Part([StatusUpdate("FAILED")], None, Exception); }
        p := Pay(job, x, "FAILED", Refund, x.payment);
    }
  }

  method RunHandler(job: Job, x: Script) returns (p: Part)
    ensures p == Handler(job, x)
  {
    if x.handlerUpdateRaises { return Part([StatusUpdate("FAILED")], None, Exception); }
    p := Pay(job, x, "FAILED", Refund, x.handlerPayment);
  }

  method ProcessJob(job: Job, x: Script) returns (effects: seq<Effect>, exit: Exit)
    ensures effects == Effects(job, x) && exit == ExitOf(job, x)
  {
    var p := RunTry(job, x);
    effects, exit := p.effects, p.exit;
    var finalStatus := p.final;
    if exit.Exception? {
      var h := RunHandler(job, x);
      effects, finalStatus, exit := effects + h.effects, h.final, h.exit;
    }
    if x.heartbeatDies {
      exit := Exception;
    } else if job.webhook != "" && finalStatus.Some? {
      effects := effects + [Callback(finalStatus.value)];
      if x.callback.Cancelled? { exit := Cancellation; }
    }
  }

  /** It is left by an exception if and only if the heartbeat died, or the handler ran and its own
      update raised. */
  lemma {:induction false} LeftByExceptionIff(job: Job, x: Script)
    ensures ExitOf(job, x).Exception? <==>
            x.heartbeatDies || (TryBlock(job, x).exit.Exception? && x.handlerUpdateRaises)
  {
    HandledExits(job, x);
  }

  lemma {:induction false} HandledExits(job: Job, x: Script)
    ensures Handled(job, x).exit.Exception? <==> TryBlock(job, x).exit.Exception? && x.handlerUpdateRaises
    ensures Handled(job, x).final.Some? <==>
            && !x.agent.AgentCancelled? && !(x.agent.AgentOk? && x.upload.Cancelled?)
            && !(TryBlock(job, x).exit.Exception? && x.handlerUpdateRaises)
    ensures Handled(job, x).final.None? ==> !Handled(job, x).exit.Normal?
  {
  }

  /** The callback is sent if and only if there is a webhook, the heartbeat did not die, and a final
      status was reached: neither the agent nor the upload was cancelled, and the handler's update,
      if it came to that, did not raise. */
  lemma {:induction false} CallbackIff(job: Job, x: Script)
    ensures (exists e :: e in Effects(job, x) && e.Callback?) <==>
            && job.webhook != "" && !x.heartbeatDies
            && !x.agent.AgentCancelled? && !(x.agent.AgentOk? && x.upload.Cancelled?)
            && !(TryBlock(job, x).exit.Exception? && x.handlerUpdateRaises)
  {
    var h := Handled(job, x);
    var c := Callbacks(job, x, h.final);
    HandledExits(job, x);
    TryPlain(job, x);
    HandledPlain(job, x);
    assert forall e :: e in Effects(job, x) <==> e in TryBlock(job, x).effects || e in h.effects || e in c;
    if c != [] {
      assert c[0] in c;
    }
  }

  lemma {:induction false} HandledPlain(job: Job, x: Script)
    ensures forall e :: e in Handled(job, x).effects ==> !e.Callback?
  {
    ConcludePlain(job, x, "FAILED", Refund, x.handlerPayment);
  }

  /** Which status is written, by its cause: a delivery exactly when the agent succeeded and its result
      could be packed, with a warning exactly when the upload raised; a failure exactly when the agent
      failed or raised, or packing or the update of a delivery raised; and none if agent or upload were
      cancelled. The callback reports the failure if there is one, else the delivery. */
  lemma {:induction false} StatusByCause(job: Job, x: Script)
    ensures var es, packed := Effects(job, x), x.agent.AgentOk? && !x.upload.Cancelled? && !x.packingRaises;
            && (StatusUpdate("DELIVERED") in es <==> packed && x.upload.Returns?)
            && (StatusUpdate("DELIVERED_WITH_ARTIFACT_WARNING") in es <==> packed && x.upload.Raises?)
            && (StatusUpdate("FAILED") in es <==>
                || x.agent.AgentFailed? || x.agent.AgentRaises?
                || (x.agent.AgentOk? && !x.upload.Cancelled? && (x.packingRaises || x.updateRaises)))
            && (forall st :: Callback(st) in es ==>
                  if StatusUpdate("FAILED") in es then st == "FAILED" else StatusUpdate(st) in es)
  {
    var t, h := TryBlock(job, x), Handled(job, x);
    var c := Callbacks(job, x, h.final);
    TryPlain(job, x);
    HandledPlain(job, x);
    assert |"DELIVERED"| == 9 && |"FAILED"| == 6 && |"DELIVERED_WITH_ARTIFACT_WARNING"| == 31;
    assert forall e :: e in Effects(job, x) <==> e in t.effects || e in h.effects || e in c;
    StatusOfHandled(job, x);
    StatusOfTry(job, x);
  }

  lemma {:induction false} StatusOfTry(job: Job, x: Script)
    ensures var es, packed := TryBlock(job, x).effects, x.agent.AgentOk? && !x.upload.Cancelled? && !x.packingRaises;
            && (StatusUpdate("DELIVERED") in es <==> packed && x.upload.Returns?)
            && (StatusUpdate("DELIVERED_WITH_ARTIFACT_WARNING") in es <==> packed && x.upload.Raises?)
            && (StatusUpdate("FAILED") in es <==> x.agent.AgentFailed?)
            && (TryBlock(job, x).final.Some? ==> StatusUpdate(TryBlock(job, x).final.value) in es)
            && (TryBlock(job, x).final.Some? && x.agent.AgentFailed? ==> TryBlock(job, x).final.value == "FAILED")
  {
    assert |"DELIVERED"| == 9 && |"FAILED"| == 6 && |"DELIVERED_WITH_ARTIFACT_WARNING"| == 31;
  }

  lemma {:induction false} StatusOfHandled(job: Job, x: Script)
    ensures var t, h := TryBlock(job, x), Handled(job, x);
            && (forall st :: StatusUpdate(st) in h.effects ==> st == "FAILED")
            && (StatusUpdate("FAILED") in h.effects <==> t.exit.Exception?)
            && (h.final.Some? ==> if t.exit.Exception? then h.final.value == "FAILED" else h.final == t.final)
            && (t.exit.Exception? <==>
                || x.agent.AgentRaises?
                || (x.agent.AgentOk? && !x.upload.Cancelled? && (x.packingRaises || x.updateRaises))
                || (x.agent.AgentFailed? && x.updateRaises))
  {
  }

  /** It is left by a cancellation if and only if the heartbeat lives and the agent, the upload, a payment
      that was made, or the callback was cancelled. */
  lemma {:induction false} LeftByCancellationIff(job: Job, x: Script)
    ensures var pays := job.escrow != "" && job.webhook == "" && x.escrowPermitted;
            var raised := TryBlock(job, x).exit.Exception?;
            ExitOf(job, x).Cancellation? <==>
            && !x.heartbeatDies
            && (|| x.agent.AgentCancelled? || (x.agent.AgentOk? && x.upload.Cancelled?)
                || (pays && !raised && x.payment.Cancelled?)
                || (pays && raised && !x.handlerUpdateRaises && x.handlerPayment.Cancelled?)
                || (job.webhook != "" && Handled(job, x).final.Some? && x.callback.Cancelled?))
  {
  }

  // ----- one job ----------------------------------------------------------------------------

  function IsPayment(): Effect -> bool {
    (e: Effect) => e.Settle? || e.Refund?
  }

  function Payments(es: seq<Effect>): seq<Effect> {
    Filter(es, IsPayment())
  }

  lemma {:induction false} UpdatePaysNothing(status: string)
    ensures Payments([StatusUpdate(status)]) == []
  {
    FilterNone([StatusUpdate(status)], IsPayment());
  }

  lemma {:induction false} ConcludePays(job: Job, x: Script, status: string, pay: Effect, payment: Ending)
    requires pay.Settle? || pay.Refund?
    ensures Payments(Conclude(job, x, status, pay, payment).effects) == if Pays(job, x) then [pay] else []
  {
    var u := [StatusUpdate(status)];
    FilterNone(u, IsPayment());
    FilterAll([pay], IsPayment());
    FilterAppend(u, [pay], IsPayment());
    assert u + [] == u;
  }

  lemma {:induction false} PaymentsOfParts(a: seq<Effect>, b: seq<Effect>, job: Job, x: Script, final: Option<string>)
    ensures Payments(a + b + Callbacks(job, x, final)) == Payments(a) + Payments(b)
  {
    var c := Callbacks(job, x, final);
    FilterAppend(a, b, IsPayment());
    FilterAppend(a + b, c, IsPayment());
    FilterNone(c, IsPayment());
  }

  lemma {:induction false} PaymentsOfTry(job: Job, x: Script)
    ensures Payments(TryBlock(job, x).effects) ==
            if !Pays(job, x) || x.updateRaises || (x.agent.AgentOk? && (x.upload.Cancelled? || x.packingRaises)) then []
            else if x.agent.AgentOk? then [Settle]
            else if x.agent.AgentFailed? then [Refund]
            else []
  {
    if x.agent.AgentOk? {
      var delivered := if x.upload.Raises? then "DELIVERED_WITH_ARTIFACT_WARNING" else "DELIVERED";
      UpdatePaysNothing(delivered);
      ConcludePays(job, x, delivered, Settle, x.payment);
    } else if x.agent.AgentFailed? {
      UpdatePaysNothing("FAILED");
      ConcludePays(job, x, "FAILED", Refund, x.payment);
    }
  }

  lemma {:induction false} PaymentsOfHandler(job: Job, x: Script)
    ensures Payments(Handler(job, x).effects) ==
            if Pays(job, x) && !x.handlerUpdateRaises then [Refund] else []
  {
    UpdatePaysNothing("FAILED");
    ConcludePays(job, x, "FAILED", Refund, x.handlerPayment);
  }

  /** The handler runs exactly when the agent, the packing of its result or the status update
      raised. */
  lemma {:induction false} HandlerRunsIff(job: Job, x: Script)
    ensures TryBlock(job, x).exit.Exception? <==>
            x.agent.AgentRaises?
            || (x.agent.AgentFailed? && x.updateRaises)
            || (x.agent.AgentOk? && !x.upload.Cancelled? && (x.packingRaises || x.updateRaises))
  {
  }

  /** On every path the payments are: none without owned and permitted escrow; otherwise at most
      one, a settlement exactly when the agent succeeded and the update to a delivered status
      returned, a refund exactly when an update to FAILED returned instead. */
  lemma {:induction false} PaymentsOfJob(job: Job, x: Script)
    ensures Payments(Effects(job, x)) ==
            if !Pays(job, x) then []
            else if x.agent.AgentCancelled? || (x.agent.AgentOk? && x.upload.Cancelled?) then []
            else if x.agent.AgentOk? && !x.packingRaises && !x.updateRaises then [Settle]
            else if x.agent.AgentFailed? && !x.updateRaises then [Refund]
            else if x.handlerUpdateRaises then []
            else [Refund]
    ensures |Payments(Effects(job, x))| <= 1
    ensures job.webhook != "" ==> Payments(Effects(job, x)) == []
  {
    PaymentsOfTry(job, x);
    PaymentsOfHandled(job, x);
    HandlerRunsIff(job, x);
    PaymentsOfParts(TryBlock(job, x).effects, Handled(job, x).effects, job, x, Handled(job, x).final);
  }

  lemma {:induction false} PaymentsOfHandled(job: Job, x: Script)
    ensures Payments(Handled(job, x).effects) ==
            if TryBlock(job, x).exit.Exception? && Pays(job, x) && !x.handlerUpdateRaises then [Refund] else []
  {
    PaymentsOfHandler(job, x);
  }

  /** A part of the run: it writes one of the worker's statuses, makes no callback, and the final
      status it reports is one it wrote. */
  predicate Plain(p: Part) {
    && (forall e :: e in p.effects ==> !e.Callback?)
    && (forall e :: e in p.effects && e.StatusUpdate? ==> e.status in WORKER_STATUSES)
    && (p.final.Some? ==> StatusUpdate(p.final.value) in p.effects)
  }

  const WORKER_STATUSES: set<string> := {"DELIVERED", "DELIVERED_WITH_ARTIFACT_WARNING", "FAILED"}

  lemma {:induction false} ConcludePlain(job: Job, x: Script, status: string, pay: Effect, payment: Ending)
    requires status in WORKER_STATUSES && (pay.Settle? || pay.Refund?)
    ensures Plain(Conclude(job, x, status, pay, payment))
    ensures Plain(Part([StatusUpdate(status)], None, Exception))
  {
    assert StatusUpdate(status) == Conclude(job, x, status, pay, payment).effects[0];
  }

  lemma {:induction false} TryPlain(job: Job, x: Script)
    ensures Plain(TryBlock(job, x))
    ensures TryBlock(job, x).exit.Exception? ==> TryBlock(job, x).final.None?
  {
    ConcludePlain(job, x, "DELIVERED", Settle, x.payment);
    ConcludePlain(job, x, "DELIVERED_WITH_ARTIFACT_WARNING", Settle, x.payment);
    ConcludePlain(job, x, "FAILED", Refund, x.payment);
  }

  /** The worker never writes a status that would put a job back in the queue, and calls back at
      most once, last, with a status it wrote. */
  lemma {:induction false} StatusesOfJob(job: Job, x: Script)
    ensures forall e :: e in Effects(job, x) && e.StatusUpdate? ==> e.status in WORKER_STATUSES
    ensures forall i :: 0 <= i < |Effects(job, x)| && Effects(job, x)[i].Callback? ==>
              i == |Effects(job, x)| - 1 && job.webhook != ""
              && StatusUpdate(Effects(job, x)[i].status) in Effects(job, x)
  {
    TryPlain(job, x);
    ConcludePlain(job, x, "FAILED", Refund, x.handlerPayment);
    JoinPlain(TryBlock(job, x), Handled(job, x), job, x);
  }

  lemma {:induction false} JoinPlain(t: Part, h: Part, job: Job, x: Script)
    requires Plain(t) && Plain(h.(final := None))
    requires h.final.Some? ==> StatusUpdate(h.final.value) in t.effects + h.effects
    ensures var es := t.effects + h.effects + Callbacks(job, x, h.final);
            && (forall e :: e in es && e.StatusUpdate? ==> e.status in WORKER_STATUSES)
            && (forall i :: 0 <= i < |es| && es[i].Callback? ==>
                  i == |es| - 1 && job.webhook != "" && StatusUpdate(es[i].status) in es)
  {
    var es := t.effects + h.effects + Callbacks(job, x, h.final);
    var n := |t.effects| + |h.effects|;
    assert forall i :: 0 <= i < n ==> es[i] in t.effects || es[i] in h.effects;
  }

  /** A payment directly follows the status update it belongs to. */
  predicate PaidAfterStatus(es: seq<Effect>, i: nat)
    requires i < |es|
  {
    && (es[i].Settle? ==> i > 0 && es[i - 1].StatusUpdate?
                          && es[i - 1].status in {"DELIVERED", "DELIVERED_WITH_ARTIFACT_WARNING"})
    && (es[i].Refund? ==> i > 0 && es[i - 1] == StatusUpdate("FAILED"))
  }

  predicate Ordered(es: seq<Effect>) {
    forall i :: 0 <= i < |es| ==> PaidAfterStatus(es, i)
  }

  lemma {:induction false} OrderedJoin(a: seq<Effect>, b: seq<Effect>)
    requires Ordered(a) && Ordered(b)
    ensures Ordered(a + b)
  {
    var s := a + b;
    forall i | 0 <= i < |s| ensures PaidAfterStatus(s, i) {
      if i < |a| {
        assert PaidAfterStatus(a, i);
      } else {
        assert PaidAfterStatus(b, i - |a|);
      }
    }
  }

  /** On every path a settlement comes right after an update to a delivered status and a refund right
      after an update to FAILED. */
  lemma {:induction false} PaymentFollowsStatus(job: Job, x: Script)
    ensures Ordered(Effects(job, x))
    ensures var es := Effects(job, x);
            && (forall i :: 0 <= i < |es| && es[i].Settle? ==> i > 0 && Delivers(es[i - 1]))
            && (forall i :: 0 <= i < |es| && es[i].Refund? ==> i > 0 && es[i - 1] == StatusUpdate("FAILED"))
  {
    OrderedJoin(TryBlock(job, x).effects, Handled(job, x).effects);
    OrderedJoin(TryBlock(job, x).effects + Handled(job, x).effects, Callbacks(job, x, Handled(job, x).final));
    OrderedMeans(Effects(job, x));
  }

  lemma {:induction false} OrderedMeans(es: seq<Effect>)
    requires Ordered(es)
    ensures forall i :: 0 <= i < |es| && es[i].Settle? ==> i > 0 && Delivers(es[i - 1])
    ensures forall i :: 0 <= i < |es| && es[i].Refund? ==> i > 0 && es[i - 1] == StatusUpdate("FAILED")
  {
    forall i | 0 <= i < |es| && es[i].Settle? ensures i > 0 && Delivers(es[i - 1]) {
      assert PaidAfterStatus(es, i);
    }
    forall i | 0 <= i < |es| && es[i].Refund? ensures i > 0 && es[i - 1] == StatusUpdate("FAILED") {
      assert PaidAfterStatus(es, i);
    }
  }

  predicate Delivers(e: Effect) {
    e == StatusUpdate("DELIVERED") || e == StatusUpdate("DELIVERED_WITH_ARTIFACT_WARNING")
  }
}
