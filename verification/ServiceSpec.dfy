/** The decision service as a state machine over whole calls, and what holds over its runs. */
module ServiceSpec {
  import opened Domain
  import opened Clock
  import opened TemporalSpec
  import opened ReplaySpec
  import opened Journal
  import opened Sequences
  import D = Decisioning

  /** What a deployment fixes: two models, two numeric functions, the lateness policy and the
      validation records. */
  datatype Setting = Setting(
    champion: Features -> real, challenger: Features -> real, distance: Distance, sizeSignal: nat -> real,
    allowedLateness: int, validation: seq<FeatureRecord<Features>>)

  /** The durable journal; and what a process keeps in memory: the payments its features and
      graph have counted, and the engine's assumptions and thresholds. */
  datatype State = State(journal: seq<Entry>, log: seq<PaymentEvent>, assumptions: D.CostAssumptions, thresholds: D.DecisionThresholds)

  /** Clock readings taken during a call. */
  datatype Stamp = Stamp(timestamp: Instant, latencyMs: real)

  datatype Call =
    | Authorize(event: AuthorizationRequest, stamp: Stamp, saveFails: bool)
    | UpdateCosts(assumptions: D.CostAssumptions)
    | Restart(initialAssumptions: D.CostAssumptions, initialThresholds: D.DecisionThresholds)

  datatype Reply =
    | Cached(response: AuthorizationResponse)
    | Conflict
    | LateRejected
    | OrderRejected
    | SaveFailed
    | Responded(response: AuthorizationResponse)
    | CostsUpdated(previous: D.Cutoffs, thresholds: D.Cutoffs)
    | CostsFailed(error: D.DecisionError)
    | Restarted
  {
    /** The call was refused or served from the journal. */
    predicate NoEffect() {
      Cached? || Conflict? || LateRejected? || OrderRejected?
    }
  }

  datatype Stepped = Stepped(state: State, reply: Reply)

  // ----- one call -----

  /** What the models see of a payment: no label is ever confirmed online. */
  ghost function Basis(k: Setting, log: seq<PaymentEvent>, e: PaymentEvent): Features {
    FeaturesFrom(log, [], e, k.distance, k.sizeSignal)
  }

  function Respond(k: Setting, thresholds: D.Cutoffs, basis: Features, e: PaymentEvent, stamp: Stamp): AuthorizationResponse {
    var risk, shadow := k.champion(basis), k.challenger(basis);
    AuthorizationResponse(D.DecideWith(risk, thresholds), risk, basis, stamp.timestamp, e.traceId, stamp.latencyMs,
                          shadow, D.DecideWith(shadow, thresholds))
  }

  ghost function Accept(k: Setting, s: State, e: AuthorizationRequest, stamp: Stamp, saveFails: bool): Stepped {
    var response := Respond(k, s.thresholds, Basis(k, s.log, e), e, stamp);
    if saveFails then Stepped(s.(log := s.log + [e]), SaveFailed)
    else Stepped(s.(log := s.log + [e], journal := s.journal + [Entry(e, response)]), Responded(response))
  }

  /** The three gates, in order: the cache, the watermark, the feature store's own order. */
  ghost function AuthorizeStep(k: Setting, s: State, e: AuthorizationRequest, stamp: Stamp, saveFails: bool): Stepped {
    match LookUp(s.journal, e)
    case Hit(response) => Stepped(s, Cached(response))
    case Clash => Stepped(s, Conflict)
    case Unseen =>
      if Late(s.journal, k.allowedLateness, e) then Stepped(s, LateRejected)
      else if Regresses(Past(s.log, e.customerId), e) then Stepped(s, OrderRejected)
      else Accept(k, s, e, stamp, saveFails)
  }

  ghost predicate GatesPassed(k: Setting, s: State, e: PaymentEvent) {
    LookUp(s.journal, e).Unseen? && !Late(s.journal, k.allowedLateness, e) && !Regresses(Past(s.log, e.customerId), e)
  }

  /** Without passing them, the first closed gate answers, and nothing changes. */
  lemma {:induction false} Refused(k: Setting, s: State, e: AuthorizationRequest, stamp: Stamp, saveFails: bool)
    requires !GatesPassed(k, s, e)
    ensures var found := LookUp(s.journal, e);
            AuthorizeStep(k, s, e, stamp, saveFails) ==
            Stepped(s, if found.Hit? then Cached(found.response) else if found.Clash? then Conflict
                       else if Late(s.journal, k.allowedLateness, e) then LateRejected else OrderRejected)
  {
  }

  /** Past the gates, the step is decided by the save alone. */
  lemma {:induction false} PastTheGates(k: Setting, s: State, e: AuthorizationRequest, stamp: Stamp, saveFails: bool,
                                          response: AuthorizationResponse)
    requires GatesPassed(k, s, e)
    requires response == Respond(k, s.thresholds, Basis(k, s.log, e), e, stamp)
    ensures AuthorizeStep(k, s, e, stamp, saveFails) ==
            Stepped(State(s.journal + if saveFails then [] else [Entry(e, response)], s.log + [e], s.assumptions, s.thresholds),
                    if saveFails then SaveFailed else Responded(response))
  {
    if saveFails {
      assert s.journal + [] == s.journal;
    }
  }

  function ValidationScores(k: Setting): seq<real> {
    seq(|k.validation|, i requires 0 <= i < |k.validation| => k.champion(k.validation[i].features))
  }

  function ValidationLabels(k: Setting): seq<int> {
    seq(|k.validation|, i requires 0 <= i < |k.validation| => k.validation[i].fraudLabel)
  }

  function ValidationAmounts(k: Setting): seq<real> {
    seq(|k.validation|, i requires 0 <= i < |k.validation| => k.validation[i].event.amount)
  }

  const GRID_SIZE: nat := 41

  function Reoptimized(k: Setting, a: D.CostAssumptions, prior: D.DecisionThresholds): D.Outcome<D.Cutoffs> {
    D.Search(ValidationScores(k), ValidationLabels(k), ValidationAmounts(k), a, prior, GRID_SIZE)
  }

  /** The assumptions change first, whether or not the search then succeeds. */
  function UpdateCostsStep(k: Setting, s: State, a: D.CostAssumptions): Stepped {
    match Reoptimized(k, a, s.thresholds)
    case Failed(error) => Stepped(s.(assumptions := a), CostsFailed(error))
    case Done(t) =>
      D.FoundIsValid(ValidationScores(k), ValidationLabels(k), ValidationAmounts(k), a, s.thresholds, GRID_SIZE);
      Stepped(s.(assumptions := a, thresholds := t), CostsUpdated(s.thresholds, t))
  }

  ghost function Step(k: Setting, s: State, call: Call): Stepped {
    match call
    case Authorize(e, stamp, saveFails) => AuthorizeStep(k, s, e, stamp, saveFails)
    case UpdateCosts(a) => UpdateCostsStep(k, s, a)
    case Restart(a, t) => Stepped(State(s.journal, [], a, t), Restarted)
  }

  // ----- who decides -----

  /** The champion's score decides, by the thresholds in force; the challenger's is only reported. */
  ghost predicate ChampionDecides(k: Setting, thresholds: D.Cutoffs, r: AuthorizationResponse) {
    && r.riskScore == k.champion(r.basis) && r.shadowScore == k.challenger(r.basis)
    && (r.decision == Decline <==> k.champion(r.basis) >= thresholds.decline)
    && (r.decision == Approve <==> k.champion(r.basis) < thresholds.review)
    && (r.shadowDecision == Decline <==> k.challenger(r.basis) >= thresholds.decline)
    && (r.shadowDecision == Approve <==> k.challenger(r.basis) < thresholds.review)
  }

  lemma {:induction false} RespondMeans(k: Setting, thresholds: D.Cutoffs, basis: Features, e: PaymentEvent, stamp: Stamp)
    requires thresholds.review < thresholds.decline
    ensures var r := Respond(k, thresholds, basis, e, stamp);
            && ChampionDecides(k, thresholds, r) && r.basis == basis
            && r.timestamp == stamp.timestamp && r.latencyMs == stamp.latencyMs && r.traceId == e.traceId
  {
  }

  /** Every fresh answer is the champion's, on the features of the payment against those counted so
      far, stamped with this call's clock and the request's trace. */
  lemma {:induction false} AnswersAreTheChampions(k: Setting, s: State, e: AuthorizationRequest, stamp: Stamp, saveFails: bool)
    requires AuthorizeStep(k, s, e, stamp, saveFails).reply.Responded?
    ensures var r := AuthorizeStep(k, s, e, stamp, saveFails).reply.response;
            && ChampionDecides(k, s.thresholds, r) && r.basis == Basis(k, s.log, e)
            && r.timestamp == stamp.timestamp && r.latencyMs == stamp.latencyMs && r.traceId == e.traceId
  {
    var basis := Basis(k, s.log, e);
    if !GatesPassed(k, s, e) {
      Refused(k, s, e, stamp, saveFails);
    } else {
      PastTheGates(k, s, e, stamp, saveFails, Respond(k, s.thresholds, basis, e, stamp));
      RespondMeans(k, s.thresholds, basis, e, stamp);
    }
  }

  // ----- runs -----

  type Machine = (State, Call) -> Stepped

  ghost function Service(k: Setting): Machine {
    (s, call) => Step(k, s, call)
  }

  ghost function After(m: Machine, s: State, calls: seq<Call>): State {
    if calls == [] then s else m(After(m, s, calls[..|calls| - 1]), calls[|calls| - 1]).state
  }

  ghost function Replies(m: Machine, s: State, calls: seq<Call>): (replies: seq<Reply>)
    ensures |replies| == |calls|
  {
    if calls == [] then [] else
      Replies(m, s, calls[..|calls| - 1]) + [m(After(m, s, calls[..|calls| - 1]), calls[|calls| - 1]).reply]
  }

  lemma {:induction false} OneMoreCall(m: Machine, s: State, calls: seq<Call>, call: Call)
    ensures After(m, s, calls + [call]) == m(After(m, s, calls), call).state
    ensures Replies(m, s, calls + [call]) == Replies(m, s, calls) + [m(After(m, s, calls), call).reply]
  {
    assert (calls + [call])[..|calls|] == calls;
  }

  lemma {:induction false} ReplyAt(m: Machine, s: State, calls: seq<Call>, i: nat)
    requires i < |calls|
    ensures Replies(m, s, calls)[i] == m(After(m, s, calls[..i]), calls[i]).reply
  {
    if i < |calls| - 1 {
      var before := calls[..|calls| - 1];
      ReplyAt(m, s, before, i);
      PrefixOfPrefix(calls, i, |before|);
    }
  }

  lemma {:induction false} AfterSplit(m: Machine, s: State, calls: seq<Call>, more: seq<Call>)
    ensures After(m, s, calls + more) == After(m, After(m, s, calls), more)
  {
    if more == [] {
      assert calls + more == calls;
    } else {
      AfterSplit(m, s, calls, more[..|more| - 1]);
      PeelLast(calls, more);
    }
  }

  // ----- refusals leave no trace -----

  /** What is left of a sequence when the unmarked elements are deleted. */
  function Thin<T>(s: seq<T>, keep: seq<bool>): seq<T>
    requires |keep| == |s|
  {
    if s == [] then [] else
      Thin(s[..|s| - 1], keep[..|s| - 1]) + if keep[|s| - 1] then [s[|s| - 1]] else []
  }

  /** Refused and cached calls change nothing. */
  ghost predicate RefusesCleanly(m: Machine) {
    forall s, call {:trigger m(s, call)} :: m(s, call).reply.NoEffect() ==> m(s, call).state == s
  }

  lemma {:induction false} ServiceRefusesCleanly(k: Setting)
    ensures RefusesCleanly(Service(k))
  {
  }

  /** Calls marked for deletion were refused or cached. */
  ghost predicate Deletable(replies: seq<Reply>, keep: seq<bool>) {
    |keep| == |replies| && (replies == [] ||
    (Deletable(replies[..|replies| - 1], keep[..|keep| - 1]) && (keep[|keep| - 1] || replies[|replies| - 1].NoEffect())))
  }

  lemma {:induction false} ThinnedRun(m: Machine, s: State, calls: seq<Call>, keep: seq<bool>)
    requires RefusesCleanly(m) && Deletable(Replies(m, s, calls), keep)
    ensures After(m, s, Thin(calls, keep)) == After(m, s, calls)
    ensures Replies(m, s, Thin(calls, keep)) == Thin(Replies(m, s, calls), keep)
  {
    if calls != [] {
      var n := |calls| - 1;
      var before, was := calls[..n], After(m, s, calls[..n]);
      SplitLast(calls);
      OneMoreCall(m, s, before, calls[n]);
      assert Replies(m, s, calls)[..n] == Replies(m, s, before);
      ThinnedRun(m, s, before, keep[..n]);
      if keep[n] {
        OneMoreCall(m, s, Thin(before, keep[..n]), calls[n]);
      } else {
        assert m(was, calls[n]).reply.NoEffect();
        InAppended(Thin(before, keep[..n]), calls[n], calls[n]);
        InAppended(Thin(Replies(m, s, before), keep[..n]), Restarted, Restarted);
      }
    }
  }

  /** Deleting any retries, conflicts, late and out-of-order rejections from a run leaves every
      remaining reply and the final state as they were. */
  lemma {:induction false} RefusalsLeaveNoTrace(k: Setting, s: State, calls: seq<Call>, keep: seq<bool>)
    requires Deletable(Replies(Service(k), s, calls), keep)
    ensures After(Service(k), s, Thin(calls, keep)) == After(Service(k), s, calls)
    ensures Replies(Service(k), s, Thin(calls, keep)) == Thin(Replies(Service(k), s, calls), keep)
  {
    ServiceRefusesCleanly(k);
    ThinnedRun(Service(k), s, calls, keep);
  }

  // ----- the journal over runs -----

  /** What a call does to the journal and to the payments counted, told from its reply. */
  ghost predicate Moves(s: State, call: Call, t: Stepped) {
    if t.reply.Responded? then
      && call.Authorize? && Find(s.journal, call.event.transactionId).None? && !Regresses(Past(s.log, call.event.customerId), call.event)
      && t.state.log == s.log + [call.event] && t.state.journal == s.journal + [Entry(call.event, t.reply.response)]
    else if t.reply.SaveFailed? then
      call.Authorize? && t.state.log == s.log + [call.event] && t.state.journal == s.journal
    else
      t.state.journal == s.journal && t.state.log == if call.Restart? then [] else s.log
  }

  lemma AuthorizeMoves(k: Setting, s: State, call: Call)
    requires call.Authorize?
    ensures Moves(s, call, AuthorizeStep(k, s, call.event, call.stamp, call.saveFails))
  {
  }

  lemma StepMoves(k: Setting, s: State, call: Call)
    ensures Moves(s, call, Step(k, s, call))
  {
    if call.Authorize? {
      AuthorizeMoves(k, s, call);
    }
  }

  function Committed(call: Call, reply: Reply): seq<Entry> {
    if reply.Responded? && call.Authorize? then [Entry(call.event, reply.response)] else []
  }

  lemma MovesJournal(s: State, call: Call, t: Stepped)
    requires Moves(s, call, t)
    ensures t.state.journal == s.journal + Committed(call, t.reply)
    ensures Keyed(s.journal) ==> Keyed(t.state.journal)
  {
    if t.reply.Responded? {
      JournalGrows(s.journal, Entry(call.event, t.reply.response), "", "");
    } else {
      assert s.journal + [] == s.journal;
    }
  }

  lemma {:induction false} JournalOnlyGrows(k: Setting, s: State, calls: seq<Call>) returns (more: seq<Entry>)
    ensures After(Service(k), s, calls).journal == s.journal + more
    ensures Keyed(s.journal) ==> Keyed(After(Service(k), s, calls).journal)
  {
    if calls == [] {
      more := [];
      assert s.journal + more == s.journal;
    } else {
      var before, call := calls[..|calls| - 1], calls[|calls| - 1];
      more := JournalOnlyGrows(k, s, before);
      var t := Step(k, After(Service(k), s, before), call);
      StepMoves(k, After(Service(k), s, before), call);
      MovesJournal(After(Service(k), s, before), call, t);
      Associate(s.journal, more, Committed(call, t.reply));
      more := more + Committed(call, t.reply);
    }
  }

  /** Once answered, always answered: over any later calls, failures and restarts included, the
      same request gets the stored response, and another request under its id a conflict. */
  lemma {:induction false} RetryIsStable(k: Setting, s: State, e: AuthorizationRequest, stamp: Stamp, fails: bool, calls: seq<Call>,
                      f: AuthorizationRequest, later: Stamp, failsLater: bool)
    requires Keyed(s.journal) && f.transactionId == e.transactionId
    requires AuthorizeStep(k, s, e, stamp, fails).reply.Responded?
    ensures var first := AuthorizeStep(k, s, e, stamp, fails);
            var now := After(Service(k), first.state, calls);
            AuthorizeStep(k, now, f, later, failsLater) ==
            Stepped(now, if f == e then Cached(first.reply.response) else Conflict)
  {
    var first := AuthorizeStep(k, s, e, stamp, fails);
    AuthorizeMoves(k, s, Authorize(e, stamp, fails));
    MovesJournal(s, Authorize(e, stamp, fails), first);
    JournalGrows(s.journal, Entry(e, first.reply.response), e.transactionId, "");
    var more := JournalOnlyGrows(k, first.state, calls);
    FoundForever(first.state.journal, more, e.transactionId);
  }

  lemma {:induction false} NextAfter(m: Machine, s: State, calls: seq<Call>, i: nat)
    requires i < |calls|
    ensures After(m, s, calls[..i + 1]) == m(After(m, s, calls[..i]), calls[i]).state
  {
    NextSlice(calls, i);
    OneMoreCall(m, s, calls[..i], calls[i]);
  }

  lemma {:induction false} AfterBetween(m: Machine, s: State, calls: seq<Call>, i: nat, j: nat)
    requires i < j <= |calls|
    ensures After(m, s, calls[..j]) == After(m, m(After(m, s, calls[..i]), calls[i]).state, calls[i + 1..j])
  {
    PrefixOfPrefix(calls, i + 1, j);
    AfterSplit(m, s, calls[..i + 1], calls[i + 1..j]);
    NextAfter(m, s, calls, i);
  }

  lemma {:induction false} AnsweredAgain(k: Setting, s: State, first: Call, calls: seq<Call>, again: Call)
    requires Keyed(s.journal) && Step(k, s, first).reply.Responded?
    requires Step(k, After(Service(k), Step(k, s, first).state, calls), again).reply.Responded?
    ensures first.Authorize? && again.Authorize? && first.event.transactionId != again.event.transactionId
  {
    if first.event.transactionId == again.event.transactionId {
      RetryIsStable(k, s, first.event, first.stamp, first.saveFails, calls, again.event, again.stamp, again.saveFails);
    }
  }

  /** No transaction id is answered afresh twice in a run. */
  lemma {:induction false} AnsweredAtMostOnce(k: Setting, s: State, calls: seq<Call>, i: nat, j: nat)
    requires Keyed(s.journal) && i < j < |calls|
    requires Replies(Service(k), s, calls)[i].Responded? && Replies(Service(k), s, calls)[j].Responded?
    ensures calls[i].Authorize? && calls[j].Authorize? && calls[i].event.transactionId != calls[j].event.transactionId
  {
    ReplyAt(Service(k), s, calls, i);
    ReplyAt(Service(k), s, calls, j);
    var more := JournalOnlyGrows(k, s, calls[..i]);
    AfterBetween(Service(k), s, calls, i, j);
    AnsweredAgain(k, After(Service(k), s, calls[..i]), calls[i], calls[i + 1..j], calls[j]);
  }

  /** Over any calls, restarts and failed saves included, no watermark falls. */
  lemma {:induction false} WatermarkSafety(k: Setting, s: State, calls: seq<Call>, customer: string)
    ensures var before, after := Watermark(s.journal, customer), Watermark(After(Service(k), s, calls).journal, customer);
            before.Some? ==> after.Some? && before.value <= after.value
  {
    var more := JournalOnlyGrows(k, s, calls);
    if Watermark(s.journal, customer).Some? {
      WatermarkNeverFalls(s.journal, more, customer);
    }
  }

  // ----- what a process counted against what it committed -----

  function IsResponded(): Reply -> bool {
    (r: Reply) => r.Responded?
  }

  function IsSaveFailed(): Reply -> bool {
    (r: Reply) => r.SaveFailed?
  }

  predicate NoRestart(calls: seq<Call>) {
    calls == [] || (NoRestart(calls[..|calls| - 1]) && !calls[|calls| - 1].Restart?)
  }

  predicate NoFailedSave(replies: seq<Reply>) {
    replies == [] || (NoFailedSave(replies[..|replies| - 1]) && !replies[|replies| - 1].SaveFailed?)
  }

  /** Payments counted, rows added, and failed saves, after one more call. */
  lemma MovesCount(s: State, call: Call, t: Stepped)
    requires Moves(s, call, t) && !call.Restart?
    ensures |t.state.log| == |s.log| + (if t.reply.Responded? || t.reply.SaveFailed? then 1 else 0)
    ensures |t.state.journal| == |s.journal| + (if t.reply.Responded? then 1 else 0)
  {
  }

  lemma {:induction false} FailuresCounted(replies: seq<Reply>)
    ensures NoFailedSave(replies) <==> D.CountWhere(replies, IsSaveFailed()) == 0
  {
    if replies != [] {
      FailuresCounted(replies[..|replies| - 1]);
    }
  }

  lemma {:induction false} RunCounts(k: Setting, s: State, calls: seq<Call>)
    requires NoRestart(calls)
    ensures var replies, t := Replies(Service(k), s, calls), After(Service(k), s, calls);
            && |t.log| == |s.log| + D.CountWhere(replies, IsResponded()) + D.CountWhere(replies, IsSaveFailed())
            && |t.journal| == |s.journal| + D.CountWhere(replies, IsResponded())
  {
    if calls != [] {
      var before, last := calls[..|calls| - 1], calls[|calls| - 1];
      RunCounts(k, s, before);
      var t, replies := Step(k, After(Service(k), s, before), last), Replies(Service(k), s, before);
      StepMoves(k, After(Service(k), s, before), last);
      MovesCount(After(Service(k), s, before), last, t);
      CountOneMore(replies, t.reply, IsResponded());
      CountOneMore(replies, t.reply, IsSaveFailed());
    }
  }

  lemma {:induction false} CountOneMore(replies: seq<Reply>, r: Reply, p: Reply -> bool)
    ensures D.CountWhere(replies + [r], p) == D.CountWhere(replies, p) + if p(r) then 1 else 0
  {
    assert (replies + [r])[..|replies|] == replies;
  }

  /** Within a process, payments counted are responses given plus saves that failed, and rows added
      are responses given: the two agree exactly when no save failed. */
  lemma {:induction false} CountsAddUp(k: Setting, s: State, calls: seq<Call>)
    requires NoRestart(calls)
    ensures var replies, t := Replies(Service(k), s, calls), After(Service(k), s, calls);
            && |t.journal| - |s.journal| == D.CountWhere(replies, IsResponded())
            && |t.log| - |s.log| == |t.journal| - |s.journal| + D.CountWhere(replies, IsSaveFailed())
            && (|t.log| - |s.log| == |t.journal| - |s.journal| <==> NoFailedSave(replies))
  {
    RunCounts(k, s, calls);
    FailuresCounted(Replies(Service(k), s, calls));
  }

  /** Memory runs ahead of the journal when a save fails, and the retry counts the payment again:
      two counts for one row. */
  lemma FailedSaveCountsTwice(k: Setting, s: State, e: AuthorizationRequest, stamp: Stamp, retry: Stamp)
    requires AuthorizeStep(k, s, e, stamp, true).reply.SaveFailed?
    ensures var failed := AuthorizeStep(k, s, e, stamp, true).state;
            var again := AuthorizeStep(k, failed, e, retry, false);
            && failed.journal == s.journal
            && again.reply.Responded? && again.state.log == s.log + [e] + [e] && |again.state.journal| == |s.journal| + 1
            && again.reply.response.basis == Basis(k, s.log + [e], e)
  {
    var failed := State(s.journal, s.log + [e], s.assumptions, s.thresholds);
    PastTheGates(k, s, e, stamp, true, Respond(k, s.thresholds, Basis(k, s.log, e), e, stamp));
    assert s.journal + [] == s.journal;
    PastGrows(s.log, e, e.customerId);
    PastTheGates(k, failed, e, retry, false, Respond(k, s.thresholds, Basis(k, s.log + [e], e), e, retry));
  }

  // ----- memory against watermarks -----

  /** Everything counted in memory is committed. */
  ghost predicate Backed(s: State) {
    forall e | e in s.log :: exists entry | entry in s.journal :: entry.event == e
  }

  lemma MovesBacked(s: State, call: Call, t: Stepped)
    requires Backed(s) && Moves(s, call, t) && !t.reply.SaveFailed?
    ensures Backed(t.state)
  {
    forall e | e in t.state.log
      ensures exists entry | entry in t.state.journal :: entry.event == e
    {
      if t.reply.Responded? && e == call.event {
        assert t.state.journal[|s.journal|].event == e;
      } else {
        var entry :| entry in s.journal && entry.event == e;
        assert entry in t.state.journal;
      }
    }
  }

  lemma {:induction false} RunBacked(k: Setting, s: State, calls: seq<Call>)
    requires Backed(s) && NoFailedSave(Replies(Service(k), s, calls))
    ensures Backed(After(Service(k), s, calls))
  {
    if calls != [] {
      var before := calls[..|calls| - 1];
      assert Replies(Service(k), s, calls)[..|before|] == Replies(Service(k), s, before);
      RunBacked(k, s, before);
      StepMoves(k, After(Service(k), s, before), calls[|before|]);
      MovesBacked(After(Service(k), s, before), calls[|before|], Step(k, After(Service(k), s, before), calls[|before|]));
    }
  }

  lemma {:induction false} PastAmong(log: seq<PaymentEvent>, customer: string, e: PaymentEvent)
    requires e in Past(log, customer)
    ensures e in log && e.customerId == customer
  {
    if e !in Past(log[..|log| - 1], customer) {
    } else {
      PastAmong(log[..|log| - 1], customer, e);
    }
  }

  /** Without failed saves, over any calls and restarts, the last time a process remembers for a
      customer is never past the customer's watermark. */
  lemma {:induction false} MemoryBehindWatermark(k: Setting, s: State, calls: seq<Call>, customer: string)
    requires s.log == [] && NoFailedSave(Replies(Service(k), s, calls))
    ensures var t := After(Service(k), s, calls);
            var last, mark := LastTime(Past(t.log, customer)), Watermark(t.journal, customer);
            last.Some? ==> mark.Some? && last.value <= mark.value
  {
    RunBacked(k, s, calls);
    var t := After(Service(k), s, calls);
    var past := Past(t.log, customer);
    if past != [] {
      PastAmong(t.log, customer, past[|past| - 1]);
      var entry :| entry in t.journal && entry.event == past[|past| - 1];
      WatermarkIsMax(t.journal, customer);
    }
  }

  /** The remembered time is the watermark. */
  ghost predicate InStepAt(log: seq<PaymentEvent>, journal: seq<Entry>, customer: string) {
    var last, mark := LastTime(Past(log, customer)), Watermark(journal, customer);
    if mark.Some? then last == Some(mark.value) else last == None
  }

  ghost predicate InStep(s: State) {
    forall c {:trigger InStepAt(s.log, s.journal, c)} :: InStepAt(s.log, s.journal, c)
  }

  lemma {:induction false} CommitInStep(log: seq<PaymentEvent>, journal: seq<Entry>, entry: Entry, customer: string)
    requires InStepAt(log, journal, customer) && !Regresses(Past(log, entry.event.customerId), entry.event)
    ensures InStepAt(log + [entry.event], journal + [entry], customer)
  {
    PastGrows(log, entry.event, customer);
    JournalGrows(journal, entry, "", customer);
  }

  lemma MovesInStep(s: State, call: Call, t: Stepped)
    requires InStep(s) && Moves(s, call, t) && !call.Restart? && !t.reply.SaveFailed?
    ensures InStep(t.state)
  {
    forall c
      ensures InStepAt(t.state.log, t.state.journal, c)
    {
      assert InStepAt(s.log, s.journal, c);
      if t.reply.Responded? {
        CommitInStep(s.log, s.journal, Entry(call.event, t.reply.response), c);
      }
    }
  }

  /** A process that started on an empty journal and has not failed a save remembers exactly the
      watermark of every customer. */
  lemma {:induction false} MemoryIsWatermark(k: Setting, s: State, calls: seq<Call>)
    requires s.log == [] && s.journal == [] && NoRestart(calls) && NoFailedSave(Replies(Service(k), s, calls))
    ensures InStep(After(Service(k), s, calls))
  {
    if calls == [] {
      forall c
        ensures InStepAt(s.log, s.journal, c)
      {
      }
    } else {
      var before := calls[..|calls| - 1];
      assert Replies(Service(k), s, calls)[..|before|] == Replies(Service(k), s, before);
      MemoryIsWatermark(k, s, before);
      StepMoves(k, After(Service(k), s, before), calls[|before|]);
      MovesInStep(After(Service(k), s, before), calls[|before|], Step(k, After(Service(k), s, before), calls[|before|]));
    }
  }

  /** The remembered time is at most the allowed lateness behind the watermark. */
  ghost predicate NearAt(log: seq<PaymentEvent>, journal: seq<Entry>, allowedLateness: int, customer: string) {
    var last, mark := LastTime(Past(log, customer)), Watermark(journal, customer);
    last.Some? && mark.Some? ==> last.value >= mark.value - allowedLateness
  }

  ghost predicate Near(s: State, allowedLateness: int) {
    forall c {:trigger NearAt(s.log, s.journal, allowedLateness, c)} :: NearAt(s.log, s.journal, allowedLateness, c)
  }

  lemma {:induction false} CountNear(log: seq<PaymentEvent>, journal: seq<Entry>, allowedLateness: int, e: PaymentEvent, customer: string)
    requires NearAt(log, journal, allowedLateness, customer) && !Late(journal, allowedLateness, e)
    ensures NearAt(log + [e], journal, allowedLateness, customer)
  {
    PastGrows(log, e, customer);
  }

  lemma {:induction false} CommitNear(log: seq<PaymentEvent>, journal: seq<Entry>, allowedLateness: int, entry: Entry, customer: string)
    requires NearAt(log, journal, allowedLateness, customer) && !Late(journal, allowedLateness, entry.event) && allowedLateness >= 0
    ensures NearAt(log + [entry.event], journal + [entry], allowedLateness, customer)
  {
    PastGrows(log, entry.event, customer);
    JournalGrows(journal, entry, "", customer);
  }

  /** A payment that was counted had passed the first two gates. */
  lemma {:induction false} CountedIsNotLate(k: Setting, s: State, call: Call)
    requires Step(k, s, call).reply.Responded? || Step(k, s, call).reply.SaveFailed?
    ensures call.Authorize? && !Late(s.journal, k.allowedLateness, call.event)
  {
  }

  lemma {:induction false} MovesNear(s: State, call: Call, t: Stepped, allowedLateness: int)
    requires Near(s, allowedLateness) && allowedLateness >= 0 && Moves(s, call, t)
    requires t.reply.Responded? || t.reply.SaveFailed? ==> !Late(s.journal, allowedLateness, call.event)
    ensures Near(t.state, allowedLateness)
  {
    forall c
      ensures NearAt(t.state.log, t.state.journal, allowedLateness, c)
    {
      assert NearAt(s.log, s.journal, allowedLateness, c);
      if t.reply.Responded? {
        CommitNear(s.log, s.journal, allowedLateness, Entry(call.event, t.reply.response), c);
      } else if t.reply.SaveFailed? {
        CountNear(s.log, s.journal, allowedLateness, call.event, c);
      }
    }
  }

  /** Over every run, restarts and failed saves included, what a process remembers of a customer
      is at most the allowed lateness behind the customer's watermark. */
  lemma {:induction false} MemoryNearWatermark(k: Setting, s: State, calls: seq<Call>)
    requires s.log == [] && k.allowedLateness >= 0
    ensures Near(After(Service(k), s, calls), k.allowedLateness)
  {
    if calls == [] {
      forall c
        ensures NearAt(s.log, s.journal, k.allowedLateness, c)
      {
      }
    } else {
      var before, call := After(Service(k), s, calls[..|calls| - 1]), calls[|calls| - 1];
      MemoryNearWatermark(k, s, calls[..|calls| - 1]);
      StepMoves(k, before, call);
      var t := Step(k, before, call);
      if t.reply.Responded? || t.reply.SaveFailed? {
        CountedIsNotLate(k, before, call);
      }
      MovesNear(before, call, t, k.allowedLateness);
    }
  }

  /** The acceptance rule of the three gates, over every run: a new payment is taken exactly when
      it is not before the last one counted for its customer or, when none was counted since the
      process started, not later than the allowed lateness behind the watermark. */
  lemma {:induction false} AcceptanceRule(k: Setting, s: State, calls: seq<Call>, e: AuthorizationRequest, stamp: Stamp, fails: bool)
    requires s.log == [] && k.allowedLateness >= 0 && Find(After(Service(k), s, calls).journal, e.transactionId).None?
    ensures var t := After(Service(k), s, calls);
            var last, mark := LastTime(Past(t.log, e.customerId)), Watermark(t.journal, e.customerId);
            var reply := AuthorizeStep(k, t, e, stamp, fails).reply;
            && (reply.Responded? || reply.SaveFailed? <==>
                if last.Some? then e.At() >= last.value else mark.Some? ==> e.At() >= mark.value - k.allowedLateness)
            && (reply.LateRejected? <==> mark.Some? && e.At() < mark.value - k.allowedLateness)
            && (reply.OrderRejected? <==> last.Some? && e.At() < last.value && (mark.Some? ==> e.At() >= mark.value - k.allowedLateness))
  {
    MemoryNearWatermark(k, s, calls);
    var t := After(Service(k), s, calls);
    assert NearAt(t.log, t.journal, k.allowedLateness, e.customerId);
  }

  /** Inside one process without failed saves the allowed lateness buys nothing: a new payment is
      taken exactly when it is not before its customer's watermark. */
  lemma {:induction false} NoToleranceInProcess(k: Setting, s: State, calls: seq<Call>, e: AuthorizationRequest, stamp: Stamp, fails: bool)
    requires s.log == [] && s.journal == [] && NoRestart(calls) && NoFailedSave(Replies(Service(k), s, calls)) && k.allowedLateness >= 0
    requires Find(After(Service(k), s, calls).journal, e.transactionId).None?
    ensures var t := After(Service(k), s, calls);
            var mark, reply := Watermark(t.journal, e.customerId), AuthorizeStep(k, t, e, stamp, fails).reply;
            && (reply.Responded? || reply.SaveFailed? <==> mark.None? || e.At() >= mark.value)
            && (reply.OrderRejected? <==> mark.Some? && mark.value - k.allowedLateness <= e.At() < mark.value)
            && (reply.LateRejected? <==> mark.Some? && e.At() < mark.value - k.allowedLateness)
  {
    MemoryIsWatermark(k, s, calls);
    var t := After(Service(k), s, calls);
    assert InStepAt(t.log, t.journal, e.customerId);
  }

  /** After a restart the tolerance is real: a customer's first payment may be that far behind. */
  lemma ToleranceAfterRestart(k: Setting, s: State, e: AuthorizationRequest, stamp: Stamp, fails: bool)
    requires Past(s.log, e.customerId) == [] && Find(s.journal, e.transactionId).None?
    ensures var mark, reply := Watermark(s.journal, e.customerId), AuthorizeStep(k, s, e, stamp, fails).reply;
            reply.Responded? || reply.SaveFailed? <==> mark.None? || e.At() >= mark.value - k.allowedLateness
  {
  }

  /** And it outlives that first payment: a customer already counted, with a payment three minutes
      behind the watermark, still gets one two minutes behind it accepted. */
  lemma {:induction false} CountedCustomerKeepsTolerance(k: Setting, s: State, e: AuthorizationRequest, f: AuthorizationRequest, stamp: Stamp)
    requires s.log == [] && k.allowedLateness == 5 * MINUTE && e.customerId == f.customerId && e.transactionId != f.transactionId
    requires Find(s.journal, e.transactionId).None? && Find(s.journal, f.transactionId).None?
    requires var mark := Watermark(s.journal, e.customerId);
             mark.Some? && e.At() == mark.value - 3 * MINUTE && f.At() == mark.value - 2 * MINUTE
    ensures var first := AuthorizeStep(k, s, e, stamp, false);
            && first.reply.Responded? && Watermark(first.state.journal, f.customerId) == Watermark(s.journal, f.customerId)
            && AuthorizeStep(k, first.state, f, stamp, false).reply.Responded?
  {
    var response := Respond(k, s.thresholds, Basis(k, s.log, e), e, stamp);
    var next := State(s.journal + [Entry(e, response)], s.log + [e], s.assumptions, s.thresholds);
    PastTheGates(k, s, e, stamp, false, response);
    JournalGrows(s.journal, Entry(e, response), f.transactionId, f.customerId);
    PastGrows(s.log, e, f.customerId);
    PastTheGates(k, next, f, stamp, false, Respond(k, next.thresholds, Basis(k, next.log, f), f, stamp));
  }

  // ----- costs -----

  /** Sending the same assumptions again changes nothing, and reports the same thresholds. */
  lemma UpdateCostsIdempotent(k: Setting, s: State, a: D.CostAssumptions)
    ensures var once := UpdateCostsStep(k, s, a);
            var twice := UpdateCostsStep(k, once.state, a);
            && twice.state == once.state
            && (once.reply.CostsUpdated? ==> twice.reply == CostsUpdated(once.reply.thresholds, once.reply.thresholds))
            && (once.reply.CostsFailed? ==> twice.reply == once.reply)
  {
    if Reoptimized(k, a, s.thresholds).Done? {
      D.SearchAgain(ValidationScores(k), ValidationLabels(k), ValidationAmounts(k), a, s.thresholds, GRID_SIZE);
    }
  }

  /** A cost change sets the assumptions, reports the thresholds it found in force and those it put
      in force, and touches nothing else; a failed one leaves the thresholds. The search runs on
      the champion's scores of the validation records. */
  lemma {:induction false} CostsMean(k: Setting, s: State, a: D.CostAssumptions, scores: seq<real>, labels: seq<int>, amounts: seq<real>)
    requires |scores| == |labels| == |amounts| == |k.validation|
    requires forall i | 0 <= i < |scores| :: scores[i] == k.champion(k.validation[i].features)
    requires forall i | 0 <= i < |scores| :: labels[i] == k.validation[i].fraudLabel && amounts[i] == k.validation[i].event.amount
    ensures var t := UpdateCostsStep(k, s, a);
            && t.state.assumptions == a && t.state.journal == s.journal && t.state.log == s.log
            && (t.reply.CostsFailed? <==> k.validation == [])
            && (t.reply.CostsFailed? ==> t.state.thresholds == s.thresholds)
            && (k.validation != [] ==>
                && t.reply == CostsUpdated(s.thresholds, t.state.thresholds)
                && D.RightChoice(t.state.thresholds, s.thresholds, scores, a.maxReviewRate, 41, D.CostOf(D.Zip(scores, labels, amounts), a)))
  {
    assert scores == ValidationScores(k) && labels == ValidationLabels(k) && amounts == ValidationAmounts(k);
    D.SearchFails(scores, labels, amounts, a, s.thresholds, GRID_SIZE);
    if k.validation != [] {
      D.SearchChoosesRight(scores, labels, amounts, a, s.thresholds, GRID_SIZE);
    }
  }

  // ----- the challenger has no say -----

  function Unshadowed(r: AuthorizationResponse): AuthorizationResponse {
    r.(shadowScore := 0.0, shadowDecision := Approve)
  }

  function UnshadowedReply(r: Reply): Reply {
    match r
    case Cached(response) => Cached(Unshadowed(response))
    case Responded(response) => Responded(Unshadowed(response))
    case _ => r
  }

  function UnshadowedJournal(journal: seq<Entry>): seq<Entry> {
    if journal == [] then [] else
      var last := journal[|journal| - 1];
      UnshadowedJournal(journal[..|journal| - 1]) + [Entry(last.event, Unshadowed(last.response))]
  }

  function UnshadowedState(s: State): State {
    s.(journal := UnshadowedJournal(s.journal))
  }

  function UnshadowedReplies(replies: seq<Reply>): seq<Reply> {
    if replies == [] then [] else UnshadowedReplies(replies[..|replies| - 1]) + [UnshadowedReply(replies[|replies| - 1])]
  }

  lemma {:induction false} ShadowGrows(journal: seq<Entry>, entry: Entry)
    ensures UnshadowedJournal(journal + [entry]) == UnshadowedJournal(journal) + [Entry(entry.event, Unshadowed(entry.response))]
  {
    assert (journal + [entry])[..|journal|] == journal;
  }

  /** The gates do not look at shadows. */
  lemma {:induction false} GatesIgnoreShadows(journal: seq<Entry>, id: string, customer: string)
    ensures Watermark(UnshadowedJournal(journal), customer) == Watermark(journal, customer)
    ensures var found := Find(journal, id);
            Find(UnshadowedJournal(journal), id) ==
            if found.Some? then Some(Entry(found.value.event, Unshadowed(found.value.response))) else None
  {
    if journal != [] {
      var before, last := journal[..|journal| - 1], journal[|journal| - 1];
      GatesIgnoreShadows(before, id, customer);
      JournalGrows(UnshadowedJournal(before), Entry(last.event, Unshadowed(last.response)), id, customer);
    }
  }

  function UnshadowedLookup(found: Lookup): Lookup {
    if found.Hit? then Hit(Unshadowed(found.response)) else found
  }

  lemma {:induction false} GatesAgree(a: seq<Entry>, b: seq<Entry>, e: PaymentEvent, allowedLateness: int)
    requires UnshadowedJournal(a) == UnshadowedJournal(b)
    ensures UnshadowedLookup(LookUp(a, e)) == UnshadowedLookup(LookUp(b, e))
    ensures Late(a, allowedLateness, e) == Late(b, allowedLateness, e)
  {
    GatesIgnoreShadows(a, e.transactionId, e.customerId);
    GatesIgnoreShadows(b, e.transactionId, e.customerId);
  }

  lemma {:induction false} AnswersAgree(k: Setting, other: Features -> real, thresholds: D.Cutoffs, basis: Features, e: PaymentEvent, stamp: Stamp)
    ensures Unshadowed(Respond(k, thresholds, basis, e, stamp)) == Unshadowed(Respond(k.(challenger := other), thresholds, basis, e, stamp))
  {
  }

  /** Two answers alike but for their shadows, written after journals alike but for theirs. */
  lemma {:induction false} EntriesAlike(a: seq<Entry>, b: seq<Entry>, e: AuthorizationRequest,
                                        r: AuthorizationResponse, q: AuthorizationResponse, saveFails: bool)
    requires UnshadowedJournal(a) == UnshadowedJournal(b) && Unshadowed(r) == Unshadowed(q)
    ensures UnshadowedJournal(a + if saveFails then [] else [Entry(e, r)]) == UnshadowedJournal(b + if saveFails then [] else [Entry(e, q)])
  {
    if saveFails {
      assert a + [] == a && b + [] == b;
    } else {
      ShadowGrows(a, Entry(e, r));
      ShadowGrows(b, Entry(e, q));
    }
  }

  lemma {:induction false} TakenAlike(k: Setting, other: Features -> real, s: State, t: State,
                                      e: AuthorizationRequest, stamp: Stamp, saveFails: bool, basis: Features)
    requires UnshadowedState(s) == UnshadowedState(t) && GatesPassed(k, s, e) && GatesPassed(k, t, e) && basis == Basis(k, s.log, e)
    ensures var x, y := AuthorizeStep(k, s, e, stamp, saveFails), AuthorizeStep(k.(challenger := other), t, e, stamp, saveFails);
            UnshadowedState(x.state) == UnshadowedState(y.state) && UnshadowedReply(x.reply) == UnshadowedReply(y.reply)
  {
    var l := k.(challenger := other);
    var r, q := Respond(k, s.thresholds, basis, e, stamp), Respond(l, t.thresholds, basis, e, stamp);
    AnswersAgree(k, other, s.thresholds, basis, e, stamp);
    PastTheGates(k, s, e, stamp, saveFails, r);
    assert basis == Basis(l, t.log, e);
    PastTheGates(l, t, e, stamp, saveFails, q);
    OutcomesAlike(s, t, e, r, q, saveFails, AuthorizeStep(k, s, e, stamp, saveFails), AuthorizeStep(l, t, e, stamp, saveFails));
  }

  lemma {:induction false} OutcomesAlike(s: State, t: State, e: AuthorizationRequest, r: AuthorizationResponse, q: AuthorizationResponse,
                                         saveFails: bool, x: Stepped, y: Stepped)
    requires UnshadowedState(s) == UnshadowedState(t) && Unshadowed(r) == Unshadowed(q)
    requires x == Stepped(State(s.journal + if saveFails then [] else [Entry(e, r)], s.log + [e], s.assumptions, s.thresholds),
                          if saveFails then SaveFailed else Responded(r))
    requires y == Stepped(State(t.journal + if saveFails then [] else [Entry(e, q)], t.log + [e], t.assumptions, t.thresholds),
                          if saveFails then SaveFailed else Responded(q))
    ensures UnshadowedState(x.state) == UnshadowedState(y.state) && UnshadowedReply(x.reply) == UnshadowedReply(y.reply)
  {
    EntriesAlike(s.journal, t.journal, e, r, q, saveFails);
  }

  lemma {:induction false} AuthorizeIgnoresChallenger(k: Setting, other: Features -> real, s: State, t: State,
                                                      e: AuthorizationRequest, stamp: Stamp, saveFails: bool)
    requires UnshadowedState(s) == UnshadowedState(t)
    ensures var x, y := AuthorizeStep(k, s, e, stamp, saveFails), AuthorizeStep(k.(challenger := other), t, e, stamp, saveFails);
            UnshadowedState(x.state) == UnshadowedState(y.state) && UnshadowedReply(x.reply) == UnshadowedReply(y.reply)
  {
    GatesAgree(s.journal, t.journal, e, k.allowedLateness);
    if GatesPassed(k, s, e) {
      TakenAlike(k, other, s, t, e, stamp, saveFails, Basis(k, s.log, e));
    } else {
      Refused(k, s, e, stamp, saveFails);
      Refused(k.(challenger := other), t, e, stamp, saveFails);
    }
  }

  lemma {:induction false} StepIgnoresChallenger(k: Setting, other: Features -> real, s: State, t: State, call: Call)
    requires UnshadowedState(s) == UnshadowedState(t)
    ensures var x, y := Step(k, s, call), Step(k.(challenger := other), t, call);
            UnshadowedState(x.state) == UnshadowedState(y.state) && UnshadowedReply(x.reply) == UnshadowedReply(y.reply)
  {
    match call
    case Authorize(e, stamp, saveFails) => AuthorizeIgnoresChallenger(k, other, s, t, e, stamp, saveFails);
    case UpdateCosts(a) =>
      var l := k.(challenger := other);
      assert ValidationScores(k) == ValidationScores(l) && ValidationLabels(k) == ValidationLabels(l) && ValidationAmounts(k) == ValidationAmounts(l);
    case Restart(a, d) =>
  }

  /** Replacing the challenger changes nothing in any run but the shadow fields: not a decision, not
      a refusal, not a threshold, not a row. */
  lemma {:induction false} ChallengerHasNoSay(k: Setting, other: Features -> real, s: State, calls: seq<Call>)
    ensures var l := k.(challenger := other);
            && UnshadowedState(After(Service(k), s, calls)) == UnshadowedState(After(Service(l), s, calls))
            && UnshadowedReplies(Replies(Service(k), s, calls)) == UnshadowedReplies(Replies(Service(l), s, calls))
  {
    if calls != [] {
      var before, last := calls[..|calls| - 1], calls[|calls| - 1];
      ChallengerHasNoSay(k, other, s, before);
      StepIgnoresChallenger(k, other, After(Service(k), s, before), After(Service(k.(challenger := other)), s, before), last);
    }
  }

  // ----- training and serving -----

  /** A stream of payments sent one by one, no save failing. */
  ghost predicate Sends(calls: seq<Call>, stream: seq<AuthorizationRequest>) {
    |calls| == |stream| && forall i | 0 <= i < |calls| :: calls[i].Authorize? && calls[i].event == stream[i] && !calls[i].saveFails
  }

  predicate DistinctIds(stream: seq<AuthorizationRequest>) {
    forall i, j | 0 <= i < j < |stream| :: stream[i].transactionId != stream[j].transactionId
  }

  /** After the first `i` payments everything sent is counted and committed, in order. */
  ghost predicate Serving(t: State, stream: seq<AuthorizationRequest>, i: nat)
    requires i <= |stream|
  {
    && t.log == stream[..i] && |t.journal| == i && InStep(t)
    && (forall j | 0 <= j < i :: t.journal[j].event == stream[j])
  }

  lemma {:induction false} FindByIndex(journal: seq<Entry>, id: string)
    requires forall j | 0 <= j < |journal| :: journal[j].event.transactionId != id
    ensures Find(journal, id) == None
  {
  }

  lemma Bare(stream: seq<AuthorizationRequest>, i: nat)
    requires i <= |stream|
    ensures Unlabel(stream[..i]) == stream[..i]
  {
  }

  /** The next payment of an ordered stream passes all three gates. */
  lemma {:induction false} GatesOpen(k: Setting, t: State, stream: seq<AuthorizationRequest>, i: nat)
    requires i < |stream| && Ordered(stream) && DistinctIds(stream) && Serving(t, stream, i) && k.allowedLateness >= 0
    ensures Find(t.journal, stream[i].transactionId).None?
    ensures !Late(t.journal, k.allowedLateness, stream[i]) && !Regresses(Past(t.log, stream[i].customerId), stream[i])
  {
    FindByIndex(t.journal, stream[i].transactionId);
    LastBefore(stream, i, i);
    Bare(stream, i);
    assert InStepAt(t.log, t.journal, stream[i].customerId);
  }

  lemma {:induction false} CommitServes(t: State, next: State, stream: seq<AuthorizationRequest>, i: nat, response: AuthorizationResponse)
    requires i < |stream| && Serving(t, stream, i) && !Regresses(Past(t.log, stream[i].customerId), stream[i])
    requires next.log == t.log + [stream[i]] && next.journal == t.journal + [Entry(stream[i], response)]
    ensures Serving(next, stream, i + 1)
  {
    forall c
      ensures InStepAt(next.log, next.journal, c)
    {
      assert InStepAt(t.log, t.journal, c);
      CommitInStep(t.log, t.journal, Entry(stream[i], response), c);
    }
    NextSlice(stream, i);
  }

  lemma {:induction false} NextIsTaken(k: Setting, t: State, stream: seq<AuthorizationRequest>, i: nat, stamp: Stamp)
    requires i < |stream| && Ordered(stream) && DistinctIds(stream) && Serving(t, stream, i) && k.allowedLateness >= 0
    ensures AuthorizeStep(k, t, stream[i], stamp, false) == Accept(k, t, stream[i], stamp, false)
    ensures Serving(Accept(k, t, stream[i], stamp, false).state, stream, i + 1)
  {
    GatesOpen(k, t, stream, i);
    var next := Accept(k, t, stream[i], stamp, false);
    CommitServes(t, next.state, stream, i, next.reply.response);
  }

  lemma {:induction false} StreamIsServed(k: Setting, s: State, calls: seq<Call>, stream: seq<AuthorizationRequest>, i: nat)
    requires s.log == [] && s.journal == [] && k.allowedLateness >= 0
    requires Sends(calls, stream) && Ordered(stream) && DistinctIds(stream) && i <= |stream|
    ensures Serving(After(Service(k), s, calls[..i]), stream, i)
  {
    if i == 0 {
      forall c
        ensures InStepAt(s.log, s.journal, c)
      {
      }
    } else {
      StreamIsServed(k, s, calls, stream, i - 1);
      NextIsTaken(k, After(Service(k), s, calls[..i - 1]), stream, i - 1, calls[i - 1].stamp);
      NextAfter(Service(k), s, calls, i - 1);
    }
  }

  /** No label of `offline` is known by the time its event `i` is scored: there are no labels, or
      the confirmation delay is beyond the span of the stream. */
  predicate NothingConfirmed(offline: seq<PaymentEvent>, i: nat, delay: int)
    requires i < |offline|
  {
    forall j | 0 <= j < i && offline[j].Fraud() :: offline[i].At() - offline[j].At() < delay
  }

  lemma {:induction false} NothingDue(prior: seq<PaymentEvent>, now: int, delay: int)
    requires forall j | 0 <= j < |prior| && prior[j].Fraud() :: now - prior[j].At() < delay
    ensures Due(prior, now, delay) == []
  {
    if prior != [] {
      var k := |prior| - 1;
      NothingDue(prior[..k], now, delay);
      var fs := Frauds(prior[..k]);
      if prior[k].Fraud() {
        assert (fs + [prior[k]])[..|fs|] == fs;
      } else {
        assert fs + [] == fs;
      }
    }
  }

  /** The record of event `i`, when no label is known by then, sees only the bare facts before it. */
  lemma {:induction false} RecordWithoutLabels<F>(offline: seq<PaymentEvent>, i: nat, delay: int, f: Extractor<F>)
    requires i < |offline| && NothingConfirmed(offline, i, delay)
    ensures Records(offline, delay, f)[i].features == f(Unlabel(offline)[..i], [], Unlabel(offline)[i])
  {
    ScanAt(offline, Recorder(delay, f), i);
    UnlabelPrefix(offline, i);
    NothingDue(offline[..i], offline[i].At(), delay);
    assert Unlabel(Due(offline[..i], offline[i].At(), delay)) == [];
  }

  lemma {:induction false} StreamReply(k: Setting, s: State, calls: seq<Call>, stream: seq<AuthorizationRequest>, i: nat)
    requires s.log == [] && s.journal == [] && k.allowedLateness >= 0
    requires Sends(calls, stream) && Ordered(stream) && DistinctIds(stream) && i < |stream|
    ensures var reply := Replies(Service(k), s, calls)[i];
            reply.Responded? && reply.response.basis == Basis(k, stream[..i], stream[i])
  {
    ReplyAt(Service(k), s, calls, i);
    StreamIsServed(k, s, calls, stream, i);
    NextIsTaken(k, After(Service(k), s, calls[..i]), stream, i, calls[i].stamp);
  }

  /** Training/serving parity. Sending an ordered stream with distinct ids to a fresh service is
      never refused, and shows the model exactly what offline replay of the same payments, in any
      list order, records when no label is known in time. */
  lemma {:induction false} TrainingServingParity(k: Setting, s: State, calls: seq<Call>, stream: seq<AuthorizationRequest>,
                              offline: seq<PaymentEvent>, delay: int, i: nat)
    requires s.log == [] && s.journal == [] && k.allowedLateness >= 0
    requires Sends(calls, stream) && Ordered(stream) && DistinctIds(stream) && i < |stream|
    requires Unlabel(Sort(offline)) == stream && NothingConfirmed(Sort(offline), i, delay)
    ensures Replies(Service(k), s, calls)[i].Responded?
    ensures Replies(Service(k), s, calls)[i].response.basis == Replay(offline, delay, EngineFeatures(k.distance, k.sizeSignal))[i].features
  {
    StreamReply(k, s, calls, stream, i);
    RecordWithoutLabels(Sort(offline), i, delay, EngineFeatures(k.distance, k.sizeSignal));
  }
}
