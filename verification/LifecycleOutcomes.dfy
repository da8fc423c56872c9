/** Each command of the return and approval services by itself: exactly when it is accepted, and everything that is
    different afterwards. */
module LifecycleOutcomes {
  import opened Util
  import opened Text
  import opened ReturnLifecycle
  import opened LifecycleLaws
  import Aggregation = ReturnAggregation
  import ReturnMeanings

  /** The same elements but for one place. */
  ghost predicate SameBut<T>(after: seq<T>, before: seq<T>, k: nat) {
    |after| == |before| && forall i :: 0 <= i < |before| && i != k ==> after[i] == before[i]
  }

  // ---------------------------------------------------------------- figures

  /** A return stores the figures of the period's invoices: for GSTR-1 the number, value and tax of the sales, for GSTR-3B
      the number of all invoices, the outward value and the tax that is due. */
  ghost predicate AreFigures(f: Figures, returnType: ReturnType, period: string, invoices: seq<Aggregation.ReturnInvoice>) {
    match f.summary
    case SummaryOfGstr1(s) =>
      && returnType == Gstr1 && ReturnMeanings.IsGstr1(s, period, invoices)
      && f.invoiceCount == |Filter(invoices, Aggregation.Sold())|
      && f.totalTaxableValue == s.totals.taxableValue
      && f.totalTax == s.totals.cgst + s.totals.sgst + s.totals.igst + s.totals.cess
    case SummaryOfGstr3b(s) =>
      && returnType == Gstr3b && Aggregation.IsGstr3b(s, period, invoices)
      && f.invoiceCount == |invoices|
      && f.totalTaxableValue == s.outward.taxableValue
      && f.totalTax == s.netCgst + s.netSgst + s.netIgst + s.netCess
  }

  lemma FiguresMean(returnType: ReturnType, period: string, invoices: seq<Aggregation.ReturnInvoice>)
    ensures AreFigures(FiguresOf(returnType, period, invoices), returnType, period, invoices)
  {
    match returnType
    case Gstr1 =>
      ReturnMeanings.Gstr1Means(period, invoices);
      Aggregation.DirectionsMean(invoices);
    case Gstr3b =>
      Aggregation.Gstr3bMeans(period, invoices);
  }

  // --------------------------------------------------------------- generate

  /** A year and a month: four digits, a hyphen and one of the twelve two-digit months. */
  predicate IsMonth(period: string) {
    |period| == 7 && (forall i :: 0 <= i < 4 ==> '0' <= period[i] <= '9') && period[4] == '-' && IsMonthNumber(period[5], period[6])
  }

  /** 01 to 12. */
  predicate IsMonthNumber(tens: char, ones: char) {
    (tens == '0' && '1' <= ones <= '9') || (tens == '1' && '0' <= ones <= '2')
  }

  /** The form of the period that the service asks for is that of the months. */
  lemma ValidPeriodIsMonth(period: string)
    ensures ValidPeriod(period) <==> IsMonth(period)
  {
    if |period| == 7 {
      MonthNumber(period[5], period[6]);
    }
  }

  lemma MonthNumber(tens: char, ones: char)
    ensures IsDigit(tens) && IsDigit(ones) && 1 <= 10 * (tens as int - 48) + (ones as int - 48) <= 12 <==> IsMonthNumber(tens, ones)
  {
  }

  ghost predicate MayGenerate(s: Store, returnType: ReturnType, period: string) {
    && IsMonth(period)
    && forall i :: 0 <= i < |s.filings| && s.filings[i].returnType == returnType && s.filings[i].period == period ==>
         s.filings[i].status != Approved && s.filings[i].status != FiledExternally
  }

  /** What generating leaves: a return with just these figures that nobody has approved, noted or exported. */
  predicate IsFresh(r: GstReturn, returnType: ReturnType, period: string, figures: Figures, user: int) {
    && r.returnType == returnType && r.period == period && r.status == Generated && r.figures == figures && r.generatedBy == user
    && r.approvedBy == None && r.reviewNotes == None && r.exportStorageKey == None
  }

  /** Generating is refused for a period that is no month and for a return that is approved or filed. Otherwise the return
      of the type and period, in its place or as a new one, is generated afresh, and nothing else changes. */
  lemma GenerateOutcome(s: Store, user: int, returnType: ReturnType, period: string, figures: Figures)
    requires Sound(s)
    ensures var (after, reply) := Step(s, Generate(user, returnType, period, figures));
            && (reply.Ok? <==> MayGenerate(s, returnType, period))
            && (reply.Err? ==> after == s && reply.error == ValidationFailed)
            && (reply.Ok? ==>
                  && after.tasks == s.tasks && reply.value < |after.filings|
                  && IsFresh(after.filings[reply.value], returnType, period, figures, user)
                  && Placed(after.filings, s.filings, reply.value, returnType, period))
  {
    var c := Generate(user, returnType, period, figures);
    ValidPeriodIsMonth(period);
    if ValidPeriod(period) {
      PlaceOutcome(s, NewReturn(c));
    }
  }

  /** The place is that of the return there was, or a new one at the end if there was none. */
  ghost predicate Placed(after: seq<GstReturn>, before: seq<GstReturn>, k: nat, returnType: ReturnType, period: string) {
    if exists i :: 0 <= i < |before| && before[i].returnType == returnType && before[i].period == period
    then k < |before| && before[k].returnType == returnType && before[k].period == period && SameBut(after, before, k)
    else k == |before| && |after| == |before| + 1 && after[..k] == before
  }

  lemma PlaceOutcome(s: Store, g: GstReturn)
    requires Sound(s) && ValidPeriod(g.period)
    ensures var (after, reply) := Place(s, g);
            && (reply.Ok? <==> MayGenerate(s, g.returnType, g.period))
            && (reply.Err? ==> after == s && reply.error == ValidationFailed)
            && (reply.Ok? ==>
                  && after.tasks == s.tasks && reply.value < |after.filings| && after.filings[reply.value] == g
                  && Placed(after.filings, s.filings, reply.value, g.returnType, g.period))
  {
    ValidPeriodIsMonth(g.period);
    var k := Find(s.filings, g.returnType, g.period);
    if k < |s.filings| {
      OnlyOne(s.filings, k, g.returnType, g.period);
    } else {
      assert forall i :: 0 <= i < |s.filings| ==> !IsFor(s.filings[i], g.returnType, g.period);
    }
  }

  lemma OnlyOne(filings: seq<GstReturn>, k: nat, returnType: ReturnType, period: string)
    requires OnePerPeriod(filings) && k < |filings| && filings[k].returnType == returnType && filings[k].period == period
    ensures forall i :: 0 <= i < |filings| && filings[i].returnType == returnType && filings[i].period == period ==> i == k
  {
    forall i | 0 <= i < |filings| && filings[i].returnType == returnType && filings[i].period == period ensures i == k {
      if i < k {
        assert IsFor(filings[k], filings[i].returnType, filings[i].period);
      } else if k < i {
        assert IsFor(filings[i], filings[k].returnType, filings[k].period);
      }
    }
  }

  // -------------------------------------------------------- submit and export

  /** What a submitted return's task shows and asks. */
  predicate IsReviewTask(t: Task, r: nat, g: GstReturn) {
    && t.kind == ReturnPreparation && t.status == Pending && t.entity == Some(r)
    && t.decidedBy == None && t.decisionNotes == None && t.finalPayload == None
    && t.recommendation == Some(Recommendation(g.returnType, g.period, g.figures.invoiceCount, g.figures.totalTax))
  }

  /** Submitting takes a generated or draft return under review, and adds one task at the end that shows its figures. */
  lemma SubmitOutcome(s: Store, r: nat)
    ensures var (after, reply) := Step(s, Submit(r));
            && (reply.Ok? <==> r < |s.filings| && (s.filings[r].status == Generated || s.filings[r].status == Draft))
            && (reply.Err? ==> after == s && (reply.error == NotFound <==> r >= |s.filings|))
            && (reply.Ok? ==>
                  && SameBut(after.filings, s.filings, r) && after.filings[r] == s.filings[r].(status := UnderReview)
                  && reply.value == |s.tasks| && |after.tasks| == |s.tasks| + 1 && after.tasks[..|s.tasks|] == s.tasks
                  && IsReviewTask(after.tasks[|s.tasks|], r, s.filings[r]))
  {
  }

  /** Any return can be exported: an approved one becomes exported, every other one keeps its status. */
  lemma ExportOutcome(s: Store, r: nat, uploadedAs: Option<string>)
    ensures var (after, reply) := Step(s, Export(r, uploadedAs));
            && (reply == if r < |s.filings| then Ok(r) else Err(NotFound))
            && (reply.Err? ==> after == s)
            && (reply.Ok? ==>
                  && after.tasks == s.tasks && SameBut(after.filings, s.filings, r)
                  && (s.filings[r].status == Approved ==> after.filings[r].status == Exported)
                  && (s.filings[r].status != Approved ==> after.filings[r].status == s.filings[r].status)
                  && (uploadedAs.Some? ==> after.filings[r].exportStorageKey == uploadedAs)
                  && (uploadedAs.None? ==> after.filings[r].exportStorageKey == s.filings[r].exportStorageKey)
                  && SameReport(after.filings[r], s.filings[r])
                  && after.filings[r].approvedBy == s.filings[r].approvedBy && after.filings[r].reviewNotes == s.filings[r].reviewNotes)
  {
  }

  predicate SameReport(a: GstReturn, b: GstReturn) {
    a.returnType == b.returnType && a.period == b.period && a.figures == b.figures && a.generatedBy == b.generatedBy
  }

  // ------------------------------------------------------------------ decide

  predicate MayDecide(s: Store, taskId: nat, decision: string, payload: Option<map<string, string>>) {
    && decision in {"approve", "reject", "modify"}
    && taskId < |s.tasks| && s.tasks[taskId].status == Pending
    && (decision == "modify" ==> payload.Some? && payload.value != map[])
  }

  /** The answer on a task. */
  predicate IsAnswered(t: Task, before: Task, decision: string, user: int, notes: Option<string>, payload: Option<map<string, string>>) {
    && t.kind == before.kind && t.entity == before.entity && t.recommendation == before.recommendation
    && (decision == "approve" ==> t.status == TaskApproved)
    && (decision == "reject" ==> t.status == Rejected)
    && (decision == "modify" ==> t.status == Modified)
    && t.decidedBy == Some(user) && t.decisionNotes == notes && t.finalPayload == payload
  }

  /** The return the answer is about. */
  predicate IsMoved(g: GstReturn, before: GstReturn, decision: string, user: int, notes: Option<string>) {
    && SameReport(g, before) && g.exportStorageKey == before.exportStorageKey && g.reviewNotes == notes
    && (decision == "approve" ==> g.status == Approved && g.approvedBy == Some(user))
    && (decision == "reject" ==> g.status == Generated && g.approvedBy == before.approvedBy)
    && (decision == "modify" ==> g.status == before.status && g.approvedBy == before.approvedBy)
  }

  /** The return that a review task is about, or a position past the last. */
  function Linked(s: Store, t: Task): nat {
    if t.kind == ReturnPreparation && t.entity.Some? && t.entity.value < |s.filings| then t.entity.value else |s.filings|
  }

  /** A decision answers one pending task and moves the return it is about, if there is one; nothing else changes. */
  lemma DecideOutcome(s: Store, user: int, taskId: nat, decision: string, notes: Option<string>, payload: Option<map<string, string>>)
    ensures var (after, reply) := Step(s, Decide(user, taskId, decision, notes, payload));
            && (reply.Ok? <==> MayDecide(s, taskId, decision, payload))
            && (reply.Err? ==> after == s && (reply.error == NotFound <==> decision in {"approve", "reject", "modify"} && taskId >= |s.tasks|))
            && (reply.Ok? ==>
                  && reply.value == taskId && SameBut(after.tasks, s.tasks, taskId)
                  && IsAnswered(after.tasks[taskId], s.tasks[taskId], decision, user, notes, payload)
                  && var r := Linked(s, s.tasks[taskId]);
                     SameBut(after.filings, s.filings, r)
                     && (r < |s.filings| ==> IsMoved(after.filings[r], s.filings[r], decision, user, notes)))
  {
    var c := Decide(user, taskId, decision, notes, payload);
    if MayDecide(s, taskId, decision, payload) {
      var t := s.tasks[taskId];
      assert IsLinked(t, s.filings) <==> Linked(s, t) < |s.filings|;
    }
  }

  /** A task that is opened by hand waits for a decision, and no return changes. */
  lemma CreateOutcome(s: Store, kind: ApprovalType, entity: Option<nat>, recommendation: Option<Recommendation>)
    ensures var (after, reply) := Step(s, Create(kind, entity, recommendation));
            && reply == Ok(|s.tasks|) && after.filings == s.filings
            && |after.tasks| == |s.tasks| + 1 && after.tasks[..|s.tasks|] == s.tasks
            && var t := after.tasks[|s.tasks|];
               t.kind == kind && t.entity == entity && t.recommendation == recommendation && t.status == Pending && t.decidedBy == None
  {
  }
}
