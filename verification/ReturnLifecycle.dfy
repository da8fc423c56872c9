/** A return's way from generation through review to export: backend/app/services/return_service.py and
    approval_service.py over the returns and review tasks of one organisation. Ids are positions. */
module ReturnLifecycle {
  import opened Util
  import opened Text
  import opened ReturnAggregation

  // ------------------------------------------------------------------- data

  datatype ReturnType = Gstr1 | Gstr3b

  datatype ReturnStatus = Draft | Generated | UnderReview | Approved | Exported | FiledExternally

  datatype Summary = SummaryOfGstr1(gstr1: Gstr1Summary) | SummaryOfGstr3b(gstr3b: Gstr3bSummary)

  /** Everything a reviewer signs off. */
  datatype Figures = Figures(invoiceCount: nat, totalTaxableValue: int, totalTax: int, summary: Summary)

  datatype GstReturn = GstReturn(returnType: ReturnType, period: string, status: ReturnStatus, figures: Figures, generatedBy: int,
                                 approvedBy: Option<int>, reviewNotes: Option<string>, exportStorageKey: Option<string>)

  datatype ApprovalType = InvoiceExtraction | ComplianceException | ItcAssessment | ReturnPreparation | GstResearchAnswer | Other

  datatype ApprovalStatus = Pending | TaskApproved | Rejected | Modified

  /** What a task shows the reviewer about a return. */
  datatype Recommendation = Recommendation(returnType: ReturnType, period: string, invoiceCount: nat, totalTax: int)

  /** entity is the return the task's entity id names, if it is an id at all. */
  datatype Task = Task(kind: ApprovalType, status: ApprovalStatus, entity: Option<nat>, recommendation: Option<Recommendation>,
                       decidedBy: Option<int>, decisionNotes: Option<string>, finalPayload: Option<map<string, string>>)

  datatype Store = Store(filings: seq<GstReturn>, tasks: seq<Task>)

  datatype Error = NotFound | ValidationFailed

  datatype Command =
    | Generate(user: int, returnType: ReturnType, period: string, figures: Figures)
    | Submit(returnId: nat)
    | Export(exported: nat, uploadedAs: Option<string>)
    | Create(kind: ApprovalType, entity: Option<nat>, recommendation: Option<Recommendation>)
    | Decide(decider: int, taskId: nat, decision: string, notes: Option<string>, payload: Option<map<string, string>>)

  // --------------------------------------------------------------- generate

  function FiguresOf(returnType: ReturnType, period: string, invoices: seq<ReturnInvoice>): Figures {
    match returnType
    case Gstr1 =>
      var summary := Gstr1Of(period, invoices);
      Figures(|Sales(invoices)|, summary.totals.taxableValue, summary.totals.TotalTax(), SummaryOfGstr1(summary))
    case Gstr3b =>
      var summary := Gstr3bOf(period, invoices);
      Figures(|invoices|, summary.outward.taxableValue, summary.netTotal, SummaryOfGstr3b(summary))
  }

  predicate IsFor(r: GstReturn, returnType: ReturnType, period: string) {
    r.returnType == returnType && r.period == period
  }

  /** The return of a type and period, or the number of returns when there is none. */
  function Find(filings: seq<GstReturn>, returnType: ReturnType, period: string): (k: nat)
    ensures k <= |filings|
    ensures k < |filings| ==> IsFor(filings[k], returnType, period)
    ensures forall i :: 0 <= i < k ==> !IsFor(filings[i], returnType, period)
  {
    if filings == [] then 0
    else if IsFor(filings[0], returnType, period) then 0
    else 1 + Find(filings[1..], returnType, period)
  }

  predicate Locked(r: GstReturn) { r.status == Approved || r.status == FiledExternally }

  function NewReturn(c: Command): GstReturn
    requires c.Generate?
  {
    GstReturn(c.returnType, c.period, Generated, c.figures, c.user, None, None, None)
  }

  function StepGenerate(s: Store, c: Command): (Store, Result<nat, Error>)
    requires c.Generate?
  {
    if ValidPeriod(c.period) then Place(s, NewReturn(c)) else (s, Err(ValidationFailed))
  }

  /** A newly generated return takes the place of the one for its type and period, unless that one is locked. */
  function Place(s: Store, generated: GstReturn): (Store, Result<nat, Error>) {
    var k := Find(s.filings, generated.returnType, generated.period);
    if k == |s.filings| then (s.(filings := s.filings + [generated]), Ok(k))
    else if Locked(s.filings[k]) then (s, Err(ValidationFailed))
    else (s.(filings := s.filings[k := generated]), Ok(k))
  }

  // -------------------------------------------------------- submit and export

  function RecommendationOf(r: GstReturn): Recommendation {
    Recommendation(r.returnType, r.period, r.figures.invoiceCount, r.figures.totalTax)
  }

  function NewTask(kind: ApprovalType, entity: Option<nat>, recommendation: Option<Recommendation>): Task {
    Task(kind, Pending, entity, recommendation, None, None, None)
  }

  function StepSubmit(s: Store, r: nat): (Store, Result<nat, Error>) {
    if r >= |s.filings| then (s, Err(NotFound))
    else if s.filings[r].status != Generated && s.filings[r].status != Draft then (s, Err(ValidationFailed))
    else
      (Store(s.filings[r := s.filings[r].(status := UnderReview)],
             s.tasks + [NewTask(ReturnPreparation, Some(r), Some(RecommendationOf(s.filings[r])))]),
       Ok(|s.tasks|))
  }

  function StepExport(s: Store, r: nat, uploadedAs: Option<string>): (Store, Result<nat, Error>) {
    if r >= |s.filings| then (s, Err(NotFound))
    else
      var gstReturn := s.filings[r];
      (s.(filings := s.filings[r := gstReturn.(exportStorageKey := if uploadedAs.Some? then uploadedAs else gstReturn.exportStorageKey,
                                         status := if gstReturn.status == Approved then Exported else gstReturn.status)]),
       Ok(r))
  }

  // ------------------------------------------------------------------ decide

  function DecisionStatus(decision: string): Option<ApprovalStatus> {
    if decision == "approve" then Some(TaskApproved)
    else if decision == "reject" then Some(Rejected)
    else if decision == "modify" then Some(Modified)
    else None
  }

  function Decided(t: Task, c: Command, status: ApprovalStatus): Task
    requires c.Decide?
  {
    t.(status := status, decidedBy := Some(c.decider), decisionNotes := c.notes, finalPayload := c.payload)
  }

  /** The linked return after a decision. */
  function Moved(r: GstReturn, status: ApprovalStatus, user: int, notes: Option<string>): GstReturn {
    match status
    case TaskApproved => r.(status := Approved, approvedBy := Some(user), reviewNotes := notes)
    case Rejected => r.(status := Generated, reviewNotes := notes)
    case _ => r.(reviewNotes := notes)
  }

  predicate IsLinked(t: Task, filings: seq<GstReturn>) {
    t.kind == ReturnPreparation && t.entity.Some? && t.entity.value < |filings|
  }

  function Propagated(filings: seq<GstReturn>, t: Task, status: ApprovalStatus, user: int, notes: Option<string>): seq<GstReturn> {
    if IsLinked(t, filings) then filings[t.entity.value := Moved(filings[t.entity.value], status, user, notes)] else filings
  }

  function StepDecide(s: Store, c: Command): (Store, Result<nat, Error>)
    requires c.Decide?
  {
    var status := DecisionStatus(c.decision);
    if status.None? then (s, Err(ValidationFailed))
    else if c.taskId >= |s.tasks| then (s, Err(NotFound))
    else
      var t := s.tasks[c.taskId];
      if t.status != Pending then (s, Err(ValidationFailed))
      else if status.value == Modified && (c.payload.None? || c.payload.value == map[]) then (s, Err(ValidationFailed))
      else
        (Store(Propagated(s.filings, t, status.value, c.decider, c.notes), s.tasks[c.taskId := Decided(t, c, status.value)]),
         Ok(c.taskId))
  }

  // -------------------------------------------------------------------- runs

  function Step(s: Store, c: Command): (Store, Result<nat, Error>) {
    match c
    case Generate(_, _, _, _) => StepGenerate(s, c)
    case Submit(r) => StepSubmit(s, r)
    case Export(r, key) => StepExport(s, r, key)
    case Create(kind, entity, recommendation) =>
      (s.(tasks := s.tasks + [NewTask(kind, entity, recommendation)]), Ok(|s.tasks|))
    case Decide(_, _, _, _, _) => StepDecide(s, c)
  }

  function Run(s: Store, commands: seq<Command>): Store {
    if commands == [] then s else Step(Run(s, commands[..|commands| - 1]), commands[|commands| - 1]).0
  }

  // ------------------------------------------------------------- the services

  method BuildFigures(returnType: ReturnType, period: string, invoices: seq<ReturnInvoice>) returns (figures: Figures)
    ensures figures == FiguresOf(returnType, period, invoices)
  {
    if returnType == Gstr1 {
      var summary := BuildGstr1(period, invoices);
      figures := Figures(|Sales(invoices)|, summary.totals.taxableValue, summary.totals.TotalTax(), SummaryOfGstr1(summary));
    } else {
      var summary := BuildGstr3b(period, invoices);
      figures := Figures(|invoices|, summary.outward.taxableValue, summary.netTotal, SummaryOfGstr3b(summary));
    }
  }

  /** The two services over the session they share. */
  class ReviewDesk {
    var filings: seq<GstReturn>
    var tasks: seq<Task>

    ghost function State(): Store
      reads this
    {
      Store(filings, tasks)
    }

    constructor ()
      ensures State() == Store([], [])
    {
      filings, tasks := [], [];
    }

    method Generate(user: int, returnType: ReturnType, period: string, invoices: seq<ReturnInvoice>)
      returns (reply: Result<nat, Error>)
      modifies this
      ensures (State(), reply) == Step(old(State()), Command.Generate(user, returnType, period, FiguresOf(returnType, period, invoices)))
    {
      if !ValidPeriod(period) {
        return Err(ValidationFailed);
      }
      var figures := BuildFigures(returnType, period, invoices);
      reply := Replace(GstReturn(returnType, period, Generated, figures, user, None, None, None));
    }

    method Replace(generated: GstReturn) returns (reply: Result<nat, Error>)
      modifies this
      ensures (State(), reply) == Place(old(State()), generated)
    {
      var k := Find(filings, generated.returnType, generated.period);
      if k == |filings| {
        filings := filings + [generated];
      } else if filings[k].status == Approved || filings[k].status == FiledExternally {
        return Err(ValidationFailed);
      } else {
        filings := filings[k := generated];
      }
      reply := Ok(k);
    }

    method SubmitForReview(returnId: nat) returns (reply: Result<nat, Error>)
      modifies this
      ensures (State(), reply) == Step(old(State()), Submit(returnId))
    {
      if returnId >= |filings| {
        return Err(NotFound);
      }
      var gstReturn := filings[returnId];
      if gstReturn.status != Generated && gstReturn.status != Draft {
        return Err(ValidationFailed);
      }
      filings := filings[returnId := gstReturn.(status := UnderReview)];
      reply := Ok(|tasks|);
      tasks := tasks + [NewTask(ReturnPreparation, Some(returnId), Some(RecommendationOf(gstReturn)))];
    }

    method Export(returnId: nat, uploadedAs: Option<string>) returns (reply: Result<nat, Error>)
      modifies this
      ensures (State(), reply) == Step(old(State()), Command.Export(returnId, uploadedAs))
    {
      if returnId >= |filings| {
        return Err(NotFound);
      }
      var gstReturn := filings[returnId];
      if uploadedAs.Some? {
        gstReturn := gstReturn.(exportStorageKey := uploadedAs);
      }
      if gstReturn.status == Approved {
        gstReturn := gstReturn.(status := Exported);
      }
      filings := filings[returnId := gstReturn];
      reply := Ok(returnId);
    }

    method CreateTask(kind: ApprovalType, entity: Option<nat>, recommendation: Option<Recommendation>)
      returns (reply: Result<nat, Error>)
      modifies this
      ensures (State(), reply) == Step(old(State()), Create(kind, entity, recommendation))
    {
      reply := Ok(|tasks|);
      tasks := tasks + [NewTask(kind, entity, recommendation)];
    }

    method Decide(user: int, taskId: nat, decision: string, notes: Option<string>, payload: Option<map<string, string>>)
      returns (reply: Result<nat, Error>)
      modifies this
      ensures (State(), reply) == Step(old(State()), Command.Decide(user, taskId, decision, notes, payload))
    {
      var status := DecisionStatus(decision);
      if status.None? {
        return Err(ValidationFailed);
      }
      if taskId >= |tasks| {
        return Err(NotFound);
      }
      if tasks[taskId].status != Pending {
        return Err(ValidationFailed);
      }
      if decision == "modify" && (payload.None? || payload.value == map[]) {
        return Err(ValidationFailed);
      }
      tasks := tasks[taskId := tasks[taskId].(status := status.value, decidedBy := Some(user), decisionNotes := notes,
                                              finalPayload := payload)];
      PropagateReturnDecision(tasks[taskId], decision, notes, user);
      reply := Ok(taskId);
    }

    method PropagateReturnDecision(task: Task, decision: string, notes: Option<string>, user: int)
      requires DecisionStatus(decision).Some?
      modifies this`filings
      ensures filings == Propagated(old(filings), task, DecisionStatus(decision).value, user, notes)
    {
      if task.kind != ReturnPreparation || task.entity.None? || task.entity.value >= |filings| {
        return;
      }
      var gstReturn := filings[task.entity.value];
      if decision == "approve" {
        gstReturn := gstReturn.(status := Approved, approvedBy := Some(user));
      } else if decision == "reject" {
        gstReturn := gstReturn.(status := Generated);
      }
      filings := filings[task.entity.value := gstReturn.(reviewNotes := notes)];
    }
  }
}
