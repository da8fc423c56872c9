/** What every run of the return and approval services keeps. */
module LifecycleLaws {
  import opened Util
  import opened Text
  import opened ReturnLifecycle
  import ReturnAggregation

  // -------------------------------------------------------------- invariant

  predicate IsAbout(t: Task, r: nat) { t.kind == ReturnPreparation && t.entity == Some(r) }

  /** A task of the return's own still waits for a decision, or was answered with corrections. */
  ghost predicate HasOpenTask(tasks: seq<Task>, r: nat) {
    exists t :: 0 <= t < |tasks| && IsAbout(tasks[t], r) && (tasks[t].status == Pending || tasks[t].status == Modified)
  }

  /** A task of the return's own was approved, and by this user. */
  ghost predicate HasApproval(tasks: seq<Task>, r: nat, user: Option<int>) {
    user.Some? && exists t :: 0 <= t < |tasks| && IsAbout(tasks[t], r) && tasks[t].status == TaskApproved && tasks[t].decidedBy == user
  }

  ghost predicate ReturnOk(tasks: seq<Task>, r: nat, g: GstReturn) {
    && ValidPeriod(g.period) && g.status != Draft && g.status != FiledExternally
    && (g.status == UnderReview ==> HasOpenTask(tasks, r))
    && (g.status == Approved || g.status == Exported ==> HasApproval(tasks, r, g.approvedBy))
  }

  ghost predicate OnePerPeriod(filings: seq<GstReturn>) {
    forall i, j :: 0 <= i < j < |filings| ==> !IsFor(filings[j], filings[i].returnType, filings[i].period)
  }

  ghost predicate Sound(s: Store) {
    && OnePerPeriod(s.filings)
    && (forall r :: 0 <= r < |s.filings| ==> ReturnOk(s.tasks, r, s.filings[r]))
    && (forall t :: 0 <= t < |s.tasks| ==> (s.tasks[t].decidedBy.Some? <==> s.tasks[t].status != Pending))
  }

  lemma MoreTasks(tasks: seq<Task>, t: Task, r: nat, g: GstReturn)
    requires ReturnOk(tasks, r, g)
    ensures ReturnOk(tasks + [t], r, g)
  {
    var more := tasks + [t];
    if g.status == UnderReview {
      var k :| 0 <= k < |tasks| && IsAbout(tasks[k], r) && (tasks[k].status == Pending || tasks[k].status == Modified);
      assert more[k] == tasks[k];
    }
    if g.status == Approved || g.status == Exported {
      KeepApproval(tasks, more, r, g.approvedBy);
    }
  }

  /** Approvals stay while decided tasks do not change. */
  lemma KeepApproval(tasks: seq<Task>, later: seq<Task>, r: nat, user: Option<int>)
    requires |tasks| <= |later| && HasApproval(tasks, r, user)
    requires forall k :: 0 <= k < |tasks| && tasks[k].status != Pending ==> later[k] == tasks[k]
    ensures HasApproval(later, r, user)
  {
    var k :| 0 <= k < |tasks| && IsAbout(tasks[k], r) && tasks[k].status == TaskApproved && tasks[k].decidedBy == user;
    assert later[k] == tasks[k];
  }

  lemma GenerateKeeps(s: Store, g: GstReturn)
    requires Sound(s) && ValidPeriod(g.period) && g.status == Generated
    ensures Sound(Place(s, g).0)
  {
    var k := Find(s.filings, g.returnType, g.period);
    var after := Place(s, g).0.filings;
    forall i, j | 0 <= i < j < |after| ensures !IsFor(after[j], after[i].returnType, after[i].period) {
      if j == k {
        assert after[i] == s.filings[i];
      } else if i == k {
        assert after[j] == s.filings[j];
      }
    }
  }

  lemma SubmitKeeps(s: Store, r: nat)
    requires Sound(s)
    ensures Sound(StepSubmit(s, r).0)
  {
    var s' := StepSubmit(s, r).0;
    if StepSubmit(s, r).1.Ok? {
      assert IsAbout(s'.tasks[|s.tasks|], r) && s'.tasks[|s.tasks|].status == Pending;
      forall i | 0 <= i < |s'.filings| ensures ReturnOk(s'.tasks, i, s'.filings[i]) {
        if i != r {
          MoreTasks(s.tasks, s'.tasks[|s.tasks|], i, s.filings[i]);
        }
      }
    }
  }

  lemma DecideKeepsReturn(s: Store, c: Command, i: nat)
    requires Sound(s) && c.Decide? && StepDecide(s, c).1.Ok? && i < |s.filings|
    ensures var s' := StepDecide(s, c).0; |s'.filings| == |s.filings| && ReturnOk(s'.tasks, i, s'.filings[i])
  {
    var s' := StepDecide(s, c).0;
    var before, after := s.filings[i], s'.filings[i];
    var t := s'.tasks[c.taskId];
    if IsAbout(t, i) && t.status == TaskApproved {
      assert HasApproval(s'.tasks, i, after.approvedBy);
    } else {
      if before.status == Approved || before.status == Exported {
        KeepApproval(s.tasks, s'.tasks, i, before.approvedBy);
      }
      if before.status == UnderReview && after.status == UnderReview {
        KeepOpen(s, c, i);
      }
    }
  }

  lemma KeepOpen(s: Store, c: Command, i: nat)
    requires c.Decide? && StepDecide(s, c).1.Ok? && HasOpenTask(s.tasks, i)
    requires var t := StepDecide(s, c).0.tasks[c.taskId]; IsAbout(t, i) ==> t.status == Modified
    ensures HasOpenTask(StepDecide(s, c).0.tasks, i)
  {
    var tasks' := StepDecide(s, c).0.tasks;
    var k :| 0 <= k < |s.tasks| && IsAbout(s.tasks[k], i) && (s.tasks[k].status == Pending || s.tasks[k].status == Modified);
    assert IsAbout(tasks'[k], i);
  }

  lemma DecideKeeps(s: Store, c: Command)
    requires Sound(s) && c.Decide?
    ensures Sound(StepDecide(s, c).0)
  {
    var s' := StepDecide(s, c).0;
    if StepDecide(s, c).1.Ok? {
      forall i | 0 <= i < |s'.filings| ensures ReturnOk(s'.tasks, i, s'.filings[i]) {
        DecideKeepsReturn(s, c, i);
      }
      assert forall i :: 0 <= i < |s.filings| ==> IsFor(s'.filings[i], s.filings[i].returnType, s.filings[i].period);
    }
  }

  lemma StepKeepsSound(s: Store, c: Command)
    requires Sound(s)
    ensures Sound(Step(s, c).0)
  {
    match c
    case Generate(_, _, _, _) =>
      if ValidPeriod(c.period) {
        GenerateKeeps(s, NewReturn(c));
      }
    case Submit(r) => SubmitKeeps(s, r);
    case Export(_, _) =>
    case Create(kind, entity, recommendation) =>
      forall i | 0 <= i < |s.filings| ensures ReturnOk(Step(s, c).0.tasks, i, s.filings[i]) {
        MoreTasks(s.tasks, NewTask(kind, entity, recommendation), i, s.filings[i]);
      }
    case Decide(_, _, _, _, _) => DecideKeeps(s, c);
  }

  /** Over every run: one return per type and period; a return under review has a task of its own that is pending or
      answered with corrections; an approved or exported return was approved, by the user it names, on a task of its own. */
  lemma {:induction false} EveryRunIsSound(commands: seq<Command>)
    ensures Sound(Run(Store([], []), commands))
  {
    if commands != [] {
      EveryRunIsSound(commands[..|commands| - 1]);
      StepKeepsSound(Run(Store([], []), commands[..|commands| - 1]), commands[|commands| - 1]);
    }
  }

  /** A refused command leaves everything as it was. */
  lemma RefusalChangesNothing(s: Store, c: Command)
    ensures Step(s, c).1.Err? ==> Step(s, c).0 == s
  {
  }

  // ------------------------------------------------------------- the tasks

  lemma StepOnTask(s: Store, c: Command, t: nat)
    requires t < |s.tasks|
    ensures t < |Step(s, c).0.tasks|
    ensures var a, b := s.tasks[t], Step(s, c).0.tasks[t];
            && b.kind == a.kind && b.entity == a.entity && b.recommendation == a.recommendation
            && (a.status != Pending ==> b == a)
  {
  }

  /** A task leaves PENDING at most once: after its decision nothing about it ever changes, and what it is about never does. */
  lemma {:induction false} DecidedOnce(s: Store, commands: seq<Command>, t: nat)
    requires t < |s.tasks|
    ensures t < |Run(s, commands).tasks|
    ensures var a, b := s.tasks[t], Run(s, commands).tasks[t];
            && b.kind == a.kind && b.entity == a.entity && b.recommendation == a.recommendation
            && (a.status != Pending ==> b == a)
  {
    if commands != [] {
      DecidedOnce(s, commands[..|commands| - 1], t);
      StepOnTask(Run(s, commands[..|commands| - 1]), commands[|commands| - 1], t);
    }
  }

  // ----------------------------------------------------------- the figures

  /** The command is a generate for return r that will not be refused. */
  predicate Regenerates(s: Store, c: Command, r: nat)
    requires r < |s.filings|
  {
    c.Generate? && ValidPeriod(c.period) && IsFor(s.filings[r], c.returnType, c.period) && !Locked(s.filings[r])
  }

  /** Nothing but an accepted generate changes a return's figures; so they are frozen while it is approved. */
  lemma FiguresChangeOnlyByGenerate(s: Store, c: Command, r: nat)
    requires r < |s.filings|
    ensures var s' := Step(s, c).0;
            && r < |s'.filings| && IsFor(s'.filings[r], s.filings[r].returnType, s.filings[r].period)
            && (s'.filings[r].figures == s.filings[r].figures || Regenerates(s, c, r))
    ensures s.filings[r].status == Approved ==> Step(s, c).0.filings[r].figures == s.filings[r].figures
  {
  }

  /** The last command of the run that regenerates return r; every other generate for it is refused. */
  ghost function LastRegeneration(s: Store, commands: seq<Command>, r: nat): (c: Option<Command>)
    requires r < |s.filings|
    ensures c.Some? ==> c.value.Generate? && c.value in commands
  {
    if commands == [] then None
    else
      var init, last := commands[..|commands| - 1], commands[|commands| - 1];
      if r < |Run(s, init).filings| && Regenerates(Run(s, init), last, r) then Some(last) else LastRegeneration(s, init, r)
  }

  /** No command of the run regenerates return r: each generate for it, if any, is refused. */
  ghost predicate NotRegenerated(s: Store, commands: seq<Command>, r: nat)
    requires r < |s.filings|
  {
    LastRegeneration(s, commands, r).None?
  }

  lemma {:induction false} FiguresStay(s: Store, commands: seq<Command>, r: nat)
    requires r < |s.filings| && NotRegenerated(s, commands, r)
    ensures r < |Run(s, commands).filings|
    ensures IsFor(Run(s, commands).filings[r], s.filings[r].returnType, s.filings[r].period)
    ensures Run(s, commands).filings[r].figures == s.filings[r].figures
  {
    if commands != [] {
      var init, last := commands[..|commands| - 1], commands[|commands| - 1];
      ReturnStays(s, init, r);
      FiguresStay(s, init, r);
      FiguresChangeOnlyByGenerate(Run(s, init), last, r);
    }
  }

  /** A return is never removed, and never becomes one for another type or period. */
  lemma {:induction false} ReturnStays(s: Store, commands: seq<Command>, r: nat)
    requires r < |s.filings|
    ensures r < |Run(s, commands).filings|
    ensures IsFor(Run(s, commands).filings[r], s.filings[r].returnType, s.filings[r].period)
  {
    if commands != [] {
      ReturnStays(s, commands[..|commands| - 1], r);
      FiguresChangeOnlyByGenerate(Run(s, commands[..|commands| - 1]), commands[|commands| - 1], r);
    }
  }

  lemma {:induction false} RunKeepsSound(s: Store, commands: seq<Command>)
    requires Sound(s)
    ensures Sound(Run(s, commands))
  {
    if commands != [] {
      RunKeepsSound(s, commands[..|commands| - 1]);
      StepKeepsSound(Run(s, commands[..|commands| - 1]), commands[|commands| - 1]);
    }
  }

  /** The figures of a return are always those of its last regeneration, or else the ones it had. */
  lemma {:induction false} FiguresAreOfLastRegeneration(s: Store, commands: seq<Command>, r: nat)
    requires Sound(s) && r < |s.filings|
    ensures r < |Run(s, commands).filings|
    ensures var last := LastRegeneration(s, commands, r);
            Run(s, commands).filings[r].figures == if last.Some? then last.value.figures else s.filings[r].figures
  {
    if commands != [] {
      var init, last := commands[..|commands| - 1], commands[|commands| - 1];
      FiguresAreOfLastRegeneration(s, init, r);
      if Regenerates(Run(s, init), last, r) {
        RunKeepsSound(s, init);
        RegenerationOverwrites(Run(s, init), r, last);
      } else {
        FiguresChangeOnlyByGenerate(Run(s, init), last, r);
      }
    }
  }

  function Approve(user: int, t: nat, notes: Option<string>, payload: Option<map<string, string>>): Command {
    Decide(user, t, "approve", notes, payload)
  }

  /** What is approved is what was reviewed, whole summary included: between a submit and the approval of the task it created, whatever else
      happens but a regeneration, the approved figures are those the task shows. */
  lemma ApprovedFiguresWereReviewed(s: Store, r: nat, commands: seq<Command>, user: int, notes: Option<string>,
                                    payload: Option<map<string, string>>)
    requires r < |s.filings| && Step(s, Submit(r)).1.Ok?
    requires NotRegenerated(Step(s, Submit(r)).0, commands, r)
    requires var now := Run(Step(s, Submit(r)).0, commands);
             Step(now, Approve(user, |s.tasks|, notes, payload)).1.Ok?
    ensures var done := Step(Run(Step(s, Submit(r)).0, commands), Approve(user, |s.tasks|, notes, payload)).0;
            && r < |done.filings| && |s.tasks| < |done.tasks|
            && done.filings[r].status == Approved && done.filings[r].approvedBy == Some(user)
            && done.filings[r].figures == s.filings[r].figures
            && done.tasks[|s.tasks|].recommendation == Some(RecommendationOf(done.filings[r]))
  {
    var submitted := Step(s, Submit(r)).0;
    FiguresStay(submitted, commands, r);
    DecidedOnce(submitted, commands, |s.tasks|);
    var now := Run(submitted, commands);
    assert IsLinked(now.tasks[|s.tasks|], now.filings);
  }

  /** Generating again overwrites the return unless it is approved; under review or exported it is not protected. */
  lemma RegenerationOverwrites(s: Store, r: nat, c: Command)
    requires Sound(s) && r < |s.filings| && s.filings[r].status != Approved
    requires c.Generate? && IsFor(s.filings[r], c.returnType, c.period)
    ensures Step(s, c) == (s.(filings := s.filings[r := NewReturn(c)]), Ok(r))
  {
    PlaceOverwrites(s, r, NewReturn(c));
  }

  lemma PlaceOverwrites(s: Store, r: nat, g: GstReturn)
    requires Sound(s) && r < |s.filings| && s.filings[r].status != Approved && IsFor(s.filings[r], g.returnType, g.period)
    ensures ValidPeriod(g.period) && Place(s, g) == (s.(filings := s.filings[r := g]), Ok(r))
  {
    var k := Find(s.filings, g.returnType, g.period);
    assert k <= r;
    assert IsFor(s.filings[k], g.returnType, g.period) && ReturnOk(s.tasks, r, s.filings[r]);
  }

  /** Exactly when the approved figures are those the task shows: for any run between a submit and the approval of its
      task, if and only if the return was not regenerated in between, or the last regeneration came out with the invoice
      count and the tax that were submitted. */
  lemma TaskShowsApprovedFiguresExactlyWhen(s: Store, r: nat, commands: seq<Command>, user: int, notes: Option<string>,
                                            payload: Option<map<string, string>>)
    requires Sound(s) && r < |s.filings| && Step(s, Submit(r)).1.Ok?
    requires Step(Run(Step(s, Submit(r)).0, commands), Approve(user, |s.tasks|, notes, payload)).1.Ok?
    ensures var done := Step(Run(Step(s, Submit(r)).0, commands), Approve(user, |s.tasks|, notes, payload)).0;
            var again := LastRegeneration(Step(s, Submit(r)).0, commands, r);
            && r < |done.filings| && |s.tasks| < |done.tasks|
            && done.filings[r].status == Approved && done.filings[r].approvedBy == Some(user)
            && done.filings[r].figures == (if again.Some? then again.value.figures else s.filings[r].figures)
            && (done.tasks[|s.tasks|].recommendation == Some(RecommendationOf(done.filings[r])) <==>
                again.None? || SameHeadline(again.value.figures, s.filings[r].figures))
  {
    var submitted := Step(s, Submit(r)).0;
    SubmitKeeps(s, r);
    FiguresAreOfLastRegeneration(submitted, commands, r);
    ReturnStays(submitted, commands, r);
    DecidedOnce(submitted, commands, |s.tasks|);
    var now := Run(submitted, commands);
    ApproveLast(now, |s.tasks|, r, Approve(user, |s.tasks|, notes, payload));
  }

  /** The figures a task shows of a return. */
  predicate SameHeadline(a: Figures, b: Figures) { a.invoiceCount == b.invoiceCount && a.totalTax == b.totalTax }

  /** Generate does not withdraw the task of a return under review: approving it approves the new figures, and it shows
      them only if they happen to have the count and the tax of the old ones. */
  lemma StaleTaskApprovesNewFigures(s: Store, r: nat, again: Command, user: int)
    requires Sound(s) && r < |s.filings| && s.filings[r].status == Generated
    requires again.Generate? && IsFor(s.filings[r], again.returnType, again.period)
    ensures var done := Run(s, [Submit(r)] + [again] + [Approve(user, |s.tasks|, None, None)]);
            && |done.filings| == |s.filings| && |done.tasks| == |s.tasks| + 1
            && done.filings[r].status == Approved && done.filings[r].figures == again.figures
            && done.tasks[|s.tasks|].status == TaskApproved
            && done.tasks[|s.tasks|].recommendation == Some(RecommendationOf(s.filings[r]))
            && (done.tasks[|s.tasks|].recommendation == Some(RecommendationOf(done.filings[r])) <==>
                SameHeadline(again.figures, s.filings[r].figures))
  {
    var approve := Approve(user, |s.tasks|, None, None);
    var submitted := Step(s, Submit(r)).0;
    SubmitKeeps(s, r);
    RegenerationOverwrites(submitted, r, again);
    RunSnoc(s, [], Submit(r));
    RunSnoc(s, [Submit(r)], again);
    RunSnoc(s, [Submit(r)] + [again], approve);
    assert [] + [Submit(r)] == [Submit(r)];
    ApproveLast(submitted.(filings := submitted.filings[r := NewReturn(again)]), |s.tasks|, r, approve);
  }

  /** From nothing: a return generated and submitted, regenerated with other figures and then approved. */
  function StaleRun(returnType: ReturnType, period: string, first: Figures, second: Figures): seq<Command> {
    [Generate(1, returnType, period, first)] + [Submit(0)] + [Generate(1, returnType, period, second)] + [Approve(2, 0, None, None)]
  }

  /** It ends with an approved return that shows one thing and a task, the one approved, that shows another. */
  lemma StaleRunApprovesWhatWasNotShown(returnType: ReturnType, period: string, first: Figures, second: Figures)
    requires ValidPeriod(period) && !SameHeadline(first, second)
    ensures var done := Run(Store([], []), StaleRun(returnType, period, first, second));
            && |done.filings| == 1 && |done.tasks| == 1
            && done.filings[0].status == Approved && done.filings[0].figures == second
            && done.tasks[0].status == TaskApproved
            && done.tasks[0].recommendation == Some(Recommendation(returnType, period, first.invoiceCount, first.totalTax))
            && done.tasks[0].recommendation != Some(RecommendationOf(done.filings[0]))
  {
    var generate, again := Generate(1, returnType, period, first), Generate(1, returnType, period, second);
    var s := Step(Store([], []), generate).0;
    RunSnoc(Store([], []), [], generate);
    assert [] + [generate] == [generate];
    EveryRunIsSound([generate]);
    assert s.filings == [NewReturn(generate)] && s.tasks == [];
    StaleTaskApprovesNewFigures(s, 0, again, 2);
    RunConcat(Store([], []), [generate], [Submit(0)] + [again] + [Approve(2, 0, None, None)]);
    assert StaleRun(returnType, period, first, second) == [generate] + ([Submit(0)] + [again] + [Approve(2, 0, None, None)]);
  }

  lemma HeadlineOfGstr1(period: string, invoices: seq<ReturnAggregation.ReturnInvoice>)
    ensures var f := FiguresOf(Gstr1, period, invoices);
            && f.invoiceCount == |ReturnAggregation.Sales(invoices)|
            && f.totalTax == SalesTax(invoices)
  {
  }

  lemma OneMoreSale(invoices: seq<ReturnAggregation.ReturnInvoice>, sale: ReturnAggregation.ReturnInvoice)
    requires sale.direction == "sales"
    ensures ReturnAggregation.Sales(invoices + [sale]) == ReturnAggregation.Sales(invoices) + [sale]
    ensures SalesTax(invoices + [sale]) == SalesTax(invoices) + ReturnAggregation.TotalsOf(sale.lines).TotalTax()
  {
    FilterAppend(invoices, sale, ReturnAggregation.Directed("sales"));
    var sales := ReturnAggregation.Sales(invoices);
    assert (sales + [sale])[..|sales|] == sales;
    TaxConcat(ReturnAggregation.LinesOf(sales), sale.lines);
  }

  function SalesTax(invoices: seq<ReturnAggregation.ReturnInvoice>): int {
    ReturnAggregation.TotalsOf(ReturnAggregation.LinesOf(ReturnAggregation.Sales(invoices))).TotalTax()
  }

  lemma TaxConcat(a: seq<ReturnAggregation.ReturnLine>, b: seq<ReturnAggregation.ReturnLine>)
    ensures ReturnAggregation.TotalsOf(a + b).TotalTax() ==
            ReturnAggregation.TotalsOf(a).TotalTax() + ReturnAggregation.TotalsOf(b).TotalTax()
  {
    SumConcat(a, b, ReturnAggregation.LineAmount(ReturnAggregation.Cgst));
    SumConcat(a, b, ReturnAggregation.LineAmount(ReturnAggregation.Sgst));
    SumConcat(a, b, ReturnAggregation.LineAmount(ReturnAggregation.Igst));
    SumConcat(a, b, ReturnAggregation.LineAmount(ReturnAggregation.Cess));
  }

  /** For instance: a sale that comes in after the return was submitted, and is generated into it, is approved on a task
      that does not count it, and whose tax is short of the approved tax by all the tax of that sale. */
  lemma LateSaleIsApprovedUnseen(period: string, before: seq<ReturnAggregation.ReturnInvoice>, sale: ReturnAggregation.ReturnInvoice)
    requires ValidPeriod(period) && sale.direction == "sales"
    ensures var run := StaleRun(Gstr1, period, FiguresOf(Gstr1, period, before), FiguresOf(Gstr1, period, before + [sale]));
            var done := Run(Store([], []), run);
            && |done.filings| == 1 && |done.tasks| == 1 && done.filings[0].status == Approved && done.tasks[0].status == TaskApproved
            && done.tasks[0].recommendation.Some?
            && done.filings[0].figures.invoiceCount == done.tasks[0].recommendation.value.invoiceCount + 1
            && done.filings[0].figures.totalTax ==
               done.tasks[0].recommendation.value.totalTax + ReturnAggregation.TotalsOf(sale.lines).TotalTax()
  {
    OneMoreSale(before, sale);
    HeadlineOfGstr1(period, before);
    HeadlineOfGstr1(period, before + [sale]);
    StaleRunApprovesWhatWasNotShown(Gstr1, period, FiguresOf(Gstr1, period, before), FiguresOf(Gstr1, period, before + [sale]));
  }

  lemma {:induction false} RunConcat(s: Store, a: seq<Command>, b: seq<Command>)
    ensures Run(s, a + b) == Run(Run(s, a), b)
  {
    if b == [] {
      assert a + b == a;
    } else {
      var init, last := b[..|b| - 1], b[|b| - 1];
      RunConcat(s, a, init);
      RunSnoc(s, a + init, last);
      assert a + b == a + init + [last];
    }
  }

  lemma ApproveLast(s: Store, t: nat, r: nat, c: Command)
    requires t < |s.tasks| && r < |s.filings| && IsAbout(s.tasks[t], r) && s.tasks[t].status == Pending
    requires c.Decide? && c.taskId == t && c.decision == "approve"
    ensures var done := Step(s, c).0;
            && |done.filings| == |s.filings| && |done.tasks| == |s.tasks|
            && done.filings[r] == s.filings[r].(status := Approved, approvedBy := Some(c.decider), reviewNotes := c.notes)
            && done.tasks[t].recommendation == s.tasks[t].recommendation && done.tasks[t].status == TaskApproved
  {
  }

  lemma RunSnoc(s: Store, commands: seq<Command>, c: Command)
    ensures Run(s, commands + [c]) == Step(Run(s, commands), c).0
  {
    assert (commands + [c])[..|commands|] == commands;
  }

  /** The command decides a pending task of return r. */
  predicate Decides(s: Store, c: Command, r: nat, decision: string) {
    && c.Decide? && c.decision == decision && c.taskId < |s.tasks|
    && IsAbout(s.tasks[c.taskId], r) && s.tasks[c.taskId].status == Pending
  }

  /** The moves a command may make from one status of return r to another. */
  predicate MayMove(s: Store, c: Command, r: nat, to: ReturnStatus)
    requires r < |s.filings|
  {
    match to
    case Generated => Regenerates(s, c, r) || Decides(s, c, r, "reject")
    case UnderReview => c == Submit(r) && (s.filings[r].status == Generated || s.filings[r].status == Draft)
    case Approved => Decides(s, c, r, "approve")
    case Exported => c.Export? && c.exported == r && s.filings[r].status == Approved
    case _ => false
  }

  /** No command moves a return in any other way. */
  lemma StatusMoves(s: Store, c: Command, r: nat)
    requires r < |s.filings|
    ensures r < |Step(s, c).0.filings|
    ensures var to := Step(s, c).0.filings[r].status; to == s.filings[r].status || MayMove(s, c, r, to)
  {
    if c.Generate? && ValidPeriod(c.period) {
      PlaceMoves(s, r, NewReturn(c));
    }
  }

  lemma PlaceMoves(s: Store, r: nat, g: GstReturn)
    requires r < |s.filings|
    ensures r < |Place(s, g).0.filings|
    ensures Place(s, g).0.filings[r] == s.filings[r] ||
            (Place(s, g).0.filings[r] == g && IsFor(s.filings[r], g.returnType, g.period) && !Locked(s.filings[r]))
  {
  }
}
