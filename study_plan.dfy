/**
 * The study-plan store of `src/stores/studyPlan.ts`: the plan and review
 * lists, their computed counts and filters, and the optimistic updates with
 * rollback. Server answers are inputs of the methods.
 */
module StudyPlan {
  import opened Wrappers
  import opened Replies
  import opened Lists
  import Text

  datatype PlanStatus = Active | Completed | Paused
  datatype TaskStatus = Pending | InProgress | Done

  /** The members of a plan the store reads or writes. */
  datatype Plan = Plan(
    id: int,
    title: string,
    planType: string,
    difficulty: string,
    status: PlanStatus,
    latestDetailId: Option<int>)

  datatype ReviewItem = ReviewItem(id: int, taskDate: string, reviewStage: int, status: TaskStatus)

  /** `response.data` of the plan list endpoint. */
  datatype PlanPage = PlanPage(list: seq<Plan>, total: int, page: int, size: int)

  /** The parameters of `addPlan`; absent optional members are `None`. */
  datatype NewPlan = NewPlan(
    title: string,
    description: Option<string>,
    planType: Option<string>,
    subject: string,
    difficulty: Option<string>,
    startDate: string,
    endDate: Option<string>)

  /**
   * `params?.page || currentPage`, and so on: the query `fetchStudyPlans`
   * builds. `api.getStudyPlans` takes no parameters, so it is never sent.
   */
  datatype PlanQuery = PlanQuery(page: int, size: int)

  predicate IsActive(p: Plan) { p.status == Active }
  predicate IsCompleted(p: Plan) { p.status == Completed }
  /** `plan.latestDetailId` is truthy: present and not 0. */
  predicate HasDetail(p: Plan) { p.latestDetailId.Some? && p.latestDetailId.value != 0 }

  function ActiveCount(plans: seq<Plan>): nat {
    |Filter(plans, IsActive)|
  }

  function CompletedPlans(plans: seq<Plan>): seq<Plan> {
    Filter(plans, IsCompleted)
  }

  function PlansWithDetails(plans: seq<Plan>): seq<Plan> {
    Filter(plans, HasDetail)
  }

  /** `Math.round(completed / total * 100)` in exact arithmetic, 0 for no plans. */
  function CompletionRate(plans: seq<Plan>): (r: int)
    ensures 0 <= r <= 100
    ensures plans == [] ==> r == 0
    ensures plans != [] && (forall i :: 0 <= i < |plans| ==> IsCompleted(plans[i])) ==> r == 100
    ensures (forall i :: 0 <= i < |plans| ==> !IsCompleted(plans[i])) ==> r == 0
  {
    if |plans| == 0 then 0
    else
      var c := |CompletedPlans(plans)|;
      var n := |plans|;
      if forall i :: 0 <= i < |plans| ==> IsCompleted(plans[i]) then
        FilterAll(plans, IsCompleted);
        RoundedPercent(c, n)
      else if forall i :: 0 <= i < |plans| ==> !IsCompleted(plans[i]) then
        FilterNone(plans, IsCompleted);
        RoundedPercent(c, n)
      else RoundedPercent(c, n)
  }

  /** `c / n * 100` rounded half up. */
  function RoundedPercent(c: nat, n: nat): (r: int)
    requires 0 < n && c <= n
    ensures 0 <= r <= 100
    ensures c == 0 ==> r == 0
    ensures c == n ==> r == 100
    ensures 2 * n * r <= 200 * c + n < 2 * n * (r + 1)
  {
    var a := 200 * c + n;
    DivisionBrackets(a, 2 * n);
    var q := a / (2 * n);
    Below(0, q + 1, 2 * n, a);
    Below(q, 101, 2 * n, a);
    if c == 0 then
      Below(q, 1, 2 * n, a);
      q
    else if c == n then
      Below(100, q + 1, 2 * n, a);
      q
    else q
  }

  /** Euclidean division brackets its dividend between consecutive multiples of the divisor. */
  lemma DivisionBrackets(a: int, b: int)
    requires b > 0
    ensures b * (a / b) <= a < b * (a / b + 1)
  {
  }

  /** A value at or above `b * x` and below `b * y` forces `x < y`. */
  lemma Below(x: int, y: int, b: int, a: int)
    requires b > 0 && b * x <= a < b * y
    ensures x < y
  {
    assert b * (y - x) > 0;
  }

  /** The review items `fetchPendingTasks` keeps: due by `today` or not yet reviewed. */
  predicate IsDue(today: string, item: ReviewItem) {
    Text.LexLessEq(item.taskDate, today) || item.reviewStage == 0
  }

  function PendingTasks(items: seq<ReviewItem>, today: string): seq<ReviewItem> {
    Filter(items, item => IsDue(today, item))
  }

  /** The plan `addPlan` posts: `planType ?? 'learning'`, `difficulty || 'medium'`. */
  function CreateRequest(data: NewPlan): (r: NewPlan)
    ensures r.planType.Some? && r.difficulty.Some? && r.difficulty.value != ""
    ensures data.planType.Some? ==> r.planType == data.planType
    ensures data.planType.None? ==> r.planType == Some("learning")
    ensures data.difficulty.Some? && data.difficulty.value != "" ==> r.difficulty == data.difficulty
    ensures data.difficulty.None? || data.difficulty == Some("") ==> r.difficulty == Some("medium")
    ensures r.title == data.title && r.subject == data.subject && r.startDate == data.startDate
    ensures r.description == data.description && r.endDate == data.endDate
  {
    data.(
      planType := if data.planType.Some? then data.planType else Some("learning"),
      difficulty := if data.difficulty.Some? && data.difficulty.value != "" then data.difficulty else Some("medium"))
  }

  /** An empty plan type is kept, while an empty difficulty is replaced. */
  lemma EmptyTypeKeptEmptyDifficultyReplaced(data: NewPlan)
    requires data.planType == Some("") && data.difficulty == Some("")
    ensures CreateRequest(data).planType == Some("")
    ensures CreateRequest(data).difficulty == Some("medium")
  {
  }

  /** The plan after `togglePlanComplete`'s optimistic write. */
  function Toggled(p: Plan): (q: Plan)
    ensures q.status == Completed <==> p.status != Completed
    ensures q.status == Active <==> p.status == Completed
    ensures q == p.(status := q.status)
  {
    p.(status := if p.status == Completed then Active else Completed)
  }

  /** Toggling twice restores a completed or active plan; a paused one ends active. */
  lemma ToggleTwice(p: Plan)
    ensures p.status != Paused ==> Toggled(Toggled(p)) == p
    ensures p.status == Paused ==> Toggled(Toggled(p)).status == Active
  {
  }

  /** `{ ...current, ...data }`: the server's plan, keeping the detail id it does not send. */
  function MergePlan(current: Plan, data: Plan): (r: Plan)
    ensures r.id == data.id && r.status == data.status
    ensures r.latestDetailId == if data.latestDetailId.Some? then data.latestDetailId else current.latestDetailId
  {
    data.(latestDetailId := if data.latestDetailId.Some? then data.latestDetailId else current.latestDetailId)
  }

  /** What an answer to `completeTask` leaves in the slot that held `original`. */
  function TaskAfter(original: ReviewItem, reply: Reply<Option<ReviewItem>>): ReviewItem {
    if reply.Reply? && reply.code == 200 then
      (if reply.data.Some? then reply.data.value else original.(status := Done))
    else original
  }

  /** What an answer to `togglePlanComplete` leaves in the slot that held `original`. */
  function PlanAfter(original: Plan, reply: Reply<Option<Plan>>): Plan {
    if reply.Threw? then original
    else if reply.code == 200 && reply.data.Some? then MergePlan(Toggled(original), reply.data.value)
    else Toggled(original)
  }

  class StudyPlanStore {
    var studyPlans: seq<Plan>
    var reviewItems: seq<ReviewItem>
    var isLoading: bool
    var currentPage: int
    var pageSize: int
    var total: int
    var selectedPlan: Option<Plan>

    constructor()
      ensures studyPlans == [] && reviewItems == [] && !isLoading
      ensures currentPage == 1 && pageSize == 10 && total == 0 && selectedPlan == None
    {
      studyPlans := [];
      reviewItems := [];
      isLoading := false;
      currentPage := 1;
      pageSize := 10;
      total := 0;
      selectedPlan := None;
    }

    /** `today` is the date part of the current ISO timestamp. */
    method FetchPendingTasks(reply: Reply<seq<ReviewItem>>, today: string)
      modifies this`reviewItems, this`isLoading
      ensures !isLoading
      ensures reply.Reply? && reply.code == 200 ==> reviewItems == PendingTasks(reply.data, today)
      ensures !(reply.Reply? && reply.code == 200) ==> reviewItems == old(reviewItems)
    {
      isLoading := true;
      if reply.Reply? && reply.code == 200 {
        reviewItems := Filter(reply.data, item => IsDue(today, item));
      }
      isLoading := false;
    }

    method CompleteTask(id: int, reply: Reply<Option<ReviewItem>>)
      modifies this`reviewItems
      ensures var k := FindFirst(old(reviewItems), (item: ReviewItem) => item.id == id);
        && (k.None? ==> reviewItems == old(reviewItems))
        && (k.Some? ==> reviewItems == old(reviewItems)[k.value := TaskAfter(old(reviewItems)[k.value], reply)])
      ensures !(reply.Reply? && reply.code == 200) ==> reviewItems == old(reviewItems)
    {
      var taskIndex := FindFirst(reviewItems, (item: ReviewItem) => item.id == id);
      if taskIndex.None? {
        return;
      }
      var k := taskIndex.value;
      var originalTask := reviewItems[k];
      reviewItems := reviewItems[k := reviewItems[k].(status := Done)];
      if reply.Threw? {
        reviewItems := reviewItems[k := originalTask];
      } else if reply.code == 200 {
        if reply.data.Some? {
          reviewItems := reviewItems[k := reply.data.value];
        }
      } else {
        reviewItems := reviewItems[k := originalTask];
      }
    }

    /** `params` are the caller's page and size, `None` when absent. */
    method FetchStudyPlans(page: Option<int>, size: Option<int>, reply: Reply<PlanPage>)
      returns (query: PlanQuery, result: Option<seq<Plan>>)
      modifies this`studyPlans, this`total, this`currentPage, this`pageSize, this`isLoading
      ensures !isLoading
      ensures query.page == if page.Some? && page.value != 0 then page.value else old(currentPage)
      ensures query.size == if size.Some? && size.value != 0 then size.value else old(pageSize)
      ensures reply.Reply? && reply.code == 200 ==>
        && studyPlans == reply.data.list && total == reply.data.total
        && currentPage == reply.data.page && pageSize == reply.data.size
      ensures !(reply.Reply? && reply.code == 200) ==>
        studyPlans == old(studyPlans) && total == old(total)
        && currentPage == old(currentPage) && pageSize == old(pageSize)
      ensures result == if reply.Threw? then None else Some(studyPlans)
    {
      isLoading := true;
      query := PlanQuery(
        if page.Some? && page.value != 0 then page.value else currentPage,
        if size.Some? && size.value != 0 then size.value else pageSize);
      if reply.Threw? {
        isLoading := false;
        return query, None;
      }
      if reply.code == 200 {
        studyPlans := reply.data.list;
        total := reply.data.total;
        currentPage := reply.data.page;
        pageSize := reply.data.size;
      }
      result := Some(studyPlans);
      isLoading := false;
    }

    /** `refresh` is the answer of the list request made after a successful creation. */
    method AddPlan(data: NewPlan, reply: Reply<Option<Plan>>, refresh: Reply<PlanPage>)
      returns (request: NewPlan, created: Option<Plan>)
      modifies this`studyPlans, this`total, this`currentPage, this`pageSize, this`isLoading
      ensures !isLoading
      ensures request == CreateRequest(data)
      ensures reply.Reply? && (reply.code == 200 || reply.code == 201) ==>
        created == reply.data
      ensures reply.Reply? && (reply.code == 200 || reply.code == 201) && refresh.Reply? && refresh.code == 200 ==>
        && studyPlans == refresh.data.list && total == refresh.data.total
        && currentPage == refresh.data.page && pageSize == refresh.data.size
      ensures !(reply.Reply? && (reply.code == 200 || reply.code == 201) && refresh.Reply? && refresh.code == 200) ==>
        studyPlans == old(studyPlans) && total == old(total)
        && currentPage == old(currentPage) && pageSize == old(pageSize)
      ensures !(reply.Reply? && (reply.code == 200 || reply.code == 201)) ==> created == None
    {
      isLoading := true;
      request := CreateRequest(data);
      created := None;
      if reply.Reply? && (reply.code == 200 || reply.code == 201) {
        var _, _ := FetchStudyPlans(None, None, refresh);
        created := reply.data;
      }
      isLoading := false;
    }

    method TogglePlanComplete(id: int, reply: Reply<Option<Plan>>)
      modifies this`studyPlans, this`isLoading
      ensures !isLoading
      ensures var k := FindFirst(old(studyPlans), (p: Plan) => p.id == id);
        && (k.None? ==> studyPlans == old(studyPlans))
        && (k.Some? ==> studyPlans == old(studyPlans)[k.value := PlanAfter(old(studyPlans)[k.value], reply)])
      ensures reply.Threw? ==> studyPlans == old(studyPlans)
    {
      isLoading := true;
      var planIndex := FindFirst(studyPlans, (p: Plan) => p.id == id);
      if planIndex.None? {
        isLoading := false;
        return;
      }
      var k := planIndex.value;
      var originalPlan := studyPlans[k];
      var newStatus := if originalPlan.status == Completed then Active else Completed;
      studyPlans := studyPlans[k := originalPlan.(status := newStatus)];
      if reply.Threw? {
        studyPlans := studyPlans[k := originalPlan];
      } else if reply.code == 200 && reply.data.Some? {
        studyPlans := studyPlans[k := MergePlan(studyPlans[k], reply.data.value)];
      }
      isLoading := false;
    }

    method UpdatePlanLatestDetail(planId: int, detailId: int)
      modifies this`studyPlans, this`selectedPlan
      ensures var k := FindFirst(old(studyPlans), (p: Plan) => p.id == planId);
        && (k.None? ==> studyPlans == old(studyPlans))
        && (k.Some? ==> studyPlans == old(studyPlans)[k.value := old(studyPlans)[k.value].(latestDetailId := Some(detailId))])
      ensures old(selectedPlan).Some? && old(selectedPlan).value.id == planId ==>
        selectedPlan == Some(old(selectedPlan).value.(latestDetailId := Some(detailId)))
      ensures !(old(selectedPlan).Some? && old(selectedPlan).value.id == planId) ==>
        selectedPlan == old(selectedPlan)
    {
      var plan := FindFirst(studyPlans, (p: Plan) => p.id == planId);
      if plan.Some? {
        studyPlans := studyPlans[plan.value := studyPlans[plan.value].(latestDetailId := Some(detailId))];
      }
      if selectedPlan.Some? && selectedPlan.value.id == planId {
        selectedPlan := Some(selectedPlan.value.(latestDetailId := Some(detailId)));
      }
    }
  }

  /** `activeCount` counts each active plan once and nothing else. */
  lemma ActiveCountCounts(plans: seq<Plan>, p: Plan)
    ensures multiset(Filter(plans, IsActive))[p] == if IsActive(p) then multiset(plans)[p] else 0
    ensures ActiveCount(plans) <= |plans|
  {
    FilterMultiplicity(plans, IsActive, p);
  }

  /** `completedPlans` is the completed plans in their original order, each as often as it occurs. */
  lemma CompletedPlansExact(plans: seq<Plan>, p: Plan)
    ensures IsSubsequence(CompletedPlans(plans), plans)
    ensures multiset(CompletedPlans(plans))[p] == if IsCompleted(p) then multiset(plans)[p] else 0
  {
    FilterMultiplicity(plans, IsCompleted, p);
  }

  /** A plan whose detail id is 0 or absent is never among `plansWithDetails`. */
  lemma PlansWithDetailsExcludesZero(plans: seq<Plan>, p: Plan)
    requires p.latestDetailId == None || p.latestDetailId == Some(0)
    ensures p !in PlansWithDetails(plans)
    ensures multiset(PlansWithDetails(plans))[p] == 0
  {
    FilterMultiplicity(plans, HasDetail, p);
  }

  /** An item never reviewed is kept whatever its date; a dated item is kept iff it is due. */
  lemma PendingTasksExact(items: seq<ReviewItem>, today: string, item: ReviewItem)
    ensures item in items && item.reviewStage == 0 ==> item in PendingTasks(items, today)
    ensures multiset(PendingTasks(items, today))[item] ==
      if Text.LexLessEq(item.taskDate, today) || item.reviewStage == 0 then multiset(items)[item] else 0
  {
    FilterMultiplicity(items, (i: ReviewItem) => IsDue(today, i), item);
  }
}
