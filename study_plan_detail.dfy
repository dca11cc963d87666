/**
 * The plan-detail store of `src/stores/studyPlanDetail.ts`: the current
 * detail and the newest-first history of each study plan, held in maps, and
 * the flags of the history dialog. `timeOf` stands for
 * `new Date(createdAt).getTime()` and `now` for the current ISO timestamp.
 */
module StudyPlanDetail {
  import opened Wrappers
  import opened Replies

  /** A detail row as the server sends it. */
  datatype Entity = Entity(
    id: int, studyPlanId: int, duration: string, level: string, planDetails: string, createdAt: string)

  /** A detail as the store keeps it, with `planDetails` renamed to `plan`. */
  datatype Detail = Detail(
    id: int, studyPlanId: int, duration: string, level: string, plan: string, createdAt: string)

  /** `response.data` of the generation endpoint. */
  datatype Generated = Generated(plan: string, detailId: int)

  /** The parameters of `generatePlanDetail`. */
  datatype GenerateParams = GenerateParams(studyPlanId: int, subject: string, duration: string, level: string)

  function Parsed(e: Entity): (d: Detail)
    ensures d.plan == e.planDetails && d.id == e.id && d.createdAt == e.createdAt
    ensures d.studyPlanId == e.studyPlanId && d.duration == e.duration && d.level == e.level
  {
    Detail(e.id, e.studyPlanId, e.duration, e.level, e.planDetails, e.createdAt)
  }

  function ParseAll(s: seq<Entity>): (r: seq<Detail>)
    ensures |r| == |s| && forall i :: 0 <= i < |s| ==> r[i] == Parsed(s[i])
  {
    seq(|s|, i requires 0 <= i < |s| => Parsed(s[i]))
  }

  /** Newest first: creation times never increase along the list. */
  predicate NewestFirst(s: seq<Entity>, timeOf: string -> int) {
    forall i, j :: 0 <= i < j < |s| ==> timeOf(s[i].createdAt) >= timeOf(s[j].createdAt)
  }

  /** Places `x` before the first entry that is not newer than it. */
  function Insert(x: Entity, s: seq<Entity>, timeOf: string -> int): (r: seq<Entity>)
    requires NewestFirst(s, timeOf)
    ensures NewestFirst(r, timeOf)
    ensures multiset(r) == multiset(s) + multiset{x}
    ensures r[0] == x || (s != [] && r[0] == s[0])
  {
    if s == [] || timeOf(x.createdAt) >= timeOf(s[0].createdAt) then [x] + s
    else
      var rest := Insert(x, s[1..], timeOf);
      assert timeOf(rest[0].createdAt) <= timeOf(s[0].createdAt);
      PrependNewest(s[0], rest, timeOf);
      assert s == [s[0]] + s[1..];
      [s[0]] + rest
  }

  /** An entry no newer than the head may follow a newest-first list's new first entry. */
  lemma PrependNewest(h: Entity, rest: seq<Entity>, timeOf: string -> int)
    requires NewestFirst(rest, timeOf)
    requires rest != [] ==> timeOf(rest[0].createdAt) <= timeOf(h.createdAt)
    ensures NewestFirst([h] + rest, timeOf)
  {
    var r := [h] + rest;
    forall i, j | 0 <= i < j < |r|
      ensures timeOf(r[i].createdAt) >= timeOf(r[j].createdAt)
    {
      assert r[j] == rest[j - 1];
      if i == 0 {
        assert timeOf(rest[0].createdAt) >= timeOf(rest[j - 1].createdAt);
      } else {
        assert r[i] == rest[i - 1];
      }
    }
  }

  /** The order `sort((a, b) => time(b) - time(a))` produces. */
  function SortNewestFirst(s: seq<Entity>, timeOf: string -> int): (r: seq<Entity>)
    ensures NewestFirst(r, timeOf)
    ensures multiset(r) == multiset(s)
    ensures |r| == |s|
  {
    if s == [] then []
    else
      assert s == [s[0]] + s[1..];
      Insert(s[0], SortNewestFirst(s[1..], timeOf), timeOf)
  }

  /** The entries of `s` created at time `t`, in their order in `s`. */
  function CreatedAt(s: seq<Entity>, timeOf: string -> int, t: int): seq<Entity>
  {
    if s == [] then []
    else (if timeOf(s[0].createdAt) == t then [s[0]] else []) + CreatedAt(s[1..], timeOf, t)
  }

  /** Inserting places the new entry before the entries of its own time and keeps their order. */
  lemma {:induction false} InsertKeepsTies(x: Entity, s: seq<Entity>, timeOf: string -> int, t: int)
    requires NewestFirst(s, timeOf)
    ensures CreatedAt(Insert(x, s, timeOf), timeOf, t)
            == (if timeOf(x.createdAt) == t then [x] else []) + CreatedAt(s, timeOf, t)
  {
    if s == [] || timeOf(x.createdAt) >= timeOf(s[0].createdAt) {
      assert Insert(x, s, timeOf) == [x] + s;
      ConsCreatedAt(x, s, timeOf, t);
    } else {
      TailNewestFirst(s, timeOf);
      var rest := Insert(x, s[1..], timeOf);
      assert Insert(x, s, timeOf) == [s[0]] + rest;
      InsertKeepsTies(x, s[1..], timeOf, t);
      PrependKeepsTies(s[0], rest, s[1..], if timeOf(x.createdAt) == t then [x] else [], timeOf, t);
      assert [s[0]] + s[1..] == s;
    }
  }

  /** `CreatedAt` of a list with a new head. */
  lemma ConsCreatedAt(h: Entity, rest: seq<Entity>, timeOf: string -> int, t: int)
    ensures CreatedAt([h] + rest, timeOf, t) == (if timeOf(h.createdAt) == t then [h] else []) + CreatedAt(rest, timeOf, t)
  {
    assert ([h] + rest)[1..] == rest;
  }

  /** A head of another time than the entries `own` may be moved in front of them. */
  lemma PrependKeepsTies(h: Entity, rest: seq<Entity>, tail: seq<Entity>, own: seq<Entity>, timeOf: string -> int, t: int)
    requires CreatedAt(rest, timeOf, t) == own + CreatedAt(tail, timeOf, t)
    requires own != [] ==> timeOf(h.createdAt) != t
    ensures CreatedAt([h] + rest, timeOf, t) == own + CreatedAt([h] + tail, timeOf, t)
  {
    ConsCreatedAt(h, rest, timeOf, t);
    ConsCreatedAt(h, tail, timeOf, t);
    var head: seq<Entity> := if timeOf(h.createdAt) == t then [h] else [];
    if own != [] {
      assert head == [];
    }
    assert head + (own + CreatedAt(tail, timeOf, t)) == own + (head + CreatedAt(tail, timeOf, t));
  }

  lemma TailNewestFirst(s: seq<Entity>, timeOf: string -> int)
    requires s != [] && NewestFirst(s, timeOf)
    ensures NewestFirst(s[1..], timeOf)
  {
    forall i, j | 0 <= i < j < |s[1..]|
      ensures timeOf(s[1..][i].createdAt) >= timeOf(s[1..][j].createdAt)
    {
      assert s[1..][i] == s[i + 1] && s[1..][j] == s[j + 1];
    }
  }

  /** The sort is stable: entries created at the same time keep their input order. */
  lemma {:induction false} SortIsStable(s: seq<Entity>, timeOf: string -> int, t: int)
    ensures CreatedAt(SortNewestFirst(s, timeOf), timeOf, t) == CreatedAt(s, timeOf, t)
  {
    if s != [] {
      SortIsStable(s[1..], timeOf, t);
      InsertKeepsTies(s[0], SortNewestFirst(s[1..], timeOf), timeOf, t);
    }
  }

  /** The head of the sorted list is an entry no other entry is newer than. */
  lemma {:induction false} HeadIsNewest(s: seq<Entity>, timeOf: string -> int)
    requires s != []
    ensures var r := SortNewestFirst(s, timeOf);
      r[0] in s && forall e :: e in s ==> timeOf(e.createdAt) <= timeOf(r[0].createdAt)
  {
    var r := SortNewestFirst(s, timeOf);
    assert |r| == |s|;
    assert r[0] in multiset(r);
    forall e | e in s
      ensures timeOf(e.createdAt) <= timeOf(r[0].createdAt)
    {
      assert e in multiset(s);
      assert e in multiset(r);
      var j :| 0 <= j < |r| && r[j] == e;
      if j > 0 {
        assert timeOf(r[0].createdAt) >= timeOf(r[j].createdAt);
      }
    }
  }

  /**
   * Index `k` holds the first entry of `s` that no entry is newer than:
   * every entry before it is strictly older.
   */
  predicate FirstNewestAt(s: seq<Entity>, timeOf: string -> int, k: int) {
    && 0 <= k < |s|
    && (forall j | 0 <= j < |s| :: timeOf(s[j].createdAt) <= timeOf(s[k].createdAt))
    && (forall j | 0 <= j < k :: timeOf(s[j].createdAt) < timeOf(s[k].createdAt))
  }

  /** Among the newest entries, the sort puts first the one earliest in the input. */
  lemma {:induction false} HeadIsFirstNewest(s: seq<Entity>, timeOf: string -> int)
    requires s != []
    ensures exists k :: FirstNewestAt(s, timeOf, k) && SortNewestFirst(s, timeOf)[0] == s[k]
  {
    if |s| == 1 {
      assert FirstNewestAt(s, timeOf, 0);
    } else {
      var tail := s[1..];
      HeadIsFirstNewest(tail, timeOf);
      var k :| FirstNewestAt(tail, timeOf, k) && SortNewestFirst(tail, timeOf)[0] == tail[k];
      var r := SortNewestFirst(tail, timeOf);
      assert s == [s[0]] + tail;
      InsertHead(s[0], r, timeOf);
      ConsFirstNewest(s[0], tail, timeOf, k);
    }
  }

  /** The head after an insertion into a non-empty list. */
  lemma InsertHead(x: Entity, r: seq<Entity>, timeOf: string -> int)
    requires r != [] && NewestFirst(r, timeOf)
    ensures Insert(x, r, timeOf)[0] == if timeOf(x.createdAt) >= timeOf(r[0].createdAt) then x else r[0]
  {
  }

  /** Where the first newest entry lies once a new head is put in front. */
  lemma ConsFirstNewest(h: Entity, tail: seq<Entity>, timeOf: string -> int, k: int)
    requires FirstNewestAt(tail, timeOf, k)
    ensures timeOf(h.createdAt) >= timeOf(tail[k].createdAt) ==> FirstNewestAt([h] + tail, timeOf, 0)
    ensures timeOf(h.createdAt) < timeOf(tail[k].createdAt) ==> FirstNewestAt([h] + tail, timeOf, k + 1)
  {
    var s := [h] + tail;
    forall j | 1 <= j < |s|
      ensures s[j] == tail[j - 1]
    {
    }
  }

  class StudyPlanDetailStore {
    var currentPlanDetails: map<int, Detail>
    var historyPlans: map<int, seq<Detail>>
    var showHistoryDialog: bool
    var currentHistoryPlan: Option<Detail>
    var isGenerating: bool
    var isLoading: bool

    constructor()
      ensures currentPlanDetails == map[] && historyPlans == map[]
      ensures !showHistoryDialog && currentHistoryPlan == None && !isGenerating && !isLoading
    {
      currentPlanDetails := map[];
      historyPlans := map[];
      showHistoryDialog := false;
      currentHistoryPlan := None;
      isGenerating := false;
      isLoading := false;
    }

    method FetchLatestPlan(studyPlanId: int, reply: Reply<seq<Entity>>, timeOf: string -> int)
      returns (latest: Option<Detail>)
      modifies this`currentPlanDetails, this`isLoading
      ensures !isLoading
      ensures reply.Reply? && reply.code == 200 && |reply.data| > 0 ==>
        && latest.Some?
        && (exists e :: e in reply.data && latest.value == Parsed(e)
                        && forall f :: f in reply.data ==> timeOf(f.createdAt) <= timeOf(e.createdAt))
        && (exists k :: FirstNewestAt(reply.data, timeOf, k) && latest.value == Parsed(reply.data[k]))
        && currentPlanDetails == old(currentPlanDetails)[studyPlanId := latest.value]
      ensures !(reply.Reply? && reply.code == 200 && |reply.data| > 0) ==>
        latest.None? && currentPlanDetails == old(currentPlanDetails)
    {
      isLoading := true;
      latest := None;
      if reply.Reply? && reply.code == 200 && |reply.data| > 0 {
        var sorted := SortNewestFirst(reply.data, timeOf);
        HeadIsNewest(reply.data, timeOf);
        HeadIsFirstNewest(reply.data, timeOf);
        var parsedPlan := Parsed(sorted[0]);
        currentPlanDetails := currentPlanDetails[studyPlanId := parsedPlan];
        latest := Some(parsedPlan);
      }
      isLoading := false;
    }

    method FetchHistoryPlans(studyPlanId: int, reply: Reply<seq<Entity>>, timeOf: string -> int)
      returns (history: seq<Detail>)
      modifies this`historyPlans, this`isLoading
      ensures !isLoading
      ensures reply.Reply? && reply.code == 200 ==>
        && history == ParseAll(SortNewestFirst(reply.data, timeOf))
        && |history| == |reply.data|
        && historyPlans == old(historyPlans)[studyPlanId := history]
      ensures !(reply.Reply? && reply.code == 200) ==>
        history == [] && historyPlans == old(historyPlans)
    {
      isLoading := true;
      history := [];
      if reply.Reply? && reply.code == 200 {
        var sorted := SortNewestFirst(reply.data, timeOf);
        history := ParseAll(sorted);
        historyPlans := historyPlans[studyPlanId := history];
      }
      isLoading := false;
    }

    method GeneratePlanDetail(params: GenerateParams, reply: Reply<Generated>, now: string)
      returns (created: Option<Detail>)
      modifies this`currentPlanDetails, this`historyPlans, this`isGenerating
      ensures !isGenerating
      ensures reply.Reply? && reply.code == 200 ==>
        && created == Some(Detail(reply.data.detailId, params.studyPlanId, params.duration,
                                  params.level, reply.data.plan, now))
        && currentPlanDetails == old(currentPlanDetails)[params.studyPlanId := created.value]
        && historyPlans == old(historyPlans)[params.studyPlanId :=
             [created.value] + (if params.studyPlanId in old(historyPlans)
                                then old(historyPlans)[params.studyPlanId] else [])]
      ensures !(reply.Reply? && reply.code == 200) ==>
        created == None && currentPlanDetails == old(currentPlanDetails) && historyPlans == old(historyPlans)
    {
      isGenerating := true;
      created := None;
      if reply.Reply? && reply.code == 200 {
        var newDetail := Detail(reply.data.detailId, params.studyPlanId, params.duration,
                                params.level, reply.data.plan, now);
        currentPlanDetails := currentPlanDetails[params.studyPlanId := newDetail];
        var currentHistory := GetHistoryPlans(params.studyPlanId);
        historyPlans := historyPlans[params.studyPlanId := [newDetail] + currentHistory];
        created := Some(newDetail);
      }
      isGenerating := false;
    }

    function GetCurrentPlanDetail(studyPlanId: int): (d: Option<Detail>)
      reads this
      ensures d.Some? <==> studyPlanId in currentPlanDetails
      ensures d.Some? ==> d.value == currentPlanDetails[studyPlanId]
    {
      if studyPlanId in currentPlanDetails then Some(currentPlanDetails[studyPlanId]) else None
    }

    function GetHistoryPlans(studyPlanId: int): (h: seq<Detail>)
      reads this
      ensures studyPlanId !in historyPlans ==> h == []
      ensures studyPlanId in historyPlans ==> h == historyPlans[studyPlanId]
    {
      if studyPlanId in historyPlans then historyPlans[studyPlanId] else []
    }

    /** The history request it starts is not awaited; here it completes before the next event. */
    method OpenHistoryDialog(studyPlanId: int, reply: Reply<seq<Entity>>, timeOf: string -> int)
      modifies this`showHistoryDialog, this`historyPlans, this`isLoading
      ensures showHistoryDialog && !isLoading
      ensures reply.Reply? && reply.code == 200 ==>
        historyPlans == old(historyPlans)[studyPlanId := ParseAll(SortNewestFirst(reply.data, timeOf))]
      ensures !(reply.Reply? && reply.code == 200) ==> historyPlans == old(historyPlans)
    {
      showHistoryDialog := true;
      var _ := FetchHistoryPlans(studyPlanId, reply, timeOf);
    }

    method CloseHistoryDialog()
      modifies this`showHistoryDialog, this`currentHistoryPlan
      ensures !showHistoryDialog && currentHistoryPlan == None
    {
      showHistoryDialog := false;
      currentHistoryPlan := None;
    }

    method ViewHistoryPlan(plan: Detail)
      modifies this`currentHistoryPlan
      ensures currentHistoryPlan == Some(plan)
    {
      currentHistoryPlan := Some(plan);
    }

    method BackToHistoryList()
      modifies this`currentHistoryPlan
      ensures currentHistoryPlan == None
    {
      currentHistoryPlan := None;
    }

    method ClearPlanDetail(studyPlanId: int)
      modifies this`currentPlanDetails, this`historyPlans
      ensures currentPlanDetails == old(currentPlanDetails) - {studyPlanId}
      ensures historyPlans == old(historyPlans) - {studyPlanId}
      ensures GetCurrentPlanDetail(studyPlanId) == None && GetHistoryPlans(studyPlanId) == []
    {
      currentPlanDetails := currentPlanDetails - {studyPlanId};
      historyPlans := historyPlans - {studyPlanId};
    }
  }

  /** The history that `fetchHistoryPlans` stores is newest first and holds every entry exactly once. */
  lemma HistoryIsNewestFirst(data: seq<Entity>, timeOf: string -> int)
    ensures var h := ParseAll(SortNewestFirst(data, timeOf));
      && |h| == |data|
      && (forall i, j :: 0 <= i < j < |h| ==> timeOf(h[i].createdAt) >= timeOf(h[j].createdAt))
      && multiset(SortNewestFirst(data, timeOf)) == multiset(data)
  {
    var r := SortNewestFirst(data, timeOf);
    var h := ParseAll(r);
    forall i, j | 0 <= i < j < |h|
      ensures timeOf(h[i].createdAt) >= timeOf(h[j].createdAt)
    {
      assert h[i].createdAt == r[i].createdAt && h[j].createdAt == r[j].createdAt;
    }
  }
}
