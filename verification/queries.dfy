/** Lookups, filters, counts and record transformations over the four
    collections, as the routers use them (Server/app/routers/). Every
    function here is pure; the handlers in `Workflow` apply them to the
    store. */
module Queries {
  import opened Outcomes
  import opened Records
  import opened Schemas
  import opened Sequences

  // ----- users -----------------------------------------------------------

  /** No two users share an `employee_id`. */
  predicate UniqueEmployeeIds(users: seq<User>) {
    forall i, j :: 0 <= i < j < |users| ==> users[i].employeeId != users[j].employeeId
  }

  predicate HasManager(users: seq<User>) {
    exists u :: u in users && u.role == Manager
  }

  /** The position of the user `find_one(User.employee_id == id)` returns. */
  function UserIndex(users: seq<User>, employeeId: string): (r: Option<nat>)
    ensures r.Some? ==> r.value < |users| && users[r.value].employeeId == employeeId
    ensures r.None? <==> forall k :: 0 <= k < |users| ==> users[k].employeeId != employeeId
  {
    FirstWhere(users, (u: User) => u.employeeId == employeeId)
  }

  /** `find_one(User.employee_id == id)`. */
  function FindUser(users: seq<User>, employeeId: string): (r: Option<User>)
    ensures r.Some? ==> r.value in users && r.value.employeeId == employeeId
    ensures r.None? <==> forall u :: u in users ==> u.employeeId != employeeId
  {
    match UserIndex(users, employeeId)
    case None => None
    case Some(i) => Some(users[i])
  }

  /** `find_one(User.employee_id == id, User.role == role)`. */
  function FindUserWithRole(users: seq<User>, employeeId: string, role: Role): (r: Option<User>)
    ensures r.Some? ==> r.value in users && r.value.employeeId == employeeId && r.value.role == role
    ensures r.None? <==> forall u :: u in users ==> u.employeeId != employeeId || u.role != role
  {
    match FirstWhere(users, (u: User) => u.employeeId == employeeId && u.role == role)
    case None => None
    case Some(i) => Some(users[i])
  }

  /** `find_one(User.role == "manager")`: the first manager in store order,
      whoever asks. */
  function FirstManager(users: seq<User>): (r: Option<User>)
    ensures r.None? <==> !HasManager(users)
    ensures r.Some? ==> r.value.role == Manager
    ensures r.Some? ==> exists i :: 0 <= i < |users| && users[i] == r.value &&
                          forall j :: 0 <= j < i ==> users[j].role != Manager
  {
    match FirstWhere(users, (u: User) => u.role == Manager)
    case None => None
    case Some(i) => Some(users[i])
  }

  /** The display name the history and timeline handlers show for a user
      id: the name of the user with that id, of any role, else "Unknown". */
  function NameOrUnknown(users: seq<User>, employeeId: string): (name: string)
    ensures FindUser(users, employeeId).None? ==> name == "Unknown"
    ensures FindUser(users, employeeId).Some? ==> name == FindUser(users, employeeId).value.name
  {
    match FindUser(users, employeeId)
    case None => "Unknown"
    case Some(u) => u.name
  }

  /** Under unique ids, looking a user up by id and then checking the role
      is the same as looking up by id and role together. */
  lemma FindWithRoleAgrees(users: seq<User>, employeeId: string, role: Role)
    requires UniqueEmployeeIds(users)
    ensures FindUserWithRole(users, employeeId, role).Some? <==>
            FindUser(users, employeeId).Some? && FindUser(users, employeeId).value.role == role
  {
    var f := FindUser(users, employeeId);
    if f.Some? && f.value.role != role {
      forall u | u in users
        ensures u.employeeId != employeeId || u.role != role
      {
        var i :| 0 <= i < |users| && users[i] == u;
        var j :| 0 <= j < |users| && users[j] == f.value;
        if u.employeeId == employeeId {
          assert i == j;
        }
      }
    }
  }

  /** Removing one user keeps the ids unique, and no remaining user has
      the removed user's id. */
  lemma RemoveUserKeepsUnique(users: seq<User>, i: nat)
    requires UniqueEmployeeIds(users) && i < |users|
    ensures UniqueEmployeeIds(users[..i] + users[i + 1..])
    ensures forall u :: u in users[..i] + users[i + 1..] ==> u.employeeId != users[i].employeeId
  {
    var rest := users[..i] + users[i + 1..];
    forall a, b | 0 <= a < b < |rest|
      ensures rest[a].employeeId != rest[b].employeeId
    {
      var a', b' := if a < i then a else a + 1, if b < i then b else b + 1;
      assert rest[a] == users[a'] && rest[b] == users[b'];
    }
    forall u | u in rest
      ensures u.employeeId != users[i].employeeId
    {
      var k :| 0 <= k < |rest| && rest[k] == u;
      var k' := if k < i then k else k + 1;
      assert u == users[k'];
    }
  }

  // ----- records by id (`Document.get(id)`) -------------------------------

  function FeedbackIndex(fbs: seq<Feedback>, id: nat): (r: Option<nat>)
    ensures r.Some? ==> r.value < |fbs| && fbs[r.value].id == id
    ensures r.None? <==> forall k :: 0 <= k < |fbs| ==> fbs[k].id != id
  {
    FirstWhere(fbs, (fb: Feedback) => fb.id == id)
  }

  function RequestIndex(reqs: seq<FeedbackRequest>, id: nat): (r: Option<nat>)
    ensures r.Some? ==> r.value < |reqs| && reqs[r.value].id == id
    ensures r.None? <==> forall k :: 0 <= k < |reqs| ==> reqs[k].id != id
  {
    FirstWhere(reqs, (q: FeedbackRequest) => q.id == id)
  }

  function NotificationIndex(ns: seq<Notification>, id: nat): (r: Option<nat>)
    ensures r.Some? ==> r.value < |ns| && ns[r.value].id == id
    ensures r.None? <==> forall k :: 0 <= k < |ns| ==> ns[k].id != id
  {
    FirstWhere(ns, (n: Notification) => n.id == id)
  }

  // ----- filtered collections (`find(...)`, store order) -------------------

  /** `User.find(User.role == "employee")`. */
  function EmployeesOf(users: seq<User>): (r: seq<User>)
    ensures forall u :: u in r <==> u in users && u.role == Employee
  {
    Filter(users, (u: User) => u.role == Employee)
  }

  /** `Feedback.find(Feedback.employee_id == id)`. */
  function FeedbackOf(fbs: seq<Feedback>, employeeId: string): (r: seq<Feedback>)
    ensures forall fb :: fb in r <==> fb in fbs && fb.employeeId == employeeId
  {
    Filter(fbs, (fb: Feedback) => fb.employeeId == employeeId)
  }

  /** `Feedback.find(Feedback.manager_id == id)`. */
  function FeedbackBy(fbs: seq<Feedback>, managerId: string): (r: seq<Feedback>)
    ensures forall fb :: fb in r <==> fb in fbs && fb.managerId == managerId
  {
    Filter(fbs, (fb: Feedback) => fb.managerId == managerId)
  }

  /** What is left after `Feedback.find(Feedback.manager_id == id).delete()`. */
  function WithoutManager(fbs: seq<Feedback>, managerId: string): (r: seq<Feedback>)
    ensures forall fb :: fb in r <==> fb in fbs && fb.managerId != managerId
  {
    Filter(fbs, (fb: Feedback) => fb.managerId != managerId)
  }

  /** `FeedbackRequest.find(FeedbackRequest.manager_employee_id == id)`. */
  function RequestsTo(reqs: seq<FeedbackRequest>, managerId: string): (r: seq<FeedbackRequest>)
    ensures forall q :: q in r <==> q in reqs && q.managerEmployeeId == managerId
  {
    Filter(reqs, (q: FeedbackRequest) => q.managerEmployeeId == managerId)
  }

  /** `Notification.find(Notification.employee_id == id)`. */
  function NotificationsOf(ns: seq<Notification>, employeeId: string): (r: seq<Notification>)
    ensures forall n :: n in r <==> n in ns && n.employeeId == employeeId
  {
    Filter(ns, (n: Notification) => n.employeeId == employeeId)
  }

  /** The bulk delete removes exactly the manager's feedback: what is left
      and what was removed add up to the collection, and nothing of the
      manager is left. */
  lemma DeleteByManagerCounts(fbs: seq<Feedback>, managerId: string)
    ensures |WithoutManager(fbs, managerId)| + |FeedbackBy(fbs, managerId)| == |fbs|
    ensures FeedbackBy(WithoutManager(fbs, managerId), managerId) == []
  {
    FilterComplementSizes(fbs, (fb: Feedback) => fb.managerId == managerId,
                               (fb: Feedback) => fb.managerId != managerId);
    FilterNoneMatch(WithoutManager(fbs, managerId), (fb: Feedback) => fb.managerId == managerId);
  }

  // ----- counts -------------------------------------------------------------

  /** `find(manager_employee_id == id, seen == False).count()`. */
  function CountUnseen(reqs: seq<FeedbackRequest>, managerId: string): (n: nat)
    ensures n == |set k: nat | k < |reqs| && reqs[k].managerEmployeeId == managerId && !reqs[k].seen|
    ensures n == 0 <==> forall q :: q in reqs && q.managerEmployeeId == managerId ==> q.seen
  {
    var isUnseen := (q: FeedbackRequest) => q.managerEmployeeId == managerId && !q.seen;
    var unseen := Filter(reqs, isUnseen);
    assert unseen != [] ==> unseen[0] in unseen;
    FilterSizeIsMatchCount(reqs, isUnseen);
    assert MatchingPositions(reqs, isUnseen)
        == set k: nat | k < |reqs| && reqs[k].managerEmployeeId == managerId && !reqs[k].seen;
    |unseen|
  }

  /** Marking one unseen request of a manager seen lowers that manager's
      unseen count by exactly one. */
  lemma MarkSeenLowersUnseen(reqs: seq<FeedbackRequest>, i: nat)
    requires i < |reqs| && !reqs[i].seen
    ensures CountUnseen(reqs[i := reqs[i].(seen := true)], reqs[i].managerEmployeeId)
         == CountUnseen(reqs, reqs[i].managerEmployeeId) - 1
  {
    var m := reqs[i].managerEmployeeId;
    FilterReplaceDropsOne(reqs, i, reqs[i].(seen := true),
      (q: FeedbackRequest) => q.managerEmployeeId == m && !q.seen);
  }

  /** Marking a request seen leaves the unseen count of every manager it is
      not an unseen request of as it was. */
  lemma MarkSeenKeepsOtherCounts(reqs: seq<FeedbackRequest>, i: nat, managerId: string)
    requires i < |reqs| && (reqs[i].seen || reqs[i].managerEmployeeId != managerId)
    ensures CountUnseen(reqs[i := reqs[i].(seen := true)], managerId) == CountUnseen(reqs, managerId)
  {
    FilterReplaceKeepsSize(reqs, i, reqs[i].(seen := true),
      (q: FeedbackRequest) => q.managerEmployeeId == managerId && !q.seen);
  }

  /** The number of feedback records with sentiment `s`: one entry of the
      `Counter` over sentiments. */
  function CountSentiment(fbs: seq<Feedback>, s: string): (n: nat)
    ensures n <= |fbs|
  {
    |Filter(fbs, (fb: Feedback) => fb.sentiment == s)|
  }

  /** The count of a sentiment is the number of positions whose record
      carries it. */
  lemma CountSentimentCountsRecords(fbs: seq<Feedback>, s: string)
    ensures CountSentiment(fbs, s) == |set k: nat | k < |fbs| && fbs[k].sentiment == s|
  {
    var hasSentiment := (fb: Feedback) => fb.sentiment == s;
    FilterSizeIsMatchCount(fbs, hasSentiment);
    assert MatchingPositions(fbs, hasSentiment) == set k: nat | k < |fbs| && fbs[k].sentiment == s;
  }

  /** When every sentiment is one of the three names, the three counts add
      up to the number of records. */
  lemma {:induction false} SentimentCountsCoverAll(fbs: seq<Feedback>)
    requires forall fb :: fb in fbs ==> IsSentiment(fb.sentiment)
    ensures CountSentiment(fbs, "positive") + CountSentiment(fbs, "neutral")
          + CountSentiment(fbs, "negative") == |fbs|
  {
    if fbs != [] {
      assert fbs[0] in fbs;
      assert forall fb :: fb in fbs[1..] ==> fb in fbs;
      SentimentCountsCoverAll(fbs[1..]);
    }
  }

  // ----- dashboards ---------------------------------------------------------

  /** One row of the manager dashboard. */
  datatype DashboardRow = DashboardRow(
    employeeId: string,
    employeeName: string,
    feedbackCount: nat,
    positive: nat,
    neutral: nat,
    negative: nat)

  /** The row of one employee: their id and name, the number of stored
      records about them, and how many of those carry each sentiment. */
  function StatsRow(emp: User, fbs: seq<Feedback>): (row: DashboardRow)
    ensures row.employeeId == emp.employeeId && row.employeeName == emp.name
    ensures row.positive <= row.feedbackCount && row.neutral <= row.feedbackCount
         && row.negative <= row.feedbackCount
  {
    var mine := FeedbackOf(fbs, emp.employeeId);
    DashboardRow(emp.employeeId, emp.name, |mine|,
      CountSentiment(mine, "positive"), CountSentiment(mine, "neutral"), CountSentiment(mine, "negative"))
  }

  /** A row's feedback count is the number of stored records about the
      employee. */
  lemma StatsRowCountsRecords(emp: User, fbs: seq<Feedback>)
    ensures StatsRow(emp, fbs).feedbackCount
         == |set k: nat | k < |fbs| && fbs[k].employeeId == emp.employeeId|
  {
    var isTheirs := (fb: Feedback) => fb.employeeId == emp.employeeId;
    FilterSizeIsMatchCount(fbs, isTheirs);
    assert MatchingPositions(fbs, isTheirs) == set k: nat | k < |fbs| && fbs[k].employeeId == emp.employeeId;
  }

  /** A row's three sentiment counts add up to its feedback count whenever
      the stored sentiments are well formed. */
  lemma StatsRowBalanced(emp: User, fbs: seq<Feedback>)
    requires forall fb :: fb in fbs ==> IsSentiment(fb.sentiment)
    ensures var row := StatsRow(emp, fbs);
            row.positive + row.neutral + row.negative == row.feedbackCount
  {
    SentimentCountsCoverAll(FeedbackOf(fbs, emp.employeeId));
  }

  /** One entry of the employee timeline. */
  datatype TimelineEntry = TimelineEntry(
    feedbackId: nat,
    managerId: string,
    managerName: string,
    strengths: string,
    improvement: string,
    sentiment: string,
    acknowledged: bool,
    createdAt: Timestamp)

  function TimelineEntryOf(fb: Feedback, users: seq<User>): (e: TimelineEntry)
    ensures e.feedbackId == fb.id && e.managerId == fb.managerId && e.createdAt == fb.createdAt
    ensures e.managerName == NameOrUnknown(users, fb.managerId)
  {
    TimelineEntry(fb.id, fb.managerId, NameOrUnknown(users, fb.managerId), fb.strengths,
                  fb.improvement, fb.sentiment, fb.acknowledged, fb.createdAt)
  }

  // ----- history ------------------------------------------------------------

  /** The rendered comment list of the history handlers: one dictionary per
      stored comment, in the same order, with the same author and the text
      passed through the markup renderer. A comment without either key
      would make the handler fail, so both are required. */
  function RenderComments(comments: seq<Comment>, render: string -> string): (r: seq<Comment>)
    requires forall c :: c in comments ==> "employee_id" in c && "text" in c
    ensures |r| == |comments|
    ensures forall k :: 0 <= k < |r| ==>
              IsComment(r[k]) && r[k]["employee_id"] == comments[k]["employee_id"] &&
              r[k]["text"] == render(comments[k]["text"])
  {
    seq(|comments|, k requires 0 <= k < |comments| =>
      assert comments[k] in comments;
      CommentOf(comments[k]["employee_id"], render(comments[k]["text"])))
  }

  /** One entry of a history answer. */
  function HistoryEntry(fb: Feedback, managerName: string, render: string -> string): (out: FeedbackOut)
    requires WellFormed(fb)
    ensures out.id == fb.id && out.managerId == fb.managerId && out.employeeId == fb.employeeId
    ensures out.managerName == managerName
  {
    FromFeedback(fb, managerName, Some(RenderComments(fb.comments, render)))
  }

  // ----- feedback requests --------------------------------------------------

  /** The dictionary `get_feedback_requests` returns per request: the
      manager id is not part of it. */
  datatype RequestView = RequestView(
    id: nat,
    employeeId: string,
    message: string,
    seen: bool,
    createdAt: Timestamp)

  function ViewOf(q: FeedbackRequest): RequestView {
    RequestView(q.id, q.employeeId, q.message, q.seen, q.createdAt)
  }

  /** The response list of `get_feedback_requests`: one view per request,
      in the same order and with the same timestamp, so every request shows
      up. */
  function ViewsOf(qs: seq<FeedbackRequest>): (vs: seq<RequestView>)
    ensures |vs| == |qs|
    ensures forall k :: 0 <= k < |vs| ==> vs[k] == ViewOf(qs[k])
    ensures forall k :: 0 <= k < |vs| ==> vs[k].createdAt == RequestTime(qs[k])
    ensures forall q :: q in qs ==> ViewOf(q) in vs
  {
    var vs := seq(|qs|, k requires 0 <= k < |qs| => ViewOf(qs[k]));
    assert forall q :: q in qs ==> ViewOf(q) in vs by {
      forall q | q in qs ensures ViewOf(q) in vs {
        var k :| 0 <= k < |qs| && qs[k] == q;
        assert vs[k] == ViewOf(q);
      }
    }
    vs
  }

  /** The answer of `get_feedback_requests` for a manager: one view per
      request addressed to them, newest first. */
  function RequestsNewestFirst(reqs: seq<FeedbackRequest>, managerId: string): (vs: seq<RequestView>)
    ensures |vs| == |RequestsTo(reqs, managerId)|
    ensures forall i, j :: 0 <= i < j < |vs| ==> vs[i].createdAt >= vs[j].createdAt
  {
    var sorted := SortNewestFirst(RequestsTo(reqs, managerId), RequestTime);
    SortedSameElements(RequestsTo(reqs, managerId), RequestTime);
    NewestFirstPairwise(sorted, RequestTime);
    ViewsOf(sorted)
  }

  /** The answer holds the view of every request addressed to the manager,
      and nothing else. */
  lemma RequestsNewestFirstMembers(reqs: seq<FeedbackRequest>, managerId: string)
    ensures forall q :: q in reqs && q.managerEmployeeId == managerId ==>
              ViewOf(q) in RequestsNewestFirst(reqs, managerId)
    ensures forall v :: v in RequestsNewestFirst(reqs, managerId) ==>
              exists q :: q in reqs && q.managerEmployeeId == managerId && v == ViewOf(q)
  {
    var mine := RequestsTo(reqs, managerId);
    var sorted := SortNewestFirst(mine, RequestTime);
    SortedSameElements(mine, RequestTime);
    var vs := ViewsOf(sorted);
    assert vs == RequestsNewestFirst(reqs, managerId);
    forall v | v in vs
      ensures exists q :: q in reqs && q.managerEmployeeId == managerId && v == ViewOf(q)
    {
      var k :| 0 <= k < |vs| && vs[k] == v;
      assert sorted[k] in sorted;
      assert sorted[k] in mine;
    }
  }

  // ----- record transformations ---------------------------------------------

  /** The `update_many({"$set": {"seen": True}})` of `mark_all_seen`. */
  function MarkAllSeenFor(ns: seq<Notification>, employeeId: string): (r: seq<Notification>)
    ensures |r| == |ns|
    ensures forall k :: 0 <= k < |r| ==> r[k] == ns[k].(seen := r[k].seen)
    ensures forall k :: 0 <= k < |r| ==> (r[k].seen <==> ns[k].seen || ns[k].employeeId == employeeId)
  {
    seq(|ns|, k requires 0 <= k < |ns| =>
      if ns[k].employeeId == employeeId then ns[k].(seen := true) else ns[k])
  }

  /** Marking all seen a second time changes nothing. */
  lemma MarkAllSeenIdempotent(ns: seq<Notification>, employeeId: string)
    ensures MarkAllSeenFor(MarkAllSeenFor(ns, employeeId), employeeId) == MarkAllSeenFor(ns, employeeId)
  {
  }

  /** The field overwrites of `update_feedback`: strengths, improvement,
      sentiment and tags take the body's values, as the source assigns
      them (without checking the sentiment); every other field is kept. */
  function OverwriteContent(fb: Feedback, upd: FeedbackCreate): (r: Feedback)
    ensures r.strengths == upd.strengths && r.improvement == upd.improvement
    ensures r.sentiment == upd.sentiment && r.tags == TagsOrEmpty(upd.tags)
    ensures r.(strengths := fb.strengths, improvement := fb.improvement,
               sentiment := fb.sentiment, tags := fb.tags) == fb
  {
    fb.(strengths := upd.strengths, improvement := upd.improvement,
        sentiment := upd.sentiment, tags := TagsOrEmpty(upd.tags))
  }

  /** `fb.comments.append({...})`: one entry more, at the end. */
  function WithComment(fb: Feedback, c: CommentIn): (r: Feedback)
    ensures r.comments == fb.comments + [CommentOf(c.employeeId, c.text)]
    ensures r.(comments := fb.comments) == fb
  {
    fb.(comments := fb.comments + [CommentOf(c.employeeId, c.text)])
  }
}
